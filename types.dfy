/** The frontend's `Professional` type: the shape of a record as the list
    endpoint returns it. Server-assigned `id` and `created_at` and the
    optional fields may be absent. The type's `email: string` and `source`
    union are compile-time claims only; a response is taken as it comes, so
    `email` may be missing (the backend sends `null` for a row without one)
    and `source` is any string. */
module Types {
  import opened Wrappers

  datatype Professional = Professional(
    id: Option<string>,
    fullName: string,
    email: Option<string>,
    phone: Option<string>,
    companyName: Option<string>,
    jobTitle: Option<string>,
    source: string,
    createdAt: Option<string>)
}
