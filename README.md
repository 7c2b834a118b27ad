# demo-ats: a verified model of the professionals core

demo-ats is a small applicant-tracking demo: a Django REST backend that
stores `Professional` records, and a React frontend with an "Add
Professional" form and a filterable table. This project models the parts
of both that carry logic, and proves properties about them:

- **The table and its invariants** (`models.dfy`, module `Models`). One
  record per row. `source` has three choices. The columns have length
  limits. Email and phone are nullable and unique (`ValidTable`).
- **The backend views** (`views.dfy`, module `Views`):
  - the list endpoint's `source` filter (`ListQuery`);
  - the bulk upsert endpoint. It is written both as a specification over
    values (`Step` is one loop iteration and `Run` the whole loop) and as
    an imperative `Post` method over a mutable `Database` object. The
    method is proved to compute exactly what `Run` specifies. Properties
    of the loop are proved as lemmas about `Run`: accounting, order,
    status codes and the table invariant;
  - the field validation the create endpoint performs, as implied by the
    model's field declarations (`Create`).
- **The frontend API helpers** (`api.dfy`, module `Api`):
  - the list and create URLs (`ListUrl`, `CreateUrl`) and requests;
  - two readers of URL query parameters: `QueryParam` takes the first pair
    of a name, as `URLSearchParams.get` does, and `ServerParam` the last, as
    Django's `QueryDict.get` does. They show that the `source` value comes
    back out of the URL, and where the two disagree.
- **The form** (`form.dfy`, module `Form`). A class whose one field is the
  six-field draft, with `HandleChange`, `HandleSubmit` and the browser's
  `required` gate (`Submit`). Its invariant is that the draft's source is
  one of the select's options.
- **The table view** (`table.dfy`, module `ListView`). A class holding the
  filter and the fetched list. It has the fetch effect and the filter's
  `onChange`. Its invariant is that the filter holds one of the menu's
  values. The row and header projection is a pure function.
- **The wiring between frontend and backend** (`endtoend.dfy`, module
  `Integration`). The URL the table requests for each filter option makes
  the list endpoint return exactly the rows of that filter.
- `types.dfy` holds the frontend's `Professional` type. `wrappers.dfy`
  holds `Option`.

Network calls are parameters:
- `Outcome` is whether the create POST resolved.
- `Server` is the list the GET of a URL resolves with.
- Database errors are a `Refused` outcome of the upsert.

Three consequences of the code that are easy to miss:
- The "partial failure" bulk test (backend/professionals/tests.py:163-178)
  sends a second item whose email is `"invalid"`. That string is truthy,
  so `post` upserts the item by email rather than putting it into
  `errors`: the bulk path does no format validation.
  `Views.BulkNoFormatValidation` proves this for the test's batch.
- On an update the lookup key only selects the row. Every key of the item
  then overwrites its column, so an item found by email also replaces the
  stored phone (backend/professionals/views.py:34-36).
- A blank email is falsy, so an item with `"email": ""` and a phone is
  looked up by phone, but `defaults=data` still writes the blank string
  into the email column (backend/professionals/views.py:33-36). Blank is
  not `NULL`, so the unique email index (backend/professionals/models.py:19)
  refuses a second such item under another phone: the request ends in a
  500 and the first row stays. `Views.BlankEmailsCollide` proves this for
  two such items.

## Model

| member | source | states |
|---|---|---|
| Models.ParseSource | backend/professionals/models.py:9-13 | a stored `source` string reads back as a choice exactly when it is one of the three declared values, and the choice's value is that string |
| Models.SourceRoundTrip | backend/professionals/models.py:9-23 | every choice is declared, fits the 10-character column and parses back to itself |
| Models.SourceChoicesExactlyThree | backend/professionals/models.py:9-13 | `SOURCE_CHOICES` has exactly three distinct values, one per choice and no other |
| Models.FitsColumns | backend/professionals/models.py:18-23 | a row respects the `max_length` of each of its six text columns, a null email or phone trivially |
| Models.Clash | backend/professionals/models.py:19-20 | two rows collide on a unique index when they share a non-null email or a non-null phone |
| Models.ValidTable | backend/professionals/models.py:15-23 | the table invariant: distinct ids below the next fresh one, no two clashing rows, every row within its column lengths |
| Models.ValidTableUnique | backend/professionals/models.py:19-20 | in a valid table no two different rows share a non-null email, and none share a non-null phone |
| Views.WithSource | backend/professionals/views.py:15 | filtering keeps exactly the rows with that source, each as often as it occurs, and never grows the list |
| Views.WithSourceAppend | backend/professionals/views.py:15 | filtering keeps the order of the modelled sequence: it distributes over concatenation |
| Views.ListQuery | backend/professionals/views.py:12-16 | a truthy `source` lists exactly the rows with that source; an absent or empty one lists every row unchanged |
| Views.Truthy | backend/professionals/views.py:13-33 | Python truthiness of what `query_params.get` and `data.get` return: a value is truthy exactly when it is present and not the empty string; it decides the `if source:` filter and the `not email and not phone` guard |
| Views.LookupOf | backend/professionals/views.py:27-33 | no key exactly when email and phone are both falsy; the email is the key exactly when it is truthy, else the truthy phone, and the key is never empty |
| Views.EmptyStringNeverKey | backend/professionals/views.py:29-33 | a truthy email is always the key; an empty email defers to a truthy phone; two empty strings give no key |
| Views.FindBy | backend/professionals/views.py:34-36 | the lookup finds a matching row, or reports that no row matches |
| Views.Matches | backend/professionals/views.py:33-35 | the filter `**lookup` of `update_or_create`: a row matches an email key exactly when its email is that string, a phone key exactly when its phone is that string |
| Views.FindByOnlyMatch | backend/professionals/views.py:34-36 | in a valid table any matching row is the one found, so the lookup never sees two rows |
| Views.Apply | backend/professionals/views.py:34-36 | writing the item succeeds exactly when it puts no null into a NOT NULL column; then every column the item names takes its value, every other column and the id are kept |
| Views.DefaultRow | backend/professionals/models.py:18-23 | a new row before the item is applied has the given id, fits its columns, and holds `NULL` in each nullable column (email, phone) and the blank string in every other column |
| Views.Admissible | backend/professionals/models.py:18-23 | the database accepts a row at a position when it fits its columns and clashes on a unique index with no other row |
| Views.AdmissibleInsertExactly | backend/professionals/models.py:18-23 | on a valid table, a fresh row under the next id is admissible at the end if and only if appending it keeps the table valid |
| Views.Get | backend/professionals/views.py:27-28 | `data.get(column)`: the string sent for that key, nothing for an absent key or a `null` |
| Views.Upsert | backend/professionals/views.py:34-36 | a write creates a row exactly when no row matches the lookup; a creation grows the table by one and takes the next id, an update keeps the length and the counter |
| Views.UpsertInserts | backend/professionals/views.py:34-36 | without a match, an item that writes and violates no constraint is appended under the next id |
| Views.UpsertUpdatesMatch | backend/professionals/views.py:34-40 | with a match: nothing is created, the matched row is overwritten by the item under its old id, and no other row changes |
| Views.UpsertCreatesOne | backend/professionals/views.py:34-40 | without a match: exactly one row is appended, with a fresh id, the item's values and blank defaults, and it satisfies the lookup |
| Views.UpsertKeepsValid | backend/professionals/models.py:15-23 | a successful write keeps ids distinct, emails and phones unique, and every column within its length |
| Views.Step | backend/professionals/views.py:26-48 | an item without key appends a 400 error and changes nothing else; a keyed item appends one result carrying the item, with 201 exactly when a row was added and 200 otherwise |
| Views.StepUpserts | backend/professionals/views.py:33-48 | a keyed item's iteration is its upsert: a refused write fails the request; a written one replaces the table and counter, appends one result (201 if created, else 200) and bumps the matching counter |
| Views.Run | backend/professionals/views.py:26-48 | the loop as a left fold of `Step` over the items, from an empty progress; its properties are the lemmas below |
| Views.RunSnoc | backend/professionals/views.py:26 | running one more item is one more iteration |
| Views.RunFailedLast | backend/professionals/views.py:34-36 | after a database error the next item changes nothing |
| Views.RunGrows | backend/professionals/views.py:34-40 | the table grows exactly by the number of created rows, each of which took the next fresh id |
| Views.RunStopsAtFailure | backend/professionals/views.py:34-36 | once a database error has ended the request, the later items change nothing |
| Views.StepBalanced | backend/professionals/views.py:37-48 | one iteration keeps `num_created + num_updated == len(results)`, counts 201s as creations, and adds at most one entry (exactly one unless the request fails) |
| Views.RunAccounting | backend/professionals/views.py:26-48 | each processed item yields exactly one entry, so `len(results) + len(errors) == len(items)` without a database error; the counters match the results' statuses |
| Views.RunPartition | backend/professionals/views.py:26-48 | without a database error, `results` holds exactly the keyed items and `errors` exactly the unkeyed ones, each in input order |
| Views.RunKeepsValid | backend/professionals/views.py:26-48 | the whole batch keeps the table invariant |
| Views.StatusOf | backend/professionals/views.py:50-52 | 207 exactly for a multi-status response, 500 exactly for a database error |
| Views.Respond | backend/professionals/views.py:50-52 | a database error makes the whole request a 500 (the exception is not caught); otherwise the response carries `results` and `errors` as collected |
| Views.MultiStatusDespiteErrors | backend/professionals/views.py:50-52 | the response is 207 whatever went into `errors`, which it returns as collected |
| Views.Database.constructor | backend/professionals/models.py:8-24 | an empty table is valid |
| Views.Database.UpdateOrCreate | backend/professionals/views.py:34-36 | `update_or_create` changes the table exactly as `Upsert` says; a refused write leaves it unchanged; the invariant is kept |
| Views.Post | backend/professionals/views.py:20-52 | the loop leaves the table and returns the response exactly as `Run` specifies, keeping the table invariant |
| Views.RequiredTextErrors | backend/professionals/models.py:18 | a required text column reports `required` exactly when missing, `null` exactly for a null, `blank` exactly for the empty string and `max_length` exactly for a non-empty value over the limit; never a choice or uniqueness error, and only for its own column |
| Views.OptionalTextErrors | backend/professionals/models.py:21-22 | a blank-allowed text column reports `null` exactly for a null and `max_length` exactly for a value over the limit, nothing else, and only for its own column |
| Views.UniqueErrors | backend/professionals/models.py:19-20 | a unique nullable column reports `max_length` exactly for a non-empty value over the limit and `unique` exactly for a non-empty value some stored row already holds; null and blank are never checked; only its own column |
| Views.SourceErrors | backend/professionals/models.py:23 | `source` reports `required` exactly when missing, `null` exactly for a null, `invalid_choice` exactly for a string outside the choices, and nothing exactly when the value is a declared choice |
| Views.CreateErrors | backend/professionals/models.py:18-23 | `invalid_choice` on `source` exactly when a submitted source is not a declared choice; `full_name` is required and may not be blank |
| Views.CreateErrorsByColumn | backend/professionals/models.py:18-23 | each column's errors in the create endpoint's answer are exactly those of its field's kind: full name a required text, email and phone unique nullable texts, company and job title optional texts, source a choice |
| Views.Create | backend/professionals/views.py:9-10 | the request is rejected exactly when there is a field error, with all of them; a created row is appended under the next id, the counter advances, the row fits its columns, and each column holds the value sent for it or else its default; a request without field errors whose row the database admits is created |
| Views.CreateKeepsValid | backend/professionals/models.py:15-23 | a created row is appended under a fresh id, keeps the table valid, has a declared source and a non-blank name |
| Views.CreateRejectsUnknownSource | backend/professionals/tests.py:84-109 | an undeclared source is rejected with `invalid_choice` and status 400, and nothing is written |
| Views.StatusOfCreate | backend/professionals/views.py:9-10 | the create endpoint's status: 201 for a created row, 400 for field errors, 500 for a database error on the insert |
| Views.BulkCreatesTwo | backend/professionals/tests.py:127-145 | two items with distinct emails on an empty table create two rows and answer 201 twice |
| Views.ApplyBulkItem | backend/professionals/views.py:34-36 | writing an item with name, email, phone and source sets exactly those four columns and keeps the rest |
| Views.BulkCreatesBob | backend/professionals/tests.py:127-145 | the first item of that batch creates Bob's row under id 0 and answers 201 |
| Views.BulkAddsCharlie | backend/professionals/tests.py:127-145 | the second item then creates Charlie's row under id 1 and answers 201 |
| Views.BulkUpdatesByEmail | backend/professionals/tests.py:147-161 | a batch with an existing email updates that row in place and answers 200 |
| Views.BulkCreateThenUpdate | backend/professionals/tests.py:127-161 | the two batches in sequence keep two rows; Bob's row keeps its id and takes the new name and source |
| Views.BulkNoFormatValidation | backend/professionals/tests.py:163-178 | both items of the "partial failure" batch are upserted with 201 and none goes to `errors`; the response is 207 |
| Views.BulkCreatesGood | backend/professionals/tests.py:163-178 | the first item of that batch, keyed by phone, creates a row without email |
| Views.BulkAddsBad | backend/professionals/tests.py:163-178 | the second item, keyed by its malformed email, is created too, with the empty phone it sent |
| Views.BlankEmailsCollide | backend/professionals/views.py:33-36 | two items keyed by different phones that both send `"email": ""` store the blank email twice: the second write breaks the unique email index, the request ends in a 500, and the first row stays |
| Views.BulkCreatesAnn | backend/professionals/views.py:33-36 | the first such item creates its row, with the blank email it sent, and answers 201 |
| Views.BulkRefusesBen | backend/professionals/views.py:33-36 | the second such item clashes with that row, so the write is refused and the table is left as it was |
| Api.CreateUrl | frontend/src/api/professionals.ts:13 | the create URL is the API base followed by `/professionals/`: it starts with the base, the rest is exactly that path, and nothing else is in it |
| Api.ListUrl | frontend/src/api/professionals.ts:6-10 | the create URL is always a prefix; an absent or empty source gives exactly that URL; a non-empty source `s` gives it plus `?source=` plus `s`, unencoded |
| Api.Present | frontend/src/api/professionals.ts:7 | JavaScript truthiness of the optional `source`: present exactly when defined and not `''`; it decides whether `ListUrl` appends the query |
| Api.CreateRequest | frontend/src/api/professionals.ts:12-15 | `createProfessional` posts its argument unchanged to the create URL |
| Api.QueryOfScopedUrl | frontend/src/api/professionals.ts:7 | the query part of a scoped list URL is `source=` followed by the value |
| Api.SourceParamRoundTrip | frontend/src/api/professionals.ts:7 | for a value needing no encoding, the list URL's `source` parameter reads back as that value, with either reader |
| Api.UnscopedHasNoSourceParam | frontend/src/api/professionals.ts:7 | an unscoped list URL has no `source` parameter, for either reader |
| Api.PairValue | frontend/src/test/mocks/handlers.ts:8 | `URLSearchParams.get`: the value of the first pair with that name when there is one (`Api.PairValueIsFirst`), nothing exactly when no pair has the name |
| Api.PairValueIsFirst | frontend/src/test/mocks/handlers.ts:8 | the value `URLSearchParams.get` gives is that of a pair with the name before which no pair has that name |
| Api.LastPairValue | backend/professionals/views.py:13 | `QueryDict.get`: likewise, taking the last pair with that name (`Api.LastPairValueIsLast`) |
| Api.LastPairValueIsLast | backend/professionals/views.py:13 | the value `QueryDict.get` gives is that of a pair with the name after which no pair has that name |
| Api.QueryParam | frontend/src/test/mocks/handlers.ts:8 | the first-pair reader of a URL's query; a URL without `?` has no parameter |
| Api.ServerParam | backend/professionals/views.py:13 | the last-pair reader of a URL's query, as the list endpoint reads `source`; a URL without `?` has no parameter |
| Api.UnencodedAmpersandTruncates | frontend/src/api/professionals.ts:7 | because the value is inserted unencoded, an `&` in it starts a new pair, and `URLSearchParams.get` reads back only the text before it |
| Api.RepeatedSourceParam | frontend/src/api/professionals.ts:7 | a value that itself carries `&source=` yields two `source` pairs: `URLSearchParams.get` reads the first, the list endpoint the second |
| Form.WireNamesDistinct | frontend/src/components/ProfessionalForm.tsx:56-83 | the six inputs have pairwise different names |
| Form.Draft.With | frontend/src/components/ProfessionalForm.tsx:27-29 | an edit sets exactly the named field to the new value and leaves the other five as they were |
| Form.DraftByFields | frontend/src/components/ProfessionalForm.tsx:18-25 | a draft is determined by its six fields |
| Form.WithLaws | frontend/src/components/ProfessionalForm.tsx:27-29 | retyping a field's own value changes nothing; the later of two edits to one field wins |
| Form.WithCommutes | frontend/src/components/ProfessionalForm.tsx:27-29 | edits to two different fields may happen in either order |
| Form.InitialDraftShape | frontend/src/components/ProfessionalForm.tsx:15-25 | the initial draft has five empty fields and the first source option, `direct` |
| Form.PayloadOf | frontend/src/components/ProfessionalForm.tsx:34 | the sent object holds every field under its input name and has no other key |
| Form.PayloadKeys | frontend/src/components/ProfessionalForm.tsx:34 | the sent object has exactly the six keys `full_name`, `email`, `company_name`, `job_title`, `phone`, `source` |
| Form.PayloadVerbatim | frontend/src/components/ProfessionalForm.tsx:34 | different drafts are sent as different objects: nothing of the draft is lost |
| Form.RequiredFilled | frontend/src/components/ProfessionalForm.tsx:56-63 | the browser lets a submit through only when full name and email are both non-empty |
| Form.Message | frontend/src/components/ProfessionalForm.tsx:35-46 | the text of the success alert and of the failure alert |
| Form.AlertsDiffer | frontend/src/components/ProfessionalForm.tsx:35-46 | the success and failure alerts have different texts, already in their first character |
| Form.ProfessionalForm.Valid | frontend/src/components/ProfessionalForm.tsx:77-83 | the draft's source is one of the select's three options |
| Form.ProfessionalForm.constructor | frontend/src/components/ProfessionalForm.tsx:18-25 | the form starts with the initial draft, whose source is an option |
| Form.ProfessionalForm.HandleChange | frontend/src/components/ProfessionalForm.tsx:27-29 | the draft becomes the old draft with the one field replaced; a text input may deliver any string, the select only an option, so the invariant is kept |
| Form.ProfessionalForm.HandleSubmit | frontend/src/components/ProfessionalForm.tsx:31-48 | the current draft is posted verbatim; on success the success alert is shown and the draft resets to the initial one; on failure the failure alert is shown and the draft is unchanged; the invariant is kept |
| Form.ProfessionalForm.Submit | frontend/src/components/ProfessionalForm.tsx:55-63 | with an empty full name or email nothing is sent and nothing changes; otherwise the submit is handled as above |
| Form.FillAndSubmit | frontend/src/components/__tests__/ProfessionalForm.test.tsx:124-209 | typing every field and submitting posts exactly the typed values under the six keys; on success the form is blank again, on failure it keeps them |
| Form.SubmitUntouched | frontend/src/components/__tests__/ProfessionalForm.test.tsx:113-122 | pressing submit on an untouched form sends nothing |
| ListView.Cell | frontend/src/components/ProfessionalsTable.tsx:69-74 | the cell of each column shows that field; a missing optional field, email included, shows as empty |
| ListView.Row | frontend/src/components/ProfessionalsTable.tsx:68-75 | a row has one cell per column, in header order |
| ListView.HeadersNameColumns | frontend/src/components/ProfessionalsTable.tsx:58-74 | each header names the column of the cells below it: full name, email, company, job title, phone, source; each column appears once |
| ListView.Rows | frontend/src/components/ProfessionalsTable.tsx:67-76 | the rendered rows correspond one-to-one with the list, in list order |
| ListView.RowsAppend | frontend/src/components/ProfessionalsTable.tsx:67-76 | rendering distributes over concatenation of lists |
| ListView.ProfessionalsTable.Valid | frontend/src/components/ProfessionalsTable.tsx:40-51 | the filter holds one of the menu's four values |
| ListView.ProfessionalsTable.constructor | frontend/src/components/ProfessionalsTable.tsx:26-27 | the table starts with an empty list and the filter `''`, a menu value |
| ListView.ProfessionalsTable.Rendered | frontend/src/components/ProfessionalsTable.tsx:67-76 | the screen shows one row per held professional, in order |
| ListView.ProfessionalsTable.Effect | frontend/src/components/ProfessionalsTable.tsx:29-31 | one fetch scoped to the current filter is issued; its answer replaces the list entirely; a rejected fetch leaves the list as it was |
| ListView.ProfessionalsTable.SelectSource | frontend/src/components/ProfessionalsTable.tsx:40-42 | a new filter value is stored and triggers one fetch scoped to it, whose answer replaces the list; the value already selected triggers nothing; the menu only offers its four values, so the invariant is kept |
| ListView.FilterThenClear | frontend/src/components/__tests__/ProfessionalsTable.test.tsx:73-95 | after filtering and then choosing "All Sources", three fetches were made (unscoped, scoped, unscoped) and the unscoped answer is shown |
| Integration.OptionsMatchChoices | frontend/src/components/ProfessionalsTable.tsx:47-50 | the form's sources are exactly the model's choices; the table's filter options are those plus `''` |
| Integration.FilterReachesBackend | frontend/src/components/ProfessionalsTable.tsx:29-31 | for every filter option, the list endpoint, reading `source` as `QueryDict.get` does, answers the table's request with all rows for `''` and exactly the rows of that source otherwise |
| Integration.TableRequestReachesBackend | frontend/src/components/ProfessionalsTable.tsx:29-31 | whatever a mounted table's filter holds, its request is answered with exactly the rows of that filter |
| Integration.SubmittedSourceIsFilterable | frontend/src/components/ProfessionalForm.tsx:77-83 | whatever a mounted form's draft holds, the source it sends is a non-empty filter option and a declared choice, which the create endpoint's source check accepts |

## Left out

- HTTP, axios and `async`. Each request is atomic. Its settlement is a
  parameter: `Outcome` for the create POST, a `Server` function for the
  list GET.
- The stale-overwrite race between overlapping filter fetches is not
  modelled; each fetch settles before the next event.
- Fetches are not cancelled on unmount. This is not modelled either.
- `ListView.ProfessionalsTable.Effect`: a rejected list fetch is not
  caught in the source. It is modelled as leaving the list unchanged; the
  unhandled rejection itself is not modelled.
- The Django ORM is an abstract sequence of rows.
- The list endpoint's order. The model declares no `Meta.ordering`
  (models.py:26-31), so the ORM's order is unspecified; the model lists
  rows in the order of its sequence, and the order `WithSourceAppend`
  speaks of is that sequence's.
- Whether an over-long value is refused by the database depends on the
  database backend, whose settings are not part of this model (SQLite, for
  one, does not enforce `max_length`). The model assumes a backend that
  enforces column lengths.
- A database error inside `update_or_create` (unique index, NOT NULL,
  column length) ends the request with 500. The writes already made are
  kept, as under Django's default autocommit. Transactions and the
  project's settings are not part of this model.
- The ORM's order of checks inside `update_or_create` (get, then create and
  retry on an integrity error) is not modelled.
- The create endpoint's serializer (`serializers.py`) is not part of this
  model. `Views.Create` assumes a default `ModelSerializer` over the model's
  fields. It leaves out email format validation, the phone field's
  validation (which rejects an unparsable number with `invalid`,
  backend/professionals/tests.py:61-77), and whitespace trimming.
- Views.Matches, Views.FindBy, Views.Upsert, Models.Clash: phone numbers
  are the raw strings sent. In the source the model field `PhoneNumberField`
  (backend/professionals/models.py:20) parses and normalises a number on
  every write and every lookup, under a configured default region, so
  "604 401 1234" and "+1 604-401-1234" are one number. The model takes two
  spellings of one number as two keys and two values. Where the source's
  `update_or_create(phone=...)` finds the row and updates it, or its unique
  phone index refuses the write, the model creates a second row or accepts
  the write. Phone parsing (the `phonenumber_field` library) is not part of
  this model.
- The UUID primary key is a natural-number counter (`nextId`). `created_at`
  and the table's index are left out.
- JSON values other than strings and `null`, and keys outside the six
  editable columns (such as `id`), are not modelled in bulk items.
- URL percent-encoding and decoding are not modelled. `QueryParam` and
  `ServerParam` read the raw text between `=` and `&`.
- Api.UnencodedAmpersandTruncates: describes the first-pair reader,
  `URLSearchParams.get`, as the tests' mock server uses it
  (frontend/src/test/mocks/handlers.ts:8). The list endpoint reads with
  Django's `QueryDict.get`, which takes the last `source` pair; the two
  disagree when the value itself carries `&source=`
  (`RepeatedSourceParam`).
- `Types.Professional.email` is optional in the model. types.ts:4 declares
  it a string, but the email column is nullable (models.py:19), so a row
  without one arrives as `null`; the table shows it as an empty cell, as
  it does the other optional fields.
- UI rendering and styling (MUI, styled-components, `Layout.tsx`,
  `App.tsx`, `main.tsx`, `StyledCard.tsx`, the theme and global styles,
  the Vite configuration) are left out.
- React's `key={p.id}` on rows is not modelled.
- `alert` becomes a returned `Notice`. `console.error` is left out.
- Routing (`urls.py`) is left out.
- The test mock server's fixtures and filtering (`handlers.ts`) are left
  out; only its query reader is modelled (`QueryParam`).
