/** The `Professional` Django model: its fields, the `source` choices, and
    the constraints the database enforces on the table (unique nullable
    email and phone, column lengths). */
module Models {
  import opened Wrappers

  /** The three declared `SOURCE_CHOICES`. */
  datatype Source = Direct | Partner | Internal

  /** The stored value of a choice (the first element of each pair). */
  function SourceValue(s: Source): string
  {
    match s
    case Direct => "direct"
    case Partner => "partner"
    case Internal => "internal"
  }

  const SourceChoices: seq<string> := ["direct", "partner", "internal"]

  /** Reads a stored or submitted `source` value back as a choice;
      `None` is Django's `invalid_choice`. */
  function ParseSource(value: string): (r: Option<Source>)
    ensures r.Some? <==> value in SourceChoices
    ensures r.Some? ==> SourceValue(r.value) == value
  {
    if value == "direct" then Some(Direct)
    else if value == "partner" then Some(Partner)
    else if value == "internal" then Some(Internal)
    else None
  }

  /** Every choice is declared, fits its column and reads back as itself. */
  lemma SourceRoundTrip(s: Source)
    ensures SourceValue(s) in SourceChoices
    ensures |SourceValue(s)| <= MaxSourceLength
    ensures ParseSource(SourceValue(s)) == Some(s)
  {
  }

  /** `SOURCE_CHOICES` has exactly three distinct entries. */
  lemma SourceChoicesExactlyThree()
    ensures |SourceChoices| == 3
    ensures forall i, j :: 0 <= i < j < |SourceChoices| ==> SourceChoices[i] != SourceChoices[j]
    ensures forall s: Source :: SourceValue(s) in SourceChoices
    ensures forall v :: v in SourceChoices ==> exists s: Source :: SourceValue(s) == v
  {
    assert SourceValue(Direct) == SourceChoices[0];
    assert SourceValue(Partner) == SourceChoices[1];
    assert SourceValue(Internal) == SourceChoices[2];
  }

  /** `max_length` of `full_name`, `company_name` and `job_title`. */
  const MaxNameLength: nat := 255
  /** Django's default `max_length` of an `EmailField`. */
  const MaxEmailLength: nat := 254
  const MaxPhoneLength: nat := 20
  const MaxSourceLength: nat := 10

  /** One row of the table. `id` stands for the server-generated UUID;
      `email` and `phone` are nullable; the other columns are NOT NULL
      (possibly blank). `source` is a plain string column: the `choices`
      are checked by form and serializer validation, not by the database. */
  datatype Professional = Professional(
    id: nat,
    fullName: string,
    email: Option<string>,
    phone: Option<string>,
    companyName: string,
    jobTitle: string,
    source: string)

  /** The `max_length` of every column holds. */
  predicate FitsColumns(p: Professional)
  {
    && |p.fullName| <= MaxNameLength
    && (p.email.Some? ==> |p.email.value| <= MaxEmailLength)
    && (p.phone.Some? ==> |p.phone.value| <= MaxPhoneLength)
    && |p.companyName| <= MaxNameLength
    && |p.jobTitle| <= MaxNameLength
    && |p.source| <= MaxSourceLength
  }

  /** Two rows that would break a unique index if both were stored: they
      share a non-null email or a non-null phone. */
  predicate Clash(p: Professional, q: Professional)
  {
    || (p.email.Some? && p.email == q.email)
    || (p.phone.Some? && p.phone == q.phone)
  }

  /** The table invariant: ids are distinct and below `nextId` (the next
      fresh identifier), no two rows clash, every row fits its columns. */
  predicate ValidTable(rows: seq<Professional>, nextId: nat)
  {
    && (forall i :: 0 <= i < |rows| ==> rows[i].id < nextId && FitsColumns(rows[i]))
    && (forall i, j :: 0 <= i < j < |rows| ==> rows[i].id != rows[j].id)
    && (forall i, j :: 0 <= i < j < |rows| ==> !Clash(rows[i], rows[j]))
  }

  /** In a valid table no two rows share a non-null email, and no two rows
      share a non-null phone (`unique=True, null=True`). */
  lemma ValidTableUnique(rows: seq<Professional>, nextId: nat, i: nat, j: nat)
    requires ValidTable(rows, nextId)
    requires i < |rows| && j < |rows| && i != j
    ensures rows[i].email.Some? ==> rows[i].email != rows[j].email
    ensures rows[i].phone.Some? ==> rows[i].phone != rows[j].phone
  {
    if i < j {
      assert !Clash(rows[i], rows[j]);
    } else {
      assert !Clash(rows[j], rows[i]);
    }
  }
}
