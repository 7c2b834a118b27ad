/** The two backend views: the list endpoint's `source` filter
    (`get_queryset`) and the bulk upsert (`ProfessionalBulkView.post`),
    plus the create endpoint's field validation as the model's field
    declarations define it. */
module Views {
  import opened Wrappers
  import opened Models

  const StatusOk: int := 200
  const StatusCreated: int := 201
  const StatusMultiStatus: int := 207
  const StatusBadRequest: int := 400
  const StatusServerError: int := 500

  /** Python truthiness of a `str | None`: neither `None` nor `""`. */
  predicate Truthy(v: Option<string>)
  {
    v.Some? && v.value != ""
  }

  // ---------------------------------------------------------------------
  // List endpoint: get_queryset
  // ---------------------------------------------------------------------

  /** The rows whose `source` equals `s`, in table order. */
  function WithSource(rows: seq<Professional>, s: string): (r: seq<Professional>)
    ensures |r| <= |rows|
    ensures forall p :: multiset(r)[p] == if p.source == s then multiset(rows)[p] else 0
  {
    if rows == [] then []
    else
      assert rows == [rows[0]] + rows[1..];
      (if rows[0].source == s then [rows[0]] else []) + WithSource(rows[1..], s)
  }

  /** Filtering keeps table order: it distributes over concatenation. */
  lemma {:induction false} WithSourceAppend(a: seq<Professional>, b: seq<Professional>, s: string)
    ensures WithSource(a + b, s) == WithSource(a, s) + WithSource(b, s)
  {
    if a == [] {
      assert a + b == b;
    } else {
      assert (a + b)[0] == a[0];
      assert (a + b)[1..] == a[1..] + b;
      WithSourceAppend(a[1..], b, s);
    }
  }

  /** `get_queryset`: a non-empty `source` query parameter restricts the
      list to the rows with that source; an absent or empty one lists
      every row. */
  function ListQuery(rows: seq<Professional>, source: Option<string>): (r: seq<Professional>)
    ensures !Truthy(source) ==> r == rows
    ensures Truthy(source) ==> forall p :: p in r <==> p in rows && p.source == source.value
  {
    if Truthy(source) then
      var r := WithSource(rows, source.value);
      assert forall p :: p in r <==> multiset(r)[p] > 0;
      r
    else rows
  }

  // ---------------------------------------------------------------------
  // Bulk upsert: the items and their lookup key
  // ---------------------------------------------------------------------

  /** A JSON value of an item's field: `null` or a string. */
  datatype Json = Null | Str(text: string)

  /** The editable columns an item may set. */
  datatype Column = FullNameCol | EmailCol | PhoneCol | CompanyNameCol | JobTitleCol | SourceCol

  /** One element of the request body's list: a JSON object. */
  type Item = map<Column, Json>

  /** `data.get(column)`: `None` for an absent key or a `null`. */
  function Get(data: Item, c: Column): Option<string>
  {
    if c in data && data[c].Str? then Some(data[c].text) else None
  }

  /** The keyword argument of `update_or_create`. */
  datatype Lookup = ByEmail(email: string) | ByPhone(phone: string)

  /** The lookup key of an item: its email when truthy, else its phone
      when truthy; `None` sends the item to `errors`. */
  function LookupOf(data: Item): (r: Option<Lookup>)
    ensures r.None? <==> !Truthy(Get(data, EmailCol)) && !Truthy(Get(data, PhoneCol))
    ensures r.Some? && r.value.ByEmail? <==> Truthy(Get(data, EmailCol))
    ensures r.Some? && r.value.ByEmail? ==> Get(data, EmailCol) == Some(r.value.email) && r.value.email != ""
    ensures r.Some? && r.value.ByPhone? ==> Get(data, PhoneCol) == Some(r.value.phone) && r.value.phone != ""
  {
    var email := Get(data, EmailCol);
    var phone := Get(data, PhoneCol);
    if !Truthy(email) && !Truthy(phone) then None
    else if Truthy(email) then Some(ByEmail(email.value))
    else Some(ByPhone(phone.value))
  }

  /** With an email present, an empty-string phone never becomes the key,
      and an empty-string email defers to the phone. */
  lemma EmptyStringNeverKey(data: Item)
    ensures Truthy(Get(data, EmailCol)) ==> LookupOf(data) == Some(ByEmail(Get(data, EmailCol).value))
    ensures Get(data, EmailCol) == Some("") && Truthy(Get(data, PhoneCol)) ==>
              LookupOf(data) == Some(ByPhone(Get(data, PhoneCol).value))
    ensures Get(data, EmailCol) == Some("") && Get(data, PhoneCol) == Some("") ==> LookupOf(data).None?
  {
  }

  /** The row satisfies the lookup's filter. */
  predicate Matches(p: Professional, lookup: Lookup)
  {
    match lookup
    case ByEmail(e) => p.email == Some(e)
    case ByPhone(x) => p.phone == Some(x)
  }

  /** The `get` inside `update_or_create`: the position of a matching row. */
  function FindBy(rows: seq<Professional>, lookup: Lookup): (r: Option<nat>)
    ensures r.Some? ==> r.value < |rows| && Matches(rows[r.value], lookup)
    ensures r.None? ==> forall i :: 0 <= i < |rows| ==> !Matches(rows[i], lookup)
  {
    if rows == [] then None
    else if Matches(rows[0], lookup) then Some(0)
    else match FindBy(rows[1..], lookup)
      case None => None
      case Some(k) => Some(k + 1)
  }

  /** In a valid table the match is the only one, so the `get` never sees
      several rows. */
  lemma FindByOnlyMatch(rows: seq<Professional>, nextId: nat, lookup: Lookup, j: nat)
    requires ValidTable(rows, nextId)
    requires j < |rows| && Matches(rows[j], lookup)
    ensures FindBy(rows, lookup) == Some(j)
  {
    var i := FindBy(rows, lookup).value;
    if i != j {
      ValidTableUnique(rows, nextId, i, j);
    }
  }

  // ---------------------------------------------------------------------
  // Bulk upsert: writing one row
  // ---------------------------------------------------------------------

  /** The value a row holds in a column, as JSON. */
  function ColumnValue(p: Professional, c: Column): Json
  {
    match c
    case FullNameCol => Str(p.fullName)
    case EmailCol => if p.email.Some? then Str(p.email.value) else Null
    case PhoneCol => if p.phone.Some? then Str(p.phone.value) else Null
    case CompanyNameCol => Str(p.companyName)
    case JobTitleCol => Str(p.jobTitle)
    case SourceCol => Str(p.source)
  }

  predicate Nullable(c: Column)
  {
    c == EmailCol || c == PhoneCol
  }

  /** The item puts `null` into a NOT NULL column. */
  predicate NullIntoNotNull(data: Item)
  {
    || (FullNameCol in data && data[FullNameCol].Null?)
    || (CompanyNameCol in data && data[CompanyNameCol].Null?)
    || (JobTitleCol in data && data[JobTitleCol].Null?)
    || (SourceCol in data && data[SourceCol].Null?)
  }

  function TextOr(data: Item, c: Column, current: string): string
  {
    if c in data && data[c].Str? then data[c].text else current
  }

  function NullableOr(data: Item, c: Column, current: Option<string>): Option<string>
  {
    if c !in data then current
    else match data[c]
      case Null => None
      case Str(t) => Some(t)
  }

  /** `setattr(obj, key, value)` for every key of the item; `None` when the
      database would refuse a `null` in a NOT NULL column. */
  function Apply(p: Professional, data: Item): (r: Option<Professional>)
    ensures r.Some? <==> forall c :: c in data && !Nullable(c) ==> data[c].Str?
    ensures r.Some? ==> r.value.id == p.id
    ensures r.Some? ==> forall c :: ColumnValue(r.value, c) == if c in data then data[c] else ColumnValue(p, c)
  {
    if NullIntoNotNull(data) then None
    else
      Some(Professional(
        p.id,
        TextOr(data, FullNameCol, p.fullName),
        NullableOr(data, EmailCol, p.email),
        NullableOr(data, PhoneCol, p.phone),
        TextOr(data, CompanyNameCol, p.companyName),
        TextOr(data, JobTitleCol, p.jobTitle),
        TextOr(data, SourceCol, p.source)))
  }

  /** A new row before the item's fields are set: blank strings and `NULL`s,
      the defaults Django gives fields without an explicit default. */
  function DefaultRow(id: nat): (p: Professional)
    ensures p.id == id && FitsColumns(p)
    ensures forall c :: ColumnValue(p, c) == if Nullable(c) then Null else Str("")
  {
    Professional(id, "", None, None, "", "", "")
  }

  /** The database accepts `q` at position `at` (`|rows|` for an insert):
      it fits its columns and clashes with no other row. */
  predicate Admissible(rows: seq<Professional>, at: nat, q: Professional)
  {
    && FitsColumns(q)
    && forall j :: 0 <= j < |rows| && j != at ==> !Clash(q, rows[j])
  }

  /** The outcome of `update_or_create`: the new table and whether a row
      was created, or a database error. */
  datatype Upserted = Written(rows: seq<Professional>, nextId: nat, created: bool) | Refused

  /** `update_or_create(defaults=data, **lookup)`. */
  function Upsert(rows: seq<Professional>, nextId: nat, lookup: Lookup, data: Item): (w: Upserted)
    ensures w.Written? ==> (w.created <==> FindBy(rows, lookup).None?)
    ensures w.Written? ==> && |w.rows| == |rows| + (if w.created then 1 else 0)
                           && w.nextId == nextId + (if w.created then 1 else 0)
  {
    match FindBy(rows, lookup)
    case Some(i) =>
      (match Apply(rows[i], data)
       case None => Refused
       case Some(q) => if Admissible(rows, i, q) then Written(rows[i := q], nextId, false) else Refused)
    case None =>
      (match Apply(DefaultRow(nextId), data)
       case None => Refused
       case Some(q) => if Admissible(rows, |rows|, q) then Written(rows + [q], nextId + 1, true) else Refused)
  }

  /** A matching row has its columns overwritten by the item, keeps its id,
      and is the only row that changes; no row is added. */
  lemma UpsertUpdatesMatch(rows: seq<Professional>, nextId: nat, lookup: Lookup, data: Item, i: nat)
    requires FindBy(rows, lookup) == Some(i)
    requires Upsert(rows, nextId, lookup, data).Written?
    ensures var w := Upsert(rows, nextId, lookup, data);
      && !w.created && w.nextId == nextId && |w.rows| == |rows|
      && w.rows[i].id == rows[i].id
      && (forall c :: ColumnValue(w.rows[i], c) == if c in data then data[c] else ColumnValue(rows[i], c))
      && (forall j :: 0 <= j < |rows| && j != i ==> w.rows[j] == rows[j])
  {
  }

  /** Without a match exactly one row is appended: it has a fresh id, holds
      the item's values (blank or `NULL` elsewhere) and satisfies the lookup. */
  lemma UpsertCreatesOne(rows: seq<Professional>, nextId: nat, lookup: Lookup, data: Item)
    requires LookupOf(data) == Some(lookup)
    requires FindBy(rows, lookup).None?
    requires Upsert(rows, nextId, lookup, data).Written?
    ensures var w := Upsert(rows, nextId, lookup, data);
      && w.created && w.nextId == nextId + 1
      && |w.rows| == |rows| + 1 && w.rows[..|rows|] == rows
      && w.rows[|rows|].id == nextId
      && Matches(w.rows[|rows|], lookup)
      && (forall c :: ColumnValue(w.rows[|rows|], c) == if c in data then data[c] else ColumnValue(DefaultRow(nextId), c))
  {
    var q := Apply(DefaultRow(nextId), data).value;
    assert (rows + [q])[..|rows|] == rows;
    match lookup
    case ByEmail(e) =>
      assert ColumnValue(q, EmailCol) == data[EmailCol];
    case ByPhone(x) =>
      assert ColumnValue(q, PhoneCol) == data[PhoneCol];
  }

  /** Without a match, an item that fits and clashes with nothing is
      inserted as the next row. */
  lemma UpsertInserts(rows: seq<Professional>, nextId: nat, lookup: Lookup, data: Item, q: Professional)
    requires FindBy(rows, lookup).None?
    requires Apply(DefaultRow(nextId), data) == Some(q) && Admissible(rows, |rows|, q)
    ensures Upsert(rows, nextId, lookup, data) == Written(rows + [q], nextId + 1, true)
  {
  }

  /** A successful write keeps the table invariant. */
  lemma UpsertKeepsValid(rows: seq<Professional>, nextId: nat, lookup: Lookup, data: Item)
    requires ValidTable(rows, nextId)
    requires Upsert(rows, nextId, lookup, data).Written?
    ensures var w := Upsert(rows, nextId, lookup, data); ValidTable(w.rows, w.nextId)
  {
    var w := Upsert(rows, nextId, lookup, data);
    match FindBy(rows, lookup)
    case Some(i) =>
      var q := Apply(rows[i], data).value;
      assert w.rows == rows[i := q];
      forall a, b | 0 <= a < b < |w.rows|
        ensures w.rows[a].id != w.rows[b].id && !Clash(w.rows[a], w.rows[b])
      {
        if a == i {
          assert !Clash(q, rows[b]);
        } else if b == i {
          assert !Clash(q, rows[a]);
        }
      }
    case None =>
      var q := Apply(DefaultRow(nextId), data).value;
      assert w.rows == rows + [q];
      forall a, b | 0 <= a < b < |w.rows|
        ensures w.rows[a].id != w.rows[b].id && !Clash(w.rows[a], w.rows[b])
      {
        if b == |rows| {
          assert !Clash(q, rows[a]);
        }
      }
  }

  /** `Admissible` is exactly what the database checks on an insert: a
      fresh row under the next id keeps a valid table valid if and only if
      it is admissible at the end. */
  lemma AdmissibleInsertExactly(rows: seq<Professional>, nextId: nat, q: Professional)
    requires ValidTable(rows, nextId) && q.id == nextId
    ensures Admissible(rows, |rows|, q) <==> ValidTable(rows + [q], nextId + 1)
  {
    var w := rows + [q];
    if Admissible(rows, |rows|, q) {
      forall a, b | 0 <= a < b < |w|
        ensures w[a].id != w[b].id && !Clash(w[a], w[b])
      {
        if b == |rows| {
          assert !Clash(q, rows[a]);
        }
      }
    }
    if ValidTable(w, nextId + 1) {
      assert FitsColumns(w[|rows|]);
      forall j | 0 <= j < |rows|
        ensures !Clash(q, rows[j])
      {
        assert !Clash(w[j], w[|rows|]);
      }
    }
  }

  // ---------------------------------------------------------------------
  // Bulk upsert: the loop over the items
  // ---------------------------------------------------------------------

  /** A per-item entry of the response: the item and its status. */
  datatype Entry = Entry(data: Item, status: int)

  /** The loop's variables: the table, `results`, `errors`, the two
      counters, and whether a database error has ended the request. */
  datatype Progress = Progress(
    rows: seq<Professional>,
    nextId: nat,
    results: seq<Entry>,
    errors: seq<Entry>,
    numCreated: nat,
    numUpdated: nat,
    failed: bool)

  function Start(rows: seq<Professional>, nextId: nat): Progress
  {
    Progress(rows, nextId, [], [], 0, 0, false)
  }

  /** One iteration of the `for` loop. */
  function Step(p: Progress, data: Item): (r: Progress)
    ensures p.failed ==> r == p
    ensures !p.failed && LookupOf(data).None? ==>
      r == p.(errors := p.errors + [Entry(data, StatusBadRequest)])
    ensures !p.failed && LookupOf(data).Some? && !r.failed ==>
      && r.errors == p.errors
      && |r.results| == |p.results| + 1
      && r.results[..|p.results|] == p.results
      && r.results[|p.results|].data == data
      && (r.results[|p.results|].status == StatusCreated <==> |r.rows| == |p.rows| + 1)
      && (r.results[|p.results|].status != StatusCreated ==> r.results[|p.results|].status == StatusOk)
  {
    if p.failed then p
    else match LookupOf(data)
      case None => p.(errors := p.errors + [Entry(data, StatusBadRequest)])
      case Some(lookup) =>
        match Upsert(p.rows, p.nextId, lookup, data)
        case Refused => p.(failed := true)
        case Written(rows, nextId, created) =>
          if created then
            p.(rows := rows, nextId := nextId,
               results := p.results + [Entry(data, StatusCreated)],
               numCreated := p.numCreated + 1)
          else
            assert |rows| == |p.rows|;
            p.(rows := rows, nextId := nextId,
               results := p.results + [Entry(data, StatusOk)],
               numUpdated := p.numUpdated + 1)
  }

  /** The loop run over `items`, in order, from the given table. */
  function Run(rows: seq<Professional>, nextId: nat, items: seq<Item>): Progress
    decreases |items|
  {
    if items == [] then Start(rows, nextId)
    else Step(Run(rows, nextId, items[..|items| - 1]), items[|items| - 1])
  }

  /** The loop's next iteration: running one more item is one more step. */
  lemma RunSnoc(rows: seq<Professional>, nextId: nat, items: seq<Item>, i: nat)
    requires i < |items|
    ensures Run(rows, nextId, items[..i + 1]) == Step(Run(rows, nextId, items[..i]), items[i])
  {
    assert items[..i + 1][..i] == items[..i];
  }

  /** The step of an item with a key, in terms of its upsert. */
  lemma StepUpserts(p: Progress, data: Item, lookup: Lookup)
    requires !p.failed && LookupOf(data) == Some(lookup)
    ensures var w := Upsert(p.rows, p.nextId, lookup, data);
      && (w.Refused? ==> Step(p, data).failed)
      && (w.Written? ==>
            Step(p, data) ==
            p.(rows := w.rows, nextId := w.nextId,
               results := p.results + [Entry(data, if w.created then StatusCreated else StatusOk)],
               numCreated := p.numCreated + (if w.created then 1 else 0),
               numUpdated := p.numUpdated + (if w.created then 0 else 1)))
  {
  }

  /** A failed run ignores the last item. */
  lemma RunFailedLast(rows: seq<Professional>, nextId: nat, items: seq<Item>)
    requires items != [] && Run(rows, nextId, items[..|items| - 1]).failed
    ensures Run(rows, nextId, items) == Run(rows, nextId, items[..|items| - 1])
  {
  }

  /** Rows are only ever added by creation: the table grows by the number
      of created rows, and each took the next fresh id. */
  lemma {:induction false} RunGrows(rows: seq<Professional>, nextId: nat, items: seq<Item>)
    ensures var r := Run(rows, nextId, items);
      |r.rows| == |rows| + r.numCreated && r.nextId == nextId + r.numCreated
  {
    if items != [] {
      RunGrows(rows, nextId, items[..|items| - 1]);
    }
  }

  /** The `Response` of the view, or the 500 of an unhandled database error. */
  datatype Response = MultiStatus(results: seq<Entry>, errors: seq<Entry>) | ServerError

  function StatusOf(r: Response): (status: int)
    ensures status == StatusMultiStatus <==> r.MultiStatus?
    ensures status == StatusServerError <==> r.ServerError?
  {
    if r.MultiStatus? then StatusMultiStatus else StatusServerError
  }

  /** A database error turns the whole request into a 500; otherwise every
      entry collected is reported. */
  function Respond(p: Progress): (r: Response)
    ensures r.ServerError? <==> p.failed
    ensures r.MultiStatus? ==> r.results == p.results && r.errors == p.errors
  {
    if p.failed then ServerError else MultiStatus(p.results, p.errors)
  }

  function CountStatus(es: seq<Entry>, status: int): nat
  {
    if es == [] then 0
    else CountStatus(es[..|es| - 1], status) + (if es[|es| - 1].status == status then 1 else 0)
  }

  function Datas(es: seq<Entry>): seq<Item>
  {
    seq(|es|, i requires 0 <= i < |es| => es[i].data)
  }

  /** The items that have a lookup key, in input order. */
  function Keyed(items: seq<Item>): seq<Item>
  {
    if items == [] then []
    else Keyed(items[..|items| - 1]) + (if LookupOf(items[|items| - 1]).Some? then [items[|items| - 1]] else [])
  }

  /** The items without a lookup key, in input order. */
  function Unkeyed(items: seq<Item>): seq<Item>
  {
    if items == [] then []
    else Unkeyed(items[..|items| - 1]) + (if LookupOf(items[|items| - 1]).None? then [items[|items| - 1]] else [])
  }

  /** Once a database error has ended the request, later items are never
      looked at. */
  lemma {:induction false} RunStopsAtFailure(rows: seq<Professional>, nextId: nat, items: seq<Item>, k: nat)
    requires k <= |items|
    requires Run(rows, nextId, items[..k]).failed
    ensures Run(rows, nextId, items) == Run(rows, nextId, items[..k])
    decreases |items| - k
  {
    if k < |items| {
      var prev := items[..|items| - 1];
      assert prev[..k] == items[..k];
      RunStopsAtFailure(rows, nextId, prev, k);
      RunFailedLast(rows, nextId, items);
    } else {
      assert items[..k] == items;
    }
  }

  /** The bookkeeping the loop keeps: the counters add up to the results,
      201 counts the created rows (each of which took a fresh id), results
      carry 200 or 201 and errors 400. */
  predicate Balanced(p: Progress, nextId0: nat)
  {
    && p.numCreated + p.numUpdated == |p.results|
    && p.numCreated == CountStatus(p.results, StatusCreated)
    && p.nextId == nextId0 + p.numCreated
    && (forall e :: e in p.results ==> e.status == StatusCreated || e.status == StatusOk)
    && (forall e :: e in p.errors ==> e.status == StatusBadRequest)
  }

  /** One iteration keeps the bookkeeping and adds at most one entry,
      exactly one unless a database error ends the request. */
  lemma StepBalanced(p: Progress, data: Item, nextId0: nat)
    requires Balanced(p, nextId0)
    ensures var r := Step(p, data);
      && Balanced(r, nextId0)
      && |r.results| + |r.errors| <= |p.results| + |p.errors| + 1
      && (!r.failed ==> |r.results| + |r.errors| == |p.results| + |p.errors| + (if p.failed then 0 else 1))
  {
    var r := Step(p, data);
    if !p.failed && LookupOf(data).Some? && !r.failed {
      assert r.results[..|r.results| - 1] == p.results;
      assert r.results == p.results + [r.results[|p.results|]];
    }
  }

  /** Every processed item gives exactly one entry in `results` or
      `errors`, all of them when no database error occurred, and the
      bookkeeping holds at the end. */
  lemma {:induction false} RunAccounting(rows: seq<Professional>, nextId: nat, items: seq<Item>)
    ensures var r := Run(rows, nextId, items);
      && |r.results| + |r.errors| <= |items|
      && (!r.failed ==> |r.results| + |r.errors| == |items|)
      && Balanced(r, nextId)
  {
    if items != [] {
      var prev := items[..|items| - 1];
      RunAccounting(rows, nextId, prev);
      StepBalanced(Run(rows, nextId, prev), items[|items| - 1], nextId);
    }
  }

  /** Without a database error, `results` holds exactly the items that have
      a key and `errors` exactly those without, each in input order: an
      invalid item never stops the valid ones. */
  lemma {:induction false} RunPartition(rows: seq<Professional>, nextId: nat, items: seq<Item>)
    requires !Run(rows, nextId, items).failed
    ensures Datas(Run(rows, nextId, items).results) == Keyed(items)
    ensures Datas(Run(rows, nextId, items).errors) == Unkeyed(items)
  {
    if items != [] {
      var prev := items[..|items| - 1];
      var p := Run(rows, nextId, prev);
      assert !p.failed;
      RunPartition(rows, nextId, prev);
    }
  }

  /** The loop keeps the table invariant. */
  lemma {:induction false} RunKeepsValid(rows: seq<Professional>, nextId: nat, items: seq<Item>)
    requires ValidTable(rows, nextId)
    ensures ValidTable(Run(rows, nextId, items).rows, Run(rows, nextId, items).nextId)
  {
    if items != [] {
      var prev := items[..|items| - 1];
      RunKeepsValid(rows, nextId, prev);
      var p := Run(rows, nextId, prev);
      var data := items[|items| - 1];
      if !p.failed && LookupOf(data).Some? && Upsert(p.rows, p.nextId, LookupOf(data).value, data).Written? {
        UpsertKeepsValid(p.rows, p.nextId, LookupOf(data).value, data);
      }
    }
  }

  /** The response is 207 whenever no database error occurred, however many
      items went to `errors`. */
  lemma MultiStatusDespiteErrors(rows: seq<Professional>, nextId: nat, items: seq<Item>)
    requires !Run(rows, nextId, items).failed
    ensures StatusOf(Respond(Run(rows, nextId, items))) == StatusMultiStatus
    ensures Respond(Run(rows, nextId, items)).errors == Run(rows, nextId, items).errors
  {
  }

  // ---------------------------------------------------------------------
  // Bulk upsert: the imperative view over a mutable table
  // ---------------------------------------------------------------------

  /** The `Professional` table. */
  class Database {
    var rows: seq<Professional>
    var nextId: nat

    ghost predicate Valid()
      reads this
    {
      ValidTable(rows, nextId)
    }

    constructor ()
      ensures Valid() && rows == [] && nextId == 0
    {
      rows := [];
      nextId := 0;
    }

    /** `Professional.objects.update_or_create(defaults=data, **lookup)`:
        `ok` is false when the database raised an error, and then nothing
        changed. */
    method UpdateOrCreate(lookup: Lookup, data: Item) returns (ok: bool, created: bool)
      requires Valid()
      modifies this
      ensures Valid()
      ensures match Upsert(old(rows), old(nextId), lookup, data)
        case Refused => !ok && rows == old(rows) && nextId == old(nextId)
        case Written(r, n, c) => ok && created == c && rows == r && nextId == n
    {
      ok, created := false, false;
      var found := FindBy(rows, lookup);
      if found.Some? {
        var i := found.value;
        var updated := Apply(rows[i], data);
        if updated.Some? && Admissible(rows, i, updated.value) {
          UpsertKeepsValid(rows, nextId, lookup, data);
          rows := rows[i := updated.value];
          ok := true;
        }
      } else {
        var inserted := Apply(DefaultRow(nextId), data);
        if inserted.Some? && Admissible(rows, |rows|, inserted.value) {
          UpsertKeepsValid(rows, nextId, lookup, data);
          rows := rows + [inserted.value];
          nextId := nextId + 1;
          ok, created := true, true;
        }
      }
    }
  }

  /** `ProfessionalBulkView.post`: walks the items in order, sending those
      without key to `errors` and upserting the others; a database error
      ends the request with 500, leaving the writes already made. */
  method Post(db: Database, items: seq<Item>) returns (response: Response)
    requires db.Valid()
    modifies db
    ensures db.Valid()
    ensures var p := Run(old(db.rows), old(db.nextId), items);
      response == Respond(p) && db.rows == p.rows && db.nextId == p.nextId
  {
    ghost var rows0, nextId0 := db.rows, db.nextId;
    var results: seq<Entry> := [];
    var errors: seq<Entry> := [];
    var numCreated, numUpdated := 0, 0;
    var i := 0;
    while i < |items|
      invariant 0 <= i <= |items|
      invariant db.Valid()
      invariant Run(rows0, nextId0, items[..i]) ==
                Progress(db.rows, db.nextId, results, errors, numCreated, numUpdated, false)
    {
      var data := items[i];
      RunSnoc(rows0, nextId0, items, i);
      var email := Get(data, EmailCol);
      var phone := Get(data, PhoneCol);
      if !Truthy(email) && !Truthy(phone) {
        assert LookupOf(data).None?;
        errors := errors + [Entry(data, StatusBadRequest)];
        i := i + 1;
        continue;
      }
      var lookup := if Truthy(email) then ByEmail(email.value) else ByPhone(phone.value);
      assert LookupOf(data) == Some(lookup);
      StepUpserts(Run(rows0, nextId0, items[..i]), data, lookup);
      var ok, created := db.UpdateOrCreate(lookup, data);
      if !ok {
        RunStopsAtFailure(rows0, nextId0, items, i + 1);
        return ServerError;
      }
      if created {
        numCreated := numCreated + 1;
      } else {
        numUpdated := numUpdated + 1;
      }
      results := results + [Entry(data, if created then StatusCreated else StatusOk)];
      i := i + 1;
    }
    assert items[..i] == items;
    response := MultiStatus(results, errors);
  }

  // ---------------------------------------------------------------------
  // Create endpoint: validation the model's field declarations imply
  // ---------------------------------------------------------------------

  datatype ErrorCode = Required | NullValue | Blank | MaxLength | InvalidChoice | NotUnique

  datatype FieldError = FieldError(column: Column, code: ErrorCode)

  /** Errors of a required, non-blank, non-null text column. */
  function RequiredTextErrors(data: Item, c: Column, maxLength: nat): (errs: set<FieldError>)
    ensures forall e :: e in errs ==> e.column == c
    ensures FieldError(c, Required) in errs <==> c !in data
    ensures FieldError(c, NullValue) in errs <==> c in data && data[c].Null?
    ensures FieldError(c, Blank) in errs <==> c in data && data[c] == Str("")
    ensures FieldError(c, MaxLength) in errs <==>
      c in data && data[c].Str? && data[c].text != "" && |data[c].text| > maxLength
    ensures FieldError(c, InvalidChoice) !in errs && FieldError(c, NotUnique) !in errs
  {
    if c !in data then {FieldError(c, Required)}
    else match data[c]
      case Null => {FieldError(c, NullValue)}
      case Str(t) =>
        if t == "" then {FieldError(c, Blank)}
        else if |t| > maxLength then {FieldError(c, MaxLength)}
        else {}
  }

  /** Errors of an optional, blank-allowed, non-null text column. */
  function OptionalTextErrors(data: Item, c: Column, maxLength: nat): (errs: set<FieldError>)
    ensures forall e :: e in errs ==> e.column == c
    ensures FieldError(c, NullValue) in errs <==> c in data && data[c].Null?
    ensures FieldError(c, MaxLength) in errs <==> c in data && data[c].Str? && |data[c].text| > maxLength
    ensures forall e :: e in errs ==> e.code == NullValue || e.code == MaxLength
  {
    if c !in data then {}
    else match data[c]
      case Null => {FieldError(c, NullValue)}
      case Str(t) => if |t| > maxLength then {FieldError(c, MaxLength)} else {}
  }

  /** Errors of a unique, nullable, blank-allowed column. A blank value
      skips the validators, as the serializer does. */
  function UniqueErrors(rows: seq<Professional>, data: Item, c: Column, maxLength: nat): (errs: set<FieldError>)
    requires Nullable(c)
    ensures forall e :: e in errs ==> e.column == c
    ensures FieldError(c, MaxLength) in errs <==>
      c in data && data[c].Str? && data[c].text != "" && |data[c].text| > maxLength
    ensures FieldError(c, NotUnique) in errs <==>
      c in data && data[c].Str? && data[c].text != "" &&
      exists j :: 0 <= j < |rows| && ColumnValue(rows[j], c) == data[c]
    ensures forall e :: e in errs ==> e.code == MaxLength || e.code == NotUnique
  {
    if c !in data || data[c].Null? || data[c].text == "" then {}
    else
      var t := data[c].text;
      var taken := exists j :: 0 <= j < |rows| && ColumnValue(rows[j], c) == Str(t);
      (if |t| > maxLength then {FieldError(c, MaxLength)} else {})
      + (if taken then {FieldError(c, NotUnique)} else {})
  }

  /** Errors of the `source` column: required, and one of the choices. */
  function SourceErrors(data: Item): (errs: set<FieldError>)
    ensures forall e :: e in errs ==> e.column == SourceCol
    ensures FieldError(SourceCol, Required) in errs <==> SourceCol !in data
    ensures FieldError(SourceCol, NullValue) in errs <==> SourceCol in data && data[SourceCol].Null?
    ensures FieldError(SourceCol, InvalidChoice) in errs <==>
      SourceCol in data && data[SourceCol].Str? && data[SourceCol].text !in SourceChoices
    ensures errs == {} <==> SourceCol in data && data[SourceCol].Str? && data[SourceCol].text in SourceChoices
  {
    if SourceCol !in data then {FieldError(SourceCol, Required)}
    else match data[SourceCol]
      case Null => {FieldError(SourceCol, NullValue)}
      case Str(t) => if ParseSource(t).None? then {FieldError(SourceCol, InvalidChoice)} else {}
  }

  /** The create endpoint's field errors. Email and phone format
      validation is not part of this model. */
  function CreateErrors(rows: seq<Professional>, data: Item): (errs: set<FieldError>)
    ensures FieldError(SourceCol, InvalidChoice) in errs <==>
      SourceCol in data && data[SourceCol].Str? && data[SourceCol].text !in SourceChoices
    ensures FieldError(FullNameCol, Required) in errs <==> FullNameCol !in data
    ensures FieldError(FullNameCol, Blank) in errs <==> FullNameCol in data && data[FullNameCol] == Str("")
  {
    RequiredTextErrors(data, FullNameCol, MaxNameLength)
    + UniqueErrors(rows, data, EmailCol, MaxEmailLength)
    + UniqueErrors(rows, data, PhoneCol, MaxPhoneLength)
    + OptionalTextErrors(data, CompanyNameCol, MaxNameLength)
    + OptionalTextErrors(data, JobTitleCol, MaxNameLength)
    + SourceErrors(data)
  }

  /** Each column's errors are exactly the ones its serializer field
      reports: full name a required text, email and phone unique nullable
      texts, company and job title optional texts, source a choice. */
  lemma CreateErrorsByColumn(rows: seq<Professional>, data: Item, code: ErrorCode)
    ensures var errs := CreateErrors(rows, data);
      && (FieldError(FullNameCol, code) in errs <==>
          FieldError(FullNameCol, code) in RequiredTextErrors(data, FullNameCol, MaxNameLength))
      && (FieldError(EmailCol, code) in errs <==>
          FieldError(EmailCol, code) in UniqueErrors(rows, data, EmailCol, MaxEmailLength))
      && (FieldError(PhoneCol, code) in errs <==>
          FieldError(PhoneCol, code) in UniqueErrors(rows, data, PhoneCol, MaxPhoneLength))
      && (FieldError(CompanyNameCol, code) in errs <==>
          FieldError(CompanyNameCol, code) in OptionalTextErrors(data, CompanyNameCol, MaxNameLength))
      && (FieldError(JobTitleCol, code) in errs <==>
          FieldError(JobTitleCol, code) in OptionalTextErrors(data, JobTitleCol, MaxNameLength))
      && (FieldError(SourceCol, code) in errs <==> FieldError(SourceCol, code) in SourceErrors(data))
  {
  }

  datatype CreateResult =
    | Created(rows: seq<Professional>, nextId: nat, row: Professional)
    | Invalid(errors: set<FieldError>)
    | CreateFailed

  function StatusOfCreate(r: CreateResult): int
  {
    match r
    case Created(_, _, _) => StatusCreated
    case Invalid(_) => StatusBadRequest
    case CreateFailed => StatusServerError
  }

  /** `ListCreateAPIView.post`: validate, then insert. A blank email or
      phone is not checked for uniqueness by the validators, so the database
      can still refuse the insert. */
  function Create(rows: seq<Professional>, nextId: nat, data: Item): (r: CreateResult)
    ensures r.Invalid? <==> CreateErrors(rows, data) != {}
    ensures r.Invalid? ==> r.errors == CreateErrors(rows, data)
    ensures r.Created? ==> && r.rows == rows + [r.row] && r.nextId == nextId + 1
                           && r.row.id == nextId && FitsColumns(r.row)
    ensures r.Created? ==>
      forall c :: ColumnValue(r.row, c) == if c in data then data[c] else ColumnValue(DefaultRow(nextId), c)
    ensures (&& CreateErrors(rows, data) == {} && Apply(DefaultRow(nextId), data).Some?
             && Admissible(rows, |rows|, Apply(DefaultRow(nextId), data).value)) ==> r.Created?
  {
    var errs := CreateErrors(rows, data);
    if errs != {} then Invalid(errs)
    else match Apply(DefaultRow(nextId), data)
      case None => CreateFailed
      case Some(q) => if Admissible(rows, |rows|, q) then Created(rows + [q], nextId + 1, q) else CreateFailed
  }

  /** A created row is appended with a fresh id, keeps the table valid, has a
      declared source choice and a non-blank name. */
  lemma CreateKeepsValid(rows: seq<Professional>, nextId: nat, data: Item)
    requires ValidTable(rows, nextId)
    requires Create(rows, nextId, data).Created?
    ensures var c := Create(rows, nextId, data);
      && c.rows == rows + [c.row] && c.row.id == nextId
      && ValidTable(c.rows, c.nextId)
      && c.row.source in SourceChoices
      && c.row.fullName != ""
  {
    var c := Create(rows, nextId, data);
    assert SourceErrors(data) == {};
    assert RequiredTextErrors(data, FullNameCol, MaxNameLength) == {};
    forall a, b | 0 <= a < b < |c.rows|
      ensures c.rows[a].id != c.rows[b].id && !Clash(c.rows[a], c.rows[b])
    {
      if b == |rows| {
        assert !Clash(c.row, rows[a]);
      }
    }
  }

  /** A submitted `source` outside the choices is always rejected as
      `invalid_choice`, and nothing is written. */
  lemma CreateRejectsUnknownSource(rows: seq<Professional>, nextId: nat, data: Item)
    requires SourceCol in data && data[SourceCol].Str? && data[SourceCol].text !in SourceChoices
    ensures Create(rows, nextId, data).Invalid?
    ensures FieldError(SourceCol, InvalidChoice) in Create(rows, nextId, data).errors
    ensures StatusOfCreate(Create(rows, nextId, data)) == StatusBadRequest
  {
  }

  // ---------------------------------------------------------------------
  // The two bulk scenarios of the backend's tests
  // ---------------------------------------------------------------------

  function BulkItem(fullName: string, email: string, phone: string, source: string): Item
  {
    map[FullNameCol := Str(fullName), EmailCol := Str(email), PhoneCol := Str(phone), SourceCol := Str(source)]
  }

  /** Applying a bulk item sets its four columns and keeps the rest. */
  lemma ApplyBulkItem(p: Professional, fullName: string, email: string, phone: string, source: string)
    ensures Apply(p, BulkItem(fullName, email, phone, source)) ==
      Some(p.(fullName := fullName, email := Some(email), phone := Some(phone), source := source))
  {
    var data := BulkItem(fullName, email, phone, source);
    assert !NullIntoNotNull(data);
  }

  const Bob: Item := BulkItem("Bob", "bob@example.com", "212-123-2222", "direct")
  const Charlie: Item := BulkItem("Charlie", "charlie@example.com", "212-123-5555", "partner")
  const Frost: Item := BulkItem("Robert Frost", "bob@example.com", "212-123-2222", "internal")
  const BobRow: Professional := Professional(0, "Bob", Some("bob@example.com"), Some("212-123-2222"), "", "", "direct")
  const CharlieRow: Professional :=
    Professional(1, "Charlie", Some("charlie@example.com"), Some("212-123-5555"), "", "", "partner")
  const FrostRow: Professional :=
    Professional(0, "Robert Frost", Some("bob@example.com"), Some("212-123-2222"), "", "", "internal")

  /** Two items with distinct emails on an empty table create two rows. */
  lemma BulkCreatesTwo()
    ensures Run([], 0, [Bob, Charlie]) ==
      Progress([BobRow, CharlieRow], 2, [Entry(Bob, StatusCreated), Entry(Charlie, StatusCreated)], [], 2, 0, false)
  {
    var items := [Bob, Charlie];
    assert items[..1] == [Bob] && items[..2] == items;
    RunSnoc([], 0, items, 1);
    BulkCreatesBob();
    BulkAddsCharlie();
  }

  /** The second item of that batch, after the first, creates the second row. */
  lemma BulkAddsCharlie()
    ensures Step(Progress([BobRow], 1, [Entry(Bob, StatusCreated)], [], 1, 0, false), Charlie) ==
      Progress([BobRow, CharlieRow], 2, [Entry(Bob, StatusCreated), Entry(Charlie, StatusCreated)], [], 2, 0, false)
  {
    var p1 := Progress([BobRow], 1, [Entry(Bob, StatusCreated)], [], 1, 0, false);
    var lookup := ByEmail("charlie@example.com");
    assert LookupOf(Charlie) == Some(lookup);
    assert FindBy(p1.rows, lookup) == None;
    ApplyBulkItem(DefaultRow(1), "Charlie", "charlie@example.com", "212-123-5555", "partner");
    assert FitsColumns(CharlieRow) && !Clash(CharlieRow, BobRow);
    assert Admissible(p1.rows, |p1.rows|, CharlieRow);
    UpsertInserts(p1.rows, 1, lookup, Charlie, CharlieRow);
    assert p1.rows + [CharlieRow] == [BobRow, CharlieRow];
    StepUpserts(p1, Charlie, lookup);
  }

  /** The first item of that batch creates the first row. */
  lemma BulkCreatesBob()
    ensures Run([], 0, [Bob]) == Progress([BobRow], 1, [Entry(Bob, StatusCreated)], [], 1, 0, false)
  {
    assert [Bob][..0] == [];
    var lookup := ByEmail("bob@example.com");
    assert LookupOf(Bob) == Some(lookup);
    ApplyBulkItem(DefaultRow(0), "Bob", "bob@example.com", "212-123-2222", "direct");
    assert Upsert([], 0, lookup, Bob) == Written([BobRow], 1, true);
    StepUpserts(Start([], 0), Bob, lookup);
  }

  /** A later batch with an existing email updates that row in place. */
  lemma BulkUpdatesByEmail()
    ensures Run([BobRow, CharlieRow], 2, [Frost]) ==
      Progress([FrostRow, CharlieRow], 2, [Entry(Frost, StatusOk)], [], 0, 1, false)
  {
    assert [Frost][..0] == [];
    assert FindBy([BobRow, CharlieRow], ByEmail("bob@example.com")) == Some(0);
    ApplyBulkItem(BobRow, "Robert Frost", "bob@example.com", "212-123-2222", "internal");
    assert !Clash(FrostRow, CharlieRow);
    assert [BobRow, CharlieRow][0 := FrostRow] == [FrostRow, CharlieRow];
  }

  /** The two batches in sequence: the second keeps two rows, and the row
      with Bob's email now carries the new name and source under its old id. */
  lemma BulkCreateThenUpdate()
    ensures var first := Run([], 0, [Bob, Charlie]);
      var second := Run(first.rows, first.nextId, [Frost]);
      && |first.rows| == 2 && |second.rows| == 2
      && second.rows[0].email == Some("bob@example.com")
      && second.rows[0].fullName == "Robert Frost" && second.rows[0].source == "internal"
      && second.rows[0].id == first.rows[0].id
      && second.rows[1] == first.rows[1]
  {
    BulkCreatesTwo();
    BulkUpdatesByEmail();
  }

  /** The items of the "partial failure" batch of the tests, and the rows
      they become. */
  const Good: Item := map[FullNameCol := Str("Good Professional"), PhoneCol := Str("212-555-7777"), SourceCol := Str("direct")]
  const Bad: Item := map[FullNameCol := Str("Bad Professional"), EmailCol := Str("invalid"), PhoneCol := Str("")]
  const GoodRow: Professional := Professional(0, "Good Professional", None, Some("212-555-7777"), "", "", "direct")
  const BadRow: Professional := Professional(1, "Bad Professional", Some("invalid"), Some(""), "", "", "")

  /** In the "partial failure" batch the second item's email `"invalid"` is
      truthy, so it is upserted by that email like the first item (looked up
      by phone); neither goes to `errors`: the bulk path does no format
      validation. */
  lemma BulkNoFormatValidation()
    ensures var r := Run([], 0, [Good, Bad]);
      && !r.failed && StatusOf(Respond(r)) == StatusMultiStatus
      && r.errors == []
      && r.results == [Entry(Good, StatusCreated), Entry(Bad, StatusCreated)]
      && r.rows[0].fullName == "Good Professional" && r.rows[0].email == None
      && r.rows[1].email == Some("invalid") && r.rows[1].phone == Some("") && r.rows[1].source == ""
  {
    var items := [Good, Bad];
    assert items[..1] == [Good] && items[..2] == items;
    RunSnoc([], 0, items, 1);
    BulkCreatesGood();
    BulkAddsBad();
  }

  /** The first item, keyed by phone, creates a row without email. */
  lemma BulkCreatesGood()
    ensures Run([], 0, [Good]) == Progress([GoodRow], 1, [Entry(Good, StatusCreated)], [], 1, 0, false)
  {
    assert [Good][..0] == [];
    var lookup := ByPhone("212-555-7777");
    assert LookupOf(Good) == Some(lookup);
    assert Apply(DefaultRow(0), Good) == Some(GoodRow);
    UpsertInserts([], 0, lookup, Good, GoodRow);
    StepUpserts(Start([], 0), Good, lookup);
  }

  /** The second item, keyed by its malformed email, is created too. */
  lemma BulkAddsBad()
    ensures Step(Progress([GoodRow], 1, [Entry(Good, StatusCreated)], [], 1, 0, false), Bad) ==
      Progress([GoodRow, BadRow], 2, [Entry(Good, StatusCreated), Entry(Bad, StatusCreated)], [], 2, 0, false)
  {
    var p1 := Progress([GoodRow], 1, [Entry(Good, StatusCreated)], [], 1, 0, false);
    var lookup := ByEmail("invalid");
    assert LookupOf(Bad) == Some(lookup);
    assert FindBy(p1.rows, lookup) == None;
    assert Apply(DefaultRow(1), Bad) == Some(BadRow);
    assert FitsColumns(BadRow) && !Clash(BadRow, GoodRow);
    assert Admissible(p1.rows, |p1.rows|, BadRow);
    UpsertInserts(p1.rows, 1, lookup, Bad, BadRow);
    assert p1.rows + [BadRow] == [GoodRow, BadRow];
    StepUpserts(p1, Bad, lookup);
  }

  /** Two items keyed by different phones that both send `"email": ""`.
      The empty string is falsy, so it is not the key, but it is stored as
      it is, not as `NULL`. */
  const Ann: Item := BulkItem("Ann", "", "212-555-0001", "direct")
  const Ben: Item := BulkItem("Ben", "", "212-555-0002", "partner")
  const AnnRow: Professional := Professional(0, "Ann", Some(""), Some("212-555-0001"), "", "", "direct")
  const BenRow: Professional := Professional(1, "Ben", Some(""), Some("212-555-0002"), "", "", "partner")

  /** The second blank email collides with the first on the unique email
      index, so the batch ends with a 500 while the first row stays
      written. */
  lemma BlankEmailsCollide()
    ensures var r := Run([], 0, [Ann, Ben]);
      && r.failed && StatusOf(Respond(r)) == StatusServerError
      && r.rows == [AnnRow]
  {
    var items := [Ann, Ben];
    assert items[..1] == [Ann] && items[..2] == items;
    RunSnoc([], 0, items, 1);
    BulkCreatesAnn();
    BulkRefusesBen();
  }

  /** The first item, keyed by phone, creates a row whose email is `""`. */
  lemma BulkCreatesAnn()
    ensures Run([], 0, [Ann]) == Progress([AnnRow], 1, [Entry(Ann, StatusCreated)], [], 1, 0, false)
  {
    assert [Ann][..0] == [];
    var lookup := ByPhone("212-555-0001");
    assert LookupOf(Ann) == Some(lookup);
    ApplyBulkItem(DefaultRow(0), "Ann", "", "212-555-0001", "direct");
    assert DefaultRow(0).(fullName := "Ann", email := Some(""), phone := Some("212-555-0001"), source := "direct") == AnnRow;
    UpsertInserts([], 0, lookup, Ann, AnnRow);
    StepUpserts(Start([], 0), Ann, lookup);
  }

  /** The second item matches no phone, and its new row is refused. */
  lemma BulkRefusesBen()
    ensures Step(Progress([AnnRow], 1, [Entry(Ann, StatusCreated)], [], 1, 0, false), Ben).failed
    ensures Step(Progress([AnnRow], 1, [Entry(Ann, StatusCreated)], [], 1, 0, false), Ben).rows == [AnnRow]
  {
    var p1 := Progress([AnnRow], 1, [Entry(Ann, StatusCreated)], [], 1, 0, false);
    var lookup := ByPhone("212-555-0002");
    assert LookupOf(Ben) == Some(lookup);
    assert FindBy(p1.rows, lookup) == None;
    ApplyBulkItem(DefaultRow(1), "Ben", "", "212-555-0002", "partner");
    assert DefaultRow(1).(fullName := "Ben", email := Some(""), phone := Some("212-555-0002"), source := "partner") == BenRow;
    assert Clash(BenRow, AnnRow);
    assert !Admissible(p1.rows, |p1.rows|, BenRow);
    assert Upsert(p1.rows, 1, lookup, Ben) == Refused;
    StepUpserts(p1, Ben, lookup);
  }
}
