/** The `ProfessionalsTable` component: a source filter, the list last
    fetched for it, and the rows rendered from that list. The HTTP client
    is a parameter: `server(url)` is the list the GET of `url` resolves
    with, or `None` when it rejects. */
module ListView {
  import opened Wrappers
  import Types
  import Api

  /** The values of the filter's menu items: "All Sources" and the three
      sources. */
  const FilterOptions: seq<string> := ["", "direct", "partner", "internal"]

  /** The six columns of the table, left to right. */
  datatype Column = FullNameCol | EmailCol | CompanyCol | JobTitleCol | PhoneCol | SourceCol

  const Columns: seq<Column> := [FullNameCol, EmailCol, CompanyCol, JobTitleCol, PhoneCol, SourceCol]

  /** The header cell of a column. */
  function Title(c: Column): string
  {
    match c
    case FullNameCol => "Full Name"
    case EmailCol => "Email"
    case CompanyCol => "Company"
    case JobTitleCol => "Job Title"
    case PhoneCol => "Phone"
    case SourceCol => "Source"
  }

  const Headers: seq<string> := ["Full Name", "Email", "Company", "Job Title", "Phone", "Source"]

  /** What React renders for an optional property: the text, or nothing. */
  function Shown(s: Option<string>): string
  {
    match s
    case Some(t) => t
    case None => ""
  }

  /** The body cell of column `c` in the row of `p`. */
  function Cell(p: Types.Professional, c: Column): string
  {
    match c
    case FullNameCol => p.fullName
    case EmailCol => Shown(p.email)
    case CompanyCol => Shown(p.companyName)
    case JobTitleCol => Shown(p.jobTitle)
    case PhoneCol => Shown(p.phone)
    case SourceCol => p.source
  }

  /** The row of one professional: one cell per column, in header order. */
  function Row(p: Types.Professional): (r: seq<string>)
    ensures |r| == |Columns| == |Headers|
    ensures forall i :: 0 <= i < |r| ==> r[i] == Cell(p, Columns[i])
  {
    [p.fullName, Shown(p.email), Shown(p.companyName), Shown(p.jobTitle), Shown(p.phone), p.source]
  }

  /** Each header names the column whose cells sit under it, and each
      column appears once. */
  lemma HeadersNameColumns()
    ensures |Headers| == |Columns|
    ensures forall i :: 0 <= i < |Columns| ==> Headers[i] == Title(Columns[i])
    ensures forall i, j :: 0 <= i < j < |Columns| ==> Columns[i] != Columns[j]
    ensures forall c :: c in Columns
  {
    forall c: Column
      ensures c in Columns
    {
      match c
      case FullNameCol => assert Columns[0] == c;
      case EmailCol => assert Columns[1] == c;
      case CompanyCol => assert Columns[2] == c;
      case JobTitleCol => assert Columns[3] == c;
      case PhoneCol => assert Columns[4] == c;
      case SourceCol => assert Columns[5] == c;
    }
  }

  /** `professionals.map(...)`: one row per professional, in list order. */
  function Rows(ps: seq<Types.Professional>): (rows: seq<seq<string>>)
    ensures |rows| == |ps|
    ensures forall i :: 0 <= i < |ps| ==> rows[i] == Row(ps[i])
  {
    if ps == [] then [] else [Row(ps[0])] + Rows(ps[1..])
  }

  /** Rendering distributes over concatenation of lists. */
  lemma {:induction false} RowsAppend(ps: seq<Types.Professional>, qs: seq<Types.Professional>)
    ensures Rows(ps + qs) == Rows(ps) + Rows(qs)
    decreases |ps|
  {
    if ps == [] {
      assert ps + qs == qs;
    } else {
      assert (ps + qs)[1..] == ps[1..] + qs;
      RowsAppend(ps[1..], qs);
    }
  }

  /** The GET a URL is answered with; `None` is a rejected request. */
  type Server = string -> Option<seq<Types.Professional>>

  /** The component's state: `professionals` and `source`. */
  class ProfessionalsTable {
    const apiBase: string
    var professionals: seq<Types.Professional>
    var source: string

    /** The filter is a `Select`, so it always holds one of its options. */
    ghost predicate Valid()
      reads this
    {
      source in FilterOptions
    }

    /** The first render: an empty list and no filter. */
    constructor(apiBase: string)
      ensures Valid()
      ensures this.apiBase == apiBase
      ensures professionals == [] && source == ""
    {
      this.apiBase := apiBase;
      professionals := [];
      source := "";
    }

    /** The rows on screen. */
    function Rendered(): (rows: seq<seq<string>>)
      reads this
      ensures |rows| == |professionals|
      ensures forall i :: 0 <= i < |rows| ==> rows[i] == Row(professionals[i])
    {
      Rows(professionals)
    }

    /** The effect keyed on `source`: fetch the list for the current filter
        and replace the held list with the answer. A rejected fetch is not
        caught, so the list stays as it was. */
    method Effect(server: Server) returns (url: string)
      requires Valid()
      modifies this
      ensures Valid()
      ensures url == Api.ListUrl(apiBase, Some(old(source)))
      ensures source == old(source)
      ensures server(url).Some? ==> professionals == server(url).value
      ensures server(url).None? ==> professionals == old(professionals)
    {
      url := Api.ListUrl(apiBase, Some(source));
      match server(url) {
        case Some(list) => professionals := list;
        case None =>
      }
    }

    /** The filter's `onChange`: a new value is stored and the effect runs
        for it; choosing the value already selected fires no change. */
    method SelectSource(value: string, server: Server) returns (url: Option<string>)
      requires Valid()
      requires value in FilterOptions
      modifies this
      ensures Valid()
      ensures value == old(source) ==> url == None && professionals == old(professionals)
      ensures source == value
      ensures value != old(source) ==> && url == Some(Api.ListUrl(apiBase, Some(value)))
                                       && (server(url.value).Some? ==> professionals == server(url.value).value)
                                       && (server(url.value).None? ==> professionals == old(professionals))
    {
      if value == source {
        return None;
      }
      source := value;
      var u := Effect(server);
      url := Some(u);
    }
  }

  /** Mounting the table, filtering by `f` and then choosing "All Sources"
      leaves the unscoped answer on screen, whatever the filtered answer
      was. */
  method FilterThenClear(apiBase: string, f: string, server: Server)
    returns (shown: seq<Types.Professional>, urls: seq<string>)
    requires f in FilterOptions && f != ""
    requires server(Api.ListUrl(apiBase, None)).Some?
    ensures urls == [Api.ListUrl(apiBase, None), Api.ListUrl(apiBase, Some(f)), Api.ListUrl(apiBase, None)]
    ensures shown == server(Api.ListUrl(apiBase, None)).value
  {
    var t := new ProfessionalsTable(apiBase);
    var u0 := t.Effect(server);
    var u1 := t.SelectSource(f, server);
    var u2 := t.SelectSource("", server);
    urls := [u0, u1.value, u2.value];
    shown := t.professionals;
  }
}
