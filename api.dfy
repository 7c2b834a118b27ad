/** The frontend's API helpers: the URLs `getProfessionals` and
    `createProfessional` request, and how a query parameter is read back
    from a list URL, both by `URLSearchParams.get` (the tests' mock server)
    and by Django's `QueryDict.get` (the list endpoint). The HTTP client
    itself is not modelled; a call is the request it would send. */
module Api {
  import opened Wrappers

  const ProfessionalsPath: string := "/professionals/"
  const SourceQuery: string := "?source="

  /** JavaScript truthiness of an optional string: neither `undefined`
      nor `''`. */
  predicate Present(s: Option<string>)
  {
    s.Some? && s.value != ""
  }

  /** The collection URL, which `createProfessional` posts to. */
  function CreateUrl(apiBase: string): (url: string)
    ensures |url| == |apiBase| + |ProfessionalsPath| && url[..|apiBase|] == apiBase
    ensures url[|apiBase|..] == ProfessionalsPath
  {
    apiBase + ProfessionalsPath
  }

  /** The URL `getProfessionals(source)` requests: `source` is inserted
      as it is, without URL encoding. */
  function ListUrl(apiBase: string, source: Option<string>): (url: string)
    ensures CreateUrl(apiBase) <= url
    ensures !Present(source) ==> url == CreateUrl(apiBase)
    ensures Present(source) ==> url == CreateUrl(apiBase) + SourceQuery + source.value
  {
    if Present(source) then apiBase + ProfessionalsPath + SourceQuery + source.value
    else apiBase + ProfessionalsPath
  }

  /** The one request the frontend builds as a value: `createProfessional`'s
      POST. The table's GET is its URL alone (`ListUrl`). */
  datatype HttpRequest<B> = Post(url: string, body: B)

  /** `createProfessional(data)`: a POST of `data`, unchanged, to the
      collection URL. */
  function CreateRequest<B>(apiBase: string, data: B): (r: HttpRequest<B>)
    ensures r.body == data && r.url == CreateUrl(apiBase)
  {
    Post(CreateUrl(apiBase), data)
  }

  // ---------------------------------------------------------------------
  // Reading a query parameter back (what `URLSearchParams.get` does,
  // without percent-decoding)
  // ---------------------------------------------------------------------

  /** The first position of `c` in `s`. */
  function IndexOf(s: string, c: char): (r: Option<nat>)
    ensures r.Some? ==> r.value < |s| && s[r.value] == c && c !in s[..r.value]
    ensures r.None? ==> c !in s
  {
    if s == [] then None
    else if s[0] == c then Some(0)
    else match IndexOf(s[1..], c)
      case None => None
      case Some(k) =>
        assert s[..k + 1] == [s[0]] + s[1..][..k];
        Some(k + 1)
  }

  /** `IndexOf` finds the first occurrence: any position holding `c` with no
      earlier `c` is the answer. */
  lemma IndexOfFirst(s: string, c: char, k: nat)
    requires k < |s| && s[k] == c && c !in s[..k]
    ensures IndexOf(s, c) == Some(k)
  {
    var r := IndexOf(s, c);
    assert s[..k + 1][k] == c;
  }

  /** `s` cut into the pieces between occurrences of `sep`. */
  function Split(s: string, sep: char): (parts: seq<string>)
    ensures |parts| >= 1
    ensures sep !in s ==> parts == [s]
    decreases |s|
  {
    match IndexOf(s, sep)
    case None => [s]
    case Some(i) => [s[..i]] + Split(s[i + 1..], sep)
  }

  /** The text after the first `?` and before any `#` (empty without `?`). */
  function Query(url: string): string
  {
    var beforeFragment := match IndexOf(url, '#') case None => url case Some(j) => url[..j];
    match IndexOf(beforeFragment, '?')
    case None => ""
    case Some(i) => beforeFragment[i + 1..]
  }

  /** The name of a `name=value` pair: the text before the first `=`. */
  function PairName(pair: string): string
  {
    match IndexOf(pair, '=')
    case None => pair
    case Some(i) => pair[..i]
  }

  /** The value of a `name=value` pair: the text after the first `=`. */
  function PairText(pair: string): string
  {
    match IndexOf(pair, '=')
    case None => ""
    case Some(i) => pair[i + 1..]
  }

  /** The value of the first pair named `name`: `URLSearchParams.get`. */
  function PairValue(pairs: seq<string>, name: string): (r: Option<string>)
    ensures r.Some? ==> exists i :: 0 <= i < |pairs| && PairName(pairs[i]) == name && PairText(pairs[i]) == r.value
    ensures r.None? ==> forall i :: 0 <= i < |pairs| ==> PairName(pairs[i]) != name
  {
    if pairs == [] then None
    else if PairName(pairs[0]) == name then Some(PairText(pairs[0]))
    else
      var r := PairValue(pairs[1..], name);
      assert forall i :: 1 <= i < |pairs| ==> pairs[1..][i - 1] == pairs[i];
      r
  }

  /** Position `i` holds the first pair named `name`. */
  predicate FirstNamedAt(pairs: seq<string>, name: string, i: int)
  {
    && 0 <= i < |pairs| && PairName(pairs[i]) == name
    && forall k :: 0 <= k < i ==> PairName(pairs[k]) != name
  }

  /** `PairValue` answers with the FIRST pair of that name: every earlier
      pair has another name. */
  lemma {:induction false} PairValueIsFirst(pairs: seq<string>, name: string)
    ensures PairValue(pairs, name).Some? ==>
      exists i :: FirstNamedAt(pairs, name, i) && PairText(pairs[i]) == PairValue(pairs, name).value
  {
    if pairs == [] {
    } else if PairName(pairs[0]) == name {
      assert FirstNamedAt(pairs, name, 0);
    } else {
      var rest := pairs[1..];
      assert PairValue(pairs, name) == PairValue(rest, name);
      PairValueIsFirst(rest, name);
      if PairValue(rest, name).Some? {
        var i :| FirstNamedAt(rest, name, i) && PairText(rest[i]) == PairValue(rest, name).value;
        FirstNamedExtends(pairs, name, i);
      }
    }
  }

  /** The first pair named `name` after a first pair of another name is the
      first one of the whole sequence. */
  lemma FirstNamedExtends(pairs: seq<string>, name: string, i: int)
    requires pairs != [] && PairName(pairs[0]) != name
    requires FirstNamedAt(pairs[1..], name, i)
    ensures FirstNamedAt(pairs, name, i + 1) && pairs[i + 1] == pairs[1..][i]
  {
    var rest := pairs[1..];
    forall k | 0 <= k < i + 1
      ensures PairName(pairs[k]) != name
    {
      if k > 0 {
        assert pairs[k] == rest[k - 1];
      }
    }
  }

  /** A pair `name=value` whose name has no `=` splits back into the two. */
  lemma PairSplits(name: string, value: string)
    requires '=' !in name
    ensures PairName(name + "=" + value) == name
    ensures PairText(name + "=" + value) == value
  {
    var pair := name + "=" + value;
    assert pair[..|name|] == name;
    IndexOfFirst(pair, '=', |name|);
    assert pair[|name| + 1..] == value;
  }

  /** The value of the last pair named `name`: Django's `QueryDict.get`,
      which keeps every value of a repeated key and answers with the last. */
  function LastPairValue(pairs: seq<string>, name: string): (r: Option<string>)
    ensures r.Some? ==> exists i :: 0 <= i < |pairs| && PairName(pairs[i]) == name && PairText(pairs[i]) == r.value
    ensures r.None? ==> forall i :: 0 <= i < |pairs| ==> PairName(pairs[i]) != name
    decreases |pairs|
  {
    if pairs == [] then None
    else if PairName(pairs[|pairs| - 1]) == name then Some(PairText(pairs[|pairs| - 1]))
    else
      var r := LastPairValue(pairs[..|pairs| - 1], name);
      assert forall i :: 0 <= i < |pairs| - 1 ==> pairs[..|pairs| - 1][i] == pairs[i];
      r
  }

  /** Position `i` holds the last pair named `name`. */
  predicate LastNamedAt(pairs: seq<string>, name: string, i: int)
  {
    && 0 <= i < |pairs| && PairName(pairs[i]) == name
    && forall k :: i < k < |pairs| ==> PairName(pairs[k]) != name
  }

  /** `LastPairValue` answers with the LAST pair of that name: every later
      pair has another name. */
  lemma {:induction false} LastPairValueIsLast(pairs: seq<string>, name: string)
    ensures LastPairValue(pairs, name).Some? ==>
      exists i :: LastNamedAt(pairs, name, i) && PairText(pairs[i]) == LastPairValue(pairs, name).value
    decreases |pairs|
  {
    if pairs == [] {
    } else if PairName(pairs[|pairs| - 1]) == name {
      assert LastNamedAt(pairs, name, |pairs| - 1);
    } else {
      var init := pairs[..|pairs| - 1];
      assert LastPairValue(pairs, name) == LastPairValue(init, name);
      LastPairValueIsLast(init, name);
      if LastPairValue(init, name).Some? {
        var i :| LastNamedAt(init, name, i) && PairText(init[i]) == LastPairValue(init, name).value;
        LastNamedExtends(pairs, name, i);
      }
    }
  }

  /** The last pair named `name` before a last pair of another name is the
      last one of the whole sequence. */
  lemma LastNamedExtends(pairs: seq<string>, name: string, i: int)
    requires pairs != [] && PairName(pairs[|pairs| - 1]) != name
    requires LastNamedAt(pairs[..|pairs| - 1], name, i)
    ensures LastNamedAt(pairs, name, i) && pairs[i] == pairs[..|pairs| - 1][i]
  {
    var init := pairs[..|pairs| - 1];
    forall k | i < k < |pairs|
      ensures PairName(pairs[k]) != name
    {
      if k < |pairs| - 1 {
        assert pairs[k] == init[k];
      }
    }
  }

  /** A URL without `?` has an empty query part. */
  lemma NoMarkNoQuery(url: string)
    ensures '?' !in url ==> Query(url) == ""
  {
    if '?' !in url {
      match IndexOf(url, '#')
      case None =>
      case Some(j) => assert forall k :: 0 <= k < j ==> url[..j][k] == url[k];
    }
  }

  /** An empty query is one pair, with an empty name. */
  lemma EmptyQueryPairs()
    ensures Split("", '&') == [""] && PairName("") == ""
  {
  }

  /** The parameter `name` of `url` as the browser's `URLSearchParams`
      reads it (the first occurrence). */
  function QueryParam(url: string, name: string): (r: Option<string>)
    ensures '?' !in url && name != "" ==> r.None?
  {
    NoMarkNoQuery(url);
    EmptyQueryPairs();
    PairValue(Split(Query(url), '&'), name)
  }

  /** The parameter `name` of `url` as the list endpoint reads it
      (`request.query_params.get`, the last occurrence). */
  function ServerParam(url: string, name: string): (r: Option<string>)
    ensures '?' !in url && name != "" ==> r.None?
  {
    NoMarkNoQuery(url);
    EmptyQueryPairs();
    LastPairValue(Split(Query(url), '&'), name)
  }

  /** The query part of a scoped list URL is `source=` and the value. */
  lemma QueryOfScopedUrl(apiBase: string, s: string)
    requires '?' !in apiBase && '#' !in apiBase
    requires s != "" && '#' !in s
    ensures Query(ListUrl(apiBase, Some(s))) == "source=" + s
  {
    var url := ListUrl(apiBase, Some(s));
    var k := |apiBase| + |ProfessionalsPath|;
    assert url == (apiBase + ProfessionalsPath) + ("?source=" + s);
    assert '#' !in ProfessionalsPath + SourceQuery;
    assert '#' !in url;
    assert url[k] == '?';
    assert url[..k] == apiBase + ProfessionalsPath;
    assert '?' !in ProfessionalsPath;
    IndexOfFirst(url, '?', k);
    assert url[k + 1..] == "source=" + s;
  }

  /** The list URL's `source` parameter reads back as the value passed in,
      for a value that needs no encoding. */
  lemma SourceParamRoundTrip(apiBase: string, s: string)
    requires '?' !in apiBase && '#' !in apiBase
    requires s != "" && '&' !in s && '#' !in s && '%' !in s && '+' !in s
    ensures QueryParam(ListUrl(apiBase, Some(s)), "source") == Some(s)
    ensures ServerParam(ListUrl(apiBase, Some(s)), "source") == Some(s)
  {
    QueryOfScopedUrl(apiBase, s);
    SourceQueryValues(s);
    QueryParamOf(ListUrl(apiBase, Some(s)), "source=" + s, "source");
  }

  /** Both readers read `s` back from the query `source=s`. */
  lemma SourceQueryValues(s: string)
    requires '&' !in s
    ensures PairValue(Split("source=" + s, '&'), "source") == Some(s)
    ensures LastPairValue(Split("source=" + s, '&'), "source") == Some(s)
  {
    SourcePairSplits(s);
    SourceIsPlainName();
    NamedParam("source=" + s, "source", s);
  }

  lemma SourceIsPlainName()
    ensures '=' !in "source" && '&' !in "source"
  {
  }

  lemma NamedParam(query: string, name: string, value: string)
    requires '=' !in name && '&' !in name && '&' !in value
    requires query == name + "=" + value
    ensures PairValue(Split(query, '&'), name) == Some(value)
    ensures LastPairValue(Split(query, '&'), name) == Some(value)
  {
    OnlyParam(name, value);
  }

  lemma SourcePairSplits(s: string)
    ensures "source=" + s == "source" + "=" + s
  {
  }

  lemma QueryParamOf(url: string, query: string, name: string)
    requires Query(url) == query
    ensures QueryParam(url, name) == PairValue(Split(query, '&'), name)
    ensures ServerParam(url, name) == LastPairValue(Split(query, '&'), name)
  {
  }

  /** The value of the query `name=value`. */
  lemma OnlyParam(name: string, value: string)
    requires '=' !in name && '&' !in name && '&' !in value
    ensures PairValue(Split(name + "=" + value, '&'), name) == Some(value)
    ensures LastPairValue(Split(name + "=" + value, '&'), name) == Some(value)
  {
    var pair := name + "=" + value;
    assert '&' !in pair;
    PairSplits(name, value);
    assert Split(pair, '&') == [pair];
  }

  /** A query whose first pair holds no `&` splits into that pair and the
      pieces of the rest. */
  lemma SplitAtFirst(query: string, pair: string, rest: string)
    requires '&' !in pair && query == pair + "&" + rest
    ensures Split(query, '&') == [pair] + Split(rest, '&')
  {
    assert query[..|pair|] == pair;
    IndexOfFirst(query, '&', |pair|);
    assert query[|pair| + 1..] == rest;
  }

  /** The first parameter of a query `name=value&rest`. */
  lemma FirstOfSeveral(query: string, name: string, value: string, rest: string)
    requires '=' !in name && '&' !in name && '&' !in value
    requires query == name + "=" + value + "&" + rest
    ensures PairValue(Split(query, '&'), name) == Some(value)
  {
    var pair := name + "=" + value;
    assert query == pair + "&" + rest;
    assert '&' !in pair;
    PairSplits(name, value);
    SplitAtFirst(query, pair, rest);
  }

  /** An unscoped list URL carries no `source` parameter. */
  lemma UnscopedHasNoSourceParam(apiBase: string, source: Option<string>)
    requires '?' !in apiBase && '#' !in apiBase
    requires !Present(source)
    ensures QueryParam(ListUrl(apiBase, source), "source") == None
    ensures ServerParam(ListUrl(apiBase, source), "source") == None
  {
    var url := ListUrl(apiBase, source);
    NoQuery(apiBase);
    QueryParamOf(url, "", "source");
    assert Split("", '&') == [""];
    assert PairName("") == "";
  }

  /** The collection URL has no query part. */
  lemma NoQuery(apiBase: string)
    requires '?' !in apiBase && '#' !in apiBase
    ensures Query(CreateUrl(apiBase)) == ""
  {
    var url := CreateUrl(apiBase);
    assert url == apiBase + ProfessionalsPath;
    assert '#' !in ProfessionalsPath && '?' !in ProfessionalsPath;
    assert '#' !in url && '?' !in url;
  }

  /** Because the value is inserted unencoded, an `&` inside it starts a new
      parameter, and `URLSearchParams.get` reads back only the text before
      it. */
  lemma UnencodedAmpersandTruncates(apiBase: string, v: string, s: string, rest: string)
    requires '?' !in apiBase && '#' !in apiBase
    requires v == s + "&" + rest
    requires s != "" && '&' !in s && '#' !in s && '#' !in rest
    ensures QueryParam(ListUrl(apiBase, Some(v)), "source") == Some(s)
  {
    var url := ListUrl(apiBase, Some(v));
    var query := "source=" + v;
    assert Query(url) == query by {
      QueryOfScopedUrl(apiBase, v);
    }
    AmpersandQueryValue(s, rest);
    QueryParamOf(url, query, "source");
  }

  lemma AmpersandQueryValue(s: string, rest: string)
    requires '&' !in s
    ensures PairValue(Split("source=" + (s + "&" + rest), '&'), "source") == Some(s)
  {
    AmpersandQuerySplits(s, rest);
    FirstOfSeveral("source" + "=" + s + "&" + rest, "source", s, rest);
  }

  lemma AmpersandQuerySplits(s: string, rest: string)
    ensures "source=" + (s + "&" + rest) == "source" + "=" + s + "&" + rest
  {
  }

  /** An unencoded value that itself carries `&source=` yields two `source`
      pairs: the browser's reader takes the first, the list endpoint the
      last, so the two ends disagree on the filter. */
  lemma RepeatedSourceParam(apiBase: string, v: string, s: string, t: string)
    requires '?' !in apiBase && '#' !in apiBase
    requires v == s + "&source=" + t
    requires s != "" && '&' !in s && '#' !in s && '&' !in t && '#' !in t
    ensures QueryParam(ListUrl(apiBase, Some(v)), "source") == Some(s)
    ensures ServerParam(ListUrl(apiBase, Some(v)), "source") == Some(t)
  {
    var url := ListUrl(apiBase, Some(v));
    var query := "source=" + v;
    var first := "source" + "=" + s;
    var second := "source" + "=" + t;
    assert Query(url) == query by {
      QueryOfScopedUrl(apiBase, v);
    }
    SplitTwoSourcePairs(v, s, t);
    TwoSourcePairs(query, s, t);
    QueryParamOf(url, query, "source");
  }

  lemma TwoSourcePairs(query: string, s: string, t: string)
    requires Split(query, '&') == ["source" + "=" + s, "source" + "=" + t]
    ensures PairValue(Split(query, '&'), "source") == Some(s)
    ensures LastPairValue(Split(query, '&'), "source") == Some(t)
  {
    PairSplits("source", s);
    PairSplits("source", t);
  }

  lemma SplitTwoSourcePairs(v: string, s: string, t: string)
    requires v == s + "&source=" + t && '&' !in s && '&' !in t
    ensures Split("source=" + v, '&') == ["source" + "=" + s, "source" + "=" + t]
  {
    var first := "source" + "=" + s;
    var second := "source" + "=" + t;
    NoAmpersandPair(s);
    NoAmpersandPair(t);
    SecondPairSplits(v, s, t);
    SplitAtFirst("source=" + v, first, second);
  }

  lemma NoAmpersandPair(s: string)
    requires '&' !in s
    ensures '&' !in "source" + "=" + s
  {
  }

  lemma SecondPairSplits(v: string, s: string, t: string)
    requires v == s + "&source=" + t
    ensures "source=" + v == ("source" + "=" + s) + "&" + ("source" + "=" + t)
  {
  }
}
