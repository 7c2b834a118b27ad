/** How the frontend and the backend fit together: the filter values the
    table offers and the sources the form offers are the model's choices,
    and the URL the table requests for a filter makes the list endpoint
    answer with exactly the rows of that filter. */
module Integration {
  import opened Wrappers
  import Models
  import Views
  import Api
  import Form
  import ListView

  /** The form's select offers exactly the model's `SOURCE_CHOICES`, and
      the table's filter offers those plus "All Sources". */
  lemma OptionsMatchChoices()
    ensures Form.Sources == Models.SourceChoices
    ensures ListView.FilterOptions == [""] + Models.SourceChoices
    ensures forall s :: s in Form.Sources <==> Models.ParseSource(s).Some?
  {
  }

  /** The table's request for filter `f`, read by `get_queryset` (Django's
      `QueryDict.get`), selects every row when `f` is "All Sources" and the
      rows of source `f` otherwise. */
  lemma FilterReachesBackend(apiBase: string, rows: seq<Models.Professional>, f: string)
    requires '?' !in apiBase && '#' !in apiBase
    requires f in ListView.FilterOptions
    ensures var answer := Views.ListQuery(rows, Api.ServerParam(Api.ListUrl(apiBase, Some(f)), "source"));
            && (f == "" ==> answer == rows)
            && (f != "" ==> forall p :: p in answer <==> p in rows && p.source == f)
  {
    if f == "" {
      Api.UnscopedHasNoSourceParam(apiBase, Some(f));
    } else {
      assert f in Models.SourceChoices;
      Api.SourceParamRoundTrip(apiBase, f);
    }
  }

  /** Whatever a mounted table's filter holds, the request it makes for it
      is answered with the rows of that filter. */
  lemma TableRequestReachesBackend(t: ListView.ProfessionalsTable, rows: seq<Models.Professional>)
    requires t.Valid()
    requires '?' !in t.apiBase && '#' !in t.apiBase
    ensures var answer := Views.ListQuery(rows, Api.ServerParam(Api.ListUrl(t.apiBase, Some(t.source)), "source"));
            && (t.source == "" ==> answer == rows)
            && (t.source != "" ==> forall p :: p in answer <==> p in rows && p.source == t.source)
  {
    FilterReachesBackend(t.apiBase, rows, t.source);
  }

  /** Whatever a mounted form's draft holds, the source it sends is one the
      create endpoint accepts and one of the table's filters, so a record
      created from it is listed under that filter. */
  lemma SubmittedSourceIsFilterable(c: Form.ProfessionalForm)
    requires c.Valid()
    ensures Form.PayloadOf(c.form)["source"] == c.form.source
    ensures c.form.source in ListView.FilterOptions && c.form.source != ""
    ensures Models.ParseSource(c.form.source).Some?
    ensures Views.SourceErrors(map[Views.SourceCol := Views.Str(c.form.source)]) == {}
  {
    assert Form.WireName(Form.Source) == "source";
  }
}
