/** The "Add Professional" form: a six-field draft edited one field at a
    time and posted to the create endpoint. The browser's own check of the
    `required` inputs decides whether a submit event reaches the handler;
    the server's answer to the POST is a parameter (`Outcome`), and the
    `alert` the handler shows is returned as a `Notice`. */
module Form {
  import Api

  /** The `name` attributes of the six inputs. */
  datatype FieldName = FullName | Email | CompanyName | JobTitle | Phone | Source

  /** The key a field is sent under (the input's `name`). */
  function WireName(f: FieldName): string
  {
    match f
    case FullName => "full_name"
    case Email => "email"
    case CompanyName => "company_name"
    case JobTitle => "job_title"
    case Phone => "phone"
    case Source => "source"
  }

  /** Different fields are sent under different keys. */
  lemma WireNamesDistinct(f: FieldName, g: FieldName)
    requires f != g
    ensures WireName(f) != WireName(g)
  {
  }

  /** The form's state: every field is a string, the select included. */
  datatype Draft = Draft(
    fullName: string,
    email: string,
    companyName: string,
    jobTitle: string,
    phone: string,
    source: string)
  {
    function Get(f: FieldName): string
    {
      match f
      case FullName => fullName
      case Email => email
      case CompanyName => companyName
      case JobTitle => jobTitle
      case Phone => phone
      case Source => source
    }

    /** `{ ...form, [name]: value }`: the field `f` becomes `v`, the other
        five keep their values. */
    function With(f: FieldName, v: string): (d: Draft)
      ensures d.Get(f) == v
      ensures forall g :: g != f ==> d.Get(g) == Get(g)
    {
      match f
      case FullName => this.(fullName := v)
      case Email => this.(email := v)
      case CompanyName => this.(companyName := v)
      case JobTitle => this.(jobTitle := v)
      case Phone => this.(phone := v)
      case Source => this.(source := v)
    }
  }

  /** Two drafts that agree on every field are the same draft. */
  lemma DraftByFields(d: Draft, e: Draft)
    requires forall f :: d.Get(f) == e.Get(f)
    ensures d == e
  {
    assert d.Get(FullName) == e.Get(FullName);
    assert d.Get(Email) == e.Get(Email);
    assert d.Get(CompanyName) == e.Get(CompanyName);
    assert d.Get(JobTitle) == e.Get(JobTitle);
    assert d.Get(Phone) == e.Get(Phone);
    assert d.Get(Source) == e.Get(Source);
  }

  /** Setting a field to the value it already holds changes nothing, and a
      second change of the same field overrides the first. */
  lemma WithLaws(d: Draft, f: FieldName, v: string, w: string)
    ensures d.With(f, d.Get(f)) == d
    ensures d.With(f, v).With(f, w) == d.With(f, w)
  {
    DraftByFields(d.With(f, d.Get(f)), d);
    DraftByFields(d.With(f, v).With(f, w), d.With(f, w));
  }

  /** Changes of two different fields commute. */
  lemma WithCommutes(d: Draft, f: FieldName, v: string, g: FieldName, w: string)
    requires f != g
    ensures d.With(f, v).With(g, w) == d.With(g, w).With(f, v)
  {
    DraftByFields(d.With(f, v).With(g, w), d.With(g, w).With(f, v));
  }

  /** The options of the `source` select. */
  const Sources: seq<string> := ["direct", "partner", "internal"]

  /** The draft the form starts with and returns to after a successful
      submit. */
  const InitialDraft: Draft := Draft("", "", "", "", "", "direct")

  /** Five fields start empty and the select starts on its first option. */
  lemma InitialDraftShape()
    ensures forall f :: f != Source ==> InitialDraft.Get(f) == ""
    ensures InitialDraft.Get(Source) == Sources[0] == "direct"
  {
  }

  /** The JSON object `createProfessional(form)` sends. */
  type Payload = map<string, string>

  function PayloadOf(d: Draft): (m: Payload)
    ensures forall f :: WireName(f) in m && m[WireName(f)] == d.Get(f)
    ensures forall k :: k in m ==> exists f :: WireName(f) == k
  {
    assert WireName(FullName) == "full_name" && WireName(Email) == "email";
    assert WireName(CompanyName) == "company_name" && WireName(JobTitle) == "job_title";
    assert WireName(Phone) == "phone" && WireName(Source) == "source";
    map["full_name" := d.fullName, "email" := d.email, "company_name" := d.companyName,
        "job_title" := d.jobTitle, "phone" := d.phone, "source" := d.source]
  }

  /** The payload has exactly the six keys. */
  lemma PayloadKeys(d: Draft)
    ensures PayloadOf(d).Keys ==
            {"full_name", "email", "company_name", "job_title", "phone", "source"}
  {
  }

  /** The payload carries the draft verbatim: different drafts are sent as
      different objects. */
  lemma PayloadVerbatim(d: Draft, e: Draft)
    requires PayloadOf(d) == PayloadOf(e)
    ensures d == e
  {
    forall f: FieldName
      ensures d.Get(f) == e.Get(f)
    {
      assert PayloadOf(d)[WireName(f)] == PayloadOf(e)[WireName(f)];
    }
    DraftByFields(d, e);
  }

  /** The `required` attribute on Full Name and Email: the browser blocks a
      submit while either is the empty string. */
  predicate RequiredFilled(d: Draft)
  {
    d.fullName != "" && d.email != ""
  }

  /** How the POST of the create endpoint settles: resolved or rejected. */
  datatype Outcome = Success | Failure

  /** The alert the handler shows. */
  datatype Notice = Added | AddFailed

  /** The text of the alert. */
  function Message(n: Notice): string
  {
    match n
    case Added => "\U{2705} Professional added successfully!"
    case AddFailed => "\U{274C} Failed to add professional."
  }

  /** The two alerts can be told apart: their texts differ, already in the
      first character. */
  lemma AlertsDiffer()
    ensures Message(Added) != Message(AddFailed)
    ensures Message(Added)[0] != Message(AddFailed)[0]
  {
  }

  /** What one press of the submit button leads to: nothing, or the request
      sent and the alert shown once it settles. */
  datatype Submission = NotSent | Sent(request: Api.HttpRequest<Payload>, notice: Notice)

  /** The `ProfessionalForm` component; `form` is its one piece of state. */
  class ProfessionalForm {
    const apiBase: string
    var form: Draft

    /** The select is the only way to set `source`, so the draft always
        holds one of its options. */
    ghost predicate Valid()
      reads this
    {
      form.source in Sources
    }

    constructor(apiBase: string)
      ensures Valid()
      ensures this.apiBase == apiBase
      ensures form == InitialDraft
    {
      this.apiBase := apiBase;
      form := InitialDraft;
    }

    /** `handleChange`: the input named `f` now holds `value`. A text
        input can deliver any string; the select only one of its options. */
    method HandleChange(f: FieldName, value: string)
      requires Valid()
      requires f == Source ==> value in Sources
      modifies this
      ensures Valid()
      ensures form == old(form).With(f, value)
      ensures form.Get(f) == value
      ensures forall g :: g != f ==> form.Get(g) == old(form).Get(g)
    {
      form := form.With(f, value);
    }

    /** `handleSubmit`: posts the draft as it is; on success shows the
        success alert and resets the draft, on failure shows the failure
        alert and keeps it. */
    method HandleSubmit(outcome: Outcome) returns (request: Api.HttpRequest<Payload>, notice: Notice)
      requires Valid()
      modifies this
      ensures Valid()
      ensures request == Api.CreateRequest(apiBase, PayloadOf(old(form)))
      ensures outcome == Success ==> notice == Added && form == InitialDraft
      ensures outcome == Failure ==> notice == AddFailed && form == old(form)
    {
      request := Api.CreateRequest(apiBase, PayloadOf(form));
      match outcome {
        case Success =>
          notice := Added;
          form := InitialDraft;
        case Failure =>
          notice := AddFailed;
      }
    }

    /** A press of the submit button: the browser's required-field check,
        then `handleSubmit` when it passes. */
    method Submit(outcome: Outcome) returns (s: Submission)
      requires Valid()
      modifies this
      ensures Valid()
      ensures !RequiredFilled(old(form)) ==> s == NotSent && form == old(form)
      ensures RequiredFilled(old(form)) ==>
                && s == Sent(Api.CreateRequest(apiBase, PayloadOf(old(form))),
                             if outcome == Success then Added else AddFailed)
                && form == (if outcome == Success then InitialDraft else old(form))
    {
      if !RequiredFilled(form) {
        return NotSent;
      }
      var request, notice := HandleSubmit(outcome);
      s := Sent(request, notice);
    }
  }

  /** Typing every field of a fresh form and choosing a source, the draft
      of the payload scenario in the component's tests. */
  const TypedDraft: Draft :=
    Draft("Jane Smith", "jane@example.com", "Design Co", "Designer", "987-654-3210", "partner")

  /** Filling a fresh form field by field and submitting sends exactly the
      typed values under the six keys; on success the form is blank again. */
  method FillAndSubmit(apiBase: string, outcome: Outcome) returns (s: Submission, after: Draft)
    ensures s.Sent?
    ensures s.request == Api.Post(apiBase + "/professionals/",
              map["full_name" := "Jane Smith", "email" := "jane@example.com",
                  "company_name" := "Design Co", "job_title" := "Designer",
                  "phone" := "987-654-3210", "source" := "partner"])
    ensures outcome == Success ==> s.notice == Added && after == InitialDraft
    ensures outcome == Failure ==> s.notice == AddFailed && after == TypedDraft
  {
    var c := new ProfessionalForm(apiBase);
    c.HandleChange(FullName, "Jane Smith");
    c.HandleChange(Email, "jane@example.com");
    c.HandleChange(CompanyName, "Design Co");
    c.HandleChange(JobTitle, "Designer");
    c.HandleChange(Phone, "987-654-3210");
    c.HandleChange(Source, "partner");
    assert c.form == TypedDraft;
    s := c.Submit(outcome);
    after := c.form;
  }

  /** Pressing submit on an untouched form sends nothing. */
  method SubmitUntouched(apiBase: string, outcome: Outcome) returns (s: Submission, after: Draft)
    ensures s == NotSent && after == InitialDraft
  {
    var c := new ProfessionalForm(apiBase);
    s := c.Submit(outcome);
    after := c.form;
  }
}
