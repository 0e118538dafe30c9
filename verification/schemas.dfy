/** The typed records exchanged with the language model and the extension
    (src/models/agents.py, the `Action` record of src/web/api.py and
    src/models/api.py, src/models/processors.py), and their validation from JSON as
    pydantic performs it in its default lax mode:
    - a `str` field takes only a JSON string;
    - a `Literal` field takes only one of its strings;
    - a field with a default may be absent, and the default itself is never validated;
    - an `Optional` field also takes `null`;
    - keys the record does not declare are ignored. */
module Schemas {
  import opened Wrappers

  /** A parsed JSON value. */
  datatype Json =
    | JNull
    | JBool(b: bool)
    | JNum(n: int)
    | JStr(s: string)
    | JArr(items: seq<Json>)
    | JObj(fields: map<string, Json>)

  /** The action kinds of the vocabulary; `AlertKind` exists only in the extension's `Action`. */
  datatype Kind = TypeKind | ClickKind | SelectKind | AlertKind

  function KindName(k: Kind): string {
    match k
    case TypeKind => "type"
    case ClickKind => "click"
    case SelectKind => "select"
    case AlertKind => "alert"
  }

  /** The kind a literal string names, if any. */
  function ParseKind(s: string): (r: Option<Kind>)
    ensures r.Some? ==> KindName(r.value) == s
  {
    if s == "type" then Some(TypeKind)
    else if s == "click" then Some(ClickKind)
    else if s == "select" then Some(SelectKind)
    else if s == "alert" then Some(AlertKind)
    else None
  }

  /** Every kind is named by exactly one literal and read back from it. */
  lemma KindRoundTrip(k: Kind)
    ensures ParseKind(KindName(k)) == Some(k)
  {
  }

  /** The kinds `AgentAction.action` admits. */
  predicate AgentKind(k: Kind) {
    k != AlertKind
  }

  /** A `Literal` field over kind names, restricted to `allowed`. */
  function KindField(fields: map<string, Json>, key: string, allowed: Kind -> bool): Result<Kind> {
    if key in fields && fields[key].JStr? && ParseKind(fields[key].s).Some? && allowed(ParseKind(fields[key].s).value)
    then Ok(ParseKind(fields[key].s).value)
    else Err(ValidationError)
  }

  /** A required `str` field. */
  function StrField(fields: map<string, Json>, key: string): Result<string> {
    if key in fields && fields[key].JStr? then Ok(fields[key].s) else Err(ValidationError)
  }

  /** A `str` field that may be null (`Optional`) and may be absent (a default of None). */
  function OptStrField(fields: map<string, Json>, key: string, nullable: bool, defaulted: bool): Result<Option<string>> {
    if key !in fields then (if defaulted then Ok(None) else Err(ValidationError))
    else match fields[key]
      case JStr(s) => Ok(Some(s))
      case JNull => if nullable then Ok(None) else Err(ValidationError)
      case _ => Err(ValidationError)
  }

  /** How a present-or-absent string is dumped: `None` becomes `null`. */
  function OptJson(v: Option<string>): Json {
    if v.Some? then JStr(v.value) else JNull
  }

  /** `AgentAction`: what the model proposes to answer one question. */
  datatype AgentAction = AgentAction(action: Kind, questionText: string, querySelector: string, value: Option<string>)

  /** `AgentAction.model_validate`: `action` is one of `type`, `click`, `select`;
      `question_text` and `query_selector` are required strings; `value` is optional
      and defaults to None. */
  function ParseAgentAction(j: Json): (r: Result<AgentAction>)
    ensures !j.JObj? ==> r == Err(ValidationError)
    ensures r.Ok? ==> AgentKind(r.value.action)
    ensures r.Ok? ==> "action" in j.fields && j.fields["action"] == JStr(KindName(r.value.action))
    ensures r.Ok? ==> "question_text" in j.fields && j.fields["question_text"] == JStr(r.value.questionText)
    ensures r.Ok? ==> "query_selector" in j.fields && j.fields["query_selector"] == JStr(r.value.querySelector)
    ensures r.Ok? ==> (r.value.value.None? <==> "value" !in j.fields || j.fields["value"] == JNull)
    ensures r.Ok? && r.value.value.Some? ==> j.fields["value"] == JStr(r.value.value.value)
  {
    if !j.JObj? then Err(ValidationError)
    else
      var action :- KindField(j.fields, "action", AgentKind);
      var question :- StrField(j.fields, "question_text");
      var selector :- StrField(j.fields, "query_selector");
      var value :- OptStrField(j.fields, "value", true, true);
      Ok(AgentAction(action, question, selector, value))
  }

  /** `AgentAction.model_dump`: every field, with `null` for a missing value. */
  function DumpAgentAction(a: AgentAction): Json {
    JObj(map[
      "action" := JStr(KindName(a.action)),
      "question_text" := JStr(a.questionText),
      "query_selector" := JStr(a.querySelector),
      "value" := OptJson(a.value)])
  }

  /** `JobDetails`: what the model extracts from a posting page. `title` is required;
      the others default to None, but only `location` also accepts `null`. */
  datatype JobDetails = JobDetails(
    title: string,
    location: Option<string>,
    company: Option<string>,
    salary: Option<string>,
    description: Option<string>)

  /** `JobDetails.model_validate`. */
  function ParseJobDetails(j: Json): (r: Result<JobDetails>)
    ensures !j.JObj? ==> r == Err(ValidationError)
    ensures r.Ok? ==> "title" in j.fields && j.fields["title"] == JStr(r.value.title)
    ensures r.Ok? && "company" in j.fields ==> j.fields["company"] == OptJson(r.value.company) != JNull
    ensures r.Ok? && "salary" in j.fields ==> j.fields["salary"] == OptJson(r.value.salary) != JNull
    ensures r.Ok? && "description" in j.fields ==> j.fields["description"] == OptJson(r.value.description) != JNull
    ensures r.Ok? && "location" in j.fields ==> j.fields["location"] == OptJson(r.value.location)
  {
    if !j.JObj? then Err(ValidationError)
    else
      var title :- StrField(j.fields, "title");
      var location :- OptStrField(j.fields, "location", true, true);
      var company :- OptStrField(j.fields, "company", false, true);
      var salary :- OptStrField(j.fields, "salary", false, true);
      var description :- OptStrField(j.fields, "description", false, true);
      Ok(JobDetails(title, location, company, salary, description))
  }

  /** `JobDetails.model_dump`: the five fields, `null` for each one that is None. */
  function DumpJobDetails(d: JobDetails): Json {
    JObj(map[
      "title" := JStr(d.title),
      "location" := OptJson(d.location),
      "company" := OptJson(d.company),
      "salary" := OptJson(d.salary),
      "description" := OptJson(d.description)])
  }

  /** `JobGoogleSearchQuery`: a search to run for a job board. The site is the literal
      `lever`, so the record does not carry it; all five fields are required. */
  datatype SearchQuery = SearchQuery(roleFocus: string, filters: map<string, Json>, query: string, googleSearchUrl: string)

  /** `JobGoogleSearchQuery.model_validate`. */
  function ParseSearchQuery(j: Json): (r: Result<SearchQuery>)
    ensures r.Ok? ==> j.JObj? && "site" in j.fields && j.fields["site"] == JStr("lever")
    ensures r.Ok? ==> "role_focus" in j.fields && j.fields["role_focus"] == JStr(r.value.roleFocus)
    ensures r.Ok? ==> "filters" in j.fields && j.fields["filters"] == JObj(r.value.filters)
    ensures r.Ok? ==> "query" in j.fields && j.fields["query"] == JStr(r.value.query)
    ensures r.Ok? ==> "google_search_url" in j.fields && j.fields["google_search_url"] == JStr(r.value.googleSearchUrl)
  {
    if !j.JObj? then Err(ValidationError)
    else if !("site" in j.fields && j.fields["site"] == JStr("lever")) then Err(ValidationError)
    else if !("filters" in j.fields && j.fields["filters"].JObj?) then Err(ValidationError)
    else
      var roleFocus :- StrField(j.fields, "role_focus");
      var query :- StrField(j.fields, "query");
      var url :- StrField(j.fields, "google_search_url");
      Ok(SearchQuery(roleFocus, j.fields["filters"].fields, query, url))
  }

  function DumpSearchQuery(q: SearchQuery): Json {
    JObj(map[
      "site" := JStr("lever"),
      "role_focus" := JStr(q.roleFocus),
      "filters" := JObj(q.filters),
      "query" := JStr(q.query),
      "google_search_url" := JStr(q.googleSearchUrl)])
  }

  /** The extension's `Action`: kind, selector and value; both strings are required
      keys that may be `null`. */
  datatype Action = Action(action: Kind, querySelector: Option<string>, value: Option<string>)

  /** `Action.model_validate`. */
  function ParseAction(j: Json): (r: Result<Action>)
    ensures r.Ok? ==> j.JObj? && "action" in j.fields && j.fields["action"] == JStr(KindName(r.value.action))
    ensures r.Ok? ==> "query_selector" in j.fields && j.fields["query_selector"] == OptJson(r.value.querySelector)
    ensures r.Ok? ==> "value" in j.fields && j.fields["value"] == OptJson(r.value.value)
  {
    if !j.JObj? then Err(ValidationError)
    else
      var action :- KindField(j.fields, "action", _ => true);
      var selector :- OptStrField(j.fields, "query_selector", true, false);
      var value :- OptStrField(j.fields, "value", true, false);
      Ok(Action(action, selector, value))
  }

  /** `Action.model_dump(mode="json")`. */
  function DumpAction(a: Action): Json {
    JObj(map[
      "action" := JStr(KindName(a.action)),
      "query_selector" := OptJson(a.querySelector),
      "value" := OptJson(a.value)])
  }

  /** `LeverQuestion`: an agent action paired with the question markup it answers. */
  datatype LeverQuestion = LeverQuestion(action: AgentAction, questionHtml: string)
}

/** What validation and dumping of the records promise. */
module SchemaLemmas {
  import opened Wrappers
  import opened Schemas

  /** A dumped agent action validates back to itself. */
  lemma AgentActionRoundTrip(a: AgentAction)
    requires AgentKind(a.action)
    ensures ParseAgentAction(DumpAgentAction(a)) == Ok(a)
  {
    var f := DumpAgentAction(a).fields;
    assert "action" != "question_text" && "action" != "query_selector" && "action" != "value";
    assert "question_text" != "query_selector" && "question_text" != "value" && "query_selector" != "value";
    assert f["action"] == JStr(KindName(a.action));
    KindRoundTrip(a.action);
    assert f["question_text"] == JStr(a.questionText);
    assert f["query_selector"] == JStr(a.querySelector);
    assert f["value"] == OptJson(a.value);
  }

  /** A validated agent action dumps to exactly the fields it was read from. */
  lemma AgentActionDumpAgrees(j: Json)
    requires ParseAgentAction(j).Ok?
    ensures var d := DumpAgentAction(ParseAgentAction(j).value).fields;
      forall k <- d :: k != "value" ==> k in j.fields && j.fields[k] == d[k]
  {
  }

  /** Validation accepts an object exactly when its four declared keys are well typed. */
  lemma AgentActionAccepts(fields: map<string, Json>)
    ensures ParseAgentAction(JObj(fields)).Ok? <==>
      && "action" in fields && fields["action"] in {JStr("type"), JStr("click"), JStr("select")}
      && "question_text" in fields && fields["question_text"].JStr?
      && "query_selector" in fields && fields["query_selector"].JStr?
      && ("value" in fields ==> fields["value"].JNull? || fields["value"].JStr?)
  {
    if "action" in fields && fields["action"].JStr? {
      var s := fields["action"].s;
      if ParseKind(s).Some? {
        assert s == KindName(ParseKind(s).value);
      }
    }
  }

  /** Keys the record does not declare are ignored. */
  lemma AgentActionIgnoresExtraKeys(fields: map<string, Json>, key: string, v: Json)
    requires key !in {"action", "question_text", "query_selector", "value"}
    ensures ParseAgentAction(JObj(fields[key := v])) == ParseAgentAction(JObj(fields))
  {
    var g := fields[key := v];
    assert forall k :: k in {"action", "question_text", "query_selector", "value"} ==>
      (k in g <==> k in fields) && (k in fields ==> g[k] == fields[k]);
  }

  /** A job-details record with every field set validates back to itself from its dump. */
  lemma JobDetailsRoundTrip(d: JobDetails)
    requires d.company.Some? && d.salary.Some? && d.description.Some?
    ensures ParseJobDetails(DumpJobDetails(d)) == Ok(d)
  {
    var f := DumpJobDetails(d).fields;
    assert "title" != "location" && "title" != "company" && "title" != "salary" && "title" != "description";
    assert "location" != "company" && "location" != "salary" && "location" != "description";
    assert "company" != "salary" && "company" != "description" && "salary" != "description";
    assert f["title"] == JStr(d.title) && f["location"] == OptJson(d.location);
    assert f["company"] == OptJson(d.company) && f["salary"] == OptJson(d.salary);
    assert f["description"] == OptJson(d.description);
  }

  /** `company`, `salary` and `description` default to None but do not accept `null`, so
      the dump of a record that kept one of those defaults does not validate. */
  lemma JobDetailsDefaultNotRevalidated(d: JobDetails)
    requires d.company.None? || d.salary.None? || d.description.None?
    ensures ParseJobDetails(DumpJobDetails(d)) == Err(ValidationError)
  {
    var f := DumpJobDetails(d).fields;
    assert "title" != "location" && "title" != "company" && "title" != "salary" && "title" != "description";
    assert "location" != "company" && "location" != "salary" && "location" != "description";
    assert "company" != "salary" && "company" != "description" && "salary" != "description";
    assert f["title"] == JStr(d.title) && f["location"] == OptJson(d.location);
    assert f["company"] == OptJson(d.company) && f["salary"] == OptJson(d.salary);
    assert f["description"] == OptJson(d.description);
  }

  /** Only the title is required: an object holding just a title string validates, with
      every other field None. */
  lemma JobDetailsTitleOnly(title: string)
    ensures ParseJobDetails(JObj(map["title" := JStr(title)])) == Ok(JobDetails(title, None, None, None, None))
  {
    var f := map["title" := JStr(title)];
    assert "location" !in f && "company" !in f && "salary" !in f && "description" !in f;
  }

  /** A search query validates back to itself from its dump. */
  lemma SearchQueryRoundTrip(q: SearchQuery)
    ensures ParseSearchQuery(DumpSearchQuery(q)) == Ok(q)
  {
    var f := DumpSearchQuery(q).fields;
    assert "site" != "role_focus" && "site" != "filters" && "site" != "query" && "site" != "google_search_url";
    assert "role_focus" != "filters" && "role_focus" != "query" && "role_focus" != "google_search_url";
    assert "filters" != "query" && "filters" != "google_search_url" && "query" != "google_search_url";
    assert f["site"] == JStr("lever") && f["role_focus"] == JStr(q.roleFocus);
    assert f["filters"] == JObj(q.filters) && f["query"] == JStr(q.query);
    assert f["google_search_url"] == JStr(q.googleSearchUrl);
  }

  /** A site other than `lever` is rejected whatever the other fields hold. */
  lemma SearchQueryOnlyLever(fields: map<string, Json>)
    requires "site" !in fields || fields["site"] != JStr("lever")
    ensures ParseSearchQuery(JObj(fields)) == Err(ValidationError)
  {
  }

  /** An extension action validates back to itself from its JSON dump, whatever its kind. */
  lemma ActionRoundTrip(a: Action)
    ensures ParseAction(DumpAction(a)) == Ok(a)
  {
    var f := DumpAction(a).fields;
    assert "action" != "query_selector" && "action" != "value" && "query_selector" != "value";
    assert f["action"] == JStr(KindName(a.action));
    KindRoundTrip(a.action);
    assert f["query_selector"] == OptJson(a.querySelector) && f["value"] == OptJson(a.value);
  }

  /** `Optional` without a default still requires the key: an action without `value` is rejected. */
  lemma ActionValueRequired(fields: map<string, Json>)
    requires "value" !in fields
    ensures ParseAction(JObj(fields)) == Err(ValidationError)
  {
  }
}
