/** The HTTP handlers of src/web/api.py as functions from a request body and the
    committed store to a response body. `analyze_page` normalises the page URL, looks
    the posting up with `LIKE`, and maps its stored action rows to `Action`s; `install`
    and `listings` answer with fixed or counted responses. Flask, CORS and logging are
    the environment. */
module Api {
  import opened Wrappers
  import opened Strings
  import opened Urls
  import opened Schemas
  import opened SchemaLemmas
  import opened Store

  /** The body the extension posts from an application page. */
  datatype ExtensionRequest = ExtensionRequest(url: string, html: string, timestamp: string)

  /** The body of an install call. */
  datatype InstallRequest = InstallRequest(installationId: string, resume: string, preferences: string)

  /** The body of a listings call. */
  datatype ListingsRequest = ListingsRequest(installationId: string, links: seq<string>)

  /** A present string field. */
  predicate HasStr(fields: map<string, Json>, key: string) {
    key in fields && fields[key].JStr?
  }

  /** `ExtensionRequest.model_validate`: three required strings. */
  function ParseExtensionRequest(j: Json): (r: Result<ExtensionRequest>)
    ensures r.Ok? <==> j.JObj? && HasStr(j.fields, "url") && HasStr(j.fields, "html") && HasStr(j.fields, "timestamp")
    ensures r.Ok? ==> JStr(r.value.url) == j.fields["url"] && JStr(r.value.html) == j.fields["html"]
    ensures r.Err? ==> r.error == ValidationError
  {
    if !j.JObj? then Err(ValidationError)
    else
      var url :- StrField(j.fields, "url");
      var html :- StrField(j.fields, "html");
      var timestamp :- StrField(j.fields, "timestamp");
      Ok(ExtensionRequest(url, html, timestamp))
  }

  /** `InstallRequest.model_validate`: three required strings. */
  function ParseInstallRequest(j: Json): (r: Result<InstallRequest>)
    ensures r.Ok? <==> j.JObj? && HasStr(j.fields, "installation_id") && HasStr(j.fields, "resume") && HasStr(j.fields, "preferences")
    ensures r.Err? ==> r.error == ValidationError
  {
    if !j.JObj? then Err(ValidationError)
    else
      var id :- StrField(j.fields, "installation_id");
      var resume :- StrField(j.fields, "resume");
      var preferences :- StrField(j.fields, "preferences");
      Ok(InstallRequest(id, resume, preferences))
  }

  /** A `list[str]` field: an array whose every item is a string. */
  function StrList(items: seq<Json>): (r: Result<seq<string>>)
    ensures r.Ok? <==> forall i :: 0 <= i < |items| ==> items[i].JStr?
    ensures r.Ok? ==> |r.value| == |items| && forall i :: 0 <= i < |items| ==> items[i] == JStr(r.value[i])
    ensures r.Err? ==> r.error == ValidationError
  {
    if items == [] then Ok([])
    else if !items[0].JStr? then Err(ValidationError)
    else
      var rest :- StrList(items[1..]);
      Ok([items[0].s] + rest)
  }

  /** `ListingsRequest.model_validate`: a string and a list of strings. */
  function ParseListingsRequest(j: Json): (r: Result<ListingsRequest>)
    ensures r.Ok? <==>
      && j.JObj? && HasStr(j.fields, "installation_id") && "links" in j.fields && j.fields["links"].JArr?
      && forall i :: 0 <= i < |j.fields["links"].items| ==> j.fields["links"].items[i].JStr?
    ensures r.Ok? ==>
      && JStr(r.value.installationId) == j.fields["installation_id"]
      && |r.value.links| == |j.fields["links"].items|
      && forall i :: 0 <= i < |r.value.links| ==> j.fields["links"].items[i] == JStr(r.value.links[i])
    ensures r.Err? ==> r.error == ValidationError
  {
    if !j.JObj? then Err(ValidationError)
    else
      var id :- StrField(j.fields, "installation_id");
      if "links" !in j.fields || !j.fields["links"].JArr? then Err(ValidationError)
      else
        var links :- StrList(j.fields["links"].items);
        Ok(ListingsRequest(id, links))
  }

  /** The lookup key of a page: the cleaned URL with one trailing `/apply` removed. */
  function LookupKey(url: string): Result<string> {
    var link :- CleanUrl(url);
    Ok(StripApplySuffix(link))
  }

  /** The filter `JobAnalysis.link.like(f"%{key}%")`. */
  function LinkMatches(key: string): Posting -> bool {
    (p: Posting) => Like(p.link, "%" + key + "%")
  }

  /** The dictionary built from a stored action row before validation. */
  function RowJson(row: ActionRow): Json {
    JObj(map[
      "action" := JStr(row.action),
      "query_selector" := JStr(row.querySelector),
      "value" := OptJson(row.answerText)])
  }

  /** `Action.model_validate` over the stored rows, in order; the first row whose kind
      is not one of the four raises. */
  function ActionsFromRows(rows: seq<ActionRow>): (r: Result<seq<Action>>)
    ensures r.Ok? ==> |r.value| == |rows|
    ensures r.Ok? ==> forall i :: 0 <= i < |rows| ==>
      && KindName(r.value[i].action) == rows[i].action
      && r.value[i].querySelector == Some(rows[i].querySelector)
      && r.value[i].value == rows[i].answerText
    ensures r.Err? ==> r.error == ValidationError
  {
    if rows == [] then Ok([])
    else
      var head :- ParseAction(RowJson(rows[0]));
      var rest :- ActionsFromRows(rows[1..]);
      Ok([head] + rest)
  }

  /** The actions `analyze_page` answers with: a body that does not validate raises,
      a page matching no stored link raises `IndexError`, and otherwise the first
      matching posting's action rows are validated in table order. */
  function PageActions(db: Db, body: Json): Result<seq<Action>> {
    var data :- ParseExtensionRequest(body);
    var key :- LookupKey(data.url);
    var matched := Where(db.postings, LinkMatches(key));
    if matched == [] then Err(IndexError)
    else ActionsFromRows(ActionsOf(db.actions, matched[0].id))
  }

  /** `analyze_page`: the actions, dumped as a JSON list. */
  function AnalyzePage(db: Db, body: Json): (r: Result<Json>)
    ensures r.Ok? <==> PageActions(db, body).Ok?
    ensures r.Ok? ==> r.value.JArr? && |r.value.items| == |PageActions(db, body).value|
    ensures r.Ok? ==> forall i :: 0 <= i < |r.value.items| ==>
      ParseAction(r.value.items[i]) == Ok(PageActions(db, body).value[i])
  {
    var actions :- PageActions(db, body);
    Ok(DumpActions(actions))
  }

  /** `jsonify([a.model_dump() for a in actions])`: a list that validates back, item by
      item, to the actions. */
  function DumpActions(actions: seq<Action>): (j: Json)
    ensures j.JArr? && |j.items| == |actions|
    ensures forall i :: 0 <= i < |actions| ==> ParseAction(j.items[i]) == Ok(actions[i])
  {
    assert forall a: Action :: ParseAction(DumpAction(a)) == Ok(a) by {
      forall a: Action ensures ParseAction(DumpAction(a)) == Ok(a) {
        KindRoundTrip(a.action);
      }
    }
    JArr(seq(|actions|, i requires 0 <= i < |actions| => DumpAction(actions[i])))
  }

  /** The search pages every installation is sent to. */
  const SearchUrls: seq<string> := [
    "https://www.google.com/search?q=software+engineer+jobs+remote",
    "https://www.google.com/search?q=python+developer+jobs",
    "https://www.google.com/search?q=full+stack+engineer+openings"]

  /** `install`: the fixed search pages, once the body validates. */
  function Install(body: Json): (r: Result<Json>)
    ensures r.Ok? <==> ParseInstallRequest(body).Ok?
    ensures r.Err? ==> r.error == ValidationError
  {
    var _ :- ParseInstallRequest(body);
    Ok(JObj(map["urls" := JArr(seq(|SearchUrls|, i requires 0 <= i < |SearchUrls| => JStr(SearchUrls[i])))]))
  }

  /** `listings`: a success status and the number of links posted. */
  function Listings(body: Json): (r: Result<Json>)
    ensures r.Ok? <==> ParseListingsRequest(body).Ok?
    ensures r.Ok? ==> r.value.JObj? && "status" in r.value.fields && r.value.fields["status"] == JStr("success")
    ensures r.Ok? ==> "links_received" in r.value.fields && r.value.fields["links_received"] == JNum(|body.fields["links"].items|)
  {
    var data :- ParseListingsRequest(body);
    Ok(JObj(map["status" := JStr("success"), "links_received" := JNum(|data.links|)]))
  }
}

/** What the handlers promise, proved about the model above. */
module ApiLemmas {
  import opened Wrappers
  import opened Strings
  import opened Urls
  import opened UrlLemmas
  import opened Schemas
  import opened Store
  import opened StoreLemmas
  import opened Api

  /** `Where` returns nothing exactly when no row passes, and otherwise starts with the
      first row that does. */
  lemma {:induction false} WhereFirst(ps: seq<Posting>, keep: Posting -> bool, i: nat)
    requires i < |ps| && keep(ps[i])
    requires forall j :: 0 <= j < i ==> !keep(ps[j])
    ensures Where(ps, keep) != [] && Where(ps, keep)[0] == ps[i]
  {
    if i > 0 {
      WhereFirst(ps[1..], keep, i - 1);
    }
  }

  lemma {:induction false} WhereNone(ps: seq<Posting>, keep: Posting -> bool)
    requires forall p <- ps :: !keep(p)
    ensures Where(ps, keep) == []
  {
    if ps != [] {
      assert forall p <- ps[1..] :: p in ps;
      WhereNone(ps[1..], keep);
    }
  }

  /** The lookup key is the cleaned URL with exactly one trailing `/apply` removed; a URL
      `urlsplit` rejects has no key. */
  lemma LookupKeyStripsOnce(url: string)
    ensures LookupKey(url).Ok? <==> CleanUrl(url).Ok?
    ensures LookupKey(url).Ok? && EndsWith(CleanUrl(url).value, ApplySuffix) ==>
      LookupKey(url).value + ApplySuffix == CleanUrl(url).value
    ensures LookupKey(url).Ok? && !EndsWith(CleanUrl(url).value, ApplySuffix) ==>
      LookupKey(url).value == CleanUrl(url).value
  {
    if CleanUrl(url).Ok? {
      StripApplySuffixInverse(CleanUrl(url).value);
    }
  }

  /** For a key without wildcards, the page's actions are those of the first posting in
      table order whose link contains the key ignoring ASCII case. */
  lemma PageActionsFirstMatch(db: Db, body: Json, i: nat)
    requires ParseExtensionRequest(body).Ok? && LookupKey(ParseExtensionRequest(body).value.url).Ok?
    requires NoWildcard(LookupKey(ParseExtensionRequest(body).value.url).value)
    requires i < |db.postings|
    requires Contains(Lower(db.postings[i].link), Lower(LookupKey(ParseExtensionRequest(body).value.url).value))
    requires forall j :: 0 <= j < i ==>
      !Contains(Lower(db.postings[j].link), Lower(LookupKey(ParseExtensionRequest(body).value.url).value))
    ensures PageActions(db, body) == ActionsFromRows(ActionsOf(db.actions, db.postings[i].id))
  {
    var key := LookupKey(ParseExtensionRequest(body).value.url).value;
    LikeContains(db.postings[i].link, key);
    forall j | 0 <= j < i ensures !LinkMatches(key)(db.postings[j]) {
      LikeContains(db.postings[j].link, key);
    }
    WhereFirst(db.postings, LinkMatches(key), i);
  }

  /** For a key without wildcards, a page whose key no stored link contains raises
      `IndexError`. */
  lemma PageActionsNoMatch(db: Db, body: Json)
    requires ParseExtensionRequest(body).Ok? && LookupKey(ParseExtensionRequest(body).value.url).Ok?
    requires NoWildcard(LookupKey(ParseExtensionRequest(body).value.url).value)
    requires forall p <- db.postings ::
      !Contains(Lower(p.link), Lower(LookupKey(ParseExtensionRequest(body).value.url).value))
    ensures PageActions(db, body) == Err(IndexError)
  {
    var key := LookupKey(ParseExtensionRequest(body).value.url).value;
    forall p <- db.postings ensures !LinkMatches(key)(p) {
      LikeContains(p.link, key);
    }
    WhereNone(db.postings, LinkMatches(key));
  }

  /** An `_` in the key is a wildcard: a link the key would match with any other
      character there is matched by the key too, so a page can pick up the actions of
      a posting whose link differs from its URL. */
  lemma UnderscoreKeyMatchesMore(key: string, j: nat, c: char, p: Posting)
    requires j < |key| && key[j] == '_' && c != '%'
    ensures LinkMatches(key[j := c])(p) ==> LinkMatches(key)(p)
  {
    var q := "%" + key[j := c] + "%";
    LikeUnderscoreLooser(p.link, q, j + 1);
    assert q[j + 1 := '_'] == "%" + key + "%";
  }

  /** A stored row validates exactly when its kind is one of the four: the selector is
      a string and the answer a string or null. */
  lemma RowParses(row: ActionRow)
    ensures ParseAction(RowJson(row)).Ok? <==> ParseKind(row.action).Some?
  {
  }

  /** The stored rows validate exactly when every row's kind is one of the four. */
  lemma {:induction false} ActionsFromRowsAccepts(rows: seq<ActionRow>)
    ensures ActionsFromRows(rows).Ok? <==> forall r <- rows :: ParseKind(r.action).Some?
  {
    if rows != [] {
      RowParses(rows[0]);
      ActionsFromRowsAccepts(rows[1..]);
      assert forall r <- rows :: r == rows[0] || r in rows[1..];
      if ActionsFromRows(rows).Ok? {
        assert ParseAction(RowJson(rows[0])).Ok?;
        assert ActionsFromRows(rows[1..]).Ok?;
      }
    }
  }

  /** `ActionsOf` keeps exactly the rows of the posting. */
  lemma {:induction false} ActionsOfMembers(rs: seq<ActionRow>, jobId: nat, a: ActionRow)
    ensures a in ActionsOf(rs, jobId) <==> a in rs && a.jobAnalysisId == jobId
  {
    if rs != [] {
      ActionsOfMembers(rs[1..], jobId, a);
      assert rs == [rs[0]] + rs[1..];
    }
  }

  /** `install` answers every valid body alike: the résumé and preferences are not read. */
  lemma InstallIgnoresProfile(a: Json, b: Json)
    requires Install(a).Ok? && Install(b).Ok?
    ensures Install(a) == Install(b)
    ensures Install(a).value.JObj? && "urls" in Install(a).value.fields
    ensures Install(a).value.fields["urls"].JArr? && |Install(a).value.fields["urls"].items| == |SearchUrls|
  {
  }
}
