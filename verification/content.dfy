/** The content script of extensions/content.js: recognising a Google search page,
    harvesting result links from it, processing a page once (captcha wait, link
    report, pagination), and replaying server actions on an application page with
    the helpers of extensions/actions.js. The DOM queries behind each anchor, cite
    and captcha check are the browser's: they arrive here as their results. */
module ContentScript {
  import opened Wrappers
  import opened Strings
  import opened Schemas
  import opened DomActions

  /** `isGoogleSearchPage` over the parts of `window.location`. */
  predicate IsGoogleSearchPage(hostname: string, pathname: string, search: string) {
    (Contains(hostname, "google.com") || Contains(hostname, "google.")) &&
    (pathname == "/search" || Contains(search, "q="))
  }

  // ---------------------------------------------------------------------------
  // Link harvesting

  /** The Google pages a harvested link must not point into. */
  predicate AvoidsGoogle(href: string) {
    && !Contains(href, "google.com/search")
    && !Contains(href, "google.com/url")
    && !Contains(href, "webcache.googleusercontent.com")
    && !Contains(href, "support.google.com")
    && !Contains(href, "policies.google.com")
    && !Contains(href, "accounts.google.com")
  }

  /** The filter an anchor's href passes before its result container is checked. */
  predicate Harvestable(href: string) {
    && href != ""
    && AvoidsGoogle(href)
    && !StartsWith(href, "javascript:")
    && !StartsWith(href, "#")
    && (StartsWith(href, "http://") || StartsWith(href, "https://"))
  }

  /** An `a[href]` of the page: its resolved href, and whether it sits inside one of
      the result containers `closest(...)` looks for. */
  datatype Anchor = Anchor(href: string, inResult: bool)

  /** A `cite` of the page: its text, and the href the walk up its ancestors finds (the
      first `a[href]` below an ancestor whose href starts with `http`), if any. */
  datatype Cite = Cite(text: string, nearby: Option<string>)

  predicate AnchorYields(a: Anchor) {
    Harvestable(a.href) && a.inResult
  }

  predicate CiteYields(c: Cite) {
    CiteTextOk(JsTrim(c.text)) && NearbyOk(c.nearby)
  }

  predicate CiteTextOk(t: string) {
    t != "" && !Contains(t, "...")
  }

  predicate NearbyOk(n: Option<string>) {
    n.Some? && StartsWith(n.value, "http") && !Contains(n.value, "google.com")
  }

  /** `if (!links.includes(href)) links.push(href)`. */
  function AddNew(links: seq<string>, href: string): seq<string> {
    if href in links then links else links + [href]
  }

  /** The links the anchor loop collects. */
  function FromAnchors(anchors: seq<Anchor>): seq<string> {
    if anchors == [] then []
    else
      var last := anchors[|anchors| - 1];
      var before := FromAnchors(anchors[..|anchors| - 1]);
      if AnchorYields(last) then AddNew(before, last.href) else before
  }

  /** The links the cite loop adds to `links`. */
  function FromCites(links: seq<string>, cites: seq<Cite>): seq<string> {
    if cites == [] then links
    else
      var last := cites[|cites| - 1];
      var before := FromCites(links, cites[..|cites| - 1]);
      if CiteYields(last) then AddNew(before, last.nearby.value) else before
  }

  /** What `extractSearchLinks` returns. */
  function SearchLinks(anchors: seq<Anchor>, cites: seq<Cite>): seq<string> {
    FromCites(FromAnchors(anchors), cites)
  }

  /** The anchor loop's step at index `i`. */
  lemma AnchorStep(anchors: seq<Anchor>, i: nat)
    requires i < |anchors|
    ensures FromAnchors(anchors[..i + 1])
      == if AnchorYields(anchors[i]) then AddNew(FromAnchors(anchors[..i]), anchors[i].href) else FromAnchors(anchors[..i])
  {
    assert anchors[..i + 1][..i] == anchors[..i];
  }

  /** The cite loop's step at index `i`. */
  lemma CiteStep(links: seq<string>, cites: seq<Cite>, i: nat)
    requires i < |cites|
    ensures FromCites(links, cites[..i + 1])
      == if CiteYields(cites[i]) then AddNew(FromCites(links, cites[..i]), cites[i].nearby.value) else FromCites(links, cites[..i])
  {
    assert cites[..i + 1][..i] == cites[..i];
  }

  /** `extractSearchLinks`: the anchor loop, then the cite loop, pushing each new link. */
  method ExtractSearchLinks(anchors: seq<Anchor>, cites: seq<Cite>) returns (links: seq<string>)
    ensures links == SearchLinks(anchors, cites)
  {
    links := [];
    for i := 0 to |anchors|
      invariant links == FromAnchors(anchors[..i])
    {
      AnchorStep(anchors, i);
      var a := anchors[i];
      if Harvestable(a.href) {
        if a.inResult && a.href !in links {
          links := links + [a.href];
        }
      }
    }
    assert anchors[..|anchors|] == anchors;
    ghost var fromAnchors := links;
    for i := 0 to |cites|
      invariant links == FromCites(fromAnchors, cites[..i])
    {
      CiteStep(fromAnchors, cites, i);
      var c := cites[i];
      var text := JsTrim(c.text);
      if text != "" && !Contains(text, "...") {
        if c.nearby.Some? && StartsWith(c.nearby.value, "http") {
          var href := c.nearby.value;
          if !Contains(href, "google.com") && href !in links {
            links := links + [href];
          }
        }
      }
    }
    assert cites[..|cites|] == cites;
  }

  // ---------------------------------------------------------------------------
  // Replaying actions

  /** An action object as the page receives it, after the JSON round trip. */
  datatype JsAction = JsAction(kind: JsValue, querySelector: JsValue, value: JsValue)

  /** How one action ends: it reports success, it reports failure, or it throws and
      the loop logs the exception. */
  datatype ActionOutcome = Succeeded | Failed | Raised

  /** An `Action` of the server, as the page parses it from the response: a missing
      selector or value arrives as `null`. */
  function FromAction(a: Action): JsAction {
    JsAction(Str(KindName(a.action)),
             if a.querySelector.Some? then Str(a.querySelector.value) else Null,
             if a.value.Some? then Str(a.value.value) else Null)
  }

  /** The outcome of one helper call. */
  function OutcomeOf(r: Result<bool>): ActionOutcome {
    match r
    case Err(_) => Raised
    case Ok(b) => if b then Succeeded else Failed
  }

  /** The elements and alerts after one action, and how it ended. */
  datatype Step = Step(snap: seq<NodeState>, alerts: seq<string>, outcome: ActionOutcome)

  /** One pass of the `executeActions` loop body: the `switch` on the kind, with each
      case's guard. */
  function StepOf(doc: Document, snap: seq<NodeState>, alerts: seq<string>, a: JsAction): (s: Step)
    requires doc.Valid() && |snap| == |doc.nodes|
    ensures |s.snap| == |snap|
  {
    var sel := a.querySelector;
    if a.kind == Str("type") then
      if Truthy(sel) && a.value != Undefined then
        match doc.query(sel.s)
        case BadSelector => Step(snap, alerts, Raised)
        case NoMatch => Step(snap, alerts, Failed)
        case Match(i) => Step(snap[i := Typed(snap[i], JsString(a.value))], alerts, Succeeded)
      else Step(snap, alerts, Failed)
    else if a.kind == Str("click") then
      if Truthy(sel) then
        match doc.query(sel.s)
        case BadSelector => Step(snap, alerts, Raised)
        case NoMatch => Step(snap, alerts, Failed)
        case Match(i) => Step(snap[i := ClickedOn(snap[i])], alerts, Succeeded)
      else Step(snap, alerts, Failed)
    else if a.kind == Str("select") then
      if Truthy(sel) && a.value != Undefined then
        match doc.query(sel.s)
        case BadSelector => Step(snap, alerts, Raised)
        case NoMatch => Step(snap, alerts, Failed)
        case Match(i) =>
          var after := Selected(doc.nodes[i].tagName, doc.nodes[i].options, snap[i], a.value);
          Step(snap[i := after.0], alerts, if after.1 then Succeeded else Failed)
      else Step(snap, alerts, Failed)
    else if a.kind == Str("alert") then
      if Truthy(a.value) then Step(snap, alerts + [a.value.s], Succeeded)
      else Step(snap, alerts, Failed)
    else Step(snap, alerts, Failed)
  }

  /** The elements, the alerts and the per-action outcomes after the whole loop. */
  datatype Run = Run(snap: seq<NodeState>, alerts: seq<string>, outcomes: seq<ActionOutcome>)

  function RunOf(doc: Document, snap: seq<NodeState>, alerts: seq<string>, actions: seq<JsAction>): (r: Run)
    requires doc.Valid() && |snap| == |doc.nodes|
    ensures |r.snap| == |snap| && |r.outcomes| == |actions|
  {
    if actions == [] then Run(snap, alerts, [])
    else
      var before := RunOf(doc, snap, alerts, actions[..|actions| - 1]);
      var step := StepOf(doc, before.snap, before.alerts, actions[|actions| - 1]);
      Run(step.snap, step.alerts, before.outcomes + [step.outcome])
  }

  /** The body of the `executeActions` loop for one action. */
  method ExecuteOne(doc: Document, a: JsAction) returns (outcome: ActionOutcome)
    requires doc.Valid()
    modifies doc, doc.nodes
    ensures Step(doc.Snapshot(), doc.alerts, outcome) == StepOf(doc, old(doc.Snapshot()), old(doc.alerts), a)
  {
    outcome := Failed;
    var sel := a.querySelector;
    if a.kind == Str("type") {
      if Truthy(sel) && a.value != Undefined {
        var r := doc.DoType(sel.s, a.value);
        outcome := OutcomeOf(r);
      }
    } else if a.kind == Str("click") {
      if Truthy(sel) {
        var r := doc.DoClick(sel.s);
        outcome := OutcomeOf(r);
      }
    } else if a.kind == Str("select") {
      if Truthy(sel) && a.value != Undefined {
        var r := doc.DoSelect(sel.s, a.value);
        outcome := OutcomeOf(r);
      }
    } else if a.kind == Str("alert") {
      if Truthy(a.value) {
        doc.alerts := doc.alerts + [a.value.s];
        outcome := Succeeded;
      }
    }
  }

  /** `executeActions`: every action in order, each inside its own `try`. */
  method ExecuteActions(doc: Document, actions: seq<JsAction>) returns (outcomes: seq<ActionOutcome>)
    requires doc.Valid()
    modifies doc, doc.nodes
    ensures Run(doc.Snapshot(), doc.alerts, outcomes) == RunOf(doc, old(doc.Snapshot()), old(doc.alerts), actions)
  {
    outcomes := [];
    for i := 0 to |actions|
      invariant Run(doc.Snapshot(), doc.alerts, outcomes) == RunOf(doc, old(doc.Snapshot()), old(doc.alerts), actions[..i])
    {
      assert actions[..i + 1][..i] == actions[..i];
      var outcome := ExecuteOne(doc, actions[i]);
      outcomes := outcomes + [outcome];
    }
    assert actions[..|actions|] == actions;
  }

  /** `processJobPage`: the message's `jobActions` are replayed; without them
      `executeActions` reads `.length` of `undefined` and its promise rejects before
      anything runs. */
  method OnProcessJobPage(doc: Document, jobActions: Option<seq<JsAction>>) returns (r: Result<seq<ActionOutcome>>)
    requires doc.Valid()
    modifies doc, doc.nodes
    ensures jobActions.None? ==> r == Err(TypeError) && doc.Snapshot() == old(doc.Snapshot()) && doc.alerts == old(doc.alerts)
    ensures jobActions.Some? ==>
      && r.Ok?
      && Run(doc.Snapshot(), doc.alerts, r.value) == RunOf(doc, old(doc.Snapshot()), old(doc.alerts), jobActions.value)
  {
    if jobActions.None? {
      return Err(TypeError);
    }
    var outcomes := ExecuteActions(doc, jobActions.value);
    r := Ok(outcomes);
  }

  // ---------------------------------------------------------------------------
  // Processing a search page

  /** What the content script sends the background. */
  datatype Message = CaptchaDetected | CaptchaResolved | LinksExtracted(links: seq<string>, submitLinks: bool)

  /** How many link reports (without `submitLinks`) a message log holds. */
  function Harvests(ms: seq<Message>): nat {
    if ms == [] then 0
    else Harvests(ms[..|ms| - 1]) + (if ms[|ms| - 1].LinksExtracted? && !ms[|ms| - 1].submitLinks then 1 else 0)
  }

  /** How many `submitLinks` messages a message log holds. */
  function Submits(ms: seq<Message>): nat {
    if ms == [] then 0
    else Submits(ms[..|ms| - 1]) + (if ms[|ms| - 1].LinksExtracted? && ms[|ms| - 1].submitLinks then 1 else 0)
  }

  /** Whether the page label asks to stop paging: no label, or the fifth page. */
  predicate LastPage(currentPage: string) {
    currentPage == "" || currentPage == "5"
  }

  /** The message that ends a processed page: a submit, unless the next page is
      clicked. */
  function Pagination(currentPage: string, hasNext: bool): seq<Message> {
    if LastPage(currentPage) || !hasNext then [LinksExtracted([], true)] else []
  }

  /** The content script's state on one search page: whether the page was processed,
      whether a captcha monitor is running, whether the next page was clicked, and the
      messages sent. */
  class SearchPage {
    var hasProcessedPage: bool
    var monitoring: bool
    var navigated: bool
    var sent: seq<Message>

    /** A processed page reported its links once, and ended with one submit unless it
        moved to the next page; a monitor only runs while the page waits unprocessed. */
    ghost predicate Valid()
      reads this
    {
      && Harvests(sent) == (if hasProcessedPage then 1 else 0)
      && Submits(sent) == (if hasProcessedPage && !navigated then 1 else 0)
      && (navigated ==> hasProcessedPage)
      && (monitoring ==> !hasProcessedPage)
    }

    constructor ()
      ensures Valid()
      ensures !hasProcessedPage && !monitoring && !navigated && sent == []
    {
      hasProcessedPage := false;
      monitoring := false;
      navigated := false;
      sent := [];
    }

    /** `processPage`: once per page. A captcha starts the monitor and leaves the page
        unprocessed; otherwise the page is marked, its links reported, and paging
        either submits or clicks the next page. It runs with no monitor running: from
        `init`, before any monitor was started, and from a tick, after that tick stopped
        its monitor. */
    method ProcessPage(captcha: bool, anchors: seq<Anchor>, cites: seq<Cite>, currentPage: string, hasNext: bool)
      requires Valid() && !monitoring
      modifies this
      ensures Valid()
      ensures old(hasProcessedPage) ==> unchanged(this)
      ensures !old(hasProcessedPage) && captcha ==>
        && !hasProcessedPage && monitoring && navigated == old(navigated)
        && sent == old(sent) + [CaptchaDetected]
      ensures !old(hasProcessedPage) && !captcha ==>
        && hasProcessedPage && !monitoring
        && navigated == (!LastPage(currentPage) && hasNext)
        && sent == old(sent) + [LinksExtracted(SearchLinks(anchors, cites), false)] + Pagination(currentPage, hasNext)
    {
      if hasProcessedPage {
        return;
      }
      if captcha {
        sent := sent + [CaptchaDetected];
        assert Harvests(sent) == Harvests(old(sent)) && Submits(sent) == Submits(old(sent));
        monitoring := true;
        return;
      }
      hasProcessedPage := true;
      var links := ExtractSearchLinks(anchors, cites);
      sent := sent + [LinksExtracted(links, false)];
      assert Harvests(sent) == 1 && Submits(sent) == 0;
      if LastPage(currentPage) {
        sent := sent + [LinksExtracted([], true)];
      } else if hasNext {
        navigated := true;
      } else {
        sent := sent + [LinksExtracted([], true)];
      }
      assert Harvests(sent) == 1;
    }

    /** One tick of the captcha monitor: once the captcha is gone the monitor stops,
        the background hears of it, and the page is processed (checking for a captcha
        again). */
    method CaptchaTick(captchaNow: bool, captchaLater: bool, anchors: seq<Anchor>, cites: seq<Cite>,
                       currentPage: string, hasNext: bool)
      requires Valid()
      modifies this
      ensures Valid()
      ensures !old(monitoring) || captchaNow ==> unchanged(this)
      ensures old(monitoring) && !captchaNow && captchaLater ==>
        && !hasProcessedPage && monitoring && navigated == old(navigated)
        && sent == old(sent) + [CaptchaResolved, CaptchaDetected]
      ensures old(monitoring) && !captchaNow && !captchaLater ==>
        && hasProcessedPage && !monitoring
        && navigated == (!LastPage(currentPage) && hasNext)
        && sent == old(sent) + [CaptchaResolved, LinksExtracted(SearchLinks(anchors, cites), false)]
                   + Pagination(currentPage, hasNext)
    {
      if !monitoring || captchaNow {
        return;
      }
      monitoring := false;
      sent := sent + [CaptchaResolved];
      assert Harvests(sent) == Harvests(old(sent)) && Submits(sent) == Submits(old(sent));
      ProcessPage(captchaLater, anchors, cites, currentPage, hasNext);
    }

    /** `init`, run once when the script loads (so no monitor is running yet): only a
        Google search page is processed. */
    method Init(hostname: string, pathname: string, search: string, captcha: bool,
                anchors: seq<Anchor>, cites: seq<Cite>, currentPage: string, hasNext: bool)
      requires Valid() && !monitoring
      modifies this
      ensures Valid()
      ensures !IsGoogleSearchPage(hostname, pathname, search) || old(hasProcessedPage) ==> unchanged(this)
      ensures IsGoogleSearchPage(hostname, pathname, search) && !old(hasProcessedPage) && captcha ==>
        && !hasProcessedPage && monitoring && navigated == old(navigated)
        && sent == old(sent) + [CaptchaDetected]
      ensures IsGoogleSearchPage(hostname, pathname, search) && !old(hasProcessedPage) && !captcha ==>
        && hasProcessedPage && !monitoring
        && navigated == (!LastPage(currentPage) && hasNext)
        && sent == old(sent) + [LinksExtracted(SearchLinks(anchors, cites), false)] + Pagination(currentPage, hasNext)
    {
      if IsGoogleSearchPage(hostname, pathname, search) {
        ProcessPage(captcha, anchors, cites, currentPage, hasNext);
      }
    }
  }
}

/** What the content script promises, proved about the model above. */
module ContentLemmas {
  import opened Wrappers
  import opened Strings
  import opened Schemas
  import opened DomActions
  import opened ContentScript

  /** The `google.com` test adds nothing to the `google.` one: a page counts as a Google
      search page exactly when its host contains `google.` and its path is `/search` or
      its query contains `q=`. */
  lemma IsGoogleSearchPageMeaning(hostname: string, pathname: string, search: string)
    ensures IsGoogleSearchPage(hostname, pathname, search) <==>
      Contains(hostname, "google.") && (pathname == "/search" || Contains(search, "q="))
  {
    if Contains(hostname, "google.com") {
      assert "google.com" == "google." + "com";
      ContainsPrefixOf(hostname, "google.", "com");
    }
  }

  /** The `javascript:` and `#` tests add nothing to the scheme test: an href is kept
      exactly when it starts with `http://` or `https://` and avoids the Google pages. */
  lemma HarvestableMeaning(href: string)
    ensures Harvestable(href) <==>
      (StartsWith(href, "http://") || StartsWith(href, "https://")) && AvoidsGoogle(href)
  {
    if StartsWith(href, "http://") || StartsWith(href, "https://") {
      assert href[0] == 'h';
      assert href[..1] != "#";
      assert "javascript:"[0] == 'j';
    }
  }

  predicate Distinct(s: seq<string>) {
    forall i, j :: 0 <= i < j < |s| ==> s[i] != s[j]
  }

  lemma AddNewDistinct(links: seq<string>, href: string)
    requires Distinct(links)
    ensures Distinct(AddNew(links, href))
  {
  }

  lemma AddNewExtends(links: seq<string>, href: string)
    ensures links <= AddNew(links, href)
  {
  }

  lemma {:induction false} FromAnchorsDistinct(anchors: seq<Anchor>)
    ensures Distinct(FromAnchors(anchors))
  {
    if anchors != [] {
      FromAnchorsDistinct(anchors[..|anchors| - 1]);
      AddNewDistinct(FromAnchors(anchors[..|anchors| - 1]), anchors[|anchors| - 1].href);
    }
  }

  lemma {:induction false} FromCitesDistinct(links: seq<string>, cites: seq<Cite>)
    requires Distinct(links)
    ensures Distinct(FromCites(links, cites))
  {
    if cites != [] {
      var last := cites[|cites| - 1];
      FromCitesDistinct(links, cites[..|cites| - 1]);
      if CiteYields(last) {
        AddNewDistinct(FromCites(links, cites[..|cites| - 1]), last.nearby.value);
      }
    }
  }

  /** `extractSearchLinks` never returns a link twice. */
  lemma SearchLinksDistinct(anchors: seq<Anchor>, cites: seq<Cite>)
    ensures Distinct(SearchLinks(anchors, cites))
  {
    FromAnchorsDistinct(anchors);
    FromCitesDistinct(FromAnchors(anchors), cites);
  }

  lemma {:induction false} FromAnchorsMembers(anchors: seq<Anchor>, h: string)
    ensures h in FromAnchors(anchors) <==> exists a <- anchors :: AnchorYields(a) && a.href == h
  {
    if anchors != [] {
      var init := anchors[..|anchors| - 1];
      FromAnchorsMembers(init, h);
      assert anchors == init + [anchors[|anchors| - 1]];
      assert forall a <- anchors :: a in init || a == anchors[|anchors| - 1];
    }
  }

  /** The link a cite contributes, if any. */
  function CiteLink(c: Cite): Option<string> {
    if CiteYields(c) then c.nearby else None
  }

  /** The cite loop with the per-cite test abstracted to `link`. */
  function Gather(links: seq<string>, cites: seq<Cite>, link: Cite -> Option<string>): seq<string> {
    if cites == [] then links
    else
      var before := Gather(links, cites[..|cites| - 1], link);
      match link(cites[|cites| - 1])
      case Some(l) => AddNew(before, l)
      case None => before
  }

  lemma {:induction false} FromCitesGather(links: seq<string>, cites: seq<Cite>)
    ensures FromCites(links, cites) == Gather(links, cites, CiteLink)
  {
    if cites != [] {
      FromCitesGather(links, cites[..|cites| - 1]);
    }
  }

  lemma {:induction false} GatherSound(links: seq<string>, cites: seq<Cite>, link: Cite -> Option<string>, h: string)
    requires h in Gather(links, cites, link)
    ensures h in links || exists i :: 0 <= i < |cites| && link(cites[i]) == Some(h)
  {
    if cites != [] {
      var n := |cites| - 1;
      var init := cites[..n];
      if h in Gather(links, init, link) {
        GatherSound(links, init, link, h);
        if h !in links {
          var i :| 0 <= i < |init| && link(init[i]) == Some(h);
          assert cites[i] == init[i];
        }
      } else {
        assert link(cites[n]) == Some(h);
      }
    }
  }

  lemma {:induction false} GatherComplete(links: seq<string>, cites: seq<Cite>, link: Cite -> Option<string>, h: string)
    requires h in links || exists i :: 0 <= i < |cites| && link(cites[i]) == Some(h)
    ensures h in Gather(links, cites, link)
  {
    if cites != [] {
      var n := |cites| - 1;
      var init := cites[..n];
      var before := Gather(links, init, link);
      if h in links || exists i :: 0 <= i < n && link(cites[i]) == Some(h) {
        if h !in links {
          var i :| 0 <= i < n && link(cites[i]) == Some(h);
          assert init[i] == cites[i];
        }
        GatherComplete(links, init, link, h);
        if link(cites[n]).Some? {
          AddNewExtends(before, link(cites[n]).value);
        }
      } else {
        assert link(cites[n]) == Some(h);
      }
    }
  }

  lemma FromCitesMembers(links: seq<string>, cites: seq<Cite>, h: string)
    ensures h in FromCites(links, cites) <==> h in links || exists c <- cites :: CiteLink(c) == Some(h)
  {
    FromCitesGather(links, cites);
    if h in FromCites(links, cites) {
      GatherSound(links, cites, CiteLink, h);
    }
    if exists c <- cites :: CiteLink(c) == Some(h) {
      var c :| c in cites && CiteLink(c) == Some(h);
      var i :| 0 <= i < |cites| && cites[i] == c;
      GatherComplete(links, cites, CiteLink, h);
    } else if h in links {
      GatherComplete(links, cites, CiteLink, h);
    }
  }

  /** A link is harvested exactly when a result anchor passes the href filter with it,
      or a cite with plain text leads to it from outside `google.com`. */
  lemma SearchLinksMembers(anchors: seq<Anchor>, cites: seq<Cite>, h: string)
    ensures h in SearchLinks(anchors, cites) <==>
      || (exists a <- anchors :: AnchorYields(a) && a.href == h)
      || (exists c <- cites :: CiteYields(c) && c.nearby.value == h)
  {
    FromAnchorsMembers(anchors, h);
    FromCitesMembers(FromAnchors(anchors), cites, h);
    assert (exists c <- cites :: CiteLink(c) == Some(h)) <==> exists c <- cites :: CiteYields(c) && c.nearby.value == h;
  }

  lemma {:induction false} FromAnchorsPrefix(anchors: seq<Anchor>, i: nat)
    requires i <= |anchors|
    ensures FromAnchors(anchors[..i]) <= FromAnchors(anchors)
  {
    if i < |anchors| {
      var init := anchors[..|anchors| - 1];
      assert init[..i] == anchors[..i];
      FromAnchorsPrefix(init, i);
      AddNewExtends(FromAnchors(init), anchors[|anchors| - 1].href);
    } else {
      assert anchors[..i] == anchors;
    }
  }

  lemma {:induction false} FromCitesExtends(links: seq<string>, cites: seq<Cite>)
    ensures links <= FromCites(links, cites)
  {
    if cites != [] {
      FromCitesExtends(links, cites[..|cites| - 1]);
      if CiteYields(cites[|cites| - 1]) {
        AddNewExtends(FromCites(links, cites[..|cites| - 1]), cites[|cites| - 1].nearby.value);
      }
    }
  }

  /** Links keep the order of their first occurrence: what the first `i` anchors
      yield is a prefix of the result. */
  lemma SearchLinksKeepOrder(anchors: seq<Anchor>, cites: seq<Cite>, i: nat)
    requires i <= |anchors|
    ensures FromAnchors(anchors[..i]) <= SearchLinks(anchors, cites)
  {
    FromAnchorsPrefix(anchors, i);
    FromCitesExtends(FromAnchors(anchors), cites);
  }

  /** How an action ends does not depend on what earlier actions did to the page. */
  lemma StepOutcomeIgnoresState(doc: Document, s1: seq<NodeState>, a1: seq<string>, s2: seq<NodeState>, a2: seq<string>, a: JsAction)
    requires doc.Valid() && |s1| == |doc.nodes| && |s2| == |doc.nodes|
    ensures StepOf(doc, s1, a1, a).outcome == StepOf(doc, s2, a2, a).outcome
  {
  }

  /** Every action is attempted, in order, and ends as it would alone: an action that
      throws or fails does not stop or change the outcome of any other. */
  lemma {:induction false} RunOutcomes(doc: Document, snap: seq<NodeState>, alerts: seq<string>, actions: seq<JsAction>, i: nat)
    requires doc.Valid() && |snap| == |doc.nodes| && i < |actions|
    ensures RunOf(doc, snap, alerts, actions).outcomes[i] == StepOf(doc, snap, alerts, actions[i]).outcome
  {
    var init := actions[..|actions| - 1];
    var before := RunOf(doc, snap, alerts, init);
    if i < |actions| - 1 {
      RunOutcomes(doc, snap, alerts, init, i);
    } else {
      StepOutcomeIgnoresState(doc, before.snap, before.alerts, snap, alerts, actions[i]);
    }
  }

  /** A kind other than the four never succeeds and changes nothing. */
  lemma UnknownKindFails(doc: Document, snap: seq<NodeState>, alerts: seq<string>, a: JsAction)
    requires doc.Valid() && |snap| == |doc.nodes|
    requires a.kind !in {Str("type"), Str("click"), Str("select"), Str("alert")}
    ensures StepOf(doc, snap, alerts, a) == Step(snap, alerts, Failed)
  {
  }

  /** The guards of each case: `type` and `select` need a selector and a value that is
      not `undefined`, `click` a selector, `alert` a non-empty value; without them the
      action fails and changes nothing. */
  lemma StepGuards(doc: Document, snap: seq<NodeState>, alerts: seq<string>, a: JsAction)
    requires doc.Valid() && |snap| == |doc.nodes|
    ensures (a.kind == Str("type") || a.kind == Str("select")) && (!Truthy(a.querySelector) || a.value == Undefined) ==>
      StepOf(doc, snap, alerts, a) == Step(snap, alerts, Failed)
    ensures a.kind == Str("click") && !Truthy(a.querySelector) ==> StepOf(doc, snap, alerts, a) == Step(snap, alerts, Failed)
    ensures a.kind == Str("alert") ==>
      StepOf(doc, snap, alerts, a) == if Truthy(a.value) then Step(snap, alerts + [a.value.s], Succeeded) else Step(snap, alerts, Failed)
  {
  }

  /** A server action with no value arrives as `null`, which passes the `!== undefined`
      guard: a `type` action without an answer types the text `null`. */
  lemma ServerNullIsTyped(doc: Document, snap: seq<NodeState>, alerts: seq<string>, sel: string, i: nat)
    requires doc.Valid() && |snap| == |doc.nodes|
    requires sel != "" && doc.query(sel) == Match(i)
    ensures var step := StepOf(doc, snap, alerts, FromAction(Action(TypeKind, Some(sel), None)));
      step.outcome == Succeeded && step.snap[i].value == "null"
  {
  }

  /** A server action without a selector never reaches the page, unless it is an alert. */
  lemma ServerActionWithoutSelector(doc: Document, snap: seq<NodeState>, alerts: seq<string>, a: Action)
    requires doc.Valid() && |snap| == |doc.nodes|
    requires a.querySelector.None? && a.action != AlertKind
    ensures StepOf(doc, snap, alerts, FromAction(a)) == Step(snap, alerts, Failed)
  {
  }
}
