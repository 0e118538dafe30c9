/** The Lever browser session (src/web/lever.py): the `_browser` field that
    `create_browser`, `close_browser`, `new_page` and `open_and_get_form_html` set and
    reset, and the replay loop of `auto_apply`. The browser process, the pages and the
    snippet runner are the environment: a launch succeeds or fails, a page load ends
    in one of the outcomes of `PageLoad`, a snippet runs or raises. */
module Browser {
  import opened Wrappers
  import opened Selectors

  /** How opening a page and awaiting the form container ends. */
  datatype PageLoad =
    | GotoTimeout               // `page.goto` did not reach network idle in time
    | SelectorTimeout           // `waitForSelector` gave up on the container
    | ContainerMissing          // the wait passed but `querySelector` found nothing
    | Container(innerHtml: string)

  /** A page opened on a browser process, at a link. */
  datatype Page = Page(browser: nat, link: string)

  /** What `open_and_get_form_html` yields once a browser is available. */
  function FormHtml(load: PageLoad): (r: Result<string>)
    ensures r.Ok? <==> load.Container?
    ensures load.Container? ==> r.value == load.innerHtml
    ensures load == ContainerMissing ==> r == Err(RuntimeError)
  {
    match load
    case GotoTimeout => Err(NavigationTimeout)
    case SelectorTimeout => Err(NavigationTimeout)
    case ContainerMissing => Err(RuntimeError)
    case Container(html) => Ok(html)
  }

  /** A replayed question record: its text, its answer and the snippet that enters it. */
  predicate WellFormed(question: map<string, string>) {
    "question_text" in question && "answer_text" in question && "answer_execution_code" in question
  }

  /** How many questions the loop reaches before a record with a missing key aborts it. */
  function Reached(questions: seq<map<string, string>>): (n: nat)
    ensures n <= |questions|
    ensures forall i :: 0 <= i < n ==> WellFormed(questions[i])
    ensures n < |questions| ==> !WellFormed(questions[n])
  {
    if questions == [] || !WellFormed(questions[0]) then 0 else 1 + Reached(questions[1..])
  }

  /** The positions, among the first `n` questions, whose snippet raises. */
  function FailedAmong(questions: seq<map<string, string>>, n: nat, runs: string -> bool): seq<nat>
    requires n <= |questions|
    requires forall i :: 0 <= i < n ==> WellFormed(questions[i])
  {
    if n == 0 then []
    else
      assert WellFormed(questions[n - 1]);
      FailedAmong(questions, n - 1, runs)
      + (if runs(questions[n - 1]["answer_execution_code"]) then [] else [n - 1])
  }

  /** A question is reported failed exactly when the loop reached it and its snippet
      raised: a failure neither hides another nor stops the loop. */
  lemma {:induction false} FailedAmongMembers(questions: seq<map<string, string>>, n: nat, runs: string -> bool, k: nat)
    requires n <= |questions|
    requires forall i :: 0 <= i < n ==> WellFormed(questions[i])
    ensures k in FailedAmong(questions, n, runs) <==>
      k < n && !runs(questions[k]["answer_execution_code"])
  {
    if n > 0 {
      FailedAmongMembers(questions, n - 1, runs, k);
    }
  }

  predicate Increasing(s: seq<nat>) {
    forall i, j :: 0 <= i < j < |s| ==> s[i] < s[j]
  }

  /** Failures are reported in question order, each once. */
  lemma {:induction false} FailedAmongOrdered(questions: seq<map<string, string>>, n: nat, runs: string -> bool)
    requires n <= |questions|
    requires forall i :: 0 <= i < n ==> WellFormed(questions[i])
    ensures Increasing(FailedAmong(questions, n, runs))
    ensures forall k <- FailedAmong(questions, n, runs) :: k < n
  {
    if n > 0 {
      FailedAmongOrdered(questions, n - 1, runs);
      var prefix := FailedAmong(questions, n - 1, runs);
      assert forall i :: 0 <= i < |prefix| ==> prefix[i] < n - 1 by {
        forall i | 0 <= i < |prefix| ensures prefix[i] < n - 1 {
          assert prefix[i] in prefix;
        }
      }
      assert WellFormed(questions[n - 1]);
      var tail := if runs(questions[n - 1]["answer_execution_code"]) then [] else [n - 1];
      var f := FailedAmong(questions, n, runs);
      assert f == prefix + tail;
      forall i, j | 0 <= i < j < |f| ensures f[i] < f[j] {
        if j < |prefix| {
          assert f[i] == prefix[i] && f[j] == prefix[j];
          assert prefix[i] < prefix[j];
        } else {
          assert i < |prefix| && f[i] == prefix[i] && f[j] == n - 1;
          assert prefix[i] < n - 1;
        }
      }
    }
  }

  /** Every question is reached exactly when every record carries its three keys,
      whatever the snippets do. */
  lemma ReachedAll(questions: seq<map<string, string>>)
    ensures Reached(questions) == |questions| <==> forall q <- questions :: WellFormed(q)
  {
  }

  /** What `auto_apply` did: how many snippets it ran, which of them raised, the
      exception that ended it (caught and logged), and whether the résumé was uploaded. */
  datatype ApplyReport = ApplyReport(attempted: nat, failed: seq<nat>, error: Option<Fault>, uploaded: bool)

  class LeverBrowser {
    /** `self._browser`: the process in use, if any. */
    var browser: Option<nat>
    /** Handles handed out so far; the next launch gets this one. */
    var launched: nat
    /** Browser processes launched and not yet closed. */
    ghost var running: set<nat>
    /** Pages opened so far, in order. */
    ghost var pages: seq<Page>
    const link: string
    const headless: bool
    const debug: bool

    ghost predicate Valid()
      reads this
    {
      && (browser.Some? ==> browser.value in running)
      && (forall h <- running :: h < launched)
    }

    constructor (link: string, headless: bool, debug: bool)
      ensures Valid()
      ensures browser == None && running == {} && pages == []
      ensures this.link == link && this.headless == headless && this.debug == debug
    {
      this.link := link;
      this.headless := headless;
      this.debug := debug;
      browser := None;
      launched := 0;
      running := {};
      pages := [];
    }

    /** `create_browser`: launch a process and make it the one in use. A browser
        already in use is replaced without being closed. */
    method CreateBrowser(launchOk: bool) returns (r: Result<nat>)
      requires Valid()
      modifies this
      ensures Valid()
      ensures pages == old(pages)
      ensures launchOk ==>
        && r == Ok(old(launched)) && browser == Some(old(launched))
        && running == old(running) + {old(launched)} && old(launched) !in old(running)
      ensures !launchOk ==> r == Err(LaunchError) && browser == old(browser) && running == old(running)
    {
      if !launchOk {
        return Err(LaunchError);
      }
      r := Ok(launched);
      browser := Some(launched);
      running := running + {launched};
      launched := launched + 1;
    }

    /** `close_browser`: close the process in use, if any, and forget it. */
    method CloseBrowser()
      requires Valid()
      modifies this
      ensures Valid()
      ensures browser == None && pages == old(pages) && launched == old(launched)
      ensures running == if old(browser).Some? then old(running) - {old(browser).value} else old(running)
    {
      if browser.Some? {
        running := running - {browser.value};
        browser := None;
      }
    }

    /** `new_page`: open a page on the browser in use and navigate to `target`. Without
        a browser it raises `ValueError` and opens nothing; a navigation that times out
        leaves the page open. */
    method NewPage(target: string, load: PageLoad) returns (r: Result<Page>)
      requires Valid()
      modifies this
      ensures Valid()
      ensures browser == old(browser) && running == old(running) && launched == old(launched)
      ensures old(browser).None? ==> r == Err(ValueError) && pages == old(pages)
      ensures old(browser).Some? ==> pages == old(pages) + [Page(old(browser).value, target)]
      ensures old(browser).Some? ==>
        r == if load == GotoTimeout then Err(NavigationTimeout) else Ok(Page(old(browser).value, target))
    {
      if browser.None? {
        return Err(ValueError);
      }
      var page := Page(browser.value, target);
      pages := pages + [page];
      if load == GotoTimeout {
        return Err(NavigationTimeout);
      }
      r := Ok(page);
    }

    /** `open_and_get_form_html`: the inner markup of the form container at `link`. A
        browser this call launched is closed again on every exit; a browser already in
        use stays open. */
    method OpenAndGetFormHtml(launchOk: bool, load: PageLoad) returns (r: Result<string>)
      requires Valid()
      modifies this
      ensures Valid()
      ensures browser == old(browser) && running == old(running)
      ensures old(browser).None? && !launchOk ==> r == Err(LaunchError) && pages == old(pages)
      ensures old(browser).Some? ==> r == FormHtml(load) && pages == old(pages) + [Page(old(browser).value, link)]
      ensures old(browser).None? && launchOk ==>
        r == FormHtml(load) && pages == old(pages) + [Page(old(launched), link)]
    {
      var created := false;
      if browser.None? {
        var launch := CreateBrowser(launchOk);
        if launch.Err? {
          return Err(LaunchError);
        }
        created := true;
      }
      var page := Page(browser.value, link);
      pages := pages + [page];
      r := FormHtml(load);
      if created {
        CloseBrowser();
      }
    }

    /** `auto_apply`: open `target`, await the form, run each question's snippet in
        order, then upload the résumé. A snippet that raises is logged and the next
        question still runs; a question record without one of its keys ends the loop;
        every exception is caught and logged. */
    method AutoApply(target: string, questions: seq<map<string, string>>, load: PageLoad,
                     runs: string -> bool, resumeInputPresent: bool) returns (report: ApplyReport)
      requires Valid()
      modifies this
      ensures Valid()
      ensures browser == old(browser) && running == old(running) && launched == old(launched)
      ensures old(browser).None? ==> report == ApplyReport(0, [], Some(ValueError), false) && pages == old(pages)
      ensures old(browser).Some? ==> pages == old(pages) + [Page(old(browser).value, target)]
      ensures old(browser).Some? && (load == GotoTimeout || load == SelectorTimeout) ==>
        report == ApplyReport(0, [], Some(NavigationTimeout), false)
      ensures old(browser).Some? && load != GotoTimeout && load != SelectorTimeout ==>
        && report.attempted == Reached(questions)
        && report.failed == FailedAmong(questions, Reached(questions), runs)
        && report.error == (if Reached(questions) < |questions| then Some(KeyError)
                            else if resumeInputPresent then None else Some(AttributeError))
        && report.uploaded == (Reached(questions) == |questions| && resumeInputPresent)
    {
      var page := NewPage(target, load);
      if page.Err? {
        return ApplyReport(0, [], Some(page.error), false);
      }
      if load == SelectorTimeout {
        return ApplyReport(0, [], Some(NavigationTimeout), false);
      }
      var failed: seq<nat> := [];
      var i := 0;
      while i < |questions|
        invariant 0 <= i <= Reached(questions)
        invariant failed == FailedAmong(questions, i, runs)
        decreases |questions| - i
      {
        if !WellFormed(questions[i]) {
          return ApplyReport(i, failed, Some(KeyError), false);
        }
        if !runs(questions[i]["answer_execution_code"]) {
          failed := failed + [i];
        }
        i := i + 1;
      }
      if !resumeInputPresent {
        return ApplyReport(i, failed, Some(AttributeError), false);
      }
      report := ApplyReport(i, failed, None, true);
    }
  }
}
