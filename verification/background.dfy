/** The extension's service worker: two index-driven queues. The search queue opens
    each search URL in a tab, collects the links its content script reports and posts
    them to the server; the application queue opens each application URL and waits
    for the user to close the tab. Tab creation outcomes are given as `tabFor(i)`:
    the id of the tab opened for URL `i`, or `None` when `chrome.tabs.create`
    rejected. */
module Background {
  import opened Wrappers

  /** A search tab's `status` field. */
  datatype Status = Loading | Loaded

  /** One `completedUrls` entry. */
  datatype UrlEntry = UrlEntry(url: string, tabId: nat, status: Status, extractedLinks: seq<string>)

  datatype Queue = Search | Apply

  /** What the worker sends out: popup messages, the listings POST, tab removals
      and the message to an application tab's content script. */
  datatype Outgoing =
    | Progress(queue: Queue, current: nat, total: nat)   // `searchProgress` / `applicationProgress`
    | Complete(queue: Queue)                             // `searchComplete` / `applicationComplete`
    | PostListings(installationId: Option<string>, links: seq<string>)
    | RemoveTab(tabId: nat)
    | ProcessJobPage(tabId: nat, installationId: Option<string>)  // no `jobActions` field

  /** The index a queue stops at when it starts at `i`: the first URL whose tab
      opened, or the end of the list. */
  function FirstOpened(urls: seq<string>, i: nat, tabFor: nat -> Option<nat>): (j: nat)
    requires i <= |urls|
    ensures i <= j <= |urls|
    ensures j < |urls| ==> tabFor(j).Some?
    ensures forall k :: i <= k < j ==> tabFor(k).None?
    decreases |urls| - i
  {
    if i == |urls| || tabFor(i).Some? then i else FirstOpened(urls, i + 1, tabFor)
  }

  /** The progress messages of the attempts at indices `i` up to `j` (exclusive). */
  function Attempts(q: Queue, total: nat, i: nat, j: nat): (ms: seq<Outgoing>)
    requires i <= j
    ensures |ms| == j - i
    ensures forall k :: 0 <= k < |ms| ==> ms[k] == Progress(q, i + k + 1, total)
    decreases j - i
  {
    if j == i then [] else Attempts(q, total, i, j - 1) + [Progress(q, j, total)]
  }

  /** Everything a queue reports while it advances from `i` to `j`: one progress
      message per attempt, then either the progress of the URL it stopped at or the
      completion message. */
  function Notes(q: Queue, total: nat, i: nat, j: nat): seq<Outgoing>
    requires i <= j <= total
  {
    Attempts(q, total, i, j) + (if j < total then [Progress(q, j + 1, total)] else [Complete(q)])
  }

  /** An entry after more links were reported for it. */
  function Grown(e: UrlEntry, links: seq<string>): UrlEntry {
    e.(extractedLinks := e.extractedLinks + links)
  }

  /** `completedUrls` after the search queue stopped at `j`. */
  function Open(m: map<nat, UrlEntry>, urls: seq<string>, j: nat, tabFor: nat -> Option<nat>): map<nat, UrlEntry> {
    if j < |urls| && tabFor(j).Some? then m[j := UrlEntry(urls[j], tabFor(j).value, Loading, [])] else m
  }

  /** The retry in `processNextUrl` and `openNextApplicationUrl`: from `start` on,
      every URL whose tab could not be opened is reported and skipped. */
  method NextOpened(q: Queue, urls: seq<string>, start: nat, tabFor: nat -> Option<nat>)
    returns (i: nat, tried: seq<Outgoing>)
    requires start <= |urls|
    ensures i == FirstOpened(urls, start, tabFor)
    ensures tried == Attempts(q, |urls|, start, i)
  {
    i := start;
    tried := [];
    while i < |urls| && tabFor(i).None?
      invariant start <= i <= |urls|
      invariant FirstOpened(urls, i, tabFor) == FirstOpened(urls, start, tabFor)
      invariant tried == Attempts(q, |urls|, start, i)
      decreases |urls| - i
    {
      tried := tried + [Progress(q, i + 1, |urls|)];
      i := i + 1;
    }
  }

  /** Opening the entry of the URL at `j` keeps every entry with its URL. */
  lemma OpenKeepsUrls(m: map<nat, UrlEntry>, urls: seq<string>, j: nat, tabFor: nat -> Option<nat>)
    requires forall k :: k in m ==> k < |urls| && m[k].url == urls[k]
    ensures forall k :: k in Open(m, urls, j, tabFor) ==> k < |urls| && Open(m, urls, j, tabFor)[k].url == urls[k]
    ensures j < |urls| && tabFor(j).Some? ==> j in Open(m, urls, j, tabFor)
  {
  }

  /** `completedUrls.find(u => u && u.tabId === tabId)`: the lowest index below
      `n` holding an entry for the tab. */
  function FindTab(m: map<nat, UrlEntry>, tabId: nat, i: nat, n: nat): (r: Option<nat>)
    requires i <= n
    ensures r.Some? ==> i <= r.value < n && r.value in m && m[r.value].tabId == tabId
    ensures r.Some? ==> forall k :: i <= k < r.value && k in m ==> m[k].tabId != tabId
    ensures r.None? ==> forall k :: i <= k < n && k in m ==> m[k].tabId != tabId
    decreases n - i
  {
    if i == n then None
    else if i in m && m[i].tabId == tabId then Some(i)
    else FindTab(m, tabId, i + 1, n)
  }

  /** The search half of `onUpdated` for a finished load of `tabId`. */
  function MarkLoaded(m: map<nat, UrlEntry>, tabId: nat, n: nat): map<nat, UrlEntry> {
    match FindTab(m, tabId, 0, n)
    case Some(k) => if m[k].status == Loading then m[k := m[k].(status := Loaded)] else m
    case None => m
  }

  /** Marking changes at most the status of one entry, from loading to loaded. */
  lemma MarkLoadedFrame(m: map<nat, UrlEntry>, tabId: nat, n: nat)
    ensures MarkLoaded(m, tabId, n).Keys == m.Keys
    ensures forall k :: k in m ==>
      var e := MarkLoaded(m, tabId, n)[k];
      && e.url == m[k].url && e.tabId == m[k].tabId && e.extractedLinks == m[k].extractedLinks
      && (m[k].status == Loaded ==> e.status == Loaded)
      && (e.status != m[k].status ==> FindTab(m, tabId, 0, n) == Some(k))
  {
  }

  class Worker {
    var searchActive: bool
    var searchUrls: seq<string>
    var searchIndex: nat
    var searchInstallation: Option<string>
    var completed: map<nat, UrlEntry>
    var applyActive: bool
    var applyUrls: seq<string>
    var applyIndex: nat
    var applyInstallation: Option<string>
    var currentTabId: Option<nat>
    var sent: seq<Outgoing>

    /** The search index stays within its list and every entry belongs to the URL
        at its index. */
    ghost predicate SearchShape()
      reads this
    {
      && searchIndex <= |searchUrls|
      && forall k :: k in completed ==> k < |searchUrls| && completed[k].url == searchUrls[k]
    }

    /** The application index stays within its list, and while the queue is active
        an open application tab belongs to a URL of the list. */
    ghost predicate ApplyShape()
      reads this
    {
      && applyIndex <= |applyUrls|
      && (currentTabId.Some? && applyActive ==> applyIndex < |applyUrls|)
    }

    /** On top of the shapes: a search is active exactly while the current URL has
        an open tab entry. */
    ghost predicate Valid()
      reads this
    {
      && SearchShape()
      && ApplyShape()
      && (searchActive <==> searchIndex < |searchUrls| && searchIndex in completed)
    }

    constructor ()
      ensures Valid()
      ensures !searchActive && searchUrls == [] && searchIndex == 0 && searchInstallation == None && completed == map[]
      ensures !applyActive && applyUrls == [] && applyIndex == 0 && applyInstallation == None && currentTabId == None
      ensures sent == []
    {
      searchActive := false;
      searchUrls := [];
      searchIndex := 0;
      searchInstallation := None;
      completed := map[];
      applyActive := false;
      applyUrls := [];
      applyIndex := 0;
      applyInstallation := None;
      currentTabId := None;
      sent := [];
    }

    /** `processNextUrl`: tries the URLs from the current index on, skipping those
        whose tab could not be opened, and either records the opened tab or ends
        the search. */
    method ProcessNextUrl(tabFor: nat -> Option<nat>)
      requires SearchShape() && ApplyShape() && searchActive
      modifies this
      ensures Valid()
      ensures searchIndex == FirstOpened(old(searchUrls), old(searchIndex), tabFor)
      ensures completed == Open(old(completed), searchUrls, searchIndex, tabFor)
      ensures searchActive == (searchIndex < |searchUrls|)
      ensures sent == old(sent) + Notes(Search, |searchUrls|, old(searchIndex), searchIndex)
      ensures searchUrls == old(searchUrls) && searchInstallation == old(searchInstallation)
      ensures applyActive == old(applyActive) && applyUrls == old(applyUrls) && applyIndex == old(applyIndex)
      ensures applyInstallation == old(applyInstallation) && currentTabId == old(currentTabId)
    {
      var i, tried := NextOpened(Search, searchUrls, searchIndex, tabFor);
      OpenKeepsUrls(completed, searchUrls, i, tabFor);
      if i == |searchUrls| {
        searchActive := false;
        sent := sent + tried + [Complete(Search)];
      } else {
        sent := sent + tried + [Progress(Search, i + 1, |searchUrls|)];
        completed := completed[i := UrlEntry(searchUrls[i], tabFor(i).value, Loading, [])];
      }
      searchIndex := i;
    }

    /** `handleStartJobSearch`: resets the search state and starts the queue. */
    method StartJobSearch(urls: seq<string>, installationId: Option<string>, tabFor: nat -> Option<nat>)
      requires Valid()
      modifies this
      ensures Valid()
      ensures searchUrls == urls && searchInstallation == installationId
      ensures searchIndex == FirstOpened(urls, 0, tabFor)
      ensures completed == Open(map[], urls, searchIndex, tabFor)
      ensures searchActive == (searchIndex < |urls|)
      ensures sent == old(sent) + Notes(Search, |urls|, 0, searchIndex)
      ensures applyActive == old(applyActive) && applyUrls == old(applyUrls) && applyIndex == old(applyIndex)
      ensures applyInstallation == old(applyInstallation) && currentTabId == old(currentTabId)
    {
      searchActive := true;
      searchUrls := urls;
      searchIndex := 0;
      searchInstallation := installationId;
      completed := map[];
      ProcessNextUrl(tabFor);
    }

    /** `handleLinksExtracted`: appends the reported links to the current entry; on
        `submitLinks` posts them, closes the tab and moves to the next URL. A failed
        POST takes the same path as a successful one, so its outcome is not a
        parameter. With no entry at the current index the read through `undefined`
        throws and nothing changes. */
    method HandleLinksExtracted(links: seq<string>, tabId: nat, submitLinks: bool, tabFor: nat -> Option<nat>)
      returns (r: Result<()>)
      requires Valid()
      modifies this
      ensures Valid()
      ensures r.Err? <==> old(searchIndex) !in old(completed)
      ensures r.Err? ==> r.error == TypeError && unchanged(this)
      ensures old(searchIndex) in old(completed) ==>
        && searchUrls == old(searchUrls) && searchInstallation == old(searchInstallation)
        && applyActive == old(applyActive) && applyUrls == old(applyUrls) && applyIndex == old(applyIndex)
        && applyInstallation == old(applyInstallation) && currentTabId == old(currentTabId)
      ensures old(searchIndex) in old(completed) && !submitLinks ==>
        && searchIndex == old(searchIndex) && searchActive == old(searchActive) && sent == old(sent)
        && completed == old(completed)[old(searchIndex) := Grown(old(completed)[old(searchIndex)], links)]
      ensures old(searchIndex) in old(completed) && submitLinks ==>
        && searchIndex == FirstOpened(old(searchUrls), old(searchIndex) + 1, tabFor)
        && searchActive == (searchIndex < |searchUrls|)
      ensures old(searchIndex) in old(completed) && submitLinks ==>
        completed == Open(old(completed)[old(searchIndex) := Grown(old(completed)[old(searchIndex)], links)],
                          old(searchUrls), searchIndex, tabFor)
      ensures old(searchIndex) in old(completed) && submitLinks ==>
        sent == old(sent)
                + [PostListings(old(searchInstallation), Grown(old(completed)[old(searchIndex)], links).extractedLinks),
                   RemoveTab(tabId)]
                + Notes(Search, |old(searchUrls)|, old(searchIndex) + 1, searchIndex)
    {
      if searchIndex !in completed {
        return Err(TypeError);
      }
      var e := Grown(completed[searchIndex], links);
      var allLinks := e.extractedLinks;
      completed := completed[searchIndex := e];
      assert completed.Keys == old(completed).Keys;
      assert SearchShape();
      r := Ok(());
      if !submitLinks {
        return;
      }
      SubmitLinks(tabId, tabFor);
    }

    /** The `submitLinks` half of `handleLinksExtracted`: posts the current entry's
        links, closes its tab and moves the search on, whether or not the POST
        succeeded. */
    method SubmitLinks(tabId: nat, tabFor: nat -> Option<nat>)
      requires Valid() && searchIndex in completed
      modifies this
      ensures Valid()
      ensures searchIndex == FirstOpened(old(searchUrls), old(searchIndex) + 1, tabFor)
      ensures completed == Open(old(completed), old(searchUrls), searchIndex, tabFor)
      ensures searchActive == (searchIndex < |searchUrls|)
      ensures sent == old(sent) + [PostListings(old(searchInstallation), old(completed)[old(searchIndex)].extractedLinks), RemoveTab(tabId)]
                    + Notes(Search, |old(searchUrls)|, old(searchIndex) + 1, searchIndex)
      ensures searchUrls == old(searchUrls) && searchInstallation == old(searchInstallation)
      ensures applyActive == old(applyActive) && applyUrls == old(applyUrls) && applyIndex == old(applyIndex)
      ensures applyInstallation == old(applyInstallation) && currentTabId == old(currentTabId)
    {
      sent := sent + [PostListings(searchInstallation, completed[searchIndex].extractedLinks), RemoveTab(tabId)];
      searchIndex := searchIndex + 1;
      ProcessNextUrl(tabFor);
    }

    /** `onUpdated` for a load of `tabId` (`complete` is `changeInfo.status ===
        'complete'`): marks the search tab loaded, and asks the current application
        tab's content script to process the page. */
    method OnUpdated(tabId: nat, complete: bool)
      requires Valid()
      modifies this
      ensures Valid()
      ensures completed == (if searchActive && complete then MarkLoaded(old(completed), tabId, |searchUrls|) else old(completed))
      ensures sent == old(sent) + (if applyActive && complete && currentTabId == Some(tabId)
                                   then [ProcessJobPage(tabId, applyInstallation)] else [])
      ensures searchActive == old(searchActive) && searchUrls == old(searchUrls) && searchIndex == old(searchIndex)
      ensures searchInstallation == old(searchInstallation)
      ensures applyActive == old(applyActive) && applyUrls == old(applyUrls) && applyIndex == old(applyIndex)
      ensures applyInstallation == old(applyInstallation) && currentTabId == old(currentTabId)
    {
      if searchActive && complete {
        MarkLoadedFrame(completed, tabId, |searchUrls|);
        completed := MarkLoaded(completed, tabId, |searchUrls|);
      }
      if applyActive && complete && currentTabId == Some(tabId) {
        sent := sent + [ProcessJobPage(tabId, applyInstallation)];
      }
    }

    /** `openNextApplicationUrl`: tries the application URLs from the current
        index on, skipping those whose tab could not be opened, and either
        remembers the opened tab or ends the queue. */
    method OpenNextApplicationUrl(tabFor: nat -> Option<nat>)
      requires Valid()
      modifies this
      ensures Valid()
      ensures applyIndex == FirstOpened(old(applyUrls), old(applyIndex), tabFor)
      ensures applyIndex < |applyUrls| ==>
        currentTabId == tabFor(applyIndex) && applyActive == old(applyActive)
      ensures applyIndex == |applyUrls| ==> currentTabId == old(currentTabId) && !applyActive
      ensures sent == old(sent) + Notes(Apply, |applyUrls|, old(applyIndex), applyIndex)
      ensures applyUrls == old(applyUrls) && applyInstallation == old(applyInstallation)
      ensures searchActive == old(searchActive) && searchUrls == old(searchUrls) && searchIndex == old(searchIndex)
      ensures searchInstallation == old(searchInstallation) && completed == old(completed)
    {
      var i, tried := NextOpened(Apply, applyUrls, applyIndex, tabFor);
      if i == |applyUrls| {
        applyActive := false;
        sent := sent + tried + [Complete(Apply)];
      } else {
        sent := sent + tried + [Progress(Apply, i + 1, |applyUrls|)];
        currentTabId := tabFor(i);
      }
      applyIndex := i;
    }

    /** `handleStartApplying`: resets the application state and opens the first
        URL. */
    method StartApplying(urls: seq<string>, installationId: Option<string>, tabFor: nat -> Option<nat>)
      requires Valid()
      modifies this
      ensures Valid()
      ensures applyUrls == urls && applyInstallation == installationId
      ensures applyIndex == FirstOpened(urls, 0, tabFor)
      ensures applyIndex < |urls| ==> currentTabId == tabFor(applyIndex) && applyActive
      ensures applyIndex == |urls| ==> currentTabId == None && !applyActive
      ensures sent == old(sent) + Notes(Apply, |urls|, 0, applyIndex)
      ensures searchActive == old(searchActive) && searchUrls == old(searchUrls) && searchIndex == old(searchIndex)
      ensures searchInstallation == old(searchInstallation) && completed == old(completed)
    {
      applyActive := true;
      applyUrls := urls;
      applyIndex := 0;
      applyInstallation := installationId;
      currentTabId := None;
      OpenNextApplicationUrl(tabFor);
    }

    /** `onRemoved`: closing the current application tab moves the queue on by one
        and forgets the tab; closing any other tab changes nothing. The deferred
        `openNextApplicationUrl` is a separate call. */
    method OnRemoved(tabId: nat)
      requires Valid()
      modifies this
      ensures Valid()
      ensures old(applyActive) && old(currentTabId) == Some(tabId) ==>
        && applyIndex == old(applyIndex) + 1 && currentTabId == None
        && applyActive && applyUrls == old(applyUrls) && applyInstallation == old(applyInstallation)
        && searchActive == old(searchActive) && searchUrls == old(searchUrls) && searchIndex == old(searchIndex)
        && searchInstallation == old(searchInstallation) && completed == old(completed) && sent == old(sent)
      ensures !(old(applyActive) && old(currentTabId) == Some(tabId)) ==> unchanged(this)
    {
      if applyActive && currentTabId == Some(tabId) {
        applyIndex := applyIndex + 1;
        currentTabId := None;
      }
    }
  }
}

module BackgroundLemmas {
  import opened Wrappers
  import opened Background

  /** `FirstOpened` is the only index meeting its description. */
  lemma {:induction false} FirstOpenedUnique(urls: seq<string>, i: nat, j: nat, tabFor: nat -> Option<nat>)
    requires i <= j <= |urls|
    requires j < |urls| ==> tabFor(j).Some?
    requires forall k :: i <= k < j ==> tabFor(k).None?
    ensures FirstOpened(urls, i, tabFor) == j
    decreases j - i
  {
    if i < j {
      FirstOpenedUnique(urls, i + 1, j, tabFor);
    }
  }

  /** When every tab opens, a queue advances by exactly one URL. */
  lemma FirstOpenedAllOpen(urls: seq<string>, i: nat, tabFor: nat -> Option<nat>)
    requires i <= |urls|
    requires forall k :: tabFor(k).Some?
    ensures FirstOpened(urls, i, tabFor) == i
  {
  }

  /** A queue that stops before the end reported every URL it tried, in order;
      one that reached the end reported each remaining URL and then its
      completion. */
  lemma NotesShape(q: Queue, total: nat, i: nat, j: nat)
    requires i <= j <= total
    ensures j < total ==> |Notes(q, total, i, j)| == j - i + 1 && Complete(q) !in Notes(q, total, i, j)
    ensures j == total ==> |Notes(q, total, i, j)| == j - i + 1 && Notes(q, total, i, j)[j - i] == Complete(q)
    ensures forall k :: 0 <= k < j - i ==> Notes(q, total, i, j)[k] == Progress(q, i + k + 1, total)
  {
  }

  /** The loading-to-loaded move happens at most once: a second completed load of
      the same tab changes nothing. */
  lemma MarkLoadedOnce(m: map<nat, UrlEntry>, tabId: nat, n: nat)
    ensures MarkLoaded(MarkLoaded(m, tabId, n), tabId, n) == MarkLoaded(m, tabId, n)
  {
    var m1 := MarkLoaded(m, tabId, n);
    match FindTab(m, tabId, 0, n)
    case None =>
    case Some(k) =>
      FindTabSameTabs(m, m1, tabId, 0, n);
  }

  /** Finding depends only on which indices hold which tab. */
  lemma {:induction false} FindTabSameTabs(m: map<nat, UrlEntry>, m1: map<nat, UrlEntry>, tabId: nat, i: nat, n: nat)
    requires i <= n
    requires m1.Keys == m.Keys
    requires forall k :: k in m ==> m1[k].tabId == m[k].tabId
    ensures FindTab(m1, tabId, i, n) == FindTab(m, tabId, i, n)
    decreases n - i
  {
    if i < n {
      FindTabSameTabs(m, m1, tabId, i + 1, n);
    }
  }

  /** The tab a load belongs to is the lowest-indexed entry for it: an earlier
      entry for the same tab shadows a later one. */
  lemma MarkLoadedFirstEntry(m: map<nat, UrlEntry>, tabId: nat, n: nat, k: nat)
    requires k < n && k in m && m[k].tabId == tabId && m[k].status == Loading
    requires forall j :: 0 <= j < k && j in m ==> m[j].tabId != tabId
    ensures MarkLoaded(m, tabId, n) == m[k := m[k].(status := Loaded)]
  {
  }
}
