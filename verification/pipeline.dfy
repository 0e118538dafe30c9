/** The per-posting pipeline of src/processors/lever.py: `LeverProcessor` loads its
    installation's profile, then `process` walks the postings of that installation
    whose title is still `processing...`, and `process_job` validates each link,
    fetches the page, asks the model for the job details, records them, extracts the
    form's questions and stores one action row per answered question. The web, the
    model and the browser are the `World`: a fetch, an extraction, a launch and a page
    load each end in a value or an exception. */
module Pipeline {
  import opened Wrappers
  import opened Strings
  import opened Urls
  import opened UrlLemmas
  import opened Selectors
  import opened SelectorLemmas
  import opened Browser
  import opened Schemas
  import opened Store

  /** What the outside world answers the processor. */
  datatype World = World(
    fetch: string -> Result<string>,        // `requests.get`, `raise_for_status`, then the page's text
    jobInfo: string -> Result<JobDetails>,  // `generate_job_info` on a page text
    launches: bool,                         // whether launching a browser succeeds
    formLoad: string -> PageLoad,           // opening a link and awaiting the form container
    parse: string -> seq<Element>)          // the elements of the form markup, in document order

  /** The installation rows with the given id, in table order. */
  function InstallationRows(rows: seq<Installation>, installationId: string): (r: seq<Installation>)
    ensures forall x <- r :: x in rows && x.installationId == installationId
    ensures forall x <- rows :: x.installationId == installationId ==> x in r
  {
    if rows == [] then []
    else (if rows[0].installationId == installationId then [rows[0]] else []) + InstallationRows(rows[1..], installationId)
  }

  /** `_get_installation_data`: `one_or_none` on the installation's rows. No row raises
      `ValueError`; more than one raises `MultipleResultsFound`. */
  function InstallationData(db: Db, installationId: string): (r: Result<Installation>)
    ensures r.Ok? ==> r.value in db.installations && r.value.installationId == installationId
    ensures r == Err(ValueError) <==> forall x <- db.installations :: x.installationId != installationId
    ensures r.Err? ==> r.error == ValueError || r.error == MultipleResultsFound
    ensures r.Ok? <==> |InstallationRows(db.installations, installationId)| == 1
    ensures r == Err(MultipleResultsFound) <==> |InstallationRows(db.installations, installationId)| > 1
  {
    var rows := InstallationRows(db.installations, installationId);
    if |rows| == 0 then Err(ValueError)
    else if |rows| > 1 then assert rows[0] in rows; Err(MultipleResultsFound)
    else Ok(rows[0])
  }

  /** The call `process_questions` makes: four arguments to `generate_action`, which
      takes two besides `self`, so Python raises `TypeError` before the agent runs. */
  function GenerateActionCall(questionHtml: string, pageText: string, resume: string, preferences: string): Result<AgentAction> {
    Err(TypeError)
  }

  /** What consulting the agent on one fragment yields for this page and profile. */
  function Consult(pageText: string, installation: Installation): string -> Result<AgentAction> {
    h => GenerateActionCall(h, pageText, installation.resume, installation.preferences)
  }

  /** The questions the generator yields: each fragment in order, paired with the
      agent's action; a fragment whose call raises is logged and skipped. */
  function Answered(fragments: seq<string>, consult: string -> Result<AgentAction>): (r: seq<LeverQuestion>)
    ensures |r| <= |fragments|
  {
    if fragments == [] then []
    else
      var last := fragments[|fragments| - 1];
      Answered(fragments[..|fragments| - 1], consult)
      + (match consult(last) case Ok(a) => [LeverQuestion(a, last)] case Err(_) => [])
  }

  /** `process_questions` as a whole: the apply link, the form, the question fragments,
      then the answered questions. */
  function QuestionsOutcome(link: string, pageText: string, w: World, installation: Installation): Result<seq<LeverQuestion>> {
    var applyLink :- ApplyLink(link);
    if !w.launches then Err(LaunchError)
    else
      var html :- FormHtml(w.formLoad(applyLink));
      BrowserIdentifiersSimple();
      Ok(Answered(QuestionsHtml(FormQuestion, AdditionalInformation, w.parse(html)), Consult(pageText, installation)))
  }

  /** The columns `job_info.model_dump()` writes. */
  function JobInfoChanges(info: JobDetails): seq<Change> {
    [SetTitle(info.title), SetLocation(info.location), SetCompany(info.company),
     SetSalary(info.salary), SetDescription(info.description)]
  }

  predicate IsUnknown(info: JobDetails) {
    Lower(info.title) == "unknown"
  }

  /** How one `process_job` call ends, and the committed store after it. */
  datatype JobRun = JobRun(result: Result<()>, db: Db)

  /** The store once the job details are committed; an unknown title also clears
      `is_processing`. */
  function Titled(db: Db, jobId: nat, info: JobDetails): Db {
    Update(db, jobId, JobInfoChanges(info) + if IsUnknown(info) then [SetIsProcessing(false)] else [])
  }

  /** The store once the batch of action rows is committed and `is_processing` cleared. */
  function Stored(db: Db, jobId: nat, questions: seq<LeverQuestion>): Db {
    var added := db.(actions := db.actions + ActionRowsFor(MaxActionId(db.actions) + 1, jobId, questions));
    Update(added, jobId, [SetIsProcessing(false)])
  }

  /** The rest of `process_job` once the model returned the job details: record them,
      stop there for an unknown title, else store the questions `process_questions`
      yields, or raise what it raised. */
  function RecordStep(db: Db, info: JobDetails, jobId: nat, outcome: Result<seq<LeverQuestion>>): JobRun {
    var titled := Titled(db, jobId, info);
    if IsUnknown(info) then JobRun(Ok(()), titled)
    else match outcome
      case Err(e) => JobRun(Err(e), titled)
      case Ok(questions) => JobRun(Ok(()), Stored(titled, jobId, questions))
  }

  /** `process_job` on a posting's link and id, as a function of the store it starts from. */
  function JobStep(db: Db, link: string, jobId: nat, w: World, installation: Installation): JobRun {
    var target := StripApplySuffix(link);
    if !ValidateLeverUrl(target) then JobRun(Err(ValueError), db)
    else match w.fetch(target)
      case Err(e) => JobRun(Err(e), db)
      case Ok(pageText) =>
        match w.jobInfo(pageText)
        case Err(e) => JobRun(Err(e), db)
        case Ok(info) => RecordStep(db, info, jobId, QuestionsOutcome(target, pageText, w, installation))
  }

  /** The filter of `process`: this installation's postings, titled exactly `processing...`. */
  function Pending(installationId: string): Posting -> bool {
    (p: Posting) => p.installationId == installationId && p.title == "processing..."
  }

  function Selected(db: Db, installationId: string): seq<Posting> {
    Where(db.postings, Pending(installationId))
  }

  /** The store after `process_job` ran on each of `jobs` in turn. A failed job keeps
      what it committed before failing; the error update that follows is never
      committed, so it leaves no trace. */
  function ProcessAll(db: Db, jobs: seq<Posting>, w: World, installation: Installation): Db
    decreases |jobs|
  {
    if jobs == [] then db
    else
      var last := jobs[|jobs| - 1];
      JobStep(ProcessAll(db, jobs[..|jobs| - 1], w, installation), last.link, last.id, w, installation).db
  }

  /** Running one more job of the list is one more `JobStep`. */
  lemma ProcessAllStep(db: Db, jobs: seq<Posting>, i: nat, w: World, installation: Installation)
    requires i < |jobs|
    ensures ProcessAll(db, jobs[..i + 1], w, installation)
         == JobStep(ProcessAll(db, jobs[..i], w, installation), jobs[i].link, jobs[i].id, w, installation).db
  {
    assert jobs[..i + 1][..i] == jobs[..i];
  }

  class LeverProcessor {
    const installationId: string
    /** `self._installation_data`. */
    const installation: Installation
    /** `self._headless_mode`: always true. */
    const headless: bool
    /** The committed state of the database. */
    var db: Db
    /** The apply links whose form this processor opened, in order. */
    ghost var visited: seq<string>

    ghost predicate Valid()
      reads this
    {
      && installation.installationId == installationId
      && forall l <- visited :: EndsWith(l, ApplySuffix) && NoQueryMark(l)
    }

    /** `__init__` once the installation's profile was found. */
    constructor (installationId: string, db: Db)
      requires InstallationData(db, installationId).Ok?
      ensures Valid()
      ensures this.installationId == installationId && installation == InstallationData(db, installationId).value
      ensures this.db == db && headless && visited == []
    {
      this.installationId := installationId;
      this.installation := InstallationData(db, installationId).value;
      this.headless := true;
      this.db := db;
      this.visited := [];
    }

    /** `LeverProcessor(installation_id)`: raises when the installation has no single
        profile row. */
    static method Open(installationId: string, db: Db) returns (r: Result<LeverProcessor>)
      ensures r.Ok? <==> InstallationData(db, installationId).Ok?
      ensures r.Err? ==> r.error == InstallationData(db, installationId).error
      ensures r.Ok? ==> fresh(r.value) && r.value.Valid() && r.value.db == db && r.value.visited == []
      ensures r.Ok? ==> r.value.installation == InstallationData(db, installationId).value
    {
      var data := InstallationData(db, installationId);
      if data.Err? {
        return Err(data.error);
      }
      var processor := new LeverProcessor(installationId, db);
      r := Ok(processor);
    }

    /** `process_questions`: open the apply page of `link` in a browser of its own, take
        the question fragments of the form, and consult the agent on each in document
        order; a fragment whose call raises is logged and skipped. */
    method ProcessQuestions(link: string, pageText: string, w: World) returns (r: Result<seq<LeverQuestion>>)
      requires Valid()
      modifies this
      ensures Valid()
      ensures r == QuestionsOutcome(link, pageText, w, installation)
      ensures db == old(db)
      ensures visited == old(visited) + if ApplyLink(link).Ok? && w.launches then [ApplyLink(link).value] else []
    {
      var applyLink := ApplyLink(link);
      if applyLink.Err? {
        return Err(applyLink.error);
      }
      ApplyLinkStrips(link);
      ApplyLinkHasNoQuery(link);
      var extractor := new LeverBrowser(applyLink.value, headless, false);
      var formHtml := extractor.OpenAndGetFormHtml(w.launches, w.formLoad(applyLink.value));
      if w.launches {
        visited := visited + [applyLink.value];
      }
      if formHtml.Err? {
        return Err(formHtml.error);
      }
      BrowserIdentifiersSimple();
      var fragments := QuestionsHtml(FormQuestion, AdditionalInformation, w.parse(formHtml.value));
      var answers := AnswerAll(fragments, Consult(pageText, installation));
      r := Ok(answers);
    }

    /** The loop of `process_questions`: one agent call per fragment, in order; a call
        that raises is logged and the next fragment still runs. */
    static method AnswerAll(fragments: seq<string>, consult: string -> Result<AgentAction>) returns (answers: seq<LeverQuestion>)
      ensures answers == Answered(fragments, consult)
    {
      answers := [];
      var i := 0;
      while i < |fragments|
        invariant 0 <= i <= |fragments|
        invariant answers == Answered(fragments[..i], consult)
      {
        assert fragments[..i + 1][..i] == fragments[..i];
        var call := consult(fragments[i]);
        if call.Ok? {
          answers := answers + [LeverQuestion(call.value, fragments[i])];
        }
        i := i + 1;
      }
      assert fragments[..i] == fragments;
    }

    /** `process_job`: drop one trailing `/apply`, reject a link that is not a Lever
        posting before any fetch or write, fetch the page and ask the model for the job
        details, then record them. */
    method ProcessJob(link: string, jobId: nat, w: World) returns (r: Result<()>)
      requires Valid()
      modifies this
      ensures Valid()
      ensures JobRun(r, db) == JobStep(old(db), link, jobId, w, installation)
    {
      var target := StripApplySuffix(link);
      if !ValidateLeverUrl(target) {
        return Err(ValueError);
      }
      var page := w.fetch(target);
      if page.Err? {
        return Err(page.error);
      }
      var info := w.jobInfo(page.value);
      if info.Err? {
        return Err(info.error);
      }
      r := RecordJob(target, page.value, info.value, jobId, w);
    }

    /** The writes of `process_job`: the job details in one commit, then, unless the
        title is unknown, the action rows in one commit and `is_processing` cleared in
        another. */
    method RecordJob(target: string, pageText: string, info: JobDetails, jobId: nat, w: World) returns (r: Result<()>)
      requires Valid()
      modifies this
      ensures Valid()
      ensures JobRun(r, db) == RecordStep(old(db), info, jobId, QuestionsOutcome(target, pageText, w, installation))
    {
      db := Titled(db, jobId, info);
      if IsUnknown(info) {
        return Ok(());
      }
      var questions := ProcessQuestions(target, pageText, w);
      if questions.Err? {
        return Err(questions.error);
      }
      db := Stored(db, jobId, questions.value);
      r := Ok(());
    }

    /** `process`: every selected posting in table order; an exception in one is logged,
        its error update is issued without a commit, and the next posting still runs. */
    method Process(w: World)
      requires Valid()
      modifies this
      ensures Valid()
      ensures db == ProcessAll(old(db), Selected(old(db), installationId), w, installation)
    {
      var jobs := Selected(db, installationId);
      ghost var start := db;
      var i := 0;
      while i < |jobs|
        invariant 0 <= i <= |jobs| && Valid()
        invariant db == ProcessAll(start, jobs[..i], w, installation)
      {
        ProcessAllStep(start, jobs, i, w, installation);
        var r := ProcessJob(jobs[i].link, jobs[i].id, w);
        if r.Err? {
          var session := db;
          session := Update(session, jobs[i].id, [SetHasError(true), SetIsProcessing(false)]);
        }
        i := i + 1;
      }
      assert jobs[..i] == jobs;
    }
  }
}

/** What the pipeline promises, and what it does as written. */
module PipelineLemmas {
  import opened Wrappers
  import opened Strings
  import opened Urls
  import opened Selectors
  import opened SelectorLemmas
  import opened Browser
  import opened Schemas
  import opened Store
  import opened StoreLemmas
  import opened Pipeline

  /** A question is yielded exactly when its fragment was extracted and the agent's call
      on it returned that action: a call that raises drops only its own fragment. */
  lemma {:induction false} AnsweredMembers(fragments: seq<string>, consult: string -> Result<AgentAction>, q: LeverQuestion)
    ensures q in Answered(fragments, consult) <==> q.questionHtml in fragments && consult(q.questionHtml) == Ok(q.action)
    decreases |fragments|
  {
    if fragments != [] {
      var prefix := fragments[..|fragments| - 1];
      AnsweredMembers(prefix, consult, q);
      assert fragments == prefix + [fragments[|fragments| - 1]];
    }
  }

  /** Questions are yielded in document order: the answers to a concatenation of
      fragments are the answers to each part, in turn. */
  lemma {:induction false} AnsweredAppend(a: seq<string>, b: seq<string>, consult: string -> Result<AgentAction>)
    ensures Answered(a + b, consult) == Answered(a, consult) + Answered(b, consult)
    decreases |b|
  {
    if b == [] {
      assert a + b == a;
    } else {
      var prefix := b[..|b| - 1];
      AnsweredAppend(a, prefix, consult);
      assert (a + b)[..|a + b| - 1] == a + prefix;
      assert (a + b)[|a + b| - 1] == b[|b| - 1];
    }
  }

  /** As written, every agent call raises, so `process_questions` yields nothing. */
  lemma {:induction false} AnsweredAsWritten(fragments: seq<string>, pageText: string, installation: Installation)
    ensures Answered(fragments, Consult(pageText, installation)) == []
    decreases |fragments|
  {
    if fragments != [] {
      AnsweredAsWritten(fragments[..|fragments| - 1], pageText, installation);
    }
  }

  /** A job that fails before the job details are recorded: the link is not a Lever
      posting, the fetch fails, or the model's answer does not validate. */
  predicate FailsEarly(link: string, w: World) {
    var target := StripApplySuffix(link);
    !ValidateLeverUrl(target) || w.fetch(target).Err? || w.jobInfo(w.fetch(target).value).Err?
  }

  /** The job details the model returns for a job that gets past the early checks. */
  function InfoOf(link: string, w: World): JobDetails
    requires !FailsEarly(link, w)
  {
    w.jobInfo(w.fetch(StripApplySuffix(link)).value).value
  }

  /** What `process_questions` yields for a job that gets past the early checks. */
  function OutcomeOf(link: string, w: World, installation: Installation): Result<seq<LeverQuestion>>
    requires !FailsEarly(link, w)
  {
    var target := StripApplySuffix(link);
    QuestionsOutcome(target, w.fetch(target).value, w, installation)
  }

  /** A job that fails early raises and writes nothing (an invalid link raises
      `ValueError`); any other job records the model's details and goes on. */
  lemma JobStepCases(db: Db, link: string, jobId: nat, w: World, installation: Installation)
    ensures FailsEarly(link, w) ==> JobStep(db, link, jobId, w, installation).result.Err?
    ensures FailsEarly(link, w) ==> JobStep(db, link, jobId, w, installation).db == db
    ensures !ValidateLeverUrl(StripApplySuffix(link)) ==> JobStep(db, link, jobId, w, installation).result == Err(ValueError)
    ensures !FailsEarly(link, w) ==>
      JobStep(db, link, jobId, w, installation) == RecordStep(db, InfoOf(link, w), jobId, OutcomeOf(link, w, installation))
  {
  }

  /** Recording touches no posting but the job's own. */
  lemma RecordStepFrame(db: Db, info: JobDetails, jobId: nat, outcome: Result<seq<LeverQuestion>>, p: Posting)
    requires p in db.postings && p.id != jobId
    ensures p in RecordStep(db, info, jobId, outcome).db.postings
  {
    var titled := Titled(db, jobId, info);
    UpdateFrame(db, jobId, JobInfoChanges(info) + if IsUnknown(info) then [SetIsProcessing(false)] else [], p);
    if !IsUnknown(info) && outcome.Ok? {
      var added := titled.(actions := titled.actions + ActionRowsFor(MaxActionId(titled.actions) + 1, jobId, outcome.value));
      UpdateFrame(added, jobId, [SetIsProcessing(false)], p);
    }
  }

  /** Recording never writes `has_error` nor `is_agent_processed`. */
  lemma RecordStepNeverMarks(db: Db, info: JobDetails, jobId: nat, outcome: Result<seq<LeverQuestion>>)
    ensures SameMarks(db.postings, RecordStep(db, info, jobId, outcome).db.postings)
  {
    var titled := Titled(db, jobId, info);
    UpdateKeepsMarks(db, jobId, JobInfoChanges(info) + if IsUnknown(info) then [SetIsProcessing(false)] else []);
    if !IsUnknown(info) && outcome.Ok? {
      var added := titled.(actions := titled.actions + ActionRowsFor(MaxActionId(titled.actions) + 1, jobId, outcome.value));
      UpdateKeepsMarks(added, jobId, [SetIsProcessing(false)]);
    }
  }

  /** A job never writes `has_error` nor `is_agent_processed`. */
  lemma JobStepNeverMarks(db: Db, link: string, jobId: nat, w: World, installation: Installation)
    ensures SameMarks(db.postings, JobStep(db, link, jobId, w, installation).db.postings)
  {
    JobStepCases(db, link, jobId, w, installation);
    if !FailsEarly(link, w) {
      RecordStepNeverMarks(db, InfoOf(link, w), jobId, OutcomeOf(link, w, installation));
    }
  }

  /** A whole run never marks a posting as failed nor as agent-processed: the error
      update is never committed and nothing writes `is_agent_processed`. */
  lemma {:induction false} ProcessAllNeverMarks(db: Db, jobs: seq<Posting>, w: World, installation: Installation)
    ensures SameMarks(db.postings, ProcessAll(db, jobs, w, installation).postings)
    decreases |jobs|
  {
    if jobs != [] {
      var last := jobs[|jobs| - 1];
      ProcessAllNeverMarks(db, jobs[..|jobs| - 1], w, installation);
      JobStepNeverMarks(ProcessAll(db, jobs[..|jobs| - 1], w, installation), last.link, last.id, w, installation);
    }
  }

  /** Recording the job details writes the five fields the model returned and no other. */
  lemma InfoChangesWrite(p: Posting, info: JobDetails)
    ensures ApplyAll(p, JobInfoChanges(info)) ==
      p.(title := info.title, location := info.location, company := info.company,
         salary := info.salary, description := info.description)
  {
    var cs := JobInfoChanges(info);
    var p1 := p.(title := info.title);
    var p2 := p1.(location := info.location);
    var p3 := p2.(company := info.company);
    var p4 := p3.(salary := info.salary);
    var p5 := p4.(description := info.description);
    assert ApplyAll(p, cs) == ApplyAll(p1, cs[1..]);
    assert ApplyAll(p1, cs[1..]) == ApplyAll(p2, cs[2..]);
    assert ApplyAll(p2, cs[2..]) == ApplyAll(p3, cs[3..]);
    assert ApplyAll(p3, cs[3..]) == ApplyAll(p4, cs[4..]);
    assert ApplyAll(p4, cs[4..]) == ApplyAll(p5, cs[5..]);
    assert cs[5..] == [];
  }

  /** Recording that ends without an exception leaves the posting with `is_processing`
      false and the title the model returned; an unknown title (in any letter case)
      stops there with no action row stored. */
  lemma RecordStepCompletes(db: Db, info: JobDetails, jobId: nat, outcome: Result<seq<LeverQuestion>>)
    requires RecordStep(db, info, jobId, outcome).result.Ok?
    ensures var after := RecordStep(db, info, jobId, outcome).db;
      && |after.postings| == |db.postings|
      && (forall i :: 0 <= i < |db.postings| && db.postings[i].id == jobId ==>
            after.postings[i].title == info.title && !after.postings[i].isProcessing)
      && (IsUnknown(info) ==> after.actions == db.actions)
  {
    var after := RecordStep(db, info, jobId, outcome).db;
    forall i | 0 <= i < |db.postings| && db.postings[i].id == jobId
      ensures after.postings[i].title == info.title && !after.postings[i].isProcessing
    {
      RecordRowCompletes(db, info, jobId, outcome, i);
    }
  }

  /** The posting's own row after a recording that ends without an exception. */
  lemma RecordRowCompletes(db: Db, info: JobDetails, jobId: nat, outcome: Result<seq<LeverQuestion>>, i: nat)
    requires RecordStep(db, info, jobId, outcome).result.Ok?
    requires i < |db.postings| && db.postings[i].id == jobId
    ensures var after := RecordStep(db, info, jobId, outcome).db;
      && |after.postings| == |db.postings|
      && after.postings[i].title == info.title && !after.postings[i].isProcessing
  {
    var cs := JobInfoChanges(info);
    var p := db.postings[i];
    InfoChangesWrite(p, info);
    var q := ApplyAll(p, cs);
    if IsUnknown(info) {
      ApplyAllAppend(p, cs, [SetIsProcessing(false)]);
      assert ApplyAll(q, [SetIsProcessing(false)]) == q.(isProcessing := false);
    } else {
      var titled := Titled(db, jobId, info);
      assert cs + [] == cs;
      assert titled.postings[i] == q;
      assert ApplyAll(q, [SetIsProcessing(false)]) == q.(isProcessing := false);
    }
  }

  /** A job that ends without an exception leaves its posting with `is_processing` false. */
  lemma JobStepClearsProcessing(db: Db, link: string, jobId: nat, w: World, installation: Installation)
    requires JobStep(db, link, jobId, w, installation).result.Ok?
    ensures var after := JobStep(db, link, jobId, w, installation).db;
      && |after.postings| == |db.postings|
      && forall i :: 0 <= i < |db.postings| && db.postings[i].id == jobId ==> !after.postings[i].isProcessing
  {
    JobStepCases(db, link, jobId, w, installation);
    RecordStepCompletes(db, InfoOf(link, w), jobId, OutcomeOf(link, w, installation));
  }

  /** The batch a completed job stores: the existing rows, then one row per answered
      question, in order, each carrying the question's markup and the agent's action. */
  lemma StoredActions(db: Db, jobId: nat, questions: seq<LeverQuestion>)
    ensures var rows := Stored(db, jobId, questions).actions;
      && |rows| == |db.actions| + |questions|
      && db.actions <= rows
      && forall k :: 0 <= k < |questions| ==>
        rows[|db.actions| + k] == ActionRowOf(MaxActionId(db.actions) + 1 + k, jobId, questions[k])
  {
    var batch := ActionRowsFor(MaxActionId(db.actions) + 1, jobId, questions);
    assert Stored(db, jobId, questions).actions == db.actions + batch;
    ActionRowsForRows(MaxActionId(db.actions) + 1, jobId, questions);
  }

  /** As written, `process_questions` yields nothing whenever it does not raise. */
  lemma QuestionsOutcomeAsWritten(link: string, pageText: string, w: World, installation: Installation)
    requires QuestionsOutcome(link, pageText, w, installation).Ok?
    ensures QuestionsOutcome(link, pageText, w, installation).value == []
  {
    var html := FormHtml(w.formLoad(ApplyLink(link).value)).value;
    BrowserIdentifiersSimple();
    AnsweredAsWritten(QuestionsHtml(FormQuestion, AdditionalInformation, w.parse(html)), pageText, installation);
  }

  /** Recording stores no action row when the questions yield nothing. */
  lemma RecordStepNoQuestions(db: Db, info: JobDetails, jobId: nat, outcome: Result<seq<LeverQuestion>>)
    requires outcome.Ok? ==> outcome.value == []
    ensures RecordStep(db, info, jobId, outcome).db.actions == db.actions
  {
    var titled := Titled(db, jobId, info);
    assert titled.actions + ActionRowsFor(MaxActionId(titled.actions) + 1, jobId, []) == titled.actions;
  }

  /** As written, a job stores no action row at all, whatever the form holds. */
  lemma JobStepAsWrittenAddsNoActions(db: Db, link: string, jobId: nat, w: World, installation: Installation)
    ensures JobStep(db, link, jobId, w, installation).db.actions == db.actions
  {
    JobStepCases(db, link, jobId, w, installation);
    if !FailsEarly(link, w) {
      var target := StripApplySuffix(link);
      var outcome := OutcomeOf(link, w, installation);
      if outcome.Ok? {
        QuestionsOutcomeAsWritten(target, w.fetch(target).value, w, installation);
      }
      RecordStepNoQuestions(db, InfoOf(link, w), jobId, outcome);
    }
  }

  /** A job touches no posting but its own. */
  lemma JobStepFrame(db: Db, link: string, jobId: nat, w: World, installation: Installation, p: Posting)
    requires p in db.postings && p.id != jobId
    ensures p in JobStep(db, link, jobId, w, installation).db.postings
  {
    JobStepCases(db, link, jobId, w, installation);
    if !FailsEarly(link, w) {
      RecordStepFrame(db, InfoOf(link, w), jobId, OutcomeOf(link, w, installation), p);
    }
  }

  /** Through a whole run, a posting stays as it was when every job on its id fails early. */
  lemma {:induction false} ProcessAllKeeps(db: Db, jobs: seq<Posting>, w: World, installation: Installation, p: Posting)
    requires p in db.postings
    requires forall j <- jobs :: j.id == p.id ==> FailsEarly(j.link, w)
    ensures p in ProcessAll(db, jobs, w, installation).postings
    decreases |jobs|
  {
    if jobs != [] {
      var prefix := jobs[..|jobs| - 1];
      var last := jobs[|jobs| - 1];
      assert forall j <- prefix :: j in jobs;
      ProcessAllKeeps(db, prefix, w, installation, p);
      var mid := ProcessAll(db, prefix, w, installation);
      assert ProcessAll(db, jobs, w, installation) == JobStep(mid, last.link, last.id, w, installation).db;
      if last.id == p.id {
        JobStepCases(mid, last.link, last.id, w, installation);
      } else {
        JobStepFrame(mid, last.link, last.id, w, installation, p);
      }
    }
  }

  /** Ids are unique, so two rows with the same id are the same row. */
  lemma SameIdSameRow(db: Db, a: Posting, b: Posting)
    requires Valid(db) && a in db.postings && b in db.postings && a.id == b.id
    ensures a == b
  {
    var i :| 0 <= i < |db.postings| && db.postings[i] == a;
    var j :| 0 <= j < |db.postings| && db.postings[j] == b;
    assert i == j;
  }

  /** A selected posting whose job fails before its details are recorded is still
      pending after the run, since the error update is never committed: the next run
      selects it again. */
  lemma FailedPostingReselected(db: Db, installationId: string, w: World, installation: Installation, p: Posting)
    requires Valid(db)
    requires p in Selected(db, installationId) && FailsEarly(p.link, w)
    ensures p in Selected(ProcessAll(db, Selected(db, installationId), w, installation), installationId)
  {
    var jobs := Selected(db, installationId);
    WhereMembers(db.postings, Pending(installationId), p);
    forall j <- jobs | j.id == p.id ensures FailsEarly(j.link, w) {
      WhereMembers(db.postings, Pending(installationId), j);
      SameIdSameRow(db, j, p);
    }
    var after := ProcessAll(db, jobs, w, installation);
    ProcessAllKeeps(db, jobs, w, installation, p);
    WhereMembers(after.postings, Pending(installationId), p);
  }
}
