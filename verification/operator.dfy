/** The operator scripts of snippets/lever_processor_v1.py. `LeverQuestionProcessor`
    saves the agent's proposed answers for each Lever posting and marks the posting
    agent-processed; `LeverAutoApply` replays the stored answers of each
    agent-processed posting in a browser, puts the cover letter on the clipboard and
    turns the operator's one-line command into an update of the posting. Standard
    input is a list of lines, the clipboard a field, the browser the session of
    module `Browser`. */
module Operator {
  import opened Wrappers
  import opened Strings
  import opened Urls
  import opened Schemas
  import opened Store
  import opened Browser

  /** `if self._limit: query = query.limit(self._limit)`: a missing or zero limit
      keeps every row, and SQLite reads a negative `LIMIT` as no limit at all. */
  function Limited(rows: seq<Posting>, limit: Option<int>): (r: seq<Posting>)
    ensures r <= rows
    ensures |r| == if limit.Some? && 0 < limit.value < |rows| then limit.value else |rows|
  {
    if limit.Some? && 0 < limit.value < |rows| then rows[..limit.value] else rows
  }

  /** The filter of `get_postings`: a title other than the two placeholders (compared
      exactly), not processed, a link that is `LIKE '%lever%'`, not agent-processed. */
  predicate AgentCandidate(p: Posting) {
    && p.title != "unprocessed" && p.title != "unknown"
    && !p.isProcessed
    && Like(p.link, "%lever%")
    && !p.isAgentProcessed
  }

  function GetPostings(db: Db, limit: Option<int>): seq<Posting> {
    Limited(Where(db.postings, AgentCandidate), limit)
  }

  /** `save_action`: one `application_actions` row for an answer, with the next rowid:
      the answer text is the action's value, the kind its name. */
  function SaveAction(db: Db, postingId: nat, answer: LeverQuestion): Db {
    db.(actions := db.actions + [ActionRowOf(MaxActionId(db.actions) + 1, postingId, answer)])
  }

  /** `update_posting`. */
  function MarkAgentProcessed(db: Db, postingId: nat): Db {
    Update(db, postingId, [SetIsAgentProcessed(true)])
  }

  /** What iterating `process_questions(link, page_text)` gives for a posting: the
      answers yielded before it ended, and the exception that ended it, if any. */
  datatype Stream = Stream(answers: seq<LeverQuestion>, fault: Option<Fault>)

  /** The class defines no `process_questions`: looking the attribute up raises
      before anything is yielded. */
  function MissingStream(p: Posting): Stream {
    Stream([], Some(AttributeError))
  }

  /** The inner loop: each answer saved in its own commit; `saveOk` says whether the
      database accepted it, and a refused save is logged and skipped. */
  function SaveAll(db: Db, postingId: nat, answers: seq<LeverQuestion>, saveOk: LeverQuestion -> bool): Db
    decreases |answers|
  {
    if answers == [] then db
    else SaveAll(if saveOk(answers[0]) then SaveAction(db, postingId, answers[0]) else db, postingId, answers[1..], saveOk)
  }

  /** One posting of `LeverQuestionProcessor.process`: its answers are saved, and the
      posting is marked only when the stream ended without an exception. */
  function QuestionStep(db: Db, p: Posting, s: Stream, saveOk: LeverQuestion -> bool): Db {
    var saved := SaveAll(db, p.id, s.answers, saveOk);
    if s.fault.None? then MarkAgentProcessed(saved, p.id) else saved
  }

  /** The whole loop: every posting in order, each failure logged and passed over. */
  function QuestionRun(db: Db, ps: seq<Posting>, stream: Posting -> Stream, saveOk: LeverQuestion -> bool): Db
    decreases |ps|
  {
    if ps == [] then db else QuestionRun(QuestionStep(db, ps[0], stream(ps[0]), saveOk), ps[1..], stream, saveOk)
  }

  class QuestionProcessor {
    /** `self._limit`. */
    const limit: Option<int>
    /** The committed state of the database. */
    var db: Db

    constructor (limit: Option<int>, db: Db)
      ensures this.limit == limit && this.db == db
    {
      this.limit := limit;
      this.db := db;
    }

    /** `process` with `process_questions` supplied as `stream`: the selected
        postings in table order, each one's answers saved, then the posting marked,
        a posting whose stream raised left unmarked. As written the stream is
        `MissingStream`. */
    method Process(stream: Posting -> Stream, saveOk: LeverQuestion -> bool)
      modifies this
      ensures db == QuestionRun(old(db), GetPostings(old(db), limit), stream, saveOk)
    {
      var postings := GetPostings(db, limit);
      ghost var start := db;
      var i := 0;
      while i < |postings|
        invariant 0 <= i <= |postings|
        invariant QuestionRun(start, postings, stream, saveOk) == QuestionRun(db, postings[i..], stream, saveOk)
      {
        assert postings[i..][1..] == postings[i + 1..];
        var s := stream(postings[i]);
        SaveAnswers(postings[i].id, s.answers, saveOk);
        if s.fault.None? {
          db := MarkAgentProcessed(db, postings[i].id);
        }
        i := i + 1;
      }
    }

    /** The `async for` over one posting's answers. */
    method SaveAnswers(postingId: nat, answers: seq<LeverQuestion>, saveOk: LeverQuestion -> bool)
      modifies this
      ensures db == SaveAll(old(db), postingId, answers, saveOk)
    {
      var j := 0;
      while j < |answers|
        invariant 0 <= j <= |answers|
        invariant SaveAll(old(db), postingId, answers, saveOk) == SaveAll(db, postingId, answers[j..], saveOk)
      {
        assert answers[j..][1..] == answers[j + 1..];
        if saveOk(answers[j]) {
          db := SaveAction(db, postingId, answers[j]);
        }
        j := j + 1;
      }
    }
  }

  /** The filter of `_retrieve_job_postings`: at least one stored question, not
      processed, not expired, agent-processed. */
  predicate HasQuestions(questions: seq<QuestionRow>, id: nat) {
    exists q <- questions :: q.jobAnalysisId == id
  }

  function ApplyCandidate(db: Db): Posting -> bool {
    (p: Posting) => HasQuestions(db.questions, p.id) && !p.isProcessed && !p.expired && p.isAgentProcessed
  }

  function RetrievePostings(db: Db, limit: Option<int>): seq<Posting> {
    Limited(Where(db.postings, ApplyCandidate(db)), limit)
  }

  /** A question dict of `_retrieve_job_questions`, with its text-valued keys. */
  function QuestionRecord(q: QuestionRow): map<string, string> {
    map["question_html" := q.questionHtml, "question_text" := q.questionText,
        "answer_text" := q.answerText, "answer_execution_code" := q.answerExecutionCode]
  }

  function RetrieveQuestions(db: Db, jobId: nat): seq<map<string, string>> {
    var rows := QuestionsOf(db.questions, jobId);
    seq(|rows|, i requires 0 <= i < |rows| => QuestionRecord(rows[i]))
  }

  /** The `updates` dict of one command. The tests are substring tests, so the
      letters combine: `is_processed` is true unless the command contains `r`, and
      `notes` is written when it contains `n`. */
  function CommandChanges(cmd: string, notes: string): seq<Change> {
    [SetIsProcessed(!Contains(cmd, "r"))] + (if Contains(cmd, "n") then [SetNotes(Some(notes))] else [])
  }

  /** What one auto-apply run works on and leaves behind: the committed database,
      the unread input lines, the clipboard, and the apply links replayed so far. */
  datatype Desk = Desk(db: Db, input: seq<string>, clipboard: Option<string>, applied: seq<string>)

  /** How the browser side behaves: whether the launch succeeds, how each page load
      ends, whether each snippet runs, and whether the résumé input exists. */
  datatype Env = Env(launches: bool, load: string -> PageLoad, runs: string -> bool, resumeInput: bool)

  /** One posting of `LeverAutoApply.process`, and whether the command ended the
      loop. Each exception (a link `urlsplit` rejects, a timed-out `new_page`, a
      `None` cover letter the clipboard refuses, the end of input) is logged and
      leaves the posting as it was. */
  function ApplyStep(d: Desk, p: Posting, env: Env): (Desk, bool) {
    var cleaned := CleanUrl(p.link);
    if cleaned.Err? then (d, false)
    else if !EndsWith(cleaned.value, ApplySuffix) && env.load(cleaned.value) == GotoTimeout then (d, false)
    else if p.coverLetter.None? then (d, false)
    else
      TakeCommand(d.(clipboard := p.coverLetter, applied := d.applied + [ApplyLink(p.link).value]), p.id)
  }

  /** The prompt after `auto_apply`: a command, notes when it contains `n`, then the
      update of the posting `id`; the flag says whether the command contains `e`.
      Running out of input ends the step with the lines read so far consumed. */
  function TakeCommand(d: Desk, id: nat): (Desk, bool) {
    if d.input == [] then (d, false)
    else
      var cmd := d.input[0];
      if Contains(cmd, "n") && |d.input| == 1 then (d.(input := []), false)
      else
        var notes := if Contains(cmd, "n") then d.input[1] else "";
        var rest := if Contains(cmd, "n") then d.input[2..] else d.input[1..];
        (d.(db := Update(d.db, id, CommandChanges(cmd, notes)), input := rest), Contains(cmd, "e"))
  }

  /** The loop over the selected postings, ended early by a command containing `e`. */
  function ApplyRun(d: Desk, ps: seq<Posting>, env: Env): Desk
    decreases |ps|
  {
    if ps == [] then d
    else
      var (next, stop) := ApplyStep(d, ps[0], env);
      if stop then next else ApplyRun(next, ps[1..], env)
  }

  class LeverAutoApply {
    /** `self._limit`. */
    const limit: Option<int>
    /** `self._show_browser`. */
    const showBrowser: bool
    var db: Db
    /** Standard input, as the lines still to be read. */
    var input: seq<string>
    var clipboard: Option<string>
    /** The apply links handed to `auto_apply`, in order. */
    var applied: seq<string>

    function Current(): Desk
      reads this
    {
      Desk(db, input, clipboard, applied)
    }

    constructor (limit: Option<int>, showBrowser: bool, db: Db, input: seq<string>)
      ensures this.limit == limit && this.showBrowser == showBrowser
      ensures Current() == Desk(db, input, None, [])
    {
      this.limit := limit;
      this.showBrowser := showBrowser;
      this.db := db;
      this.input := input;
      this.clipboard := None;
      this.applied := [];
    }

    /** `process`: launch one browser, replay every selected posting in order, close
        the browser. A failed launch escapes before any posting is tried. */
    method Process(env: Env) returns (r: Result<()>)
      modifies this
      ensures !env.launches ==> r == Err(LaunchError) && Current() == old(Current())
      ensures env.launches ==> r == Ok(()) && Current() == ApplyRun(old(Current()), RetrievePostings(old(db), limit), env)
    {
      var postings := RetrievePostings(db, limit);
      var browser := new LeverBrowser("", !showBrowser, false);
      var launch := browser.CreateBrowser(env.launches);
      if launch.Err? {
        return Err(LaunchError);
      }
      ghost var final := ApplyRun(Current(), postings, env);
      var i := 0;
      var stopped := false;
      while i < |postings| && !stopped
        invariant 0 <= i <= |postings|
        invariant browser.Valid() && browser.browser.Some?
        invariant stopped ==> Current() == final
        invariant !stopped ==> ApplyRun(Current(), postings[i..], env) == final
        decreases |postings| - i
      {
        assert postings[i..][1..] == postings[i + 1..];
        stopped := ApplyOne(browser, postings[i], env);
        i := i + 1;
      }
      browser.CloseBrowser();
      r := Ok(());
    }

    /** The `try` block for one posting. */
    method ApplyOne(browser: LeverBrowser, p: Posting, env: Env) returns (stop: bool)
      requires browser.Valid() && browser.browser.Some?
      modifies this, browser
      ensures browser.Valid() && browser.browser == old(browser.browser)
      ensures (Current(), stop) == ApplyStep(old(Current()), p, env)
    {
      var questions := RetrieveQuestions(db, p.id);
      var cleaned := CleanUrl(p.link);
      if cleaned.Err? {
        return false;
      }
      var applyLink := cleaned.value;
      if !EndsWith(applyLink, ApplySuffix) {
        var page := browser.NewPage(applyLink, env.load(applyLink));
        if page.Err? {
          return false;
        }
        applyLink := applyLink + ApplySuffix;
      }
      if p.coverLetter.None? {
        return false;
      }
      clipboard := p.coverLetter;
      var report := browser.AutoApply(applyLink, questions, env.load(applyLink), env.runs, env.resumeInput);
      applied := applied + [applyLink];
      stop := ReadCommand(p.id);
    }

    /** The command prompt for the posting `id`. */
    method ReadCommand(id: nat) returns (stop: bool)
      modifies this
      ensures (Current(), stop) == TakeCommand(old(Current()), id)
    {
      if input == [] {
        return false;
      }
      var cmd := input[0];
      input := input[1..];
      var notes := "";
      if Contains(cmd, "n") {
        if input == [] {
          return false;
        }
        notes := input[0];
        input := input[1..];
      }
      db := Update(db, id, CommandChanges(cmd, notes));
      stop := Contains(cmd, "e");
    }
  }
}

/** What the operator scripts promise, and what the question processor does as
    written. */
module OperatorLemmas {
  import opened Wrappers
  import opened Strings
  import opened Urls
  import opened UrlLemmas
  import opened Schemas
  import opened Store
  import opened StoreLemmas
  import opened SchemaLemmas
  import opened Browser
  import opened Operator

  /** `LIKE '%lever%'` is a case-insensitive substring test. */
  lemma LeverLike(link: string)
    ensures Like(link, "%lever%") <==> Contains(Lower(link), "lever")
  {
    assert NoWildcard("lever");
    LikeContains(link, "lever");
    assert "%" + "lever" + "%" == "%lever%";
    assert Lower("lever") == "lever";
  }

  /** Without a positive limit, `get_postings` returns exactly the candidates. */
  lemma GetPostingsMembers(db: Db, limit: Option<int>, p: Posting)
    requires limit.None? || limit.value <= 0
    ensures p in GetPostings(db, limit) <==> p in db.postings && AgentCandidate(p)
  {
    WhereMembers(db.postings, AgentCandidate, p);
  }

  /** With a limit, only candidates are returned, at most `limit` of them. */
  lemma GetPostingsLimited(db: Db, limit: Option<int>, p: Posting)
    requires limit.Some? && limit.value > 0
    ensures |GetPostings(db, limit)| <= limit.value
    ensures p in GetPostings(db, limit) ==> p in db.postings && AgentCandidate(p)
  {
    WhereMembers(db.postings, AgentCandidate, p);
  }

  /** Without a positive limit, `_retrieve_job_postings` returns exactly the
      agent-processed, unprocessed, unexpired postings that have stored questions. */
  lemma RetrievePostingsMembers(db: Db, limit: Option<int>, p: Posting)
    requires limit.None? || limit.value <= 0
    ensures p in RetrievePostings(db, limit) <==>
      && p in db.postings && HasQuestions(db.questions, p.id)
      && !p.isProcessed && !p.expired && p.isAgentProcessed
  {
    WhereMembers(db.postings, ApplyCandidate(db), p);
  }

  /** The row `save_action` stores: a fresh rowid, the posting's id, the markup, the
      question text, the value as answer (NULL when the action has none), the
      kind's name and the selector. Nothing else changes. */
  lemma SaveActionRow(db: Db, postingId: nat, answer: LeverQuestion)
    ensures var r := SaveAction(db, postingId, answer);
      && r.postings == db.postings && r.questions == db.questions
      && |r.actions| == |db.actions| + 1 && r.actions[..|db.actions|] == db.actions
      && var row := r.actions[|db.actions|];
      && (forall old_row <- db.actions :: old_row.id != row.id)
      && row.jobAnalysisId == postingId && row.questionHtml == answer.questionHtml
      && row.questionText == answer.action.questionText && row.answerText == answer.action.value
      && ParseKind(row.action) == Some(answer.action.action) && row.querySelector == answer.action.querySelector
  {
    KindRoundTrip(answer.action.action);
    var r := SaveAction(db, postingId, answer);
    assert r.actions[..|db.actions|] == db.actions;
  }

  /** Saving answers adds action rows only. */
  lemma {:induction false} SaveAllFrame(db: Db, postingId: nat, answers: seq<LeverQuestion>, saveOk: LeverQuestion -> bool)
    ensures SaveAll(db, postingId, answers, saveOk).postings == db.postings
    ensures SaveAll(db, postingId, answers, saveOk).questions == db.questions
    ensures db.actions <= SaveAll(db, postingId, answers, saveOk).actions
    decreases |answers|
  {
    if answers != [] {
      var next := if saveOk(answers[0]) then SaveAction(db, postingId, answers[0]) else db;
      SaveAllFrame(next, postingId, answers[1..], saveOk);
    }
  }

  /** The number of rows one posting's saves add: one per accepted answer. */
  function Accepted(answers: seq<LeverQuestion>, saveOk: LeverQuestion -> bool): (n: nat)
    ensures n <= |answers|
  {
    if answers == [] then 0 else (if saveOk(answers[0]) then 1 else 0) + Accepted(answers[1..], saveOk)
  }

  lemma {:induction false} SaveAllCount(db: Db, postingId: nat, answers: seq<LeverQuestion>, saveOk: LeverQuestion -> bool)
    ensures |SaveAll(db, postingId, answers, saveOk).actions| == |db.actions| + Accepted(answers, saveOk)
    decreases |answers|
  {
    if answers != [] {
      var next := if saveOk(answers[0]) then SaveAction(db, postingId, answers[0]) else db;
      SaveAllCount(next, postingId, answers[1..], saveOk);
    }
  }

  /** A posting is agent-processed after the loop exactly when it was before, or a
      selected posting with its id had a stream that ended without an exception. */
  lemma {:induction false} QuestionRunMarks(db: Db, ps: seq<Posting>, stream: Posting -> Stream, saveOk: LeverQuestion -> bool, i: nat)
    requires i < |db.postings|
    ensures |QuestionRun(db, ps, stream, saveOk).postings| == |db.postings|
    ensures QuestionRun(db, ps, stream, saveOk).postings[i].id == db.postings[i].id
    ensures QuestionRun(db, ps, stream, saveOk).postings[i].isAgentProcessed <==>
      db.postings[i].isAgentProcessed || exists p <- ps :: p.id == db.postings[i].id && stream(p).fault.None?
    decreases |ps|
  {
    if ps != [] {
      var next := QuestionStep(db, ps[0], stream(ps[0]), saveOk);
      var saved := SaveAll(db, ps[0].id, stream(ps[0]).answers, saveOk);
      SaveAllFrame(db, ps[0].id, stream(ps[0]).answers, saveOk);
      assert next.postings[i].id == db.postings[i].id;
      assert next.postings[i].isAgentProcessed <==>
        db.postings[i].isAgentProcessed || (ps[0].id == db.postings[i].id && stream(ps[0]).fault.None?);
      QuestionRunMarks(next, ps[1..], stream, saveOk, i);
      assert ps == [ps[0]] + ps[1..];
    }
  }

  /** As written, `process` changes nothing: the missing `process_questions`
      raises for every posting, so no answer is saved and no posting is marked. */
  lemma {:induction false} QuestionRunAsWritten(db: Db, ps: seq<Posting>, saveOk: LeverQuestion -> bool)
    ensures QuestionRun(db, ps, MissingStream, saveOk) == db
    decreases |ps|
  {
    if ps != [] {
      assert QuestionStep(db, ps[0], MissingStream(ps[0]), saveOk) == db;
      QuestionRunAsWritten(db, ps[1..], saveOk);
    }
  }

  /** Every replayed question record has the keys `auto_apply` reads, so the replay
      reaches every stored question of the posting. */
  lemma RetrievedQuestionsReplay(db: Db, jobId: nat)
    ensures |RetrieveQuestions(db, jobId)| == |QuestionsOf(db.questions, jobId)|
    ensures forall q <- RetrieveQuestions(db, jobId) :: WellFormed(q)
    ensures Reached(RetrieveQuestions(db, jobId)) == |RetrieveQuestions(db, jobId)|
  {
    ReachedAll(RetrieveQuestions(db, jobId));
  }

  /** The command's effect on the posting: `is_processed` is false exactly when the
      command contains `r`, the notes change exactly when it contains `n`, and
      nothing else changes. */
  lemma CommandEffect(p: Posting, cmd: string, notes: string)
    ensures ApplyAll(p, CommandChanges(cmd, notes))
      == p.(isProcessed := 'r' !in cmd, notes := if 'n' in cmd then Some(notes) else p.notes)
  {
    ContainsChar(cmd, 'r');
    ContainsChar(cmd, 'n');
    var first := SetIsProcessed('r' !in cmd);
    if 'n' in cmd {
      assert CommandChanges(cmd, notes) == [first, SetNotes(Some(notes))];
      ApplyPair(p, first, SetNotes(Some(notes)));
    } else {
      assert CommandChanges(cmd, notes) == [first];
      ApplySingle(p, first);
    }
  }

  lemma ApplySingle(p: Posting, a: Change)
    ensures ApplyAll(p, [a]) == Apply(p, a)
  {
    assert ApplyAll(p, [a]) == ApplyAll(Apply(p, a), []);
  }

  lemma ApplyPair(p: Posting, a: Change, b: Change)
    ensures ApplyAll(p, [a, b]) == Apply(Apply(p, a), b)
  {
    assert ApplyAll(p, [a, b]) == ApplyAll(Apply(p, a), [b]);
    ApplySingle(Apply(p, a), b);
  }

  /** A posting whose link, page load and cover letter pass and for which the
      operator typed a command: the command's update is committed on every row with
      that id, the apply link `auto_apply` gets is its `ApplyLink`, the cover letter
      is on the clipboard, and the loop ends exactly when the command contains `e`. */
  lemma ApplyStepCommand(d: Desk, p: Posting, env: Env)
    requires CleanUrl(p.link).Ok? && p.coverLetter.Some?
    requires EndsWith(CleanUrl(p.link).value, ApplySuffix) || env.load(CleanUrl(p.link).value) != GotoTimeout
    requires d.input != [] && ('n' in d.input[0] ==> |d.input| >= 2)
    ensures var (next, stop) := ApplyStep(d, p, env);
      var cmd := d.input[0];
      && stop == ('e' in cmd)
      && next.clipboard == p.coverLetter
      && next.applied == d.applied + [ApplyLink(p.link).value]
      && next.input == d.input[if 'n' in cmd then 2 else 1..]
      && |next.db.postings| == |d.db.postings|
      && forall i :: 0 <= i < |d.db.postings| ==>
           next.db.postings[i] == if d.db.postings[i].id == p.id
             then d.db.postings[i].(isProcessed := 'r' !in cmd,
                                    notes := if 'n' in cmd then Some(d.input[1]) else d.db.postings[i].notes)
             else d.db.postings[i]
  {
    var cmd := d.input[0];
    ContainsChar(cmd, 'e');
    ContainsChar(cmd, 'n');
    var notes := if Contains(cmd, "n") then d.input[1] else "";
    forall i | 0 <= i < |d.db.postings| && d.db.postings[i].id == p.id {
      CommandEffect(d.db.postings[i], cmd, notes);
    }
  }

  /** One posting adds at most its own apply link to the replayed links. */
  lemma ApplyStepApplied(d: Desk, p: Posting, env: Env)
    ensures var next := ApplyStep(d, p, env).0;
      || next.applied == d.applied
      || (CleanUrl(p.link).Ok? && next.applied == d.applied + [ApplyLink(p.link).value])
  {
  }

  /** Every apply link handed to `auto_apply` ends with `/apply` and carries no
      query. */
  lemma {:induction false} ApplyRunLinks(d: Desk, ps: seq<Posting>, env: Env)
    requires forall l <- d.applied :: EndsWith(l, ApplySuffix) && NoQueryMark(l)
    ensures d.applied <= ApplyRun(d, ps, env).applied
    ensures forall l <- ApplyRun(d, ps, env).applied :: EndsWith(l, ApplySuffix) && NoQueryMark(l)
    decreases |ps|
  {
    if ps != [] {
      var (next, stop) := ApplyStep(d, ps[0], env);
      ApplyStepLinks(d, ps[0], env);
      if !stop {
        ApplyRunLinks(next, ps[1..], env);
      }
    }
  }

  /** One posting keeps every replayed link ending with `/apply` and free of a query. */
  lemma ApplyStepLinks(d: Desk, p: Posting, env: Env)
    requires forall l <- d.applied :: EndsWith(l, ApplySuffix) && NoQueryMark(l)
    ensures d.applied <= ApplyStep(d, p, env).0.applied
    ensures forall l <- ApplyStep(d, p, env).0.applied :: EndsWith(l, ApplySuffix) && NoQueryMark(l)
  {
    ApplyStepApplied(d, p, env);
    if CleanUrl(p.link).Ok? {
      ApplyLinkStrips(p.link);
      ApplyLinkHasNoQuery(p.link);
    }
  }

  /** A posting whose link `urlsplit` rejects is passed over: the run goes on with
      the next posting as if it had not been selected. */
  lemma ApplyRunSkipsBadLink(d: Desk, ps: seq<Posting>, env: Env)
    requires ps != [] && CleanUrl(ps[0].link).Err?
    ensures ApplyRun(d, ps, env) == ApplyRun(d, ps[1..], env)
  {
  }
}
