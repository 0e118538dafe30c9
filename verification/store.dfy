/** The record store of src/db/model.py: the `job_analysis`, `application_questions`,
    `application_actions` and `job_google_search_queries` tables, with their column
    defaults and constraints, the column updates the processors issue, and SQLite's
    `LIKE`. A table is the sequence of its rows in rowid order, the order an
    unordered query returns them in. A session is a copy of the tables that a commit
    writes back; one closed without a commit is dropped. */
module Store {
  import opened Wrappers
  import opened Strings
  import opened Schemas

  /** A `job_analysis` row. */
  datatype Posting = Posting(
    id: nat,
    link: string,
    title: string,
    location: Option<string>,
    company: Option<string>,
    salary: Option<string>,
    description: Option<string>,
    coverLetter: Option<string>,
    pageText: Option<string>,
    expired: bool,
    hasError: bool,
    isProcessing: bool,
    isProcessed: bool,
    notes: Option<string>,
    isAgentProcessed: bool,
    installationId: string)

  /** An `application_questions` row: a question with its recorded answer and the
      snippet that replays it. */
  datatype QuestionRow = QuestionRow(
    id: nat,
    jobAnalysisId: nat,
    questionHtml: string,
    questionText: string,
    answerText: string,
    answerExecutionCode: string)

  /** An `application_actions` row: one proposed action; only the answer may be NULL. */
  datatype ActionRow = ActionRow(
    id: nat,
    jobAnalysisId: nat,
    questionHtml: string,
    questionText: string,
    answerText: Option<string>,
    action: string,
    querySelector: string)

  /** A `job_google_search_queries` row. */
  datatype SearchQueryRow = SearchQueryRow(
    id: nat,
    installationId: string,
    site: string,
    roleFocus: string,
    filters: map<string, Json>,
    query: string,
    googleSearchUrl: string)

  /** The profile of an installed extension, as the processor reads it. */
  datatype Installation = Installation(installationId: string, resume: string, preferences: string)

  datatype Db = Db(
    postings: seq<Posting>,
    questions: seq<QuestionRow>,
    actions: seq<ActionRow>,
    searchQueries: seq<SearchQueryRow>,
    installations: seq<Installation>)

  /** The table constraints: primary keys are distinct and `link` is unique across the
      whole `job_analysis` table, whatever the installation. */
  ghost predicate Valid(db: Db) {
    && (forall i, j :: 0 <= i < j < |db.postings| ==> db.postings[i].id != db.postings[j].id)
    && (forall i, j :: 0 <= i < j < |db.postings| ==> db.postings[i].link != db.postings[j].link)
    && (forall i, j :: 0 <= i < j < |db.actions| ==> db.actions[i].id != db.actions[j].id)
  }

  /** The largest posting id, 0 for an empty table. */
  function MaxPostingId(ps: seq<Posting>): (m: nat)
    ensures forall p <- ps :: p.id <= m
  {
    if ps == [] then 0
    else var rest := MaxPostingId(ps[1..]); if ps[0].id > rest then ps[0].id else rest
  }

  function MaxActionId(rs: seq<ActionRow>): (m: nat)
    ensures forall r <- rs :: r.id <= m
  {
    if rs == [] then 0
    else var rest := MaxActionId(rs[1..]); if rs[0].id > rest then rs[0].id else rest
  }

  predicate HasLink(ps: seq<Posting>, link: string) {
    exists p <- ps :: p.link == link
  }

  /** A new `job_analysis` row: the five flags default to false and every nullable
      column to NULL. */
  function NewPosting(id: nat, link: string, title: string, installationId: string): Posting {
    Posting(id, link, title, None, None, None, None, None, None, false, false, false, false, None, false, installationId)
  }

  /** Inserting a posting and committing: a link already in the table violates the
      unique constraint; otherwise the row gets the next rowid. */
  function InsertPosting(db: Db, link: string, title: string, installationId: string): (r: Result<Db>)
    ensures r.Err? <==> HasLink(db.postings, link)
    ensures r.Err? ==> r.error == IntegrityError
    ensures r.Ok? ==> r.value == db.(postings := db.postings + [NewPosting(MaxPostingId(db.postings) + 1, link, title, installationId)])
  {
    if HasLink(db.postings, link) then Err(IntegrityError)
    else Ok(db.(postings := db.postings + [NewPosting(MaxPostingId(db.postings) + 1, link, title, installationId)]))
  }

  /** The `application_actions` row saved for one answered question: the answer text
      is the action's value, the kind its literal name. */
  function ActionRowOf(id: nat, jobId: nat, q: LeverQuestion): ActionRow {
    ActionRow(id, jobId, q.questionHtml, q.action.questionText, q.action.value, KindName(q.action.action), q.action.querySelector)
  }

  /** The rows of one batch insert, with consecutive rowids from `nextId`. */
  function ActionRowsFor(nextId: nat, jobId: nat, questions: seq<LeverQuestion>): (rows: seq<ActionRow>)
    ensures |rows| == |questions|
    decreases |questions|
  {
    if questions == [] then []
    else [ActionRowOf(nextId, jobId, questions[0])] + ActionRowsFor(nextId + 1, jobId, questions[1..])
  }

  /** One column assignment of an `update({...})` on `job_analysis`. */
  datatype Change =
    | SetTitle(title: string)
    | SetLocation(location: Option<string>)
    | SetCompany(company: Option<string>)
    | SetSalary(salary: Option<string>)
    | SetDescription(description: Option<string>)
    | SetCoverLetter(coverLetter: Option<string>)
    | SetNotes(notes: Option<string>)
    | SetExpired(expired: bool)
    | SetHasError(hasError: bool)
    | SetIsProcessing(isProcessing: bool)
    | SetIsProcessed(isProcessed: bool)
    | SetIsAgentProcessed(isAgentProcessed: bool)

  function Apply(p: Posting, c: Change): (q: Posting)
    ensures q.id == p.id && q.link == p.link && q.installationId == p.installationId
  {
    match c
    case SetTitle(v) => p.(title := v)
    case SetLocation(v) => p.(location := v)
    case SetCompany(v) => p.(company := v)
    case SetSalary(v) => p.(salary := v)
    case SetDescription(v) => p.(description := v)
    case SetCoverLetter(v) => p.(coverLetter := v)
    case SetNotes(v) => p.(notes := v)
    case SetExpired(v) => p.(expired := v)
    case SetHasError(v) => p.(hasError := v)
    case SetIsProcessing(v) => p.(isProcessing := v)
    case SetIsProcessed(v) => p.(isProcessed := v)
    case SetIsAgentProcessed(v) => p.(isAgentProcessed := v)
  }

  /** The assignments of one update, in order. */
  function ApplyAll(p: Posting, cs: seq<Change>): (q: Posting)
    ensures q.id == p.id && q.link == p.link && q.installationId == p.installationId
    decreases |cs|
  {
    if cs == [] then p else ApplyAll(Apply(p, cs[0]), cs[1..])
  }

  /** `query(JobAnalysis).filter(JobAnalysis.id == id).update(changes)`: every row with
      that id takes the changes; a missing id updates nothing. */
  function UpdatePosting(ps: seq<Posting>, id: nat, cs: seq<Change>): (r: seq<Posting>)
    ensures |r| == |ps|
    ensures forall i :: 0 <= i < |ps| ==> r[i] == if ps[i].id == id then ApplyAll(ps[i], cs) else ps[i]
  {
    if ps == [] then []
    else [if ps[0].id == id then ApplyAll(ps[0], cs) else ps[0]] + UpdatePosting(ps[1..], id, cs)
  }

  function Update(db: Db, id: nat, cs: seq<Change>): Db {
    db.(postings := UpdatePosting(db.postings, id, cs))
  }

  /** The postings a query keeps, in table order. */
  function Where(ps: seq<Posting>, keep: Posting -> bool): (r: seq<Posting>)
    ensures |r| <= |ps|
    ensures forall p <- r :: p in ps && keep(p)
  {
    if ps == [] then []
    else (if keep(ps[0]) then [ps[0]] else []) + Where(ps[1..], keep)
  }

  /** The action rows of one posting, in table order. */
  function ActionsOf(rs: seq<ActionRow>, jobId: nat): (r: seq<ActionRow>)
    ensures |r| <= |rs|
    ensures forall a <- r :: a in rs && a.jobAnalysisId == jobId
  {
    if rs == [] then []
    else (if rs[0].jobAnalysisId == jobId then [rs[0]] else []) + ActionsOf(rs[1..], jobId)
  }

  /** The question rows of one posting, in table order. */
  function QuestionsOf(rs: seq<QuestionRow>, jobId: nat): (r: seq<QuestionRow>)
    ensures |r| <= |rs|
    ensures forall q <- r :: q in rs && q.jobAnalysisId == jobId
  {
    if rs == [] then []
    else (if rs[0].jobAnalysisId == jobId then [rs[0]] else []) + QuestionsOf(rs[1..], jobId)
  }

  /** SQLite's `LIKE` without an escape character: `%` matches any run of characters,
      `_` any single character, and any other character matches itself ignoring ASCII
      case. */
  function Like(s: string, pattern: string): bool
    decreases |s| + |pattern|
  {
    if pattern == [] then s == []
    else if pattern[0] == '%' then Like(s, pattern[1..]) || (s != [] && Like(s[1..], pattern))
    else s != [] && (pattern[0] == '_' || LowerChar(pattern[0]) == LowerChar(s[0])) && Like(s[1..], pattern[1..])
  }

  /** A pattern text without wildcards. */
  predicate NoWildcard(k: string) {
    '%' !in k && '_' !in k
  }
}

/** What the store's operations promise. */
module StoreLemmas {
  import opened Wrappers
  import opened Strings
  import opened Schemas
  import opened Store

  /** A fresh row keeps every flag false and every nullable column NULL. */
  lemma InsertPostingDefaults(db: Db, link: string, title: string, installationId: string)
    requires InsertPosting(db, link, title, installationId).Ok?
    ensures var ps := InsertPosting(db, link, title, installationId).value.postings;
      var p := ps[|ps| - 1];
      && p.link == link && p.title == title && p.installationId == installationId
      && !p.expired && !p.hasError && !p.isProcessing && !p.isProcessed && !p.isAgentProcessed
      && p.location == p.company == p.salary == p.description == p.coverLetter == p.pageText == p.notes == None
  {
  }

  /** Inserting keeps the table constraints: the new id and the new link are both fresh. */
  lemma InsertPostingValid(db: Db, link: string, title: string, installationId: string)
    requires Valid(db)
    requires InsertPosting(db, link, title, installationId).Ok?
    ensures Valid(InsertPosting(db, link, title, installationId).value)
  {
    var ps := InsertPosting(db, link, title, installationId).value.postings;
    var n := |db.postings|;
    forall i | 0 <= i < n ensures ps[i].id != ps[n].id && ps[i].link != ps[n].link {
      assert ps[i] == db.postings[i] && ps[i] in db.postings;
    }
  }

  /** An update never touches a row's id, link or installation, so it keeps the table
      constraints. */
  lemma UpdateValid(db: Db, id: nat, cs: seq<Change>)
    requires Valid(db)
    ensures Valid(Update(db, id, cs))
  {
    var ps := Update(db, id, cs).postings;
    assert forall i :: 0 <= i < |ps| ==> ps[i].id == db.postings[i].id && ps[i].link == db.postings[i].link;
  }

  /** An update leaves the other tables and the other rows as they were. */
  lemma UpdateFrame(db: Db, id: nat, cs: seq<Change>, p: Posting)
    requires p in db.postings && p.id != id
    ensures p in Update(db, id, cs).postings
    ensures Update(db, id, cs).actions == db.actions && Update(db, id, cs).questions == db.questions
  {
    var i :| 0 <= i < |db.postings| && db.postings[i] == p;
    assert Update(db, id, cs).postings[i] == p;
  }

  /** An update applies its assignments in order. */
  lemma {:induction false} ApplyAllAppend(p: Posting, a: seq<Change>, b: seq<Change>)
    ensures ApplyAll(p, a + b) == ApplyAll(ApplyAll(p, a), b)
    decreases |a|
  {
    if a == [] {
      assert a + b == b;
    } else {
      assert (a + b)[0] == a[0] && (a + b)[1..] == a[1..] + b;
      assert ApplyAll(p, a + b) == ApplyAll(Apply(p, a[0]), a[1..] + b);
      ApplyAllAppend(Apply(p, a[0]), a[1..], b);
    }
  }

  /** An assignment that writes `has_error` or `is_agent_processed`. */
  predicate Marks(c: Change) {
    c.SetHasError? || c.SetIsAgentProcessed?
  }

  /** Two versions of a table with the same rows in the same places and the same
      `has_error` and `is_agent_processed` flags. */
  predicate SameMarks(a: seq<Posting>, b: seq<Posting>) {
    && |a| == |b|
    && forall i :: 0 <= i < |a| ==>
      a[i].id == b[i].id && a[i].hasError == b[i].hasError && a[i].isAgentProcessed == b[i].isAgentProcessed
  }

  lemma {:induction false} ApplyAllKeepsMarks(p: Posting, cs: seq<Change>)
    requires forall c <- cs :: !Marks(c)
    ensures ApplyAll(p, cs).hasError == p.hasError && ApplyAll(p, cs).isAgentProcessed == p.isAgentProcessed
    decreases |cs|
  {
    if cs != [] {
      assert cs[0] in cs;
      ApplyKeepsMarks(p, cs[0]);
      assert forall c <- cs[1..] :: c in cs;
      ApplyAllKeepsMarks(Apply(p, cs[0]), cs[1..]);
    }
  }

  lemma ApplyKeepsMarks(p: Posting, c: Change)
    requires !Marks(c)
    ensures Apply(p, c).hasError == p.hasError && Apply(p, c).isAgentProcessed == p.isAgentProcessed
  {
    match c
    case SetTitle(v) =>
    case SetLocation(v) =>
    case SetCompany(v) =>
    case SetSalary(v) =>
    case SetDescription(v) =>
    case SetCoverLetter(v) =>
    case SetNotes(v) =>
    case SetExpired(v) =>
    case SetIsProcessing(v) =>
    case SetIsProcessed(v) =>
  }

  /** An update that assigns neither flag leaves both flags of every row as they were. */
  lemma UpdateKeepsMarks(db: Db, id: nat, cs: seq<Change>)
    requires forall c <- cs :: !Marks(c)
    ensures SameMarks(db.postings, Update(db, id, cs).postings)
  {
    forall i | 0 <= i < |db.postings| && db.postings[i].id == id
      ensures ApplyAll(db.postings[i], cs).hasError == db.postings[i].hasError
      ensures ApplyAll(db.postings[i], cs).isAgentProcessed == db.postings[i].isAgentProcessed
    {
      ApplyAllKeepsMarks(db.postings[i], cs);
    }
  }

  /** `Where` keeps exactly the rows the filter accepts. */
  lemma {:induction false} WhereMembers(ps: seq<Posting>, keep: Posting -> bool, p: Posting)
    ensures p in Where(ps, keep) <==> p in ps && keep(p)
  {
    if ps != [] {
      WhereMembers(ps[1..], keep, p);
      assert ps == [ps[0]] + ps[1..];
    }
  }

  /** `Where` keeps table order: filtering a concatenation filters each part. */
  lemma {:induction false} WhereAppend(a: seq<Posting>, b: seq<Posting>, keep: Posting -> bool)
    ensures Where(a + b, keep) == Where(a, keep) + Where(b, keep)
  {
    if a == [] {
      assert a + b == b;
    } else {
      var head := if keep(a[0]) then [a[0]] else [];
      assert (a + b)[0] == a[0];
      assert (a + b)[1..] == a[1..] + b;
      assert Where(a + b, keep) == head + Where(a[1..] + b, keep);
      WhereAppend(a[1..], b, keep);
      assert Where(a, keep) == head + Where(a[1..], keep);
    }
  }

  /** `QuestionsOf` keeps exactly the stored question rows of the posting, as `.all()`
      returns them. */
  lemma {:induction false} QuestionsOfMembers(rs: seq<QuestionRow>, jobId: nat, q: QuestionRow)
    ensures q in QuestionsOf(rs, jobId) <==> q in rs && q.jobAnalysisId == jobId
  {
    if rs != [] {
      QuestionsOfMembers(rs[1..], jobId, q);
      assert rs == [rs[0]] + rs[1..];
    }
  }

  /** A batch holds one row per question, in question order, each carrying the
      question's markup, text, answer, kind and selector. */
  lemma {:induction false} ActionRowsForRows(nextId: nat, jobId: nat, questions: seq<LeverQuestion>)
    ensures forall k :: 0 <= k < |questions| ==> ActionRowsFor(nextId, jobId, questions)[k] == ActionRowOf(nextId + k, jobId, questions[k])
    decreases |questions|
  {
    if questions != [] {
      ActionRowsForRows(nextId + 1, jobId, questions[1..]);
    }
  }

  /** Rows numbered on from above every stored id keep the ids distinct. */
  lemma FreshIdsDistinct(old_: seq<ActionRow>, rows: seq<ActionRow>, m: nat)
    requires forall i, j :: 0 <= i < j < |old_| ==> old_[i].id != old_[j].id
    requires forall r <- old_ :: r.id <= m
    requires forall k :: 0 <= k < |rows| ==> rows[k].id == m + 1 + k
    ensures forall i, j :: 0 <= i < j < |old_ + rows| ==> (old_ + rows)[i].id != (old_ + rows)[j].id
  {
    var all := old_ + rows;
    forall i, j | 0 <= i < j < |all| ensures all[i].id != all[j].id {
      if j >= |old_| {
        assert all[j] == rows[j - |old_|];
        if i < |old_| {
          assert all[i] in old_;
        } else {
          assert all[i] == rows[i - |old_|];
        }
      }
    }
  }

  /** A batch of fresh rowids keeps action ids distinct. */
  lemma AppendActionsValid(db: Db, jobId: nat, questions: seq<LeverQuestion>)
    requires Valid(db)
    ensures Valid(db.(actions := db.actions + ActionRowsFor(MaxActionId(db.actions) + 1, jobId, questions)))
  {
    var m := MaxActionId(db.actions);
    var rows := ActionRowsFor(m + 1, jobId, questions);
    ActionRowsForRows(m + 1, jobId, questions);
    assert forall k :: 0 <= k < |rows| ==> rows[k].id == m + 1 + k;
    FreshIdsDistinct(db.actions, rows, m);
  }

  /** Lower-casing works character by character. */
  lemma LowerCons(a: string)
    requires a != []
    ensures Lower(a) == [LowerChar(a[0])] + Lower(a[1..])
  {
  }

  lemma LowerSlice(s: string, i: nat, j: nat)
    requires i <= j <= |s|
    ensures Lower(s)[i..j] == Lower(s[i..j])
  {
  }

  /** `%` alone matches every text. */
  lemma {:induction false} LikeAnything(s: string)
    ensures Like(s, "%")
    decreases |s|
  {
    assert "%"[1..] == [];
    if s != [] {
      LikeAnything(s[1..]);
    }
  }

  /** A wildcard-free pattern text at the front matches the same-length prefix ignoring
      ASCII case, and the rest of the pattern matches the rest of the text. */
  lemma {:induction false} LikeLiteralPrefix(s: string, k: string, rest: string)
    requires NoWildcard(k)
    ensures Like(s, k + rest) <==> |k| <= |s| && Lower(s[..|k|]) == Lower(k) && Like(s[|k|..], rest)
    decreases |k|
  {
    if k == [] {
      assert k + rest == rest && s[..0] == [] && s[0..] == s;
    } else {
      var p := k + rest;
      assert p[0] == k[0] && p[1..] == k[1..] + rest;
      if s != [] {
        LikeLiteralPrefix(s[1..], k[1..], rest);
        if |k| <= |s| {
          LowerCons(s[..|k|]);
          LowerCons(k);
          assert s[..|k|][1..] == s[1..][..|k| - 1];
          assert s[1..][|k| - 1..] == s[|k|..];
        }
      }
    }
  }

  /** `%` at the front matches exactly when the rest of the pattern matches some suffix. */
  lemma {:induction false} LikeAnyPrefix(s: string, q: string)
    ensures Like(s, ['%'] + q) <==> exists i :: 0 <= i <= |s| && Like(s[i..], q)
    decreases |s|
  {
    var p := ['%'] + q;
    assert p[0] == '%' && p[1..] == q;
    assert s[0..] == s;
    if s != [] {
      LikeAnyPrefix(s[1..], q);
      if exists i :: 0 <= i <= |s| && Like(s[i..], q) {
        var i :| 0 <= i <= |s| && Like(s[i..], q);
        if i > 0 {
          assert s[1..][i - 1..] == s[i..];
        }
      }
      if Like(s[1..], p) {
        var i :| 0 <= i <= |s| - 1 && Like(s[1..][i..], q);
        assert s[1..][i..] == s[i + 1..];
      }
    }
  }

  lemma LikeContainsOnly(s: string, k: string)
    requires NoWildcard(k) && Like(s, ['%'] + (k + "%"))
    ensures Contains(Lower(s), Lower(k))
  {
    LikeAnyPrefix(s, k + "%");
    var i :| 0 <= i <= |s| && Like(s[i..], k + "%");
    LikeLiteralPrefix(s[i..], k, "%");
    assert s[i..][..|k|] == s[i..i + |k|];
    LowerSlice(s, i, i + |k|);
    assert OccursAt(Lower(s), Lower(k), i);
  }

  lemma LikeContainsAll(s: string, k: string)
    requires NoWildcard(k) && Contains(Lower(s), Lower(k))
    ensures Like(s, ['%'] + (k + "%"))
  {
    var i :| 0 <= i <= |Lower(s)| - |Lower(k)| && OccursAt(Lower(s), Lower(k), i);
    LowerSlice(s, i, i + |k|);
    assert s[i..][..|k|] == s[i..i + |k|];
    LikeAnything(s[i..][|k|..]);
    LikeLiteralPrefix(s[i..], k, "%");
    LikeAnyPrefix(s, k + "%");
  }

  /** The lookup pattern `%key%` of a wildcard-free key matches exactly the texts that
      contain the key ignoring ASCII case. */
  lemma LikeContains(s: string, k: string)
    requires NoWildcard(k)
    ensures Like(s, "%" + k + "%") <==> Contains(Lower(s), Lower(k))
  {
    assert "%" + k + "%" == ['%'] + (k + "%");
    if Like(s, ['%'] + (k + "%")) {
      LikeContainsOnly(s, k);
    }
    if Contains(Lower(s), Lower(k)) {
      LikeContainsAll(s, k);
    }
  }

  /** `_` in a pattern is a wildcard: replacing a pattern character by `_` keeps every
      match, so a key holding `_` can match links that differ from it there. */
  lemma {:induction false} LikeUnderscoreLooser(s: string, p: string, j: nat)
    requires j < |p| && p[j] != '%'
    ensures Like(s, p) ==> Like(s, p[j := '_'])
    decreases |s| + |p|
  {
    var q := p[j := '_'];
    if Like(s, p) {
      if j == 0 {
        assert q[1..] == p[1..];
      } else if p[0] == '%' {
        assert q[0] == '%' && q[1..] == p[1..][j - 1 := '_'];
        if Like(s, p[1..]) {
          LikeUnderscoreLooser(s, p[1..], j - 1);
        } else {
          LikeUnderscoreLooser(s[1..], p, j);
        }
      } else {
        assert q[0] == p[0] && q[1..] == p[1..][j - 1 := '_'];
        LikeUnderscoreLooser(s[1..], p[1..], j - 1);
      }
    }
  }
}
