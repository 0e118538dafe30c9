/** The analysis script of snippets/analysis.py: link validation against the store,
    the split of a search page's links into those to apply to by hand and those to
    analyse automatically, the rule that an `unknown` title means an expired
    posting, the record filters of the cover-letter and review loops, the sorted
    list of saved search pages, and the interactive review loop of `process_jobs`.
    Standard input is a list of lines; the files, the web browser, the clipboard and
    the language model are left out. */
module Analysis {
  import opened Wrappers
  import opened Strings
  import opened Schemas
  import opened Store

  /** `retrieve_matching_links`: the stored, unexpired links among `links`. */
  function RetrieveMatching(db: Db, links: seq<string>): set<string> {
    set p <- db.postings | p.link in links && !p.expired :: p.link
  }

  /** `validate_links`: the distinct input links that are not stored as unexpired.
      The source returns them as a list in set order, that is in no particular
      order. */
  function ValidateLinks(db: Db, links: seq<string>): (r: set<string>)
    ensures forall l :: l in r <==> l in links && !exists p <- db.postings :: p.link == l && !p.expired
  {
    (set l <- links) - RetrieveMatching(db, links)
  }

  /** A link to a board the script cannot fill in automatically. */
  predicate Problematic(l: string) {
    Contains(l, "wellfound") || Contains(l, "linkedin") || Contains(l, "ycombinator")
  }

  /** Where `process_html` sends the valid links: `manual_links.txt` or
      `auto_links.txt`. */
  datatype Triage = Triage(manual: set<string>, auto: set<string>)

  function ProcessHtml(db: Db, links: seq<string>): Triage {
    var valid := ValidateLinks(db, links);
    var problematic := set l <- valid | Problematic(l);
    Triage(problematic, valid - problematic)
  }

  /** `str(data["title"]).lower() == "unknown"`: only a JSON string can print as
      `unknown`; `None`, booleans, numbers, lists and objects never do. */
  predicate UnknownTitle(title: Json) {
    title.JStr? && Lower(title.s) == "unknown"
  }

  /** The record `analyze_html` and `enrich_unprocessed` build from the model's
      JSON: a missing title raises `KeyError`; an unknown one adds `expired`. */
  function MarkExpired(data: map<string, Json>): (r: Result<map<string, Json>>)
    ensures r.Err? <==> "title" !in data
    ensures r.Err? ==> r.error == KeyError
    ensures r.Ok? ==> forall k <- data :: k != "expired" ==> k in r.value && r.value[k] == data[k]
    ensures r.Ok? ==> forall k <- r.value :: k in data || k == "expired"
    ensures r.Ok? && UnknownTitle(data["title"]) ==> "expired" in r.value && r.value["expired"] == JBool(true)
    ensures r.Ok? && !UnknownTitle(data["title"]) ==> r.value == data
  {
    if "title" !in data then Err(KeyError)
    else if UnknownTitle(data["title"]) then Ok(data["expired" := JBool(true)])
    else Ok(data)
  }

  /** The two placeholder titles the loops skip, compared exactly (`notin_`). */
  predicate Titled(p: Posting) {
    p.title != "unprocessed" && p.title != "unknown"
  }

  /** The filter of `cover_letter_gen`. */
  predicate NeedsCoverLetter(p: Posting) {
    Titled(p) && !p.isProcessed && p.coverLetter.None?
  }

  /** The filter of `process_jobs`. */
  predicate ReadyForReview(p: Posting) {
    Titled(p) && p.coverLetter.Some? && !p.isProcessed
  }

  function CoverLetterRecords(db: Db): seq<Posting> {
    Where(db.postings, NeedsCoverLetter)
  }

  function ReviewRecords(db: Db): seq<Posting> {
    Where(db.postings, ReadyForReview)
  }

  /** Python's `<=` on strings: lexicographic by code point. */
  predicate LexLe(a: string, b: string)
    decreases |a|
  {
    a == [] || (b != [] && (a[0] < b[0] || (a[0] == b[0] && LexLe(a[1..], b[1..]))))
  }

  predicate Sorted(s: seq<string>) {
    forall i, j :: 0 <= i < j < |s| ==> LexLe(s[i], s[j])
  }

  /** Insertion of one path into a sorted list. */
  function Insert(x: string, s: seq<string>): seq<string> {
    if s == [] then [x]
    else if LexLe(x, s[0]) then [x] + s
    else [s[0]] + Insert(x, s[1..])
  }

  /** `sorted(...)`. */
  function Sort(s: seq<string>): seq<string> {
    if s == [] then [] else Insert(s[0], Sort(s[1..]))
  }

  const PagesDir: string := "search_pages/"

  /** `get_pages`: the saved search pages of the directory listing `names`, as
      paths, sorted. */
  function GetPages(names: seq<string>): seq<string> {
    Sort(seq(|names|, i requires 0 <= i < |names| => PagesDir + names[i]))
  }

  /** How the review of one record ended. */
  datatype Verdict = Processed | Expired | Skipped | Exited

  /** The state after reviewing one record; no verdict means standard input ran out
      and `input()` raised `EOFError`. */
  datatype Review = Review(db: Db, input: seq<string>, verdict: Option<Verdict>)

  /** The commands of the review prompt. */
  datatype Command = Copy | Note | Done | Skip | Expire | Exit | Other

  /** `char_input.strip().lower()`, then the dispatch on it. */
  function Parse(line: string): Command {
    var cmd := Lower(Strip(line));
    if cmd == "c" then Copy
    else if cmd == "n" then Note
    else if cmd == "" then Done
    else if cmd == "q" then Skip
    else if cmd == "e" then Expire
    else if cmd == "exit" then Exit
    else Other
  }

  /** The `while True` loop for one record: `c` copies the cover letter again and
      `n` saves notes, both staying on the record; the empty command marks it
      processed, `e` expired, `q` skips it and `exit` stops; anything else asks
      again. Each prompt's line is read with `parse`, which the script fixes to
      `Parse`; the rules below hold whatever the reading. */
  function ReviewRecord(db: Db, input: seq<string>, id: nat, parse: string -> Command): Review
    decreases |input|
  {
    if input == [] then Review(db, [], None)
    else
      var rest := input[1..];
      match parse(input[0])
      case Note =>
        if rest == [] then Review(db, [], None)
        else ReviewRecord(Update(db, id, [SetNotes(Some(rest[0]))]), rest[1..], id, parse)
      case Done => Review(Update(db, id, [SetIsProcessed(true)]), rest, Some(Processed))
      case Skip => Review(db, rest, Some(Skipped))
      case Expire => Review(Update(db, id, [SetExpired(true)]), rest, Some(Expired))
      case Exit => Review(db, rest, Some(Exited))
      case _ => ReviewRecord(db, rest, id, parse)
  }

  /** The state at the end of `process_jobs` and how it ended. */
  datatype Session = Session(db: Db, input: seq<string>, outcome: Result<()>)

  /** The outer loop over the selected records: `exit` ends it, and the end of
      input escapes as `EOFError` with the earlier commits kept. */
  function ReviewAll(db: Db, input: seq<string>, records: seq<Posting>, parse: string -> Command): Session
    decreases |records|
  {
    if records == [] then Session(db, input, Ok(()))
    else
      var r := ReviewRecord(db, input, records[0].id, parse);
      match r.verdict
      case None => Session(r.db, r.input, Err(EndOfInput))
      case Some(Exited) => Session(r.db, r.input, Ok(()))
      case Some(_) => ReviewAll(r.db, r.input, records[1..], parse)
  }

  /** One step of the outer loop, as the loop takes it. */
  lemma ReviewAllStep(db: Db, input: seq<string>, records: seq<Posting>, step: Review, parse: string -> Command)
    requires records != [] && step == ReviewRecord(db, input, records[0].id, parse)
    ensures step.verdict.None? ==> ReviewAll(db, input, records, parse) == Session(step.db, step.input, Err(EndOfInput))
    ensures step.verdict == Some(Exited) ==> ReviewAll(db, input, records, parse) == Session(step.db, step.input, Ok(()))
    ensures step.verdict.Some? && step.verdict != Some(Exited) ==>
      ReviewAll(db, input, records, parse) == ReviewAll(step.db, step.input, records[1..], parse)
  {
  }

  class JobReviewer {
    /** The committed state of the database. */
    var db: Db
    /** Standard input, as the lines still to be read. */
    var input: seq<string>

    constructor (db: Db, input: seq<string>)
      ensures this.db == db && this.input == input
    {
      this.db := db;
      this.input := input;
    }

    /** `process_jobs`. */
    method ProcessJobs() returns (r: Result<()>)
      modifies this
      ensures Session(db, input, r) == ReviewAll(old(db), old(input), ReviewRecords(old(db)), Parse)
    {
      r := ReviewEach(ReviewRecords(db));
    }

    /** The loop of `process_jobs` over the records it selected at its start. */
    method ReviewEach(records: seq<Posting>) returns (r: Result<()>)
      modifies this
      ensures Session(db, input, r) == ReviewAll(old(db), old(input), records, Parse)
    {
      ghost var final := ReviewAll(db, input, records, Parse);
      var i := 0;
      while i < |records|
        invariant 0 <= i <= |records|
        invariant ReviewAll(db, input, records[i..], Parse) == final
      {
        ghost var db0, input0 := db, input;
        var verdict := ReviewOne(records[i].id);
        assert records[i..][0] == records[i] && records[i..][1..] == records[i + 1..];
        ReviewAllStep(db0, input0, records[i..], Review(db, input, verdict), Parse);
        if verdict.None? {
          return Err(EndOfInput);
        }
        if verdict == Some(Exited) {
          return Ok(());
        }
        i := i + 1;
      }
      r := Ok(());
    }

    /** The inner loop of `process_jobs` for the record with id `id`. */
    method ReviewOne(id: nat) returns (verdict: Option<Verdict>)
      modifies this
      ensures Review(db, input, verdict) == ReviewRecord(old(db), old(input), id, Parse)
    {
      while input != []
        invariant ReviewRecord(db, input, id, Parse) == ReviewRecord(old(db), old(input), id, Parse)
        decreases |input|
      {
        var cmd := Parse(input[0]);
        input := input[1..];
        match cmd
        case Note =>
          if input == [] {
            return None;
          }
          db := Update(db, id, [SetNotes(Some(input[0]))]);
          input := input[1..];
        case Done =>
          db := Update(db, id, [SetIsProcessed(true)]);
          return Some(Processed);
        case Skip =>
          return Some(Skipped);
        case Expire =>
          db := Update(db, id, [SetExpired(true)]);
          return Some(Expired);
        case Exit =>
          return Some(Exited);
        case _ =>
      }
      verdict := None;
    }
  }
}

/** What the analysis script promises. */
module AnalysisLemmas {
  import opened Wrappers
  import opened Strings
  import opened Schemas
  import opened Store
  import opened StoreLemmas
  import opened Analysis

  /** The two destinations split the valid links: disjoint, together all of them,
      the by-hand list holding exactly the problematic ones. */
  lemma ProcessHtmlPartition(db: Db, links: seq<string>)
    ensures ProcessHtml(db, links).manual * ProcessHtml(db, links).auto == {}
    ensures ProcessHtml(db, links).manual + ProcessHtml(db, links).auto == ValidateLinks(db, links)
    ensures forall l <- ProcessHtml(db, links).manual :: Problematic(l)
    ensures forall l <- ProcessHtml(db, links).auto :: !Problematic(l)
  {
  }

  /** A link already stored as unexpired is never offered again; an expired one is. */
  lemma ValidateLinksStored(db: Db, links: seq<string>, p: Posting)
    requires p in db.postings && p.link in links
    ensures p.link in ValidateLinks(db, links) <==> forall q <- db.postings :: q.link == p.link ==> q.expired
  {
  }

  /** The title rule is ASCII-case-insensitive: every casing of `unknown` counts. */
  lemma UnknownAnyCase(t: string)
    requires Lower(t) == "unknown"
    ensures MarkExpired(map["title" := JStr(t)]) == Ok(map["title" := JStr(t), "expired" := JBool(true)])
  {
  }

  /** A record is picked by at most one of the two loops: `cover_letter_gen` takes
      those without a cover letter, `process_jobs` those with one. */
  lemma LoopsDisjoint(p: Posting)
    ensures !(NeedsCoverLetter(p) && ReadyForReview(p))
  {
  }

  /** A cover letter moves a record from the first loop's selection to the
      second's. */
  lemma CoverLetterEnablesReview(p: Posting, letter: string)
    requires NeedsCoverLetter(p)
    ensures ReadyForReview(Apply(p, SetCoverLetter(Some(letter))))
    ensures !NeedsCoverLetter(Apply(p, SetCoverLetter(Some(letter))))
  {
  }

  /** The records the review loop visits are exactly the stored ones it selects. */
  lemma ReviewRecordsMembers(db: Db, p: Posting)
    ensures p in ReviewRecords(db) <==> p in db.postings && Titled(p) && p.coverLetter.Some? && !p.isProcessed
  {
    WhereMembers(db.postings, ReadyForReview, p);
  }

  lemma CoverLetterRecordsMembers(db: Db, p: Posting)
    ensures p in CoverLetterRecords(db) <==> p in db.postings && Titled(p) && !p.isProcessed && p.coverLetter.None?
  {
    WhereMembers(db.postings, NeedsCoverLetter, p);
  }

  lemma {:induction false} LexLeTotal(a: string, b: string)
    ensures LexLe(a, b) || LexLe(b, a)
    decreases |a|
  {
    if a != [] && b != [] && a[0] == b[0] {
      LexLeTotal(a[1..], b[1..]);
    }
  }

  lemma {:induction false} LexLeAntisymmetric(a: string, b: string)
    requires LexLe(a, b) && LexLe(b, a)
    ensures a == b
    decreases |a|
  {
    if a != [] {
      LexLeAntisymmetric(a[1..], b[1..]);
      assert a == [a[0]] + a[1..] && b == [b[0]] + b[1..];
    }
  }

  lemma {:induction false} LexLeTransitive(a: string, b: string, c: string)
    requires LexLe(a, b) && LexLe(b, c)
    ensures LexLe(a, c)
    decreases |a|
  {
    if a != [] && a[0] == b[0] && b[0] == c[0] {
      LexLeTransitive(a[1..], b[1..], c[1..]);
    }
  }

  /** A list is sorted when its head precedes all of its sorted tail. */
  lemma SortedCons(h: string, t: seq<string>)
    requires Sorted(t) && forall y <- t :: LexLe(h, y)
    ensures Sorted([h] + t)
  {
    forall i, j | 0 <= i < j < |[h] + t|
      ensures LexLe(([h] + t)[i], ([h] + t)[j])
    {
      if i == 0 {
        assert ([h] + t)[j] == t[j - 1];
      } else {
        assert ([h] + t)[i] == t[i - 1] && ([h] + t)[j] == t[j - 1];
      }
    }
  }

  /** Inserting adds exactly the one element. */
  lemma {:induction false} InsertPermutes(x: string, s: seq<string>)
    ensures multiset(Insert(x, s)) == multiset(s) + multiset{x}
  {
    if s != [] && !LexLe(x, s[0]) {
      InsertPermutes(x, s[1..]);
      assert s == [s[0]] + s[1..];
    }
  }

  /** Inserting keeps a list sorted. */
  lemma {:induction false} InsertSorted(x: string, s: seq<string>)
    requires Sorted(s)
    ensures Sorted(Insert(x, s))
  {
    if s == [] {
    } else if LexLe(x, s[0]) {
      forall y | y in s
        ensures LexLe(x, y)
      {
        var k :| 0 <= k < |s| && s[k] == y;
        if k > 0 {
          LexLeTransitive(x, s[0], y);
        }
      }
      SortedCons(x, s);
    } else {
      LexLeTotal(x, s[0]);
      var rest := Insert(x, s[1..]);
      InsertSorted(x, s[1..]);
      InsertPermutes(x, s[1..]);
      forall y | y in rest
        ensures LexLe(s[0], y)
      {
        assert y in multiset(rest);
        if y != x {
          assert y in multiset(s[1..]);
          var k :| 0 <= k < |s[1..]| && s[1..][k] == y;
          assert s[k + 1] == y;
        }
      }
      SortedCons(s[0], rest);
    }
  }

  /** `sorted` returns its input in order. */
  lemma {:induction false} SortSorted(s: seq<string>)
    ensures Sorted(Sort(s))
    ensures multiset(Sort(s)) == multiset(s)
  {
    if s != [] {
      SortSorted(s[1..]);
      InsertSorted(s[0], Sort(s[1..]));
      InsertPermutes(s[0], Sort(s[1..]));
      assert s == [s[0]] + s[1..];
    }
  }

  /** `get_pages` lists every page once, as a path under the directory, in sorted
      order. */
  lemma GetPagesSorted(names: seq<string>)
    ensures Sorted(GetPages(names))
    ensures |GetPages(names)| == |names|
    ensures forall p <- GetPages(names) :: StartsWith(p, PagesDir)
    ensures multiset(GetPages(names)) == multiset(seq(|names|, i requires 0 <= i < |names| => PagesDir + names[i]))
  {
    var paths := seq(|names|, i requires 0 <= i < |names| => PagesDir + names[i]);
    SortSorted(paths);
    assert |multiset(GetPages(names))| == |multiset(paths)|;
    forall p | p in GetPages(names)
      ensures StartsWith(p, PagesDir)
    {
      assert p in multiset(paths);
      var k :| 0 <= k < |paths| && paths[k] == p;
      assert (PagesDir + names[k])[..|PagesDir|] == PagesDir;
    }
  }

  lemma MultisetTail(a: seq<string>)
    requires a != []
    ensures multiset(a[1..]) == multiset(a) - multiset{a[0]}
  {
    assert a == [a[0]] + a[1..];
  }

  /** Two sorted lists with the same elements start with the same one. */
  lemma SortedSameHead(a: seq<string>, b: seq<string>)
    requires Sorted(a) && Sorted(b) && multiset(a) == multiset(b) && a != []
    ensures b != [] && a[0] == b[0]
  {
    assert a[0] in multiset(b);
    assert b != [];
    assert b[0] in multiset(a);
    var i :| 0 <= i < |b| && b[i] == a[0];
    var j :| 0 <= j < |a| && a[j] == b[0];
    if a[0] != b[0] {
      assert LexLe(b[0], b[i]) && LexLe(a[0], a[j]);
      LexLeAntisymmetric(a[0], b[0]);
    }
  }

  /** Sorting is determined by the contents: two sorted lists with the same elements
      are equal, so the pages come out in the one sorted order there is. */
  lemma {:induction false} SortedUnique(a: seq<string>, b: seq<string>)
    requires Sorted(a) && Sorted(b) && multiset(a) == multiset(b)
    ensures a == b
    decreases |a|
  {
    if a == [] {
      assert |b| == |multiset(b)| == 0;
    } else {
      SortedSameHead(a, b);
      MultisetTail(a);
      MultisetTail(b);
      SortedUnique(a[1..], b[1..]);
      assert a == [a[0]] + a[1..] && b == [b[0]] + b[1..];
    }
  }

  /** `get_pages` returns the one sorted arrangement of the page paths. */
  lemma GetPagesUnique(names: seq<string>, r: seq<string>)
    requires Sorted(r)
    requires multiset(r) == multiset(seq(|names|, i requires 0 <= i < |names| => PagesDir + names[i]))
    ensures r == GetPages(names)
  {
    GetPagesSorted(names);
    SortedUnique(r, GetPages(names));
  }

  /** The prompt's dispatch: each command is recognised exactly by its
      normalised spelling. */
  lemma ParseSpellings(line: string)
    ensures Parse(line) == Copy <==> Lower(Strip(line)) == "c"
    ensures Parse(line) == Note <==> Lower(Strip(line)) == "n"
    ensures Parse(line) == Done <==> Lower(Strip(line)) == ""
    ensures Parse(line) == Skip <==> Lower(Strip(line)) == "q"
    ensures Parse(line) == Expire <==> Lower(Strip(line)) == "e"
    ensures Parse(line) == Exit <==> Lower(Strip(line)) == "exit"
  {
  }

  lemma NormalizeExit()
    ensures Lower(Strip(" Exit\n")) == "exit"
  {
    StripExit();
    LowerExit();
  }

  lemma StripExit()
    ensures Strip(" Exit\n") == "Exit"
  {
    var w := "Exit";
    assert !IsSpace(w[0]) && !IsSpace(w[|w| - 1]);
    StripPadded(" ", w, "\n");
    assert " " + w + "\n" == " Exit\n";
  }

  lemma LowerExit()
    ensures Lower("Exit") == "exit"
  {
  }

  /** The prompt ignores surrounding white space and the case of its command. */
  lemma ParseExit()
    ensures Parse(" Exit\n") == Exit
  {
    NormalizeExit();
    ParseSpellings(" Exit\n");
  }

  /** A blank line is the command that marks the record processed. */
  lemma ParseBlank()
    ensures Parse("\t\n") == Done
  {
    assert "\t\n"[1..] == "\n";
    assert TrimStart("\t\n", IsSpace) == [];
  }

  /** One update with a single change: the rows with the id take it, the others
      and the other tables stay. */
  lemma UpdateOne(db: Db, id: nat, c: Change, i: nat)
    requires i < |db.postings|
    ensures Update(db, id, [c]) == db.(postings := Update(db, id, [c]).postings)
    ensures |Update(db, id, [c]).postings| == |db.postings|
    ensures Update(db, id, [c]).postings[i] == if db.postings[i].id == id then Apply(db.postings[i], c) else db.postings[i]
  {
    assert ApplyAll(db.postings[i], [c]) == ApplyAll(Apply(db.postings[i], c), []);
  }

  /** The review of one record changes only the postings table, row for row. */
  lemma {:induction false} ReviewRecordShape(db: Db, input: seq<string>, id: nat, parse: string -> Command)
    ensures ReviewRecord(db, input, id, parse).db == db.(postings := ReviewRecord(db, input, id, parse).db.postings)
    ensures |ReviewRecord(db, input, id, parse).db.postings| == |db.postings|
    decreases |input|
  {
    if input != [] {
      var rest := input[1..];
      match parse(input[0])
      case Note =>
        if rest != [] {
          ReviewRecordShape(Update(db, id, [SetNotes(Some(rest[0]))]), rest[1..], id, parse);
        }
      case Copy => ReviewRecordShape(db, rest, id, parse);
      case Other => ReviewRecordShape(db, rest, id, parse);
      case _ =>
    }
  }

  /** What a review may do to one row: a row with another id stays as it was; the
      record's own row changes only in its notes, `is_processed` (set on the processed
      verdict) and `expired` (set on the expired verdict). */
  predicate RowEffect(before: Posting, after: Posting, id: nat, verdict: Option<Verdict>) {
    if before.id != id then after == before
    else after == before.(isProcessed := before.isProcessed || verdict == Some(Processed),
                          expired := before.expired || verdict == Some(Expired),
                          notes := after.notes)
  }

  /** One record's review touches only rows with its id, and there only the notes,
      `is_processed` (set exactly on the processed verdict) and `expired` (set
      exactly on the expired verdict). */
  lemma {:induction false} ReviewRecordEffect(db: Db, input: seq<string>, id: nat, i: nat, parse: string -> Command)
    requires i < |db.postings|
    ensures var r := ReviewRecord(db, input, id, parse);
      |r.db.postings| == |db.postings| && RowEffect(db.postings[i], r.db.postings[i], id, r.verdict)
    decreases |input|
  {
    ReviewRecordShape(db, input, id, parse);
    if input != [] {
      var rest := input[1..];
      match parse(input[0])
      case Note =>
        if rest != [] {
          ReviewNoteEffect(db, input, id, i, parse);
        }
      case Done => ReviewDoneEffect(db, input, id, i, parse);
      case Expire => ReviewExpireEffect(db, input, id, i, parse);
      case Copy => ReviewRecordEffect(db, rest, id, i, parse);
      case Other => ReviewRecordEffect(db, rest, id, i, parse);
      case _ =>
    }
  }

  /** The blank case of the review: the row is marked processed and the review ends. */
  lemma ReviewDoneEffect(db: Db, input: seq<string>, id: nat, i: nat, parse: string -> Command)
    requires i < |db.postings| && input != [] && parse(input[0]) == Done
    ensures var r := ReviewRecord(db, input, id, parse);
      |r.db.postings| == |db.postings| && RowEffect(db.postings[i], r.db.postings[i], id, r.verdict)
  {
    var after := Update(db, id, [SetIsProcessed(true)]);
    assert ReviewRecord(db, input, id, parse) == Review(after, input[1..], Some(Processed));
    UpdateOne(db, id, SetIsProcessed(true), i);
    assert Apply(db.postings[i], SetIsProcessed(true)) == db.postings[i].(isProcessed := true);
  }

  /** The `e` case of the review: the row is marked expired and the review ends. */
  lemma ReviewExpireEffect(db: Db, input: seq<string>, id: nat, i: nat, parse: string -> Command)
    requires i < |db.postings| && input != [] && parse(input[0]) == Expire
    ensures var r := ReviewRecord(db, input, id, parse);
      |r.db.postings| == |db.postings| && RowEffect(db.postings[i], r.db.postings[i], id, r.verdict)
  {
    var after := Update(db, id, [SetExpired(true)]);
    assert ReviewRecord(db, input, id, parse) == Review(after, input[1..], Some(Expired));
    UpdateOne(db, id, SetExpired(true), i);
    assert Apply(db.postings[i], SetExpired(true)) == db.postings[i].(expired := true);
  }

  /** The `n` case of the review: the note is saved, then the review goes on. */
  lemma {:induction false} ReviewNoteEffect(db: Db, input: seq<string>, id: nat, i: nat, parse: string -> Command)
    requires i < |db.postings| && |input| >= 2 && parse(input[0]) == Note
    ensures var r := ReviewRecord(db, input, id, parse);
      |r.db.postings| == |db.postings| && RowEffect(db.postings[i], r.db.postings[i], id, r.verdict)
    decreases |input|, 0
  {
    var noted := Update(db, id, [SetNotes(Some(input[1]))]);
    assert ReviewRecord(db, input, id, parse) == ReviewRecord(noted, input[2..], id, parse);
    UpdateOne(db, id, SetNotes(Some(input[1])), i);
    ReviewRecordEffect(noted, input[2..], id, i, parse);
  }

  /** The notes a review leaves on a row are the old ones or a line typed right after
      an `n`. */
  lemma {:induction false} ReviewRecordNotes(db: Db, input: seq<string>, id: nat, i: nat, parse: string -> Command)
    requires i < |db.postings|
    ensures var r := ReviewRecord(db, input, id, parse);
      && |r.db.postings| == |db.postings|
      && (|| r.db.postings[i].notes == db.postings[i].notes
          || exists k :: 1 <= k < |input| && parse(input[k - 1]) == Note && r.db.postings[i].notes == Some(input[k]))
    decreases |input|
  {
    ReviewRecordShape(db, input, id, parse);
    if input != [] {
      var rest := input[1..];
      match parse(input[0])
      case Note => if rest != [] { ReviewRecordNotesNote(db, input, id, i, parse); }
      case Done => ReviewDoneEffect(db, input, id, i, parse);
      case Expire => ReviewExpireEffect(db, input, id, i, parse);
      case Copy => ReviewRecordNotesSkip(db, input, id, i, parse);
      case Other => ReviewRecordNotesSkip(db, input, id, i, parse);
      case _ =>
    }
  }

  /** An `n` followed by a line sets the notes from that line. */
  lemma {:induction false} ReviewRecordNotesNote(db: Db, input: seq<string>, id: nat, i: nat, parse: string -> Command)
    requires i < |db.postings| && |input| >= 2 && parse(input[0]) == Note
    ensures var r := ReviewRecord(db, input, id, parse);
      && |r.db.postings| == |db.postings|
      && (|| r.db.postings[i].notes == db.postings[i].notes
          || exists k :: 1 <= k < |input| && parse(input[k - 1]) == Note && r.db.postings[i].notes == Some(input[k]))
    decreases |input|, 0
  {
    var noted := Update(db, id, [SetNotes(Some(input[1]))]);
    assert ReviewRecord(db, input, id, parse) == ReviewRecord(noted, input[2..], id, parse);
    UpdateOne(db, id, SetNotes(Some(input[1])), i);
    ReviewRecordNotes(noted, input[2..], id, i, parse);
    var after := ReviewRecord(noted, input[2..], id, parse).db.postings[i].notes;
    if after != noted.postings[i].notes {
      var k :| 1 <= k < |input[2..]| && parse(input[2..][k - 1]) == Note && after == Some(input[2..][k]);
      assert parse(input[k + 1]) == Note && after == Some(input[k + 2]);
    } else if noted.postings[i].notes != db.postings[i].notes {
      assert after == Some(input[1]);
    }
  }

  /** A line that keeps the review on the record carries its notes over. */
  lemma {:induction false} ReviewRecordNotesSkip(db: Db, input: seq<string>, id: nat, i: nat, parse: string -> Command)
    requires i < |db.postings| && input != [] && (parse(input[0]) == Copy || parse(input[0]) == Other)
    ensures var r := ReviewRecord(db, input, id, parse);
      && |r.db.postings| == |db.postings|
      && (|| r.db.postings[i].notes == db.postings[i].notes
          || exists k :: 1 <= k < |input| && parse(input[k - 1]) == Note && r.db.postings[i].notes == Some(input[k]))
    decreases |input|, 0
  {
    assert ReviewRecord(db, input, id, parse) == ReviewRecord(db, input[1..], id, parse);
    ReviewRecordNotes(db, input[1..], id, i, parse);
    var after := ReviewRecord(db, input[1..], id, parse).db.postings[i].notes;
    if after != db.postings[i].notes {
      var k :| 1 <= k < |input[1..]| && parse(input[1..][k - 1]) == Note && after == Some(input[1..][k]);
      assert parse(input[k]) == Note && after == Some(input[k + 1]);
    }
  }

  /** The review reads at least one line whenever there is one, and what it leaves
      unread is a suffix of its input. */
  lemma {:induction false} ReviewRecordConsumes(db: Db, input: seq<string>, id: nat, parse: string -> Command)
    ensures var r := ReviewRecord(db, input, id, parse);
      && |r.input| <= |input| && r.input == input[|input| - |r.input|..]
      && (input != [] ==> |r.input| < |input|)
    decreases |input|
  {
    if input != [] {
      var rest := input[1..];
      match parse(input[0])
      case Note =>
        if rest != [] {
          ReviewRecordConsumes(Update(db, id, [SetNotes(Some(rest[0]))]), rest[1..], id, parse);
          assert input[2..] == input[1..][1..];
        }
      case Copy => ReviewRecordConsumes(db, rest, id, parse);
      case Other => ReviewRecordConsumes(db, rest, id, parse);
      case _ =>
    }
  }

  /** An unrecognised command, or `c`, keeps the review on the same record as if
      the line had not been typed. */
  lemma ReviewRecordReprompts(db: Db, input: seq<string>, id: nat, parse: string -> Command)
    requires input != []
    requires parse(input[0]) == Copy || parse(input[0]) == Other
    ensures ReviewRecord(db, input, id, parse) == ReviewRecord(db, input[1..], id, parse)
  {
  }

  /** The review leaves every row whose id no visited record has untouched. */
  lemma {:induction false} ReviewAllFrame(db: Db, input: seq<string>, records: seq<Posting>, i: nat, parse: string -> Command)
    requires i < |db.postings|
    requires forall p <- records :: p.id != db.postings[i].id
    ensures |ReviewAll(db, input, records, parse).db.postings| == |db.postings|
    ensures ReviewAll(db, input, records, parse).db.postings[i] == db.postings[i]
    decreases |records|
  {
    if records != [] {
      var r := ReviewRecord(db, input, records[0].id, parse);
      ReviewRecordEffect(db, input, records[0].id, i, parse);
      if r.verdict.Some? && r.verdict != Some(Exited) {
        assert forall p <- records[1..] :: p in records;
        ReviewAllFrame(r.db, r.input, records[1..], i, parse);
      }
    }
  }
}
