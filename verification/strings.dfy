/** String helpers with Python and JavaScript meaning: prefix and suffix tests,
    substring search (`in`, `includes`), ASCII lower-casing, `strip`, `split(sep)`,
    argument-less `split()` and `join`. */
module Strings {

  predicate StartsWith(s: string, prefix: string) {
    |prefix| <= |s| && s[..|prefix|] == prefix
  }

  predicate EndsWith(s: string, suffix: string) {
    |suffix| <= |s| && s[|s| - |suffix|..] == suffix
  }

  predicate OccursAt(s: string, p: string, i: int) {
    0 <= i && i + |p| <= |s| && s[i..i + |p|] == p
  }

  /** Python's `p in s`, JavaScript's `s.includes(p)`. */
  predicate Contains(s: string, p: string) {
    exists i | 0 <= i <= |s| - |p| :: OccursAt(s, p, i)
  }

  lemma ContainsPrefixOf(s: string, p: string, q: string)
    requires Contains(s, p + q)
    ensures Contains(s, p)
  {
    var i :| 0 <= i <= |s| - |p + q| && OccursAt(s, p + q, i);
    assert s[i..i + |p|] == (p + q)[..|p|];
    assert OccursAt(s, p, i);
  }

  lemma ContainsWhole(s: string, p: string, i: int)
    requires OccursAt(s, p, i)
    ensures Contains(s, p)
  {
  }

  lemma ContainsIn(a: string, p: string, b: string)
    ensures Contains(a + p + b, p)
  {
    assert (a + p + b)[|a|..|a| + |p|] == p;
    assert OccursAt(a + p + b, p, |a|);
  }

  /** A substring of a prefix is a substring of the whole. */
  lemma ContainsInPrefix(s: string, t: string, p: string)
    requires Contains(s, p)
    ensures Contains(s + t, p)
  {
    var i :| 0 <= i <= |s| - |p| && OccursAt(s, p, i);
    assert (s + t)[i..i + |p|] == s[i..i + |p|];
    assert OccursAt(s + t, p, i);
  }

  /** A single character is a substring exactly when it occurs. */
  lemma ContainsChar(s: string, c: char)
    ensures Contains(s, [c]) <==> c in s
  {
    if c in s {
      var i :| 0 <= i < |s| && s[i] == c;
      assert OccursAt(s, [c], i);
    }
    if Contains(s, [c]) {
      var i :| 0 <= i <= |s| - 1 && OccursAt(s, [c], i);
      assert s[i] == s[i..i + 1][0];
    }
  }

  function FirstIndex(s: string, c: char): (i: nat)
    requires c in s
    ensures i < |s| && s[i] == c && c !in s[..i]
  {
    if s[0] == c then 0 else 1 + FirstIndex(s[1..], c)
  }

  function LowerChar(c: char): char {
    if 'A' <= c <= 'Z' then (c as int + 32) as char else c
  }

  /** ASCII lower-casing (Python's `lower()` restricted to ASCII letters). */
  function Lower(s: string): (r: string)
    ensures |r| == |s|
    ensures forall i :: 0 <= i < |s| ==> r[i] == LowerChar(s[i])
  {
    seq(|s|, i requires 0 <= i < |s| => LowerChar(s[i]))
  }

  /** The characters Python's `str.isspace` accepts (Unicode whitespace). */
  predicate IsSpace(c: char) {
    var n := c as int;
    || n == 0x20 || 0x09 <= n <= 0x0D || 0x1C <= n <= 0x1F
    || n == 0x85 || n == 0xA0 || n == 0x1680 || 0x2000 <= n <= 0x200A
    || n == 0x2028 || n == 0x2029 || n == 0x202F || n == 0x205F || n == 0x3000
  }

  /** The characters JavaScript's `String.prototype.trim` removes. */
  predicate IsJsSpace(c: char) {
    var n := c as int;
    || n == 0x20 || 0x09 <= n <= 0x0D || n == 0xFEFF
    || n == 0xA0 || n == 0x1680 || 0x2000 <= n <= 0x200A
    || n == 0x2028 || n == 0x2029 || n == 0x202F || n == 0x205F || n == 0x3000
  }

  /** Drops leading characters while `drop` holds. */
  function TrimStart(s: string, drop: char -> bool): (t: string)
    ensures |t| <= |s| && t == s[|s| - |t|..]
    ensures t == [] || !drop(t[0])
    ensures forall i :: 0 <= i < |s| - |t| ==> drop(s[i])
  {
    if s == [] || !drop(s[0]) then s else TrimStart(s[1..], drop)
  }

  /** Drops trailing characters while `drop` holds. */
  function TrimEnd(s: string, drop: char -> bool): (t: string)
    ensures |t| <= |s| && t == s[..|t|]
    ensures t == [] || !drop(t[|t| - 1])
    ensures forall i :: |t| <= i < |s| ==> drop(s[i])
  {
    if s == [] || !drop(s[|s| - 1]) then s else TrimEnd(s[..|s| - 1], drop)
  }

  /** Python's `s.strip()`. */
  function Strip(s: string): string {
    TrimEnd(TrimStart(s, IsSpace), IsSpace)
  }

  /** JavaScript's `s.trim()`. */
  function JsTrim(s: string): string {
    TrimEnd(TrimStart(s, IsJsSpace), IsJsSpace)
  }

  /** Python's `s.strip(c)` for a single character. */
  function StripChar(s: string, c: char): string {
    TrimEnd(TrimStart(s, Is(c)), Is(c))
  }

  /** The test for one character. */
  function Is(c: char): char -> bool {
    x => x == c
  }

  /** `s.strip(c)` keeps exactly the span from the first to the last character that is not `c`. */
  lemma StripCharSpan(s: string, c: char, i: nat, j: nat)
    requires i < j <= |s| && s[i] != c && s[j - 1] != c
    requires forall k :: 0 <= k < i ==> s[k] == c
    requires forall k :: j <= k < |s| ==> s[k] == c
    ensures StripChar(s, c) == s[i..j]
  {
    assert forall k :: 0 <= k < i ==> Is(c)(s[k]);
    assert forall k :: j <= k < |s| ==> Is(c)(s[k]);
    TrimSpan(s, Is(c), i, j);
  }

  /** Trimming both ends keeps the span from the first to the last kept character. */
  lemma TrimSpan(s: string, drop: char -> bool, i: nat, j: nat)
    requires i < j <= |s| && !drop(s[i]) && !drop(s[j - 1])
    requires forall k :: 0 <= k < i ==> drop(s[k])
    requires forall k :: j <= k < |s| ==> drop(s[k])
    ensures TrimEnd(TrimStart(s, drop), drop) == s[i..j]
  {
    TrimStartAt(s, drop, i);
    TrimEndSlice(s, drop, i, j);
  }

  /** Stripping a word padded with white space gives the word back. */
  lemma StripPadded(pre: string, w: string, post: string)
    requires w != [] && !IsSpace(w[0]) && !IsSpace(w[|w| - 1])
    requires forall k :: 0 <= k < |pre| ==> IsSpace(pre[k])
    requires forall k :: 0 <= k < |post| ==> IsSpace(post[k])
    ensures Strip(pre + w + post) == w
  {
    var s := pre + w + post;
    var i, j := |pre|, |pre| + |w|;
    assert s[i] == w[0] && s[j - 1] == w[|w| - 1];
    assert forall k :: 0 <= k < i ==> s[k] == pre[k];
    assert forall k :: j <= k < |s| ==> s[k] == post[k - j];
    TrimSpan(s, IsSpace, i, j);
    assert s[i..j] == w;
  }

  /** Trimming the back of a suffix stops after the last kept character. */
  lemma TrimEndSlice(s: string, drop: char -> bool, i: nat, j: nat)
    requires i < j <= |s| && !drop(s[j - 1])
    requires forall k :: j <= k < |s| ==> drop(s[k])
    ensures TrimEnd(s[i..], drop) == s[i..j]
  {
    var t := s[i..];
    assert forall k :: j - i <= k < |t| ==> t[k] == s[i + k];
    TrimEndAt(t, drop, j - i);
    assert t[..j - i] == s[i..j];
  }

  /** Trimming the front stops at the first character that is kept. */
  lemma {:induction false} TrimStartAt(s: string, drop: char -> bool, i: nat)
    requires i < |s| && !drop(s[i]) && forall k :: 0 <= k < i ==> drop(s[k])
    ensures TrimStart(s, drop) == s[i..]
    decreases i
  {
    if i > 0 {
      assert drop(s[0]);
      TrimStartAt(s[1..], drop, i - 1);
      assert s[1..][i - 1..] == s[i..];
    }
  }

  /** Trimming the back stops after the last character that is kept. */
  lemma {:induction false} TrimEndAt(s: string, drop: char -> bool, j: nat)
    requires 0 < j <= |s| && !drop(s[j - 1]) && forall k :: j <= k < |s| ==> drop(s[k])
    ensures TrimEnd(s, drop) == s[..j]
    decreases |s| - j
  {
    if j < |s| {
      assert drop(s[|s| - 1]);
      TrimEndAt(s[..|s| - 1], drop, j);
      assert s[..|s| - 1][..j] == s[..j];
    }
  }

  /** Python's `s.split(sep)` for a one-character separator. */
  function Split(s: string, sep: char): (parts: seq<string>)
    ensures |parts| >= 1
    decreases |s|
  {
    if sep !in s then [s]
    else
      var i := FirstIndex(s, sep);
      [s[..i]] + Split(s[i + 1..], sep)
  }

  /** Splitting yields at least two parts exactly when the separator occurs. */
  lemma SplitHasTwoParts(s: string, sep: char)
    ensures |Split(s, sep)| >= 2 <==> sep in s
  {
  }

  /** Joining the parts of a split with the separator gives back the text, and no part
      holds the separator. */
  lemma {:induction false} SplitJoin(s: string, sep: char)
    ensures Join(Split(s, sep), [sep]) == s
    ensures forall p <- Split(s, sep) :: sep !in p
    decreases |s|
  {
    if sep in s {
      var i := FirstIndex(s, sep);
      SplitJoin(s[i + 1..], sep);
      var tail := Split(s[i + 1..], sep);
      assert Split(s, sep) == [s[..i]] + tail;
      assert Join(Split(s, sep), [sep]) == s[..i] + [sep] + Join(tail, [sep]);
      assert s == s[..i] + [sep] + s[i + 1..];
    }
  }

  /** The length of the maximal non-space prefix of `s`. */
  function SpanNonSpace(s: string): (n: nat)
    ensures n <= |s|
    ensures forall i :: 0 <= i < n ==> !IsSpace(s[i])
    ensures n == |s| || IsSpace(s[n])
  {
    if s == [] || IsSpace(s[0]) then 0 else 1 + SpanNonSpace(s[1..])
  }

  predicate NoSpace(w: string) {
    forall c <- w :: !IsSpace(c)
  }

  /** Python's argument-less `s.split()`: the maximal runs of non-space characters. */
  function Words(s: string): (ws: seq<string>)
    ensures forall w <- ws :: w != [] && NoSpace(w)
    decreases |s|
  {
    var t := TrimStart(s, IsSpace);
    if t == [] then []
    else
      var n := SpanNonSpace(t);
      [t[..n]] + Words(t[n..])
  }

  /** Python's `sep.join(ws)`. */
  function Join(ws: seq<string>, sep: string): string
  {
    if |ws| == 0 then ""
    else if |ws| == 1 then ws[0]
    else ws[0] + sep + Join(ws[1..], sep)
  }
}
