/** URL handling of the pipeline: `urlsplit`/`urlunsplit` as the Python standard
    library performs them (section 3 of RFC 3986 as CPython 3.11 implements it),
    `clean_url`, the params split of `urlparse`, the Lever URL check, and the
    `/apply` suffix helpers the callers use. */
module Urls {
  import opened Wrappers
  import opened Strings

  /** The five components `urlsplit` returns. */
  datatype SplitResult = SplitResult(scheme: string, netloc: string, path: string, query: string, fragment: string)

  predicate IsAsciiLetter(c: char) {
    'a' <= c <= 'z' || 'A' <= c <= 'Z'
  }

  predicate IsSchemeChar(c: char) {
    IsAsciiLetter(c) || '0' <= c <= '9' || c == '+' || c == '-' || c == '.'
  }

  /** The schemes for which `urlunsplit` writes `//` even when the netloc is empty. */
  const UsesNetloc: set<string> :=
    {"", "ftp", "http", "gopher", "nntp", "telnet", "imap", "wais", "file", "mms", "https", "shttp",
     "snews", "prospero", "rtsp", "rtsps", "rtspu", "rsync", "svn", "svn+ssh", "sftp", "nfs", "git",
     "git+ssh", "ws", "wss"}

  /** The schemes whose last path segment `urlparse` splits at `;`. */
  const UsesParams: set<string> :=
    {"", "ftp", "hdl", "prospero", "http", "imap", "https", "shttp", "rtsp", "rtsps", "rtspu", "sip",
     "sips", "mms", "sftp", "tel"}

  /** Where the scheme ends: the first `:`, when everything before it is a scheme
      that starts with a letter. */
  function SchemeEnd(url: string): (r: Option<nat>)
    ensures r.Some? ==> 0 < r.value < |url| && url[r.value] == ':' && IsAsciiLetter(url[0])
    ensures r.Some? ==> forall k :: 0 <= k < r.value ==> IsSchemeChar(url[k])
  {
    if ':' !in url then None
    else
      var i := FirstIndex(url, ':');
      if i > 0 && IsAsciiLetter(url[0]) && forall k | 0 <= k < i :: IsSchemeChar(url[k]) then Some(i) else None
  }

  /** The first position at or after `start` holding `/`, `?` or `#`, else the length. */
  function NetlocEnd(url: string, start: nat): (e: nat)
    requires start <= |url|
    ensures start <= e <= |url|
    ensures forall k :: start <= k < e ==> url[k] != '/' && url[k] != '?' && url[k] != '#'
    ensures e < |url| ==> url[e] == '/' || url[e] == '?' || url[e] == '#'
    decreases |url| - start
  {
    if start == |url| || url[start] == '/' || url[start] == '?' || url[start] == '#' then start
    else NetlocEnd(url, start + 1)
  }

  /** `s` cut at the first `c`; `(s, "")` when `c` does not occur. */
  function SplitAtFirst(s: string, c: char): (r: (string, string))
    ensures c in s ==> s == r.0 + [c] + r.1 && c !in r.0
    ensures c !in s ==> r == (s, "")
  {
    if c in s then
      var i := FirstIndex(s, c);
      assert s == s[..i] + [c] + s[i + 1..];
      (s[..i], s[i + 1..])
    else (s, "")
  }

  /** The scheme (lower-cased) and what follows its `:`, or no scheme at all. */
  function SplitScheme(url: string): (string, string) {
    match SchemeEnd(url)
    case Some(i) => (Lower(url[..i]), url[i + 1..])
    case None => ("", url)
  }

  /** The netloc after a leading `//`, up to the next `/`, `?` or `#`. */
  function SplitAuthority(rest: string): (r: (string, string))
    ensures StartsWith(rest, "//") ==> rest == "//" + r.0 + r.1
    ensures !StartsWith(rest, "//") ==> r == ("", rest)
  {
    if StartsWith(rest, "//") then
      var e := NetlocEnd(rest, 2);
      assert rest == rest[..2] + rest[2..e] + rest[e..];
      (rest[2..e], rest[e..])
    else ("", rest)
  }

  /** `urlsplit(url)`. A netloc with one square bracket and not the other raises `ValueError`. */
  function UrlSplit(url: string): Result<SplitResult>
  {
    var (scheme, rest) := SplitScheme(url);
    var (netloc, afterNetloc) := SplitAuthority(rest);
    if ('[' in netloc) != (']' in netloc) then Err(ValueError)
    else
      var (beforeFragment, fragment) := SplitAtFirst(afterNetloc, '#');
      var (path, query) := SplitAtFirst(beforeFragment, '?');
      Ok(SplitResult(scheme, netloc, path, query, fragment))
  }

  /** The path as `urlunsplit` writes it after a `//` authority: made absolute. */
  function AbsolutePath(path: string): string {
    if path != "" && path[0] != '/' then "/" + path else path
  }

  /** Whether `urlunsplit` writes the `//` authority marker. */
  predicate WritesAuthority(c: SplitResult) {
    c.netloc != "" || (c.scheme != "" && c.scheme in UsesNetloc && !StartsWith(c.path, "//"))
  }

  /** `urlunsplit(components)`. Empty query and fragment are dropped with their `?` and `#`. */
  function UrlUnsplit(c: SplitResult): string {
    var hier := if WritesAuthority(c) then "//" + c.netloc + AbsolutePath(c.path) else c.path;
    var withScheme := if c.scheme != "" then c.scheme + ":" + hier else hier;
    var withQuery := if c.query != "" then withScheme + "?" + c.query else withScheme;
    if c.fragment != "" then withQuery + "#" + c.fragment else withQuery
  }

  /** `clean_url`: split, drop the query, join again. */
  function CleanUrl(url: string): Result<string> {
    var parts :- UrlSplit(url);
    Ok(UrlUnsplit(parts.(query := "")))
  }

  /** The position of the last `c` in `s`. */
  function LastIndex(s: string, c: char): (i: nat)
    requires c in s
    ensures i < |s| && s[i] == c && c !in s[i + 1..]
  {
    if s[|s| - 1] == c then |s| - 1
    else
      assert c in s[..|s| - 1] by {
        var k :| 0 <= k < |s| && s[k] == c;
        assert s[..|s| - 1][k] == c;
      }
      LastIndex(s[..|s| - 1], c)
  }

  /** The path `urlparse` reports: for a params-using scheme, everything from the first
      `;` of the last segment on is split off as params. */
  function ParsedPath(c: SplitResult): string {
    var url := c.path;
    if c.scheme !in UsesParams || ';' !in url then url
    else if '/' in url then
      var tail := url[LastIndex(url, '/')..];
      if ';' in tail then url[..LastIndex(url, '/') + FirstIndex(tail, ';')] else url
    else url[..FirstIndex(url, ';')]
  }

  /** `_validate_lever_url`: `https`, a netloc containing `lever.co`, and at least two
      `/`-separated parts once outer slashes are stripped; a parse error yields false. */
  function ValidateLeverUrl(url: string): bool {
    match UrlSplit(url)
    case Err(_) => false
    case Ok(c) =>
      c.scheme == "https" && Contains(c.netloc, "lever.co") && |Split(StripChar(ParsedPath(c), '/'), '/')| >= 2
  }

  const ApplySuffix: string := "/apply"

  /** `link[:-6]` when the link ends with `/apply`. */
  function StripApplySuffix(link: string): string {
    if EndsWith(link, ApplySuffix) then link[..|link| - |ApplySuffix|] else link
  }

  /** The apply page of a posting: the cleaned link, with `/apply` appended unless already there. */
  function ApplyLink(link: string): Result<string> {
    var cleaned :- CleanUrl(link);
    Ok(if EndsWith(cleaned, ApplySuffix) then cleaned else cleaned + ApplySuffix)
  }
}

/** What `clean_url` promises, proved about the model above. */
module UrlLemmas {
  import opened Wrappers
  import opened Strings
  import opened Urls

  predicate NoDelims(s: string) {
    '/' !in s && '?' !in s && '#' !in s
  }

  /** A scheme as `urlsplit` reports it: empty, or a letter followed by scheme
      characters, all lower-case. */
  predicate SchemeOk(s: string) {
    s == "" || (IsAsciiLetter(s[0]) && forall k :: 0 <= k < |s| ==> IsSchemeChar(s[k]) && LowerChar(s[k]) == s[k])
  }

  /** The shape every successful `urlsplit` result has. */
  predicate SplitShape(c: SplitResult) {
    && SchemeOk(c.scheme)
    && NoDelims(c.netloc)
    && ('[' in c.netloc) == (']' in c.netloc)
    && '?' !in c.path && '#' !in c.path && '#' !in c.query
    && (c.netloc != "" ==> c.path == "" || c.path[0] == '/')
    && (c.scheme == "" && c.netloc == "" ==> SchemeEnd(c.path) == None)
  }

  /** Components that `urlunsplit` writes and `urlsplit` reads back unchanged. */
  predicate Canonical(c: SplitResult) {
    && SplitShape(c)
    && c.query == ""
    && !(c.netloc == "" && StartsWith(c.path, "//"))
    && (WritesAuthority(c) ==> c.path == "" || c.path[0] == '/')
  }

  /** The one case `clean_url` is not idempotent on: no authority, yet a path that
      itself starts with `//` (from inputs such as `//////x`). */
  predicate EmptyAuthorityDoubleSlash(c: SplitResult) {
    c.netloc == "" && StartsWith(c.path, "//")
  }

  lemma FirstIndexUnique(s: string, c: char, i: nat)
    requires i < |s| && s[i] == c && c !in s[..i]
    ensures FirstIndex(s, c) == i
  {
    if i > 0 {
      assert s[..i][0] == s[0];
      assert s[1..][..i - 1] == s[..i][1..];
      FirstIndexUnique(s[1..], c, i - 1);
    }
  }

  lemma FirstIndexAt(a: string, b: string, c: char)
    requires c !in a && |b| > 0 && b[0] == c
    ensures c in a + b && FirstIndex(a + b, c) == |a|
  {
    assert (a + b)[|a|] == c;
    assert (a + b)[..|a|] == a;
    FirstIndexUnique(a + b, c, |a|);
  }

  lemma FirstIndexPrefix(a: string, b: string, c: char)
    requires c in a
    ensures FirstIndex(a + b, c) == FirstIndex(a, c)
  {
    var i := FirstIndex(a, c);
    assert (a + b)[..i] == a[..i];
    FirstIndexUnique(a + b, c, i);
  }

  lemma SplitAtFirstOf(a: string, c: char, b: string)
    requires c !in a
    ensures SplitAtFirst(a + [c] + b, c) == (a, b)
  {
    FirstIndexAt(a, [c] + b, c);
    assert a + [c] + b == a + ([c] + b);
    var s := a + [c] + b;
    assert s[..|a|] == a && s[|a| + 1..] == b;
  }

  lemma LowerCharIdempotent(c: char)
    ensures LowerChar(LowerChar(c)) == LowerChar(c)
    ensures IsSchemeChar(c) ==> IsSchemeChar(LowerChar(c))
    ensures IsAsciiLetter(c) ==> IsAsciiLetter(LowerChar(c))
  {
  }

  /** Appending text that starts with `?` or `#` cannot create a scheme. */
  lemma SchemeEndExtend(p: string, t: string)
    requires t == "" || t[0] == '#' || t[0] == '?'
    ensures SchemeEnd(p + t) == SchemeEnd(p)
  {
    if t == "" {
      assert p + t == p;
    } else if ':' in p {
      SchemeEndColonFirst(p, t);
    } else if ':' in t {
      SchemeEndColonLater(p, t);
    } else {
      assert ':' !in p + t;
    }
  }

  lemma SchemeEndColonFirst(p: string, t: string)
    requires ':' in p
    ensures SchemeEnd(p + t) == SchemeEnd(p)
  {
    FirstIndexPrefix(p, t, ':');
    var i := FirstIndex(p, ':');
    assert (p + t)[..i] == p[..i];
    assert forall k :: 0 <= k < i ==> (p + t)[k] == p[k];
  }

  lemma SchemeEndColonLater(p: string, t: string)
    requires ':' !in p && ':' in t && (t[0] == '#' || t[0] == '?')
    ensures SchemeEnd(p + t) == None && SchemeEnd(p) == None
  {
    var j := FirstIndex(t, ':');
    assert j > 0;
    FirstIndexAt(p + t[..j], t[j..], ':');
    assert p + t[..j] + t[j..] == p + t;
    var i := FirstIndex(p + t, ':');
    assert i == |p| + j;
    assert (p + t)[|p|] == t[0];
    assert !IsSchemeChar((p + t)[|p|]);
  }

  lemma SplitSchemeShape(u: string)
    ensures SchemeOk(SplitScheme(u).0)
    ensures SplitScheme(u).0 == "" ==> SplitScheme(u).1 == u && SchemeEnd(u) == None
  {
    if SchemeEnd(u).Some? {
      var s := SplitScheme(u).0;
      forall k | 0 <= k < |s|
        ensures IsSchemeChar(s[k]) && LowerChar(s[k]) == s[k]
      {
        LowerCharIdempotent(u[k]);
      }
      LowerCharIdempotent(u[0]);
    }
  }

  /** The path and query `urlsplit` cuts from what follows the netloc: the path is a
      prefix free of `?` and `#`, ended by one of them or by the end of the text. */
  lemma PathQueryShape(a: string)
    ensures var p := SplitAtFirst(SplitAtFirst(a, '#').0, '?').0;
      && p <= a && '?' !in p && '#' !in p
      && '#' !in SplitAtFirst(SplitAtFirst(a, '#').0, '?').1
      && (|p| < |a| ==> a[|p|] == '?' || a[|p|] == '#')
  {
    var (b, f) := SplitAtFirst(a, '#');
    var (p, q) := SplitAtFirst(b, '?');
    assert b <= a && '#' !in b;
    assert p <= b && '?' !in p;
    assert '#' !in p by {
      if '?' in b {
        assert b == p + ['?'] + q;
        assert p <= b;
      }
    }
    assert '#' !in q by {
      if '?' in b {
        assert b == p + (['?'] + q);
      }
    }
    if |p| < |a| {
      if '?' in b {
        assert b[|p|] == '?';
      } else {
        assert p == b && '#' in a;
        assert a[|b|] == '#';
      }
    }
  }

  /** The netloc `urlsplit` reads stops before any delimiter, and what follows it
      starts with `/`, `?`, `#` or is empty. */
  lemma AuthorityShape(rest: string)
    requires StartsWith(rest, "//")
    ensures NoDelims(SplitAuthority(rest).0)
    ensures var t := SplitAuthority(rest).1; t == "" || t[0] == '/' || t[0] == '?' || t[0] == '#'
  {
    var e := NetlocEnd(rest, 2);
    var n := rest[2..e];
    assert forall k :: 0 <= k < |n| ==> n[k] == rest[k + 2];
  }

  lemma UrlSplitPathShape(u: string)
    requires UrlSplit(u).Ok?
    ensures var c := UrlSplit(u).value; '?' !in c.path && '#' !in c.path && '#' !in c.query
  {
    PathQueryShape(SplitAuthority(SplitScheme(u).1).1);
  }

  lemma UrlSplitNetlocShape(u: string)
    requires UrlSplit(u).Ok?
    ensures var c := UrlSplit(u).value;
      NoDelims(c.netloc) && (c.netloc != "" ==> c.path == "" || c.path[0] == '/')
  {
    var c := UrlSplit(u).value;
    var rest := SplitScheme(u).1;
    var afterNetloc := SplitAuthority(rest).1;
    PathQueryShape(afterNetloc);
    if StartsWith(rest, "//") {
      AuthorityShape(rest);
      if c.path != "" {
        assert c.path[0] == afterNetloc[0];
      }
    }
  }

  /** Without scheme and netloc, the path holds no scheme either. */
  lemma UrlSplitNoScheme(u: string)
    requires UrlSplit(u).Ok?
    ensures var c := UrlSplit(u).value; c.scheme == "" && c.netloc == "" ==> SchemeEnd(c.path) == None
  {
    var c := UrlSplit(u).value;
    SplitSchemeShape(u);
    var rest := SplitScheme(u).1;
    var afterNetloc := SplitAuthority(rest).1;
    PathQueryShape(afterNetloc);
    if c.scheme == "" && StartsWith(rest, "//") {
      AuthorityShape(rest);
      if c.path != "" {
        assert c.path[0] == afterNetloc[0];
        assert !IsAsciiLetter(c.path[0]);
      }
    } else if c.scheme == "" {
      assert afterNetloc == u;
      var t := u[|c.path|..];
      assert u == c.path + t;
      SchemeEndExtend(c.path, t);
    }
  }

  /** Every successful `urlsplit` result has the shape above. */
  lemma UrlSplitShape(u: string)
    requires UrlSplit(u).Ok?
    ensures SplitShape(UrlSplit(u).value)
  {
    SplitSchemeShape(u);
    UrlSplitPathShape(u);
    UrlSplitNetlocShape(u);
    UrlSplitNoScheme(u);
  }

  lemma SchemeRoundTrip(scheme: string, rest: string)
    requires SchemeOk(scheme) && scheme != ""
    ensures SplitScheme(scheme + ":" + rest) == (scheme, rest)
  {
    var v := scheme + ":" + rest;
    assert ':' !in scheme by {
      forall k | 0 <= k < |scheme| ensures scheme[k] != ':' {
        assert IsSchemeChar(scheme[k]);
      }
    }
    FirstIndexAt(scheme, ":" + rest, ':');
    assert v == scheme + (":" + rest);
    assert v[..|scheme|] == scheme;
    assert forall k :: 0 <= k < |scheme| ==> v[k] == scheme[k];
    assert SchemeEnd(v) == Some(|scheme|);
    assert Lower(scheme) == scheme;
    assert v[|scheme| + 1..] == rest;
  }

  /** The authority of `"//" + n + t`, for a netloc without delimiters. */
  lemma AuthorityRoundTrip(n: string, t: string)
    requires NoDelims(n)
    requires t == "" || t[0] == '/' || t[0] == '#'
    ensures SplitAuthority("//" + n + t) == (n, t)
  {
    var r := "//" + n + t;
    assert StartsWith(r, "//");
    var e := NetlocEnd(r, 2);
    assert forall k :: 2 <= k < 2 + |n| ==> r[k] == n[k - 2];
    assert 2 + |n| < |r| ==> r[2 + |n|] == t[0];
    assert e == 2 + |n|;
    assert r[2..e] == n && r[e..] == t;
  }

  /** What `urlunsplit` writes after the scheme, before the query. */
  function Hier(c: SplitResult): string {
    if WritesAuthority(c) then "//" + c.netloc + AbsolutePath(c.path) else c.path
  }

  /** The fragment as `urlunsplit` writes it. */
  function Tail(c: SplitResult): string {
    if c.fragment != "" then "#" + c.fragment else ""
  }

  lemma UnsplitText(c: SplitResult)
    requires c.query == ""
    ensures UrlUnsplit(c) == (if c.scheme != "" then c.scheme + ":" else "") + (Hier(c) + Tail(c))
  {
  }

  lemma UnsplitScheme(c: SplitResult)
    requires Canonical(c)
    ensures SplitScheme(UrlUnsplit(c)) == (c.scheme, Hier(c) + Tail(c))
  {
    var rest := Hier(c) + Tail(c);
    var v := UrlUnsplit(c);
    UnsplitText(c);
    if c.scheme != "" {
      assert v == c.scheme + ":" + rest;
      SchemeRoundTrip(c.scheme, rest);
    } else {
      assert v == rest;
      if WritesAuthority(c) {
        assert !IsAsciiLetter(v[0]);
      } else {
        assert rest == c.path + Tail(c);
        SchemeEndExtend(c.path, Tail(c));
      }
    }
  }

  lemma UnsplitAuthority(c: SplitResult)
    requires Canonical(c)
    ensures SplitAuthority(Hier(c) + Tail(c)) == (c.netloc, c.path + Tail(c))
  {
    var rest := Hier(c) + Tail(c);
    var afterNetloc := c.path + Tail(c);
    if WritesAuthority(c) {
      assert rest == "//" + c.netloc + afterNetloc;
      AuthorityRoundTrip(c.netloc, afterNetloc);
    } else {
      assert rest == afterNetloc;
      assert !StartsWith(rest, "//") by {
        if |c.path| >= 2 {
          assert rest[..2] == c.path[..2];
        } else if |c.path| == 1 && Tail(c) != "" {
          assert rest[1] == Tail(c)[0] == '#';
        } else if |c.path| == 0 && Tail(c) != "" {
          assert rest[0] == '#';
        }
      }
    }
  }

  lemma UnsplitFragment(c: SplitResult)
    requires Canonical(c)
    ensures SplitAtFirst(c.path + Tail(c), '#') == (c.path, c.fragment)
    ensures SplitAtFirst(c.path, '?') == (c.path, "")
  {
    if c.fragment != "" {
      SplitAtFirstOf(c.path, '#', c.fragment);
      assert c.path + Tail(c) == c.path + ['#'] + c.fragment;
    } else {
      assert c.path + Tail(c) == c.path;
    }
  }

  /** `urlsplit` reads back exactly what `urlunsplit` wrote from canonical components. */
  lemma SplitUnsplit(c: SplitResult)
    requires Canonical(c)
    ensures UrlSplit(UrlUnsplit(c)) == Ok(c)
  {
    UnsplitScheme(c);
    UnsplitAuthority(c);
    UnsplitFragment(c);
  }

  function Normalize(c: SplitResult): SplitResult {
    if WritesAuthority(c) then c.(path := AbsolutePath(c.path)) else c
  }

  lemma NormalizeKeepsText(c: SplitResult)
    requires !EmptyAuthorityDoubleSlash(c)
    ensures WritesAuthority(Normalize(c)) == WritesAuthority(c)
    ensures UrlUnsplit(Normalize(c)) == UrlUnsplit(c)
  {
    if WritesAuthority(c) && c.path != "" && c.path[0] != '/' {
      assert !StartsWith("/" + c.path, "//") by {
        assert ("/" + c.path)[1] == c.path[0];
      }
    }
  }

  lemma NormalizeCanonical(c: SplitResult)
    requires SplitShape(c) && c.query == "" && !EmptyAuthorityDoubleSlash(c)
    ensures Canonical(Normalize(c))
  {
    NormalizeKeepsText(c);
    var d := Normalize(c);
    if WritesAuthority(c) && c.path != "" && c.path[0] != '/' {
      assert ("/" + c.path)[1..] == c.path;
      assert '?' !in d.path && '#' !in d.path;
      assert !StartsWith(d.path, "//") by {
        assert d.path[1] == c.path[0];
      }
    }
  }

  lemma HierNoMarks(c: SplitResult)
    requires SplitShape(c)
    ensures '?' !in Hier(c) && '#' !in Hier(c)
  {
    if WritesAuthority(c) {
      assert Hier(c) == "//" + c.netloc + AbsolutePath(c.path);
    }
  }

  lemma SchemeNoMarks(s: string)
    requires SchemeOk(s)
    ensures NoDelims(s)
  {
    forall k | 0 <= k < |s| ensures s[k] != '/' && s[k] != '?' && s[k] != '#' {
      assert IsSchemeChar(s[k]);
    }
  }

  /** No `?` before the first `#` of the text. */
  predicate NoQueryMark(v: string) {
    '?' !in v[..if '#' in v then FirstIndex(v, '#') else |v|]
  }

  lemma NoQueryMarkOf(head: string, tail: string)
    requires '?' !in head && '#' !in head
    requires tail == "" || tail[0] == '#'
    ensures NoQueryMark(head + tail)
  {
    var v := head + tail;
    if tail != "" {
      FirstIndexAt(head, tail, '#');
      assert v[..|head|] == head;
    } else {
      assert v == head;
    }
  }

  /** `clean_url` leaves no query: in its result no `?` comes before the first `#`,
      so the query `urlsplit` would find there is always empty. */
  lemma CleanUrlHasNoQuery(u: string)
    requires CleanUrl(u).Ok?
    ensures NoQueryMark(CleanUrl(u).value)
  {
    UrlSplitShape(u);
    CleanedNoQuery(UrlSplit(u).value);
  }

  lemma CleanedNoQuery(c: SplitResult)
    requires SplitShape(c)
    ensures NoQueryMark(UrlUnsplit(c.(query := "")))
  {
    var d := c.(query := "");
    UnsplitText(d);
    HierNoMarks(d);
    SchemeNoMarks(d.scheme);
    var head := (if d.scheme != "" then d.scheme + ":" else "") + Hier(d);
    assert UrlUnsplit(d) == head + Tail(d);
    NoQueryMarkOf(head, Tail(d));
  }

  /** Scheme, netloc and fragment survive `clean_url`, the query becomes empty, and the
      path survives up to the leading `/` written after an authority. */
  lemma CleanUrlKeepsComponents(u: string)
    requires UrlSplit(u).Ok? && !EmptyAuthorityDoubleSlash(UrlSplit(u).value)
    ensures CleanUrl(u).Ok?
    ensures var c := UrlSplit(u).value;
      UrlSplit(CleanUrl(u).value) == Ok(SplitResult(c.scheme, c.netloc, Normalize(c).path, "", c.fragment))
    ensures var c := UrlSplit(u).value;
      Normalize(c).path == c.path || Normalize(c).path == "/" + c.path
  {
    UrlSplitShape(u);
    CleanedComponents(UrlSplit(u).value);
  }

  /** Splitting what `clean_url` writes from split components gives them back, with
      the query emptied and the path made absolute after an authority. */
  lemma CleanedComponents(c: SplitResult)
    requires SplitShape(c) && !EmptyAuthorityDoubleSlash(c)
    ensures UrlSplit(UrlUnsplit(c.(query := ""))) == Ok(SplitResult(c.scheme, c.netloc, Normalize(c).path, "", c.fragment))
    ensures Normalize(c).path == c.path || Normalize(c).path == "/" + c.path
  {
    var d := c.(query := "");
    NormalizeCanonical(d);
    NormalizeKeepsText(d);
    SplitUnsplit(Normalize(d));
    assert WritesAuthority(d) == WritesAuthority(c);
  }

  /** Idempotence: cleaning a cleaned URL changes nothing, for every URL except those
      whose authority is empty while their path starts with `//`. */
  lemma CleanUrlIdempotent(u: string)
    requires CleanUrl(u).Ok? && !EmptyAuthorityDoubleSlash(UrlSplit(u).value)
    ensures CleanUrl(CleanUrl(u).value) == CleanUrl(u)
  {
    UrlSplitShape(u);
    CleanedComponents(UrlSplit(u).value);
    CleanedTwice(UrlSplit(u).value);
  }

  lemma CleanedTwice(c: SplitResult)
    requires SplitShape(c) && !EmptyAuthorityDoubleSlash(c)
    ensures CleanUrl(UrlUnsplit(c.(query := ""))) == Ok(UrlUnsplit(c.(query := "")))
  {
    var d := c.(query := "");
    NormalizeCanonical(d);
    NormalizeKeepsText(d);
    CleanUrlFixesCanonical(Normalize(d));
  }

  /** The text `urlunsplit` writes from canonical components is left unchanged by `clean_url`. */
  lemma CleanUrlFixesCanonical(c: SplitResult)
    requires Canonical(c)
    ensures CleanUrl(UrlUnsplit(c)) == Ok(UrlUnsplit(c))
  {
    SplitUnsplit(c);
    assert c.(query := "") == c;
  }

  lemma PlainUnsplit(scheme: string, netloc: string, path: string, fragment: string)
    requires netloc != "" && scheme != "" && (path == "" || path[0] == '/')
    ensures UrlUnsplit(SplitResult(scheme, netloc, path, "", fragment))
      == scheme + "://" + netloc + path + (if fragment == "" then "" else "#" + fragment)
  {
  }

  /** A URL written as a lower-case scheme, `://`, a non-empty authority, an absolute
      path, no `?` and no empty trailing `#` comes back from `clean_url` unchanged. */
  lemma CleanUrlKeepsPlainUrl(scheme: string, netloc: string, path: string, fragment: string)
    requires SchemeOk(scheme) && scheme != ""
    requires netloc != "" && NoDelims(netloc) && ('[' in netloc) == (']' in netloc)
    requires (path == "" || path[0] == '/') && '?' !in path && '#' !in path
    ensures var u := scheme + "://" + netloc + path + (if fragment == "" then "" else "#" + fragment);
      CleanUrl(u) == Ok(u)
  {
    var c := SplitResult(scheme, netloc, path, "", fragment);
    assert Canonical(c);
    CleanUrlFixesCanonical(c);
    PlainUnsplit(scheme, netloc, path, fragment);
  }

  /** Two slashes before a path that starts with `/` are read as an empty authority and
      dropped. */
  lemma CleanUrlEmptyAuthority(p: string)
    requires p != [] && p[0] == '/' && ':' !in p && '?' !in p && '#' !in p
    ensures CleanUrl("//" + p) == Ok(p)
  {
    var u := "//" + p;
    assert ':' !in u by {
      forall k | 0 <= k < |u| ensures u[k] != ':' {
        if k >= 2 { assert u[k] == p[k - 2]; }
      }
    }
    assert SplitScheme(u) == ("", u);
    assert u[..2] == "//" && u[2] == '/';
    assert NetlocEnd(u, 2) == 2;
    assert u[2..2] == "" && u[2..] == p;
    assert SplitAuthority(u) == ("", p);
    assert UrlSplit(u) == Ok(SplitResult("", "", p, "", ""));
  }

  /** Two slashes before a plain authority are kept: the text is its own cleaning. */
  lemma CleanUrlAuthorityOnly(n: string)
    requires n != [] && NoDelims(n) && ':' !in n && '[' !in n && ']' !in n
    ensures CleanUrl("//" + n) == Ok("//" + n)
  {
    var u := "//" + n;
    assert ':' !in u by {
      forall k | 0 <= k < |u| ensures u[k] != ':' {
        if k >= 2 { assert u[k] == n[k - 2]; }
      }
    }
    assert SplitScheme(u) == ("", u);
    assert u[..2] == "//";
    var e := NetlocEnd(u, 2);
    assert e == |u|;
    assert u[2..e] == n && u[e..] == "";
    assert SplitAuthority(u) == (n, "");
    assert UrlSplit(u) == Ok(SplitResult("", n, "", "", ""));
  }

  /** `clean_url` is not idempotent when the authority is empty and the path starts
      with `//`: each pass reads the next two slashes as an empty authority, until one
      plain authority is left. This is the `urlunsplit` of CPython 3.11 (and of 3.12 up
      to 3.12.3); later releases write `//` before such a path, and keep it. */
  lemma CleanUrlNotIdempotent(x: string)
    requires x != [] && NoDelims(x) && ':' !in x && '[' !in x && ']' !in x
    ensures CleanUrl("//////" + x) == Ok("////" + x)
    ensures CleanUrl("////" + x) == Ok("//" + x)
    ensures CleanUrl("//" + x) == Ok("//" + x)
  {
    var p4 := "////" + x;
    assert ':' !in p4 && '?' !in p4 && '#' !in p4 by {
      forall k | 0 <= k < |p4| ensures p4[k] != ':' && p4[k] != '?' && p4[k] != '#' {
        if k >= 4 { assert p4[k] == x[k - 4]; }
      }
    }
    assert "//////" + x == "//" + p4;
    CleanUrlEmptyAuthority(p4);
    var p2 := "//" + x;
    assert ':' !in p2 && '?' !in p2 && '#' !in p2 by {
      forall k | 0 <= k < |p2| ensures p2[k] != ':' && p2[k] != '?' && p2[k] != '#' {
        if k >= 2 { assert p2[k] == x[k - 2]; }
      }
    }
    assert p4 == "//" + p2;
    CleanUrlEmptyAuthority(p2);
    CleanUrlAuthorityOnly(x);
  }

  /** The Lever check: `https`, a netloc containing `lever.co`, and a `/` left inside the
      params-free path once its outer slashes are stripped. A URL `urlsplit` rejects is
      not valid. */
  lemma ValidateLeverUrlMeaning(url: string)
    ensures ValidateLeverUrl(url) <==>
      && UrlSplit(url).Ok?
      && UrlSplit(url).value.scheme == "https"
      && Contains(UrlSplit(url).value.netloc, "lever.co")
      && '/' in StripChar(ParsedPath(UrlSplit(url).value), '/')
  {
    if UrlSplit(url).Ok? {
      SplitHasTwoParts(StripChar(ParsedPath(UrlSplit(url).value), '/'), '/');
    }
  }

  /** `urlsplit` of a plain URL: scheme, `://`, authority and absolute path. */
  lemma SplitPlainUrl(scheme: string, netloc: string, path: string)
    requires SchemeOk(scheme) && scheme != ""
    requires netloc != "" && NoDelims(netloc) && ('[' in netloc) == (']' in netloc)
    requires (path == "" || path[0] == '/') && '?' !in path && '#' !in path
    ensures UrlSplit(scheme + "://" + netloc + path) == Ok(SplitResult(scheme, netloc, path, "", ""))
  {
    var c := SplitResult(scheme, netloc, path, "", "");
    var u := scheme + "://" + netloc + path;
    assert Canonical(c);
    SplitUnsplit(c);
    PlainUnsplit(scheme, netloc, path, "");
    assert u + "" == u;
    assert UrlUnsplit(c) == u;
  }

  /** The `urlsplit` of a `jobs.lever.co` URL with the given scheme and path. */
  lemma LeverSplit(scheme: string, path: string)
    requires scheme == "https" || scheme == "http"
    requires path == "" || path[0] == '/'
    requires '?' !in path && '#' !in path
    ensures UrlSplit(scheme + "://" + "jobs.lever.co" + path) == Ok(SplitResult(scheme, "jobs.lever.co", path, "", ""))
  {
    assert SchemeOk(scheme);
    assert NoDelims("jobs.lever.co");
    assert '[' !in "jobs.lever.co" && ']' !in "jobs.lever.co";
    SplitPlainUrl(scheme, "jobs.lever.co", path);
  }

  /** Outer slashes stripped from `/company/id`. */
  lemma StripPostingPath(company: string, id: string)
    requires company != "" && id != "" && company[0] != '/' && id[|id| - 1] != '/'
    ensures StripChar("/" + company + "/" + id, '/') == company + "/" + id
  {
    var p := "/" + company + "/" + id;
    StripCharSpan(p, '/', 1, |p|);
    assert p[1..] == company + "/" + id;
  }

  /** Outer slashes stripped from `/company/`. */
  lemma StripCompanyPath(company: string)
    requires company != "" && '/' !in company
    ensures StripChar("/" + company + "/", '/') == company
  {
    var p := "/" + company + "/";
    assert p[1] == company[0] && p[|p| - 2] == company[|company| - 1];
    StripCharSpan(p, '/', 1, |p| - 1);
    assert p[1..|p| - 1] == company;
  }

  /** Without a `;` in the path, `urlparse` reports the path `urlsplit` found. */
  lemma ParsedPathWithoutParams(c: SplitResult)
    requires ';' !in c.path
    ensures ParsedPath(c) == c.path
  {
  }

  lemma LeverHost()
    ensures Contains("jobs.lever.co", "lever.co")
  {
    assert OccursAt("jobs.lever.co", "lever.co", 5);
  }

  lemma LeverPostingSplit(company: string, id: string)
    requires NoDelims(company) && NoDelims(id)
    ensures UrlSplit("https://jobs.lever.co/" + company + "/" + id)
      == Ok(SplitResult("https", "jobs.lever.co", "/" + company + "/" + id, "", ""))
  {
    var path := "/" + company + "/" + id;
    assert "https://jobs.lever.co/" + company + "/" + id == "https" + "://" + "jobs.lever.co" + path;
    assert '?' !in path && '#' !in path;
    LeverSplit("https", path);
  }

  /** A posting page `https://jobs.lever.co/<company>/<id>` passes the check. */
  lemma ValidateLeverUrlPosting(company: string, id: string)
    requires company != "" && id != "" && NoDelims(company) && NoDelims(id)
    requires ';' !in company && ';' !in id
    ensures ValidateLeverUrl("https://jobs.lever.co/" + company + "/" + id)
  {
    LeverPostingSplit(company, id);
    PostingComponentsValid(company, id);
  }

  /** The components of a posting page pass each test of the check. */
  lemma PostingComponentsValid(company: string, id: string)
    requires company != "" && id != "" && NoDelims(company) && NoDelims(id)
    requires ';' !in company && ';' !in id
    ensures var c := SplitResult("https", "jobs.lever.co", "/" + company + "/" + id, "", "");
      c.scheme == "https" && Contains(c.netloc, "lever.co") && |Split(StripChar(ParsedPath(c), '/'), '/')| >= 2
  {
    var c := SplitResult("https", "jobs.lever.co", "/" + company + "/" + id, "", "");
    assert ';' !in c.path;
    ParsedPathWithoutParams(c);
    LeverHost();
    assert company[0] != '/' && id[|id| - 1] != '/';
    StripPostingPath(company, id);
    assert (company + "/" + id)[|company|] == '/';
    SplitHasTwoParts(company + "/" + id, '/');
  }

  /** A company page `https://jobs.lever.co/<company>/`, one path segment, does not pass. */
  lemma ValidateLeverUrlCompanyPage(company: string)
    requires company != "" && NoDelims(company) && ';' !in company
    ensures !ValidateLeverUrl("https://jobs.lever.co/" + company + "/")
  {
    var path := "/" + company + "/";
    var u := "https://jobs.lever.co/" + company + "/";
    assert u == "https" + "://" + "jobs.lever.co" + path;
    assert '?' !in path && '#' !in path && ';' !in path;
    LeverSplit("https", path);
    StripCompanyPath(company);
    ValidateLeverUrlMeaning(u);
  }

  /** Any `http` URL on `jobs.lever.co` does not pass the check. */
  lemma ValidateLeverUrlPlainHttp(path: string)
    requires path == "" || path[0] == '/'
    requires '?' !in path && '#' !in path
    ensures !ValidateLeverUrl("http://jobs.lever.co" + path)
  {
    assert "http://jobs.lever.co" + path == "http" + "://" + "jobs.lever.co" + path;
    LeverSplit("http", path);
  }

  /** The apply link of a posting ends with `/apply`, and taking that suffix off gives the
      same page as taking it off the cleaned posting link. A link `urlsplit` rejects has
      no apply link. */
  lemma ApplyLinkStrips(link: string)
    ensures ApplyLink(link).Ok? <==> CleanUrl(link).Ok?
    ensures ApplyLink(link).Ok? ==>
      && EndsWith(ApplyLink(link).value, ApplySuffix)
      && StripApplySuffix(ApplyLink(link).value) == StripApplySuffix(CleanUrl(link).value)
  {
    if CleanUrl(link).Ok? {
      var cleaned := CleanUrl(link).value;
      if !EndsWith(cleaned, ApplySuffix) {
        var r := cleaned + ApplySuffix;
        assert r[|r| - |ApplySuffix|..] == ApplySuffix;
        assert r[..|r| - |ApplySuffix|] == cleaned;
      }
    }
  }

  /** The apply link carries no query either: `/apply` adds neither `?` nor `#`. */
  lemma ApplyLinkHasNoQuery(link: string)
    requires ApplyLink(link).Ok?
    ensures NoQueryMark(ApplyLink(link).value)
  {
    CleanUrlHasNoQuery(link);
    NoQueryMarkSuffix(CleanUrl(link).value);
  }

  /** Appending `/apply` to a text without a query mark adds none. */
  lemma NoQueryMarkSuffix(cleaned: string)
    requires NoQueryMark(cleaned)
    ensures NoQueryMark(cleaned + ApplySuffix)
  {
    var v := cleaned + ApplySuffix;
    assert '?' !in ApplySuffix && '#' !in ApplySuffix;
    if '#' in cleaned {
      FirstIndexPrefix(cleaned, ApplySuffix, '#');
      assert v[..FirstIndex(cleaned, '#')] == cleaned[..FirstIndex(cleaned, '#')];
    } else {
      assert '#' !in v;
      assert v[..|v|] == v && cleaned[..|cleaned|] == cleaned;
    }
  }

  /** Taking `/apply` off and putting it back restores a link that ended with it. */
  lemma StripApplySuffixInverse(link: string)
    ensures EndsWith(link, ApplySuffix) ==> StripApplySuffix(link) + ApplySuffix == link
    ensures !EndsWith(link, ApplySuffix) ==> StripApplySuffix(link) == link
  {
  }
}
