/** Option, the shared result of a search that may find nothing. */
module Wrappers {
  datatype Option<+T> = None | Some(value: T)
}

/** std::string searching and trimming, and the in-place URI decoder. */
module Text {
  import opened Wrappers

  const CRLF := "\r\n"
  const CRLF2 := "\r\n\r\n"

  predicate MatchesAt(s: string, pat: string, k: int) {
    0 <= k && k + |pat| <= |s| && s[k..k + |pat|] == pat
  }

  /** `s.find(pat, from)`; `None` is `npos`. */
  function IndexOf(s: string, pat: string, from: nat := 0): (r: Option<nat>)
    ensures r.Some? ==> from <= r.value && MatchesAt(s, pat, r.value)
    decreases |s| - from
  {
    if from + |pat| > |s| then None
    else if s[from..from + |pat|] == pat then Some(from)
    else IndexOf(s, pat, from + 1)
  }

  /** It is the first match. */
  lemma {:induction false} FirstMatch(s: string, pat: string, from: nat)
    ensures var r := IndexOf(s, pat, from);
            (r.Some? ==> forall k | from <= k < r.value :: !MatchesAt(s, pat, k))
            && (r.None? ==> forall k | from <= k :: !MatchesAt(s, pat, k))
    decreases |s| - from
  {
    if from + |pat| <= |s| && s[from..from + |pat|] != pat {
      FirstMatch(s, pat, from + 1);
    }
  }

  lemma IndexOfIs(s: string, pat: string, from: nat, k: nat)
    requires from <= k && MatchesAt(s, pat, k)
    requires forall j | from <= j < k :: !MatchesAt(s, pat, j)
    ensures IndexOf(s, pat, from) == Some(k)
    decreases k - from
  {
    if from < k {
      assert !MatchesAt(s, pat, from);
      IndexOfIs(s, pat, from + 1, k);
    }
  }

  lemma MatchesAtAppend(s: string, t: string, pat: string, k: int)
    requires k + |pat| <= |s|
    ensures MatchesAt(s + t, pat, k) == MatchesAt(s, pat, k)
  {
    if 0 <= k {
      assert (s + t)[k..k + |pat|] == s[k..k + |pat|];
    }
  }

  /** Bytes that arrive later never move a match that is already there. */
  lemma {:induction false} IndexOfAppend(s: string, t: string, pat: string, from: nat)
    requires IndexOf(s, pat, from).Some?
    ensures IndexOf(s + t, pat, from) == IndexOf(s, pat, from)
    decreases |s| - from
  {
    assert (s + t)[from..from + |pat|] == s[from..from + |pat|];
    if s[from..from + |pat|] != pat {
      IndexOfAppend(s, t, pat, from + 1);
    }
  }

  lemma MatchesAtSuffix(x: string, y: string, pat: string, j: nat)
    ensures MatchesAt(x + y, pat, j + |x|) == MatchesAt(y, pat, j)
  {
    if j + |pat| <= |y| {
      assert (x + y)[j + |x|..j + |x| + |pat|] == y[j..j + |pat|];
    }
  }

  lemma IndexOfAfter(x: string, y: string, pat: string, k: nat)
    requires IndexOf(y, pat) == Some(k)
    requires forall j | 0 <= j < |x| :: !MatchesAt(x + y, pat, j)
    ensures IndexOf(x + y, pat) == Some(|x| + k)
  {
    FirstMatch(y, pat, 0);
    forall j | |x| <= j < |x| + k ensures !MatchesAt(x + y, pat, j) {
      MatchesAtSuffix(x, y, pat, j - |x|);
    }
    MatchesAtSuffix(x, y, pat, k);
    IndexOfIs(x + y, pat, 0, |x| + k);
  }

  /** Bytes behind the match do not matter. */
  lemma {:induction false} IndexOfPrefix(s: string, pat: string, from: nat, k: nat, n: nat)
    requires IndexOf(s, pat, from) == Some(k) && k + |pat| <= n <= |s|
    ensures IndexOf(s[..n], pat, from) == Some(k)
    decreases |s| - from
  {
    assert s[..n][from..from + |pat|] == s[from..from + |pat|];
    if s[from..from + |pat|] != pat {
      IndexOfPrefix(s, pat, from + 1, k, n);
    }
  }

  function Less(r: Option<nat>, n: nat): Option<int> {
    if r.None? then None else Some(r.value - n)
  }

  /** Searching from a position is searching what stands there, wherever the search begins. */
  lemma {:induction false} IndexOfShiftAt(s: string, pat: string, from: nat, i: nat)
    requires from + i <= |s|
    ensures IndexOf(s[from..], pat, i) == Less(IndexOf(s, pat, from + i), from)
    decreases |s| - i
  {
    if from + i + |pat| <= |s| {
      assert s[from..][i..i + |pat|] == s[from + i..from + i + |pat|];
      if s[from + i..from + i + |pat|] != pat && from + i < |s| {
        IndexOfShiftAt(s, pat, from, i + 1);
      }
    }
  }

  lemma IndexOfShift(s: string, pat: string, from: nat)
    requires from <= |s|
    ensures IndexOf(s[from..], pat, 0) == Less(IndexOf(s, pat, from), from)
  {
    IndexOfShiftAt(s, pat, from, 0);
  }

  /** The first place of a pattern behind text without its first character, whatever follows. */
  lemma FirstAfter(a: string, pat: string, b: string)
    requires pat != "" && pat[0] !in a
    ensures IndexOf(a + pat + b, pat) == Some(|a|)
    ensures (a + pat + b)[..|a|] == a && (a + pat + b)[|a| + |pat|..] == b
  {
    var s := a + pat + b;
    assert s[|a|..|a| + |pat|] == pat;
    forall j | 0 <= j < |a| ensures !MatchesAt(s, pat, j) {
      assert s[j] == a[j] && a[j] in a;
      assert s[j..j + |pat|][0] == s[j];
    }
    IndexOfIs(s, pat, 0, |a|);
  }

  lemma {:induction false} NotIn(s: string, pat: string, from: nat)
    requires pat != "" && pat[0] !in s
    ensures IndexOf(s, pat, from).None?
    decreases |s| - from
  {
    if from + |pat| <= |s| {
      assert s[from..from + |pat|][0] == s[from] && s[from] in s;
      NotIn(s, pat, from + 1);
    }
  }

  /** Text without a carriage return, as RFC 7230 demands of one line. */
  predicate NoCr(s: string) {
    forall k | 0 <= k < |s| :: s[k] != '\r'
  }

  /** The first CRLF after a line without '\r' is the one that ends it. */
  lemma LineEnd(line: string, rest: string)
    requires NoCr(line)
    ensures IndexOf(line + CRLF + rest, CRLF, 0) == Some(|line|)
  {
    var s := line + CRLF + rest;
    assert s[|line|..|line| + 2] == CRLF;
    forall j | 0 <= j < |line| ensures !MatchesAt(s, CRLF, j) {
      assert s[j] == line[j];
      assert s[j..j + 2][0] == s[j];
    }
    IndexOfIs(s, CRLF, 0, |line|);
  }

  /** Lines, each with the CRLF that ends it. */
  function Lines(lines: seq<string>): string {
    if lines == [] then "" else lines[0] + CRLF + Lines(lines[1..])
  }

  // ---------------------------------------------------------------- trimming

  /** `std::isspace` in the "C" locale. */
  predicate IsSpace(c: char) {
    c == ' ' || '\t' <= c <= '\r'
  }

  function TrimLeft(s: string): string {
    if s != "" && IsSpace(s[0]) then TrimLeft(s[1..]) else s
  }

  function TrimRight(s: string): string {
    if s != "" && IsSpace(s[|s| - 1]) then TrimRight(s[..|s| - 1]) else s
  }

  function Trim(s: string): string {
    TrimRight(TrimLeft(s))
  }

  predicate Trimmed(s: string) {
    s != "" ==> !IsSpace(s[0]) && !IsSpace(s[|s| - 1])
  }

  lemma TrimLeftIs(s: string, n: nat)
    requires n <= |s| && forall k | 0 <= k < n :: IsSpace(s[k])
    requires n < |s| ==> !IsSpace(s[n])
    ensures TrimLeft(s) == s[n..]
  {
    if n > 0 {
      TrimLeftIs(s[1..], n - 1);
    }
  }

  lemma TrimRightIs(s: string, n: nat)
    requires n <= |s| && forall k | n <= k < |s| :: IsSpace(s[k])
    requires 0 < n ==> !IsSpace(s[n - 1])
    ensures TrimRight(s) == s[..n]
  {
    if n < |s| {
      TrimRightIs(s[..|s| - 1], n);
      assert s[..|s| - 1][..n] == s[..n];
    }
  }

  /** Trimming undoes any padding put around text that had none. */
  lemma TrimPadded(left: string, s: string, right: string)
    requires Trimmed(s)
    requires forall k | 0 <= k < |left| :: IsSpace(left[k])
    requires forall k | 0 <= k < |right| :: IsSpace(right[k])
    ensures Trim(left + s + right) == s
  {
    var t := left + s + right;
    if s == "" {
      assert t == left + right;
      TrimLeftIs(t, |t|);
      TrimRightIs("", 0);
    } else {
      assert t[|left|] == s[0];
      TrimLeftIs(t, |left|);
      assert t[|left|..] == s + right;
      TrimRightIs(s + right, |s|);
      assert (s + right)[..|s|] == s;
    }
  }

  lemma TrimWindow(s: string, start: nat, end: nat)
    requires start <= end <= |s|
    requires forall k | 0 <= k < start :: IsSpace(s[k])
    requires forall k | end <= k < |s| :: IsSpace(s[k])
    requires start < end ==> !IsSpace(s[start]) && !IsSpace(s[end - 1])
    requires start == end ==> start == |s|
    ensures Trim(s) == s[start..end]
  {
    TrimLeftIs(s, start);
    TrimTail(s, start, end);
  }

  lemma TrimTail(s: string, start: nat, end: nat)
    requires start <= end <= |s|
    requires forall k | end <= k < |s| :: IsSpace(s[k])
    requires start < end ==> !IsSpace(s[end - 1])
    ensures TrimRight(s[start..]) == s[start..end]
  {
    var t := s[start..];
    assert forall k | end - start <= k < |t| :: t[k] == s[k + start];
    TrimRightIs(t, end - start);
    assert t[..end - start] == s[start..end];
  }

  /** `ft_strtrim`: two index loops and one substring. */
  method FtStrTrim(str: string) returns (r: string)
    ensures r == Trim(str)
  {
    var start := 0;
    var end := |str|;
    while start < |str| && IsSpace(str[start])
      invariant 0 <= start <= |str|
      invariant forall k | 0 <= k < start :: IsSpace(str[k])
    {
      start := start + 1;
    }
    while end > start && IsSpace(str[end - 1])
      invariant start <= end <= |str|
      invariant forall k | end <= k < |str| :: IsSpace(str[k])
    {
      end := end - 1;
    }
    TrimWindow(str, start, end);
    r := str[start..end];
  }

  // ------------------------------------------------------------ URI decoding

  const ESCAPED_SPACE := "%20"

  /** Left-to-right replacement of every occurrence present in the original. */
  function DecodedUri(u: string): string {
    if u == "" then ""
    else if ESCAPED_SPACE <= u then " " + DecodedUri(u[3..])
    else [u[0]] + DecodedUri(u[1..])
  }

  lemma NoEscapeAtFront(u: string)
    requires !MatchesAt(u, ESCAPED_SPACE, 0)
    ensures !(ESCAPED_SPACE <= u)
  {
    assert |u| >= 3 ==> u[..3] == u[0..3];
  }

  lemma NoEscapeInTail(u: string, k: nat)
    requires 0 < k <= |u| && forall j | 0 <= j < k :: !MatchesAt(u, ESCAPED_SPACE, j)
    ensures forall j | 0 <= j < k - 1 :: !MatchesAt(u[1..], ESCAPED_SPACE, j)
  {
    forall j | 0 <= j < k - 1 ensures !MatchesAt(u[1..], ESCAPED_SPACE, j) {
      assert !MatchesAt(u, ESCAPED_SPACE, j + 1);
      assert j + 3 <= |u| - 1 ==> u[1..][j..j + 3] == u[j + 1..j + 4];
    }
  }

  lemma {:induction false} DecodedUriSkip(u: string, k: nat)
    requires k <= |u| && forall j | 0 <= j < k :: !MatchesAt(u, ESCAPED_SPACE, j)
    ensures DecodedUri(u) == u[..k] + DecodedUri(u[k..])
  {
    if k == 0 {
      assert u[0..] == u;
    } else {
      NoEscapeAtFront(u);
      NoEscapeInTail(u, k);
      DecodedUriSkip(u[1..], k - 1);
      assert u[1..][k - 1..] == u[k..];
      assert u[..k] == [u[0]] + u[1..][..k - 1];
    }
  }

  lemma DecodedUriFront(u: string)
    requires ESCAPED_SPACE <= u
    ensures DecodedUri(u) != "" && DecodedUri(u)[0] == ' '
  {
  }

  /** A decoded text starts with ordinary characters only where the original did. */
  lemma {:induction false} DecodedUriStart(u: string, n: nat)
    requires n <= |DecodedUri(u)| && forall j | 0 <= j < n :: DecodedUri(u)[j] != ' '
    ensures n <= |u| && u[..n] == DecodedUri(u)[..n]
  {
    if n > 0 {
      if ESCAPED_SPACE <= u { DecodedUriFront(u); }
      assert DecodedUri(u) == [u[0]] + DecodedUri(u[1..]);
      forall j | 0 <= j < n - 1 ensures DecodedUri(u[1..])[j] != ' ' {
        assert DecodedUri(u)[j + 1] == DecodedUri(u[1..])[j];
      }
      DecodedUriStart(u[1..], n - 1);
      assert u[..n] == [u[0]] + u[1..][..n - 1];
    }
  }

  lemma DecodedUriNoEscapeAtFront(u: string)
    ensures !MatchesAt(DecodedUri(u), ESCAPED_SPACE, 0)
  {
    var d := DecodedUri(u);
    if |d| >= 3 && d[0] != ' ' && d[1] != ' ' && d[2] != ' ' {
      DecodedUriStart(u, 3);
      assert d[0..3] == d[..3] == u[..3];
      if ESCAPED_SPACE <= u { DecodedUriFront(u); }
    } else {
      assert |d| >= 3 ==> d[0..3][0] == d[0] && d[0..3][1] == d[1] && d[0..3][2] == d[2];
    }
  }

  /** Inserting a space never creates a new escape: the result holds none. */
  lemma {:induction false} DecodedUriHasNoEscape(u: string)
    ensures forall k | 0 <= k :: !MatchesAt(DecodedUri(u), ESCAPED_SPACE, k)
    decreases |u|
  {
    if u != "" {
      var rest := if ESCAPED_SPACE <= u then u[3..] else u[1..];
      DecodedUriHasNoEscape(rest);
      DecodedUriNoEscapeAtFront(u);
      var d := DecodedUri(u);
      forall k | 0 < k ensures !MatchesAt(d, ESCAPED_SPACE, k) {
        assert !MatchesAt(DecodedUri(rest), ESCAPED_SPACE, k - 1);
        assert d[1..] == DecodedUri(rest);
        assert k + 3 <= |d| ==> d[1..][k - 1..k + 2] == d[k..k + 3];
      }
    }
  }

  /** One round of the loop: the part before the match is final, the match becomes a space. */
  lemma NextEscape(u: string, done: nat, k: nat)
    requires done <= |u| && IndexOf(u, ESCAPED_SPACE, done) == Some(k)
    ensures k + 3 <= |u|
    ensures u[..done] + DecodedUri(u[done..]) == u[..k] + " " + DecodedUri(u[k + 3..])
  {
    EscapeAt(u, k);
    SkipTo(u, done, k);
    Splice(u, done, k, DecodedUri(u[k..]));
    Assoc(u[..k], " ", DecodedUri(u[k + 3..]));
  }

  lemma Splice(u: string, i: nat, k: nat, tail: string)
    requires i <= k <= |u|
    ensures u[..i] + (u[i..k] + tail) == u[..k] + tail
  {
  }

  lemma Assoc(a: string, b: string, c: string)
    ensures a + (b + c) == a + b + c
  {
  }

  lemma SkipTo(u: string, done: nat, k: nat)
    requires done <= k <= |u| && IndexOf(u, ESCAPED_SPACE, done) == Some(k)
    ensures DecodedUri(u[done..]) == u[done..k] + DecodedUri(u[k..])
  {
    var t := u[done..];
    FirstMatch(u, ESCAPED_SPACE, done);
    forall j | 0 <= j < k - done ensures !MatchesAt(t, ESCAPED_SPACE, j) {
      MatchesAtShift(u, done, j);
    }
    DecodedUriSkip(t, k - done);
    TwoSlices(u, done, k);
  }

  lemma MatchesAtShift(u: string, done: nat, j: nat)
    requires done <= |u|
    ensures MatchesAt(u[done..], ESCAPED_SPACE, j) == MatchesAt(u, ESCAPED_SPACE, j + done)
  {
    if j + 3 <= |u| - done {
      assert u[done..][j..j + 3] == u[j + done..j + done + 3];
    }
  }

  lemma TwoSlices(u: string, i: nat, k: nat)
    requires i <= k <= |u|
    ensures u[i..][..k - i] == u[i..k] && u[i..][k - i..] == u[k..]
  {
  }

  lemma EscapeAt(u: string, k: nat)
    requires MatchesAt(u, ESCAPED_SPACE, k)
    ensures DecodedUri(u[k..]) == " " + DecodedUri(u[k + 3..])
  {
    assert u[k..][..3] == u[k..k + 3];
    assert u[k..][3..] == u[k + 3..];
  }

  lemma NoEscapeLeft(u: string, done: nat)
    requires done <= |u| && IndexOf(u, ESCAPED_SPACE, done).None?
    ensures u[..done] + DecodedUri(u[done..]) == u
  {
    IndexOfShift(u, ESCAPED_SPACE, done);
    var t := u[done..];
    FirstMatch(t, ESCAPED_SPACE, 0);
    DecodedUriSkip(t, |t|);
    assert t[|t|..] == "" && t[..|t|] == t;
  }

  /** `decodeURI`: replaces in place and resumes the search one past each space. */
  method DecodeUri(uri: string) returns (decoded: string)
    ensures decoded == DecodedUri(uri)
  {
    decoded := uri;
    if uri == "" {
      return;
    }
    var pos := IndexOf(decoded, ESCAPED_SPACE, 0);
    ghost var done := 0;
    assert decoded[0..] == uri && decoded[..0] == "";
    while pos.Some?
      invariant done <= |decoded|
      invariant pos == IndexOf(decoded, ESCAPED_SPACE, done)
      invariant decoded[..done] + DecodedUri(decoded[done..]) == DecodedUri(uri)
      decreases |decoded|
    {
      var k := pos.value;
      NextEscape(decoded, done, k);
      ghost var before := decoded;
      decoded := decoded[..k] + " " + decoded[k + 3..];
      pos := IndexOf(decoded, ESCAPED_SPACE, k + 1);
      done := k + 1;
      assert decoded[..done] == before[..k] + " ";
      assert decoded[done..] == before[k + 3..];
    }
    NoEscapeLeft(decoded, done);
  }
}
