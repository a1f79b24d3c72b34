/** Range requests: which slice of the file is chosen, and that slices tile the file. */
module Ranges {
  import opened Wrappers
  import opened Text
  import opened Numerals
  import opened ResponseModel
  import F = Framing

  const PREFIX := "bytes="
  const MAX_CHUNK := 32768
  const RANGE_SIZE := 8192

  /** A value of type `off_t` that is no error. */
  type FileSize = n: nat | n <= LLONG_MAX

  /** What a sum comes out as in 64 signed bits. */
  function WrapOff(x: int): (r: int)
    ensures -LLONG_MAX - 1 <= r <= LLONG_MAX
    ensures -LLONG_MAX - 1 <= x <= LLONG_MAX ==> r == x
  {
    (x + LLONG_MAX + 1) % TWO_64 - LLONG_MAX - 1
  }

  /** The first and last byte of the slice, or `None` for a refusal. */
  function RangeOf(value: string, fileSize: FileSize): Option<(int, int)> {
    if !(PREFIX <= value) then None
    else
      var spec := value[|PREFIX|..];
      match IndexOf(spec, "-")
      case None => None
      case Some(dash) => Clamp(StartOf(spec[..dash]), EndOf(spec[dash + 1..], fileSize), fileSize)
  }

  /** The first byte asked for; nothing before the dash means the first one. */
  function StartOf(startStr: string): int {
    if startStr == "" then 0 else AtoLl(startStr)
  }

  /** The last byte asked for; nothing behind the dash means the last one. */
  function EndOf(endStr: string, fileSize: FileSize): int {
    if endStr == "" then fileSize - 1 else AtoLl(endStr)
  }

  /** Clamping and refusals on the two numbers; the sums are of type `off_t` and wrap. */
  function Clamp(start: int, asked: int, fileSize: FileSize): Option<(int, int)> {
    var last := if asked >= fileSize then fileSize - 1 else asked;
    var end := if WrapOff(last - start + 1) > MAX_CHUNK then WrapOff(start + MAX_CHUNK - 1) else last;
    if start >= fileSize || start > end then None else Some((start, end))
  }

  /** `parseRange`; the output parameters keep whatever value they had reached. */
  method ParseRange(rangeValue: string, fileSize: FileSize) returns (ok: bool, start: int, end: int)
    ensures ok <==> RangeOf(rangeValue, fileSize).Some?
    ensures ok ==> RangeOf(rangeValue, fileSize) == Some((start, end))
  {
    ok, start, end := false, 0, 0;
    if !(PREFIX <= rangeValue) {
      return;
    }
    var rangeSpec := rangeValue[|PREFIX|..];
    var dash := IndexOf(rangeSpec, "-");
    if dash.None? {
      return;
    }
    var startStr := rangeSpec[..dash.value];
    var endStr := rangeSpec[dash.value + 1..];
    start := 0;
    end := fileSize - 1;
    if startStr != "" {
      start := AtoLl(startStr);
    }
    if endStr != "" {
      end := AtoLl(endStr);
    }
    ok, end := ClampEnd(start, end, fileSize);
  }

  /** The arithmetic of `parseRange`, one wrapping operation after the other. */
  method ClampEnd(start: int, asked: int, fileSize: FileSize) returns (ok: bool, end: int)
    ensures ok <==> Clamp(start, asked, fileSize).Some?
    ensures ok ==> Clamp(start, asked, fileSize) == Some((start, end))
  {
    ok, end := false, asked;
    if start >= fileSize {
      return;
    }
    if end >= fileSize {
      end := fileSize - 1;
    }
    WrapTwice(end - start, 1);
    WrapTwice(start + MAX_CHUNK, -1);
    if WrapOff(WrapOff(end - start) + 1) > MAX_CHUNK {
      end := WrapOff(WrapOff(start + MAX_CHUNK) - 1);
    }
    ok := start <= end;
  }

  /** Wrapping in between does not matter. */
  lemma WrapTwice(x: int, y: int)
    ensures WrapOff(WrapOff(x) + y) == WrapOff(x + y)
  {
    var k := (x + LLONG_MAX + 1) / TWO_64;
    assert WrapOff(x) == x - k * TWO_64;
    assert (x + y + LLONG_MAX + 1 - k * TWO_64) % TWO_64 == (x + y + LLONG_MAX + 1) % TWO_64;
  }

  lemma {:induction false} TrimLeftKeeps(s: string, c: char)
    requires forall k | 0 <= k < |s| :: s[k] != c
    ensures forall k | 0 <= k < |TrimLeft(s)| :: TrimLeft(s)[k] != c
  {
    if s != "" && IsSpace(s[0]) {
      TrimLeftKeeps(s[1..], c);
    }
  }

  /** The text before the first dash is never negative. */
  lemma BeforeDashNotNegative(spec: string, dash: nat)
    requires IndexOf(spec, "-") == Some(dash)
    ensures AtoLl(spec[..dash]) >= 0
  {
    FirstMatch(spec, "-", 0);
    forall k | 0 <= k < dash ensures spec[..dash][k] != '-' {
      assert !MatchesAt(spec, "-", k);
      assert spec[k..k + 1] == [spec[k]];
    }
    TrimLeftKeeps(spec[..dash], '-');
  }

  /** The end asked for is so far below the start that `end - start + 1` does not fit 64 bits. */
  predicate Overflows(start: int, asked: int) {
    asked - start + 1 < -LLONG_MAX - 1
  }

  /** What clamping accepts: a range that is not empty, or an overflow that looks like a long one. */
  lemma ClampAccepts(start: nat, asked: int, fileSize: FileSize)
    requires start <= LLONG_MAX && -LLONG_MAX - 1 <= asked <= LLONG_MAX
    ensures Clamp(start, asked, fileSize).Some? <==>
            start < fileSize
            && (start <= asked
              || (Overflows(start, asked) && asked - start + 1 + TWO_64 > MAX_CHUNK
              && start + MAX_CHUNK - 1 <= LLONG_MAX))
    ensures Clamp(start, asked, fileSize).Some? ==>
            var last := if asked < fileSize then asked else fileSize - 1;
            Clamp(start, asked, fileSize).value ==
            (start as int, if Overflows(start, asked) || start + MAX_CHUNK <= last then start + MAX_CHUNK - 1 else last)
  {
  }

  /**
   * Whatever the header says, an accepted range spans at most one chunk, and it lies inside the
   * file if and only if the difference did not overflow or a whole chunk fits behind the start.
   */
  lemma RangeInBoundsIff(value: string, fileSize: FileSize)
    requires RangeOf(value, fileSize).Some?
    ensures var spec := value[|PREFIX|..]; var dash := IndexOf(spec, "-").value;
            var r := RangeOf(value, fileSize).value;
            var start, asked := StartOf(spec[..dash]), EndOf(spec[dash + 1..], fileSize);
            r.0 == start && 0 <= r.0 <= r.1 && r.1 - r.0 + 1 <= MAX_CHUNK && r.0 < fileSize
            && (r.1 < fileSize <==> !Overflows(start, asked) || start + MAX_CHUNK <= fileSize)
  {
    var spec := value[|PREFIX|..];
    var dash := IndexOf(spec, "-").value;
    BeforeDashNotNegative(spec, dash);
    ClampAccepts(StartOf(spec[..dash]), EndOf(spec[dash + 1..], fileSize), fileSize);
  }

  /** The smallest 64-bit number behind a start of 2: accepted far outside a file of ten bytes. */
  lemma OverflowingRange()
    ensures RangeOf(PREFIX + "2--" + Digits(LLONG_MAX + 1, 10), 10) == Some((2, 32769))
  {
    var d := Digits(LLONG_MAX + 1, 10);
    RangeOfParts("2", "-" + d, 10);
    assert PREFIX + ("2" + "-" + ("-" + d)) == PREFIX + "2--" + d;
    TwoScanned();
    LowestScanned();
  }

  /** The header is cut at its first dash. */
  lemma RangeOfParts(startStr: string, endStr: string, fileSize: FileSize)
    requires '-' !in startStr
    ensures RangeOf(PREFIX + (startStr + "-" + endStr), fileSize) ==
            Clamp(StartOf(startStr), EndOf(endStr, fileSize), fileSize)
  {
    var spec := startStr + "-" + endStr;
    assert (PREFIX + spec)[|PREFIX|..] == spec;
    FirstAfter(startStr, "-", endStr);
  }

  lemma TwoScanned()
    ensures AtoLl("2") == 2
  {
    assert Digits(2, 10) == "2";
    PrintThenAtoLl(2, "");
    assert "2" + "" == "2";
  }

  lemma LowestScanned()
    ensures AtoLl("-" + Digits(LLONG_MAX + 1, 10)) == -LLONG_MAX - 1
  {
    var n := LLONG_MAX + 1;
    var d := Digits(n, 10);
    DigitsAreDigits(n, 10);
    assert TrimLeft("-" + d) == "-" + d && ("-" + d)[1..] == d && d + "" == d;
    DigitRunIs(d, "", 10);
    ValueOfDigits(n, 10);
  }

  // --------------------------------------------------------------- the slice

  function Least(a: nat, b: nat): nat {
    if a < b then a else b
  }

  /** The part of the file the stream can still deliver. */
  function Slice(contents: string, start: nat, end: nat): string
    requires start <= end
  {
    contents[Least(start, |contents|)..Least(end + 1, |contents|)]
  }

  /** The read loop of `buildRangeResponse`: blocks of at most 8192 bytes until the slice or the file ends. */
  method ReadSlice(contents: string, start: nat, end: nat) returns (body: string)
    requires start <= end
    ensures body == Slice(contents, start, end)
  {
    var diff := end - start + 1;
    var pos := start;
    var good := true;
    body := "";
    while diff > 0 && good
      invariant 0 <= diff <= end - start + 1
      invariant pos == start + |body|
      invariant body == contents[Least(start, |contents|)..Least(pos, |contents|)]
      invariant diff == end - start + 1 - |body|
      invariant !good ==> pos >= |contents|
      decreases diff, good
    {
      var toRead := Least(diff, RANGE_SIZE);
      var bytesRead := if pos >= |contents| then 0 else Least(toRead, |contents| - pos);
      if bytesRead < toRead {
        good := false;
      }
      if bytesRead == 0 {
        break;
      }
      body := body + contents[pos..pos + bytesRead];
      pos := pos + bytesRead;
      diff := diff - bytesRead;
    }
  }

  /** `buildRangeResponse` once the range was accepted; `fileSize` is what `stat` said. */
  function RangeReply(r: Reply, contents: string, fileSize: nat, start: nat, end: nat, contentType: string,
    date: string): Reply
    requires start <= end
  {
    var q := BuildResponse(r, HTTP_PARTIAL_CONTENT, Slice(contents, start, end), date);
    var range := "bytes " + Digits(start, 10) + "-" + Digits(end, 10) + "/" + Digits(fileSize, 10);
    AddHeader(AddHeader(AddHeader(q, "Content-Range", range), "Content-Type", contentType),
              CONTENT_LENGTH, Digits(end - start + 1, 10))
  }

  lemma DigitsInjective(a: nat, b: nat)
    requires Digits(a, 10) == Digits(b, 10)
    ensures a == b
  {
    ValueOfDigits(a, 10);
    ValueOfDigits(b, 10);
  }

  /** The length a range response announces is right if and only if the file still reaches the last byte. */
  lemma RangeLengthExact(r: Reply, contents: string, fileSize: nat, start: nat, end: nat, contentType: string,
    date: string)
    requires start <= end && F.Sound(r) && !r.isChunked
    ensures F.Framed(RangeReply(r, contents, fileSize, start, end, contentType, date)) <==> end < |contents|
  {
    var n := |Slice(contents, start, end)|;
    F.BuildResponseSound(r, HTTP_PARTIAL_CONTENT, Slice(contents, start, end), date);
    if Digits(end - start + 1, 10) == Digits(n, 10) {
      DigitsInjective(end - start + 1, n);
    }
    assert |"Content-Range"| == 13 && |"Content-Type"| == 12 && |CONTENT_LENGTH| == 14 && |TRANSFER_ENCODING| == 17;
  }

  // ------------------------------------------------------------------ tiling

  /** The header that asks for everything from byte `k`. */
  function FromByte(k: nat): string {
    PREFIX + Digits(k, 10) + "-"
  }

  lemma FromByteRange(k: nat, fileSize: FileSize)
    requires k <= LLONG_MAX
    ensures RangeOf(FromByte(k), fileSize) ==
            if k >= fileSize then None
            else Some((k as int, if fileSize - k > MAX_CHUNK then k + MAX_CHUNK - 1 else fileSize - 1))
  {
    var d := Digits(k, 10);
    DigitsAreDigits(k, 10);
    DigitsHaveNoDash(k);
    RangeOfParts(d, "", fileSize);
    assert d + "-" + "" == d + "-" && PREFIX + (d + "-") == FromByte(k);
    PrintThenAtoLl(k, "");
    assert d + "" == d;
  }

  lemma DigitsHaveNoDash(k: nat)
    ensures '-' !in Digits(k, 10)
  {
    DigitsAreDigits(k, 10);
  }

  /** What a client collects that asks for the rest from byte `k` until it is refused. */
  function Fetch(contents: string, k: nat): string
    requires |contents| <= LLONG_MAX && k <= |contents|
    decreases |contents| - k
  {
    match RangeOf(FromByte(k), |contents|)
    case None => ""
    case Some(r) =>
      if 0 <= r.0 <= r.1 < |contents| && k <= r.1
      then Slice(contents, r.0, r.1) + Fetch(contents, r.1 + 1) else ""
  }

  function Requests(contents: string, k: nat): nat
    requires |contents| <= LLONG_MAX && k <= |contents|
    decreases |contents| - k
  {
    match RangeOf(FromByte(k), |contents|)
    case None => 0
    case Some(r) => if 0 <= r.0 <= r.1 < |contents| && k <= r.1 then 1 + Requests(contents, r.1 + 1) else 0
  }

  /** The number of parts of at most one chunk, one part less. */
  lemma OnePartLess(n: nat)
    requires n > 0
    ensures var rest := if n > MAX_CHUNK then n - MAX_CHUNK else 0;
            (n + MAX_CHUNK - 1) / MAX_CHUNK == 1 + (rest + MAX_CHUNK - 1) / MAX_CHUNK
  {
  }

  lemma SliceThenRest(contents: string, k: nat, end: nat)
    requires k <= end < |contents|
    ensures Slice(contents, k, end) + contents[end + 1..] == contents[k..]
  {
  }

  /** One request of the client that asks for the rest. */
  lemma FetchOne(contents: string, k: nat)
    requires |contents| <= LLONG_MAX && k < |contents|
    ensures var end := if |contents| - k > MAX_CHUNK then k + MAX_CHUNK - 1 else |contents| - 1;
            Fetch(contents, k) == Slice(contents, k, end) + Fetch(contents, end + 1)
            && Requests(contents, k) == 1 + Requests(contents, end + 1)
  {
    FromByteRange(k, |contents|);
  }

  /** Repeated range requests give the file back exactly, in as many requests as it has chunks. */
  lemma {:induction false} RangesTile(contents: string, k: nat)
    requires |contents| <= LLONG_MAX && k <= |contents|
    ensures Fetch(contents, k) == contents[k..]
    ensures Requests(contents, k) == (|contents| - k + MAX_CHUNK - 1) / MAX_CHUNK
    decreases |contents| - k
  {
    if k < |contents| {
      var end := if |contents| - k > MAX_CHUNK then k + MAX_CHUNK - 1 else |contents| - 1;
      FetchOne(contents, k);
      RangesTile(contents, end + 1);
      SliceThenRest(contents, k, end);
      OnePartLess(|contents| - k);
    } else {
      FromByteRange(k, |contents|);
    }
  }
}
