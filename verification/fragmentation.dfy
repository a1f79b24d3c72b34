/** The parser's verdict does not depend on how `read` cuts the byte stream. */
module Fragmentation {
  import opened Wrappers
  import opened Text
  import opened Numerals
  import opened BodyStore
  import opened ParserModel

  /** More bytes behind the ones already buffered. */
  function Feed(p: Intake, b: string): Intake {
    p.(buffer := p.buffer + b)
  }

  /** A discard left over from an earlier request, with nothing left to throw away. */
  predicate StaleDiscard(p: Intake) {
    p.discarding && p.toDiscard == 0
  }

  predicate Sized(headers: map<string, string>) {
    !IsChunked(headers) && HasLength(headers)
  }

  /** The body parser once the announced length is known. */
  function AtLength(p: Intake): Intake
    requires HasLength(p.headers)
  {
    if p.length.known then p else StartLength(p, StrToUl(p.headers["Content-Length"], 10))
  }

  /** A leftover discard meets a body of announced length with at least two bytes to come. */
  predicate Hazard(p: Intake) {
    p.phase.Body? && Sized(p.headers) && (p.length.known || p.line.location.Some?)
    && StaleDiscard(AtLength(p)) && AtLength(p).length.read + 2 <= AtLength(p).length.length
  }

  /** What holds between two calls of the parser, from a reset request on. */
  predicate Inv(p: Intake) {
    && BodyInv(p)
    && (p.phase.Start? || p.phase.Header? ==> p.store == EMPTY_STORE)
    && (p.phase.Body? ==> Fits(p.store, MaxBuffer(p)))
    && !p.phase.Finished?
    && !Hazard(p)
  }

  /** The parser behind the blank line, if the buffer goes that far. */
  function Headed(p: Intake): Option<Intake> {
    match p.phase
    case Start =>
      (match AtStart(p)
       case Stop(_, _) => None
       case Next(q) => (match AtHeader(q) case Stop(_, _) => None case Next(r) => Some(r)))
    case Header => (match AtHeader(p) case Stop(_, _) => None case Next(r) => Some(r))
    case Body => Some(p)
    case Finished => None
  }

  /** The head in the buffer, if it is complete, announces no body that a leftover discard would hit. */
  predicate Clear(p: Intake) {
    Headed(p).Some? ==> !Hazard(Headed(p).value)
  }

  // ------------------------------------------------------------ chunked body

  lemma SliceFeed(buffer: string, b: string, n: nat)
    requires n <= |buffer|
    ensures (buffer + b)[..n] == buffer[..n] && (buffer + b)[n..] == buffer[n..] + b
  {
  }

  lemma TakeFeed(p: Intake, b: string, n: nat)
    requires n <= |p.buffer|
    ensures Take(Feed(p, b), n) == Feed(Take(p, n), b)
  {
    SliceFeed(p.buffer, b, n);
  }

  lemma AnnounceFeed(p: Intake, b: string, end: nat, size: nat)
    requires end + 2 <= |p.buffer|
    ensures Announce(Feed(p, b), end, size) ==
            match Announce(p, end, size)
            case Next(q) => Next(Feed(q, b))
            case Stop(q, v) => Stop(Feed(q, b), v)
  {
    SliceFeed(p.buffer, b, end + 2);
  }

  lemma StepSizeFeed(p: Intake, b: string)
    requires IndexOf(p.buffer, CRLF).Some?
    ensures StepSize(Feed(p, b)) ==
            match StepSize(p)
            case Next(q) => Next(Feed(q, b))
            case Stop(q, v) => Stop(Feed(q, b), v)
  {
    var end := IndexOf(p.buffer, CRLF).value;
    IndexOfAppend(p.buffer, b, CRLF, 0);
    SliceFeed(p.buffer, b, end);
    AnnounceFeed(p, b, end, StrToUl(p.buffer[..end], 16));
  }

  lemma StepDataFeed(p: Intake, b: string)
    requires p.chunk.read < p.chunk.size && StepData(p).Next?
    ensures StepData(Feed(p, b)) == Next(Feed(StepData(p).intake, b))
  {
    TakeFeed(p, b, p.chunk.size - p.chunk.read);
  }

  /** Taking a whole buffer and then `m` later bytes is taking them all at once. */
  lemma TakeSplit(p: Intake, b: string, m: nat)
    requires Fits(p.store, MaxBuffer(p)) && m <= |b|
    ensures Take(Feed(p, b), |p.buffer| + m) == Take(Feed(Take(p, |p.buffer|), b), m)
  {
    var n := |p.buffer|;
    assert p.buffer[..n] == p.buffer && p.buffer[n..] + b == b;
    assert (p.buffer + b)[..n + m] == p.buffer + b[..m];
    assert (p.buffer + b)[n + m..] == b[m..];
    AppendTwice(p.store, p.buffer, b[..m], MaxBuffer(p));
  }

  lemma StepDataTakes(p: Intake, n: nat)
    requires p.chunk.read < p.chunk.size && n == Min(p.chunk.size - p.chunk.read, |p.buffer|)
    ensures StepData(p) ==
            var q := Take(p, n);
            if p.chunk.read + n == p.chunk.size then Next(q.(chunk := ChunkParser(Crlf, p.chunk.size, p.chunk.size)))
            else Stop(q.(chunk := p.chunk.(read := p.chunk.read + n)), More)
  {
  }

  /** A chunk cut in the middle: its two halves are appended one after the other. */
  lemma StepDataSplit(p: Intake, b: string)
    requires p.chunk.read + |p.buffer| < p.chunk.size && Fits(p.store, MaxBuffer(p)) && b != ""
    ensures StepData(Feed(p, b)) == StepData(Feed(StepData(p).intake, b))
  {
    var n := |p.buffer|;
    StepDataTakes(p, n);
    var q := Feed(Take(p, n).(chunk := p.chunk.(read := p.chunk.read + n)), b);
    assert |q.buffer| == |b|;
    var m := Min(p.chunk.size - p.chunk.read - n, |b|);
    TakeSplit(p, b, m);
    TakeChunk(Feed(Take(p, n), b), q.chunk, m);
    StepDataTakes(Feed(p, b), n + m);
    StepDataTakes(q, m);
  }

  /** Moving body bytes does not look at the chunk counters. */
  lemma TakeChunk(p: Intake, c: ChunkParser, n: nat)
    requires n <= |p.buffer|
    ensures Take(p.(chunk := c), n) == Take(p, n).(chunk := c)
  {
  }

  lemma TakeFits(p: Intake, n: nat)
    requires n <= |p.buffer| && Fits(p.store, MaxBuffer(p))
    ensures Fits(Take(p, n).store, MaxBuffer(p))
  {
  }

  lemma ChunkStepKeeps(p: Intake)
    requires ChunkInv(p.chunk) && Fits(p.store, MaxBuffer(p))
    ensures var s := ChunkStep(p);
            s.intake == p.(store := s.intake.store, chunk := s.intake.chunk, buffer := s.intake.buffer,
                           discarding := s.intake.discarding, state := s.intake.state)
            && Fits(s.intake.store, MaxBuffer(s.intake))
            && (s.Next? || !s.verdict.Done? ==> s.intake.state == p.state)
  {
    match p.chunk.state
    case Data => TakeFits(p, Min(p.chunk.size - p.chunk.read, |p.buffer|));
    case Size =>
      if IndexOf(p.buffer, CRLF).Some? {
        var end := IndexOf(p.buffer, CRLF).value;
        var s := Announce(p, end, StrToUl(p.buffer[..end], 16));
        assert s.intake.line == p.line && s.intake.config == p.config && s.intake.store == p.store;
      }
    case Crlf =>
    case Last =>
  }

  lemma ChunkStepFeed(p: Intake, b: string)
    requires ChunkInv(p.chunk) && !p.chunk.state.Data? && ChunkStep(p) != Stop(p, More)
    ensures ChunkStep(Feed(p, b)) ==
            match ChunkStep(p)
            case Next(q) => Next(Feed(q, b))
            case Stop(q, v) => Stop(Feed(q, b), v)
  {
    match p.chunk.state
    case Size => StepSizeFeed(p, b);
    case Crlf => SliceFeed(p.buffer, b, 2);
    case Last => SliceFeed(p.buffer, b, 2);
  }

  /** Later bytes only continue an unfinished parse and stay untouched behind a finished one. */
  lemma {:induction false} ChunksFeed(p: Intake, b: string)
    requires ChunkInv(p.chunk) && Fits(p.store, MaxBuffer(p)) && b != ""
    ensures var r := ParseChunks(p);
            ParseChunks(Feed(p, b)) ==
            if r.verdict.More? then ParseChunks(Feed(r.intake, b)) else Parsed(Feed(r.intake, b), r.verdict)
    decreases |p.buffer|
  {
    if p.buffer != "" {
      ChunksFeedStep(p, b);
      if ChunkStep(p).Next? {
        ChunkStepKeeps(p);
        ChunksFeed(ChunkStep(p).intake, b);
      }
    }
  }

  lemma ChunksFeedStep(p: Intake, b: string)
    requires ChunkInv(p.chunk) && Fits(p.store, MaxBuffer(p)) && p.buffer != "" && b != ""
    ensures match ChunkStep(p)
            case Next(q) => ChunkStep(Feed(p, b)) == Next(Feed(q, b))
            case Stop(q, v) =>
              if v.More? then ChunkStep(Feed(p, b)) == ChunkStep(Feed(q, b)) && Feed(q, b).buffer != ""
              else ChunkStep(Feed(p, b)) == Stop(Feed(q, b), v)
  {
    if p.chunk.state.Data? {
      if StepData(p).Stop? {
        StepDataSplit(p, b);
        assert Feed(StepData(p).intake, b).buffer == b;
      } else {
        StepDataFeed(p, b);
      }
    } else if ChunkStep(p) != Stop(p, More) {
      ChunkStepFeed(p, b);
    }
  }

  // ----------------------------------------------------- Content-Length body

  /** A body that ends beyond the buffer: the buffer is used up and the discard counter stays. */
  lemma ReadLengthPartial(p: Intake)
    requires p.length.read + |p.buffer| < p.length.length && p.buffer != ""
    requires p.discarding ==> p.toDiscard > 0
    ensures var q := TakeOfLength(p, |p.buffer|);
            q.buffer == "" && ReadLength(p) == Parsed(if p.discarding then q.(state := ParseTooLarge) else q, More)
  {
    assert p.buffer[|p.buffer|..] == "";
  }

  lemma TakeOfLengthSplit(p: Intake, b: string, m: nat)
    requires Fits(p.store, MaxBuffer(p)) && m <= |b|
    ensures TakeOfLength(Feed(p, b), |p.buffer| + m) == TakeOfLength(Feed(TakeOfLength(p, |p.buffer|), b), m)
  {
    TakeSplit(p, b, m);
    TakeLength(Feed(Take(p, |p.buffer|), b), p.length.(read := p.length.read + |p.buffer|), m);
  }

  /** Moving body bytes does not look at the length counters. */
  lemma TakeLength(p: Intake, l: LengthParser, m: nat)
    requires m <= |p.buffer|
    ensures Take(p.(length := l), m) == Take(p, m).(length := l)
  {
  }

  lemma ReadLengthTakes(p: Intake, n: nat)
    requires p.length.read <= p.length.length && n == Min(|p.buffer|, p.length.length - p.length.read)
    requires n > 0 || p.length.length == 0
    ensures ReadLength(p) == LengthVerdict(TakeOfLength(p, n))
  {
  }

  lemma ReadLengthResume(p: Intake, b: string)
    requires p.length.read + |p.buffer| < p.length.length && Fits(p.store, MaxBuffer(p)) && b != ""
    ensures ReadLength(Feed(p, b)) == ReadLength(Feed(TakeOfLength(p, |p.buffer|), b))
  {
    var q := Feed(TakeOfLength(p, |p.buffer|), b);
    assert |q.buffer| == |b|;
    var m := Min(|b|, q.length.length - q.length.read);
    ReadLengthTakes(Feed(p, b), |p.buffer| + m);
    ReadLengthTakes(q, m);
    TakeOfLengthSplit(p, b, m);
  }

  /** What is left when the bytes behind an oversized Content-Length body are not looked at. */
  function Tailless(p: Intake): Intake {
    p.(buffer := "", toDiscard := 0, discarding := false)
  }

  lemma DiscardBodyOverrun(p: Intake, b: string)
    ensures Tailless(DiscardBody(Feed(p, b)).(state := ParseTooLarge)) ==
      Tailless(DiscardBody(p).(state := ParseTooLarge))
  {
  }

  lemma ReadLengthOverrun(p: Intake, b: string)
    requires p.length.read <= p.length.length && ReadLength(p).verdict.Done?
    ensures ReadLength(Feed(p, b)).verdict.Done?
    ensures !p.discarding ==> ReadLength(Feed(p, b)).intake == Feed(ReadLength(p).intake, b)
    ensures p.discarding ==>
      ReadLength(p).intake.state.ParseTooLarge? && ReadLength(Feed(p, b)).intake.state.ParseTooLarge?
      && Tailless(ReadLength(Feed(p, b)).intake) == Tailless(ReadLength(p).intake)
  {
    var n := BodyIsThere(p);
    BodyEnds(p, n);
    BodyEnds(Feed(p, b), n);
    TakeOfLengthFeed(p, b, n);
    VerdictOverrun(TakeOfLength(p, n), b);
  }

  /** A body that completes is in the buffer. */
  lemma BodyIsThere(p: Intake) returns (n: nat)
    requires p.length.read <= p.length.length && ReadLength(p).verdict.Done?
    ensures n == p.length.length - p.length.read <= |p.buffer| && (n > 0 || p.length.length == 0)
  {
    n := p.length.length - p.length.read;
  }

  lemma BodyEnds(p: Intake, n: nat)
    requires n == p.length.length - p.length.read <= |p.buffer| && (n > 0 || p.length.length == 0)
    ensures ReadLength(p) == LengthVerdict(TakeOfLength(p, n)) && TakeOfLength(p, n).length.read == p.length.length
    ensures ReadLength(p).verdict.Done?
  {
    ReadLengthTakes(p, n);
  }

  lemma TakeOfLengthFeed(p: Intake, b: string, n: nat)
    requires n <= |p.buffer|
    ensures TakeOfLength(Feed(p, b), n) == Feed(TakeOfLength(p, n), b)
  {
    TakeFeed(p, b, n);
  }

  lemma VerdictOverrun(q: Intake, b: string)
    ensures !q.discarding ==> LengthVerdict(Feed(q, b)).intake == Feed(LengthVerdict(q).intake, b)
    ensures q.discarding ==>
      LengthVerdict(q).intake.state.ParseTooLarge? && LengthVerdict(Feed(q, b)).intake.state.ParseTooLarge?
      && Tailless(LengthVerdict(Feed(q, b)).intake) == Tailless(LengthVerdict(q).intake)
  {
    DiscardBodyOverrun(q, b);
  }

  /** `ParseBody` on a body of known or just announced length. */
  predicate LengthReady(p: Intake) {
    p.length.known && p.length.read <= p.length.length && Fits(p.store, MaxBuffer(p))
    && (StaleDiscard(p) ==> p.length.length <= p.length.read + 1)
  }

  /** The three things later bytes can do to a body parser that was given some already. */
  ghost predicate Fed(p: Intake, b: string, r: Parsed, whole: Parsed, resumed: Parsed) {
    match r.verdict
    case More => whole == resumed
    case NullLocation => whole == Parsed(Feed(r.intake, b), NullLocation)
    case Done =>
      if r.intake.state.ParseTooLarge? && !IsChunked(p.headers)
      then whole.verdict.Done? && whole.intake.state.ParseTooLarge? && Tailless(whole.intake) == Tailless(r.intake)
      else whole == Parsed(Feed(r.intake, b), Done)
  }

  lemma ReadLengthFed(p: Intake, b: string)
    requires LengthReady(p) && b != "" && p.state == ReadSuccess && !IsChunked(p.headers)
    ensures var r := ReadLength(p);
            (r.verdict.More? ==>
              LengthReady(r.intake)
              && r.intake.(state := p.state, length := p.length, store := p.store, buffer := p.buffer) == p)
            && (r.verdict.Done? || r.verdict.More?)
            && (r.verdict.Done? ==> Fed(p, b, r, ReadLength(Feed(p, b)), r))
            && (r.verdict.More? ==> ReadLength(Feed(p, b)) == ReadLength(Feed(r.intake.(state := p.state), b)))
  {
    var r := ReadLength(p);
    if r.verdict.Done? {
      ReadLengthOverrun(p, b);
    } else if p.buffer != "" && p.length.read < p.length.length {
      TakeFits(p, |p.buffer|);
      ReadLengthPartial(p);
      ReadLengthResume(p, b);
      assert TakeOfLength(p, |p.buffer|).state == p.state;
      assert r.intake.(state := p.state) == TakeOfLength(p, |p.buffer|);
    }
  }

  // ---------------------------------------------------------- whole requests

  // -------------------------------------------------- request line and headers

  lemma AtHeaderFeed(p: Intake, b: string)
    requires AtHeader(p).Next?
    ensures AtHeader(Feed(p, b)) == Next(Feed(AtHeader(p).intake, b))
  {
    var end := IndexOf(p.buffer, CRLF2).value;
    IndexOfAppend(p.buffer, b, CRLF2, 0);
    SliceFeed(p.buffer, b, end + 2);
    SliceFeed(p.buffer, b, end + 4);
  }

  lemma AtStartFeed(p: Intake, b: string)
    requires AtStart(p).Next?
    ensures AtStart(Feed(p, b)) == Next(Feed(AtStart(p).intake, b))
  {
    var end := IndexOf(p.buffer, CRLF).value;
    IndexOfAppend(p.buffer, b, CRLF, 0);
    SliceFeed(p.buffer, b, end);
    SliceFeed(p.buffer, b, end + 2);
  }

  // ---------------------------------------------------------- whole requests

  /** The chunk loop touches the body, the chunk counters, the buffer and the discard flag only. */
  lemma {:induction false} ChunksKeep(p: Intake)
    requires ChunkInv(p.chunk) && Fits(p.store, MaxBuffer(p))
    ensures var r := ParseChunks(p);
            r.intake == p.(store := r.intake.store, chunk := r.intake.chunk, buffer := r.intake.buffer,
                           discarding := r.intake.discarding, state := r.intake.state)
            && Fits(r.intake.store, MaxBuffer(r.intake))
            && (!r.verdict.Done? ==> r.intake.state == p.state)
    decreases |p.buffer|
  {
    if p.buffer != "" {
      ChunkStepKeeps(p);
      if ChunkStep(p).Next? {
        ChunksKeep(ChunkStep(p).intake);
      }
    }
  }

  lemma LengthFed(p: Intake, b: string)
    requires Inv(p) && p.phase.Body? && b != "" && p.state == ReadSuccess && !IsChunked(p.headers)
      && HasLength(p.headers)
    ensures var r := ParseLength(p);
            (r.verdict.More? ==> LengthReady(r.intake) && r.intake.phase.Body? && r.intake.config == p.config
                                 && ParseLength(Feed(p, b)) == ReadLength(Feed(r.intake.(state := ReadSuccess), b)))
            && Fed(p, b, r, ParseLength(Feed(p, b)), ParseLength(Feed(p, b)))
            && r.intake.headers == p.headers
  {
    if p.length.known {
      ReadLengthFed(p, b);
    } else {
      var q := StartLength(p, StrToUl(p.headers["Content-Length"], 10));
      assert Feed(q, b) == StartLength(Feed(p, b), StrToUl(p.headers["Content-Length"], 10));
      if p.line.location.Some? {
        ReadLengthFed(q, b);
      }
    }
  }

  lemma ChunkedFed(p: Intake, b: string)
    requires Inv(p) && p.phase.Body? && b != "" && IsChunked(p.headers)
    ensures var r := ParseChunks(p);
            (r.verdict.More? ==>
              Inv(r.intake) && r.intake.phase.Body? && r.intake.config == p.config && r.intake.state == p.state
                                 && ParseChunks(Feed(p, b)) == ParseChunks(Feed(r.intake, b)))
            && Fed(p, b, r, ParseChunks(Feed(p, b)), ParseChunks(Feed(p, b)))
            && r.intake.headers == p.headers
  {
    ChunksKeep(p);
    ChunksFeed(p, b);
    ChunkedIsFed(p, b, ParseChunks(p), ParseChunks(Feed(p, b)));
  }

  lemma ChunkedIsFed(p: Intake, b: string, r: Parsed, whole: Parsed)
    requires IsChunked(p.headers) && (!r.verdict.More? ==> whole == Parsed(Feed(r.intake, b), r.verdict))
    ensures Fed(p, b, r, whole, whole)
  {
  }

  lemma BodyFed(p: Intake, b: string)
    requires Inv(p) && p.phase.Body? && b != "" && p.state == ReadSuccess
    ensures var r := ParseBody(p);
            (r.verdict.More? ==>
              Inv(r.intake.(state := ReadSuccess)) && r.intake.phase.Body? && r.intake.config == p.config
                                 && ParseBody(Feed(p, b)) == ParseBody(Feed(r.intake.(state := ReadSuccess), b)))
            && Fed(p, b, r, ParseBody(Feed(p, b)), ParseBody(Feed(p, b)))
            && r.intake.headers == p.headers
  {
    if IsChunked(p.headers) {
      ChunkedFed(p, b);
      var r := ParseChunks(p);
      if r.verdict.More? {
        assert r.intake.(state := ReadSuccess) == r.intake;
      }
    } else if HasLength(p.headers) {
      LengthFed(p, b);
    }
  }

  /** The outcome of a body refused by its Content-Length. */
  predicate LengthRefused(r: Parsed) {
    r.verdict.Done? && r.intake.state.ParseTooLarge? && !IsChunked(r.intake.headers)
  }

  /** An outcome without the bytes that follow a body refused by its Content-Length. */
  function Observed(r: Parsed): Parsed {
    if LengthRefused(r) then Parsed(Tailless(r.intake), Done) else r
  }

  /** What a call of the parser turns into when `b` follows the bytes it was given. */
  ghost predicate Continues(r: Parsed, b: string, whole: Parsed)
    requires r.verdict.More? ==> Inv(r.intake)
  {
    if r.verdict.More? then whole == Parse(Receive(r.intake, b))
    else Observed(whole) == Observed(Parsed(Feed(r.intake, b), r.verdict))
  }

  lemma AtBodyFed(p: Intake, b: string)
    requires Inv(p) && p.phase.Body? && b != "" && p.state == ReadSuccess
    ensures var r := AtBody(p);
            (r.verdict.More? ==> Inv(r.intake) && r.intake.config == p.config) && Continues(r, b, AtBody(Feed(p, b)))
  {
    BodyFed(p, b);
    var r := ParseBody(p);
    if r.verdict.More? {
      var next := r.intake.(state := ParseIncomplete);
      assert Receive(next, b) == Feed(r.intake.(state := ReadSuccess), b);
    }
  }

  lemma FromHeaderFed(p: Intake, b: string)
    requires Inv(p) && p.phase.Header? && b != "" && p.state == ReadSuccess && Clear(p)
    ensures var r := FromHeader(p);
            (r.verdict.More? ==> Inv(r.intake) && r.intake.config == p.config)
              && Continues(r, b, FromHeader(Feed(p, b)))
  {
    if AtHeader(p).Next? {
      AtHeaderFeed(p, b);
      AtBodyFed(AtHeader(p).intake, b);
    } else {
      assert Receive(AtHeader(p).intake, b) == Feed(p, b);
    }
  }

  lemma ParseFed(p: Intake, b: string)
    requires Inv(p) && b != "" && p.state == ReadSuccess && Clear(p)
    ensures var r := Parse(p);
            (r.verdict.More? ==> Inv(r.intake) && r.intake.config == p.config) && Continues(r, b, Parse(Feed(p, b)))
  {
    match p.phase
    case Start =>
      if AtStart(p).Next? {
        AtStartFeed(p, b);
        FromHeaderFed(AtStart(p).intake, b);
      } else {
        assert Receive(AtStart(p).intake, b) == Feed(p, b);
      }
    case Header => FromHeaderFed(p, b);
    case Body => AtBodyFed(p, b);
  }

  /**
   * Fragmentation independence: when `a` does not complete the request, parsing `a` and then
   * `b` is parsing `a + b` in one call, in every field; when it does, `b` is left unread.
   */
  lemma FragmentationIndependence(p: Intake, a: string, b: string)
    requires Inv(p) && b != "" && Clear(Receive(p, a))
    ensures var r := Parse(Receive(p, a));
            (r.verdict.More? ==> Inv(r.intake) && r.intake.config == p.config)
              && Continues(r, b, Parse(Receive(p, a + b)))
  {
    assert Receive(p, a + b) == Feed(Receive(p, a), b) by {
      assert p.buffer + (a + b) == p.buffer + a + b;
    }
    ParseFed(Receive(p, a), b);
  }

  // ---------------------------------------------------------- leftover discards

  /** Without a discard under way every head is clear. */
  lemma NotDiscardingIsClear(p: Intake)
    requires !p.discarding
    ensures Clear(p)
  {
    if Headed(p).Some? {
      assert !Headed(p).value.discarding;
    }
  }

  /** Later bytes do not change a head. */
  lemma HeadedFeed(p: Intake, b: string)
    requires Headed(p).Some?
    ensures Headed(Feed(p, b)) == Some(Feed(Headed(p).value, b))
  {
    match p.phase
    case Start =>
      AtStartFeed(p, b);
      AtHeaderFeed(AtStart(p).intake, b);
    case Header => AtHeaderFeed(p, b);
    case Body =>
  }

  lemma HazardFeed(p: Intake, b: string)
    ensures Hazard(Feed(p, b)) == Hazard(p)
  {
  }

  lemma ClearBefore(p: Intake, b: string)
    requires Clear(Feed(p, b))
    ensures Clear(p)
  {
    if Headed(p).Some? {
      HeadedFeed(p, b);
      HazardFeed(Headed(p).value, b);
    }
  }

  /** What is left to parse after an incomplete read is as clear as it was. */
  lemma ClearAfter(p: Intake, b: string)
    requires Inv(p) && p.state == ReadSuccess && Clear(Feed(p, b)) && Clear(p)
    requires var r := Parse(p); r.verdict.More? && Inv(r.intake)
    ensures Clear(Receive(Parse(p).intake, b))
  {
    var r := Parse(p);
    if r.intake.phase.Body? {
      HazardFeed(r.intake.(state := ReadSuccess), b);
    } else {
      HeadlessParse(p);
      HeadlessFeed(p, b);
    }
  }

  lemma HeadlessParse(p: Intake)
    requires BodyInv(p) && Parse(p).verdict.More? && !Parse(p).intake.phase.Body? && !p.phase.Finished?
    ensures Headed(p).None?
    ensures Parse(p).intake ==
      (if p.phase.Start? && AtStart(p).Next? then AtStart(p).intake else p).(state := ParseIncomplete)
  {
    if Headed(p).Some? {
      ParsePhase(p);
    }
  }

  /** Behind the blank line an incomplete request stays in its body. */
  lemma ParsePhase(p: Intake)
    requires BodyInv(p) && Headed(p).Some?
    ensures Parse(p).verdict.More? ==> Parse(p).intake.phase.Body?
  {
    ParseIsAtBody(p);
    BodyPhase(Headed(p).value);
  }

  lemma ParseIsAtBody(p: Intake)
    requires BodyInv(p) && Headed(p).Some?
    ensures BodyInv(Headed(p).value) && Headed(p).value.phase.Body? && Parse(p) == AtBody(Headed(p).value)
  {
  }

  lemma BodyPhase(p: Intake)
    requires BodyInv(p) && p.phase.Body?
    ensures AtBody(p).verdict.More? ==> AtBody(p).intake.phase.Body?
  {
    if IsChunked(p.headers) {
      ChunksKeepPhase(p);
    } else if HasLength(p.headers) {
      LengthPhase(AtLength(p));
    }
  }

  lemma LengthPhase(p: Intake)
    requires p.length.read <= p.length.length
    ensures ReadLength(p).intake.phase == p.phase
  {
  }

  lemma {:induction false} ChunksKeepPhase(p: Intake)
    requires ChunkInv(p.chunk)
    ensures ParseChunks(p).intake.phase == p.phase
    decreases |p.buffer|
  {
    if p.buffer != "" && ChunkStep(p).Next? {
      ChunksKeepPhase(ChunkStep(p).intake);
    }
  }

  /** The request line is found again, or was taken, when more bytes come. */
  lemma HeadlessFeed(p: Intake, b: string)
    requires Headed(p).None? && !p.phase.Finished? && p.state == ReadSuccess
    ensures var q := if p.phase.Start? && AtStart(p).Next? then AtStart(p).intake else p;
            Headed(Receive(q.(state := ParseIncomplete), b)) == Headed(Feed(p, b))
  {
    if p.phase.Start? && AtStart(p).Next? {
      AtStartFeed(p, b);
      assert Receive(AtStart(p).intake.(state := ParseIncomplete), b) == Feed(AtStart(p).intake, b);
    } else {
      assert Receive(p.(state := ParseIncomplete), b) == Feed(p, b);
    }
  }

  // -------------------------------------------------------------- many reads

  /** One call of the parser for every `read`, until the request is complete. */
  function ParseReads(p: Intake, pieces: seq<string>): Parsed
    requires Inv(p) && Clear(Receive(p, Concat(pieces)))
    decreases |pieces|
  {
    if pieces == [] then Parsed(p, More)
    else
      FirstRead(p, pieces);
      var r := Parse(Receive(p, pieces[0]));
      if r.verdict.More? then ParseReads(r.intake, pieces[1..])
      else Parsed(Feed(r.intake, Concat(pieces[1..])), r.verdict)
  }

  lemma FirstRead(p: Intake, pieces: seq<string>)
    requires Inv(p) && pieces != [] && Clear(Receive(p, Concat(pieces)))
    ensures Clear(Receive(p, pieces[0]))
    ensures var r := Parse(Receive(p, pieces[0]));
            r.verdict.More? ==> Inv(r.intake) && Clear(Receive(r.intake, Concat(pieces[1..])))
  {
    var first := Receive(p, pieces[0]);
    var rest := Concat(pieces[1..]);
    assert Receive(p, Concat(pieces)) == Feed(first, rest) by {
      assert p.buffer + (pieces[0] + rest) == p.buffer + pieces[0] + rest;
    }
    ClearBefore(first, rest);
    FragmentationIndependence(p, pieces[0], "x");
    if Parse(first).verdict.More? {
      assert Inv(first) by { HazardFeed(p.(state := ReadSuccess), pieces[0]); }
      ClearAfter(first, rest);
    }
  }

  /** However the bytes of a request are cut into reads, the outcome is that of a single read. */
  lemma {:induction false} AnyFragmentation(p: Intake, pieces: seq<string>)
    requires Inv(p) && pieces != [] && forall i | 0 <= i < |pieces| :: pieces[i] != ""
    requires Clear(Receive(p, Concat(pieces)))
    ensures Observed(ParseReads(p, pieces)) == Observed(Parse(Receive(p, Concat(pieces))))
    decreases |pieces|
  {
    FirstRead(p, pieces);
    var r := Parse(Receive(p, pieces[0]));
    if |pieces| == 1 {
      assert pieces[0] + "" == pieces[0] && Concat(pieces[1..]) == "";
      assert Feed(r.intake, "") == r.intake;
      FragmentationIndependence(p, pieces[0], "x");
    } else {
      var rest := Concat(pieces[1..]);
      assert rest == pieces[1] + Concat(pieces[2..]) by { assert pieces[1..][1..] == pieces[2..]; }
      FragmentationIndependence(p, pieces[0], rest);
      if r.verdict.More? {
        AnyFragmentation(r.intake, pieces[1..]);
      }
    }
  }
}
