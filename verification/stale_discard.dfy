/**
 * The one case in which fragmentation shows: a discard flag left over from an earlier
 * request, with no bytes left to discard, meets a Content-Length body of two bytes or more.
 */
module StaleDiscardCase {
  import opened BodyStore
  import opened Numerals
  import opened ParserModel
  import opened Fragmentation
  import opened ChunkCodec

  /** `a` then `b` is `a + b`, for these two pieces. */
  ghost predicate IndependentAt(p: Intake, a: string, b: string)
    requires BodyInv(p)
  {
    var r := Parse(Receive(p, a));
    r.verdict.More? ==> BodyInv(r.intake) && Parse(Receive(p, a + b)) == Parse(Receive(r.intake, b))
  }

  /**
   * A chunked body over the limit, on a connection that discards nothing: it is refused, and
   * when the client is reset for its next request the discard is left over.
   */
  lemma StaleDiscardReached(p: Intake, chunks: seq<Chunk>, line: string, eol: string, rest: string)
    requires BeforeChunks(p) && p.state.ReadSuccess? && p.toDiscard == 0 && GoodChunks(chunks) && GoodLast(line, eol)
    requires p.buffer == Wire(chunks) + LastWire(line, eol) + rest
    requires p.line.location.value.maxBody < |Payload(chunks)| < TWO_64
    ensures var r := Parse(p); var q := ResetRequest(r.intake);
            r.verdict.Done? && r.intake.state.ParseTooLarge?
            && q.phase.Start? && q.buffer == rest && StaleDiscard(q) && Inv(q)
  {
    ChunksKept(p, chunks, line, eol, rest);
    ParseOfChunks(p);
    ChunksKeep(p);
  }

  /** A leftover discard hits exactly the requests with a Content-Length of at least two that is within the limit. */
  lemma HazardIff(p: Intake)
    requires StaleDiscard(p) && p.length == FRESH_LENGTH && (p.phase.Start? || p.phase.Header?) && Headed(p).Some?
    ensures var q := Headed(p).value;
            Hazard(q) <==> Sized(q.headers) && q.line.location.Some?
                           && 2 <= StrToUl(q.headers["Content-Length"], 10) <= q.line.location.value.maxBody
  {
  }

  /** In the middle of a Content-Length body, with at least two bytes to come. */
  predicate MidLengthBody(p: Intake) {
    && p.phase.Body? && BodyInv(p) && Fits(p.store, MaxBuffer(p)) && p.buffer == ""
    && !IsChunked(p.headers) && HasLength(p.headers)
    && p.length.known && p.length.read + 2 <= p.length.length
  }

  /** The first piece ends the discard; the rest of the body is then stored as if it were welcome. */
  lemma StaleDiscardShows(p: Intake)
    requires MidLengthBody(p) && StaleDiscard(p)
    ensures exists a: string, b: string :: a != "" && b != "" && !IndependentAt(p, a, b)
  {
    var left := p.length.length - p.length.read;
    var a := "x";
    var b := seq(left - 1, i => 'x');
    var first := Receive(p, a);
    assert first.buffer == "x" && |first.buffer| == 1;
    FirstPiece(first);
    var r := Parse(first);
    var second := Receive(r.intake, b);
    assert |second.buffer| == left - 1;
    LastPiece(second);
    var whole := Receive(p, a + b);
    assert |whole.buffer| == left;
    LastPiece(whole);
    assert !IndependentAt(p, a, b);
  }

  lemma FirstPiece(p: Intake)
    requires p.phase.Body? && BodyInv(p) && !IsChunked(p.headers) && HasLength(p.headers) && p.length.known
    requires StaleDiscard(p) && p.buffer != "" && p.length.read + |p.buffer| < p.length.length
    ensures var r := Parse(p);
            r == Parsed(TakeOfLength(p, |p.buffer|).(discarding := false, buffer := "", state := ParseIncomplete), More)
  {
    var q := TakeOfLength(p, |p.buffer|);
    assert q.buffer == "" by { assert p.buffer[|p.buffer|..] == ""; }
    ReadLengthTakes(p, |p.buffer|);
    assert DiscardBody(q) == q.(discarding := false, state := ParseTooLarge) by { assert q.buffer[0..] == q.buffer; }
  }

  lemma LastPiece(p: Intake)
    requires p.phase.Body? && BodyInv(p) && !IsChunked(p.headers) && HasLength(p.headers) && p.length.known
    requires p.state.ReadSuccess? && p.buffer != "" && p.length.read + |p.buffer| == p.length.length
    ensures Parse(p).verdict.Done?
    ensures Parse(p).intake.state == if p.discarding then ParseTooLarge else ParseOk
  {
    ReadLengthTakes(p, |p.buffer|);
  }

  /** Fragmentation independence holds inside a Content-Length body if and only if no stale discard is pending. */
  lemma IndependentIffNoStaleDiscard(p: Intake)
    requires MidLengthBody(p)
    ensures (forall a: string, b: string | b != "" :: IndependentAt(p, a, b)) <==> !StaleDiscard(p)
  {
    if StaleDiscard(p) {
      StaleDiscardShows(p);
    } else {
      forall a: string, b: string | b != "" ensures IndependentAt(p, a, b) {
        FragmentationIndependence(p, a, b);
      }
    }
  }

  /** The body parser right behind the head: nothing to read yet, and the discard is still pending. */
  lemma HazardAhead(q: Intake)
    requires Hazard(q) && BodyInv(q) && q.buffer == "" && q.store == EMPTY_STORE
    ensures var r := AtBody(q); r.verdict.More? && MidLengthBody(r.intake) && StaleDiscard(r.intake)
  {
  }

  /** Three cuts that agree pairwise behind the head leave no difference behind it. */
  lemma CutsAgree(p: Intake, h: string, a: string, b: string, r: Parsed)
    requires BodyInv(p) && r == Parse(Receive(p, h)) && r.verdict.More? && BodyInv(r.intake)
    requires IndependentAt(p, h, a) && IndependentAt(p, h, a + b) && IndependentAt(p, h + a, b)
    ensures IndependentAt(r.intake, a, b)
  {
    assert h + (a + b) == h + a + b;
  }

  /** A hazard behind the head shows in a cut of the whole request. */
  lemma HazardShows(p: Intake, h: string)
    requires Inv(p) && Headed(Receive(p, h)).Some? && Headed(Receive(p, h)).value.buffer == ""
    requires Headed(Receive(p, h)).value.store == EMPTY_STORE && Hazard(Headed(Receive(p, h)).value)
    ensures exists a: string, b: string :: b != "" && h <= a + b && !IndependentAt(p, a, b)
  {
    ParseIsAtBody(Receive(p, h));
    HazardAhead(Headed(Receive(p, h)).value);
    var r := Parse(Receive(p, h));
    StaleDiscardShows(r.intake);
    var a: string, b: string :| a != "" && b != "" && !IndependentAt(r.intake, a, b);
    var x, y := OneCutDiffers(p, h, a, b, r);
  }

  lemma Prefixes(h: string, a: string, b: string)
    ensures h <= h + a && h <= h + (a + b) && h <= h + a + b
  {
  }

  lemma OneCutDiffers(p: Intake, h: string, a: string, b: string, r: Parsed) returns (x: string, y: string)
    requires BodyInv(p) && r == Parse(Receive(p, h)) && r.verdict.More? && BodyInv(r.intake)
    requires a != "" && b != "" && !IndependentAt(r.intake, a, b)
    ensures y != "" && h <= x + y && !IndependentAt(p, x, y)
  {
    Prefixes(h, a, b);
    if !IndependentAt(p, h, a) {
      x, y := h, a;
    } else if !IndependentAt(p, h, a + b) {
      x, y := h, a + b;
    } else {
      x, y := h + a, b;
      if IndependentAt(p, h + a, b) {
        CutsAgree(p, h, a, b, r);
      }
    }
  }

  /**
   * Seen from the start of a request: once its head is `h`, cuts do not matter if and only if
   * no leftover discard meets a body of announced length with two bytes or more.
   */
  lemma IndependentIffNoHazard(p: Intake, h: string)
    requires Inv(p) && (p.phase.Start? || p.phase.Header?)
    requires Headed(Receive(p, h)).Some? && Headed(Receive(p, h)).value.buffer == ""
    ensures (forall a: string, b: string | b != "" && h <= a + b :: IndependentAt(p, a, b))
            <==> !Hazard(Headed(Receive(p, h)).value)
  {
    var q := Headed(Receive(p, h)).value;
    HeadKeepsStore(Receive(p, h));
    if Hazard(q) {
      HazardShows(p, h);
    } else {
      forall a: string, b: string | b != "" && h <= a + b ensures IndependentAt(p, a, b) {
        CutIsIndependent(p, h, a, b);
      }
    }
  }

  lemma HeadKeepsStore(p: Intake)
    requires Headed(p).Some?
    ensures Headed(p).value.store == p.store
  {
  }

  lemma CutIsIndependent(p: Intake, h: string, a: string, b: string)
    requires Inv(p) && Headed(Receive(p, h)).Some? && !Hazard(Headed(Receive(p, h)).value) && b != "" && h <= a + b
    ensures IndependentAt(p, a, b)
  {
    ClearCut(p, h, a, b);
    FragmentationIndependence(p, a, b);
  }

  lemma ReceiveTwo(p: Intake, a: string, b: string)
    ensures Receive(p, a + b) == Feed(Receive(p, a), b)
  {
    assert p.buffer + (a + b) == p.buffer + a + b;
  }

  lemma ClearCut(p: Intake, h: string, a: string, b: string)
    requires Headed(Receive(p, h)).Some? && !Hazard(Headed(Receive(p, h)).value) && h <= a + b
    ensures Clear(Receive(p, a))
  {
    var t := (a + b)[|h|..];
    assert a + b == h + t;
    ReceiveTwo(p, h, t);
    ReceiveTwo(p, a, b);
    StillClear(Receive(p, h), t);
    ClearBefore(Receive(p, a), b);
  }

  lemma StillClear(p: Intake, t: string)
    requires Headed(p).Some? && !Hazard(Headed(p).value)
    ensures Clear(Feed(p, t))
  {
    HeadedFeed(p, t);
    HazardFeed(Headed(p).value, t);
  }
}
