/** The body limit for a body of announced length, whole or while it arrives. */
module LengthLimit {
  import opened Numerals
  import opened BodyStore
  import opened ParserModel
  import opened Fragmentation
  import P = Pipelining

  /** A body of announced length is about to start. */
  predicate BeforeLengthBody(p: Intake) {
    p.phase.Body? && p.store == EMPTY_STORE && p.chunk == FRESH_CHUNK && p.length == FRESH_LENGTH && !p.discarding
    && !IsChunked(p.headers) && HasLength(p.headers) && p.line.location.Some?
  }

  predicate HoldsSized(q: Intake, p: Intake, body: string, rest: string)
    requires p.line.location.Some?
  {
    if |body| > p.line.location.value.maxBody then q.state.ParseTooLarge? && q.store == EMPTY_STORE
    else q.state.ParseOk? && q.store == StoreOf(body, MaxBuffer(p)) && q.buffer == rest && !q.discarding
  }

  lemma RefusedWhole(p: Intake, body: string, rest: string)
    requires BeforeLengthBody(p) && p.buffer == body + rest && StrToUl(p.headers["Content-Length"], 10) == |body|
    requires |body| > p.line.location.value.maxBody
    ensures var r := ParseBody(p); r.verdict.Done? && r.intake.state.ParseTooLarge? && r.intake.store == EMPTY_STORE
  {
    ReadLengthTakes(StartLength(p, |body|), |body|);
  }

  /** Refused if and only if the announced length is over the limit; else stored in full, and what follows is left. */
  lemma LengthLimitExact(p: Intake, body: string, rest: string)
    requires BeforeLengthBody(p) && p.state.ReadSuccess? && p.buffer == body + rest
    requires StrToUl(p.headers["Content-Length"], 10) == |body|
    ensures Parse(p).verdict.Done? && HoldsSized(Parse(p).intake, p, body, rest)
  {
    if |body| > p.line.location.value.maxBody {
      RefusedWhole(p, body, rest);
    } else {
      P.BodyParsed(p, P.Sized(body), rest);
    }
  }

  /** The same for a body that arrives in any number of reads. */
  lemma LengthLimitInReads(p: Intake, body: string, rest: string, cuts: seq<string>)
    requires BeforeLengthBody(p) && Inv(p) && p.buffer == "" && StrToUl(p.headers["Content-Length"], 10) == |body|
    requires cuts != [] && forall i | 0 <= i < |cuts| :: cuts[i] != ""
    requires Concat(cuts) == body + rest
    ensures var r := ParseReads(p, cuts); r.verdict.Done? && HoldsSized(r.intake, p, body, rest)
  {
    var whole := Receive(p, Concat(cuts));
    assert whole.buffer == body + rest;
    LengthLimitExact(whole, body, rest);
    AnyFragmentation(p, cuts);
  }

  /** What is stored of a body of announced length obeys the limit, and will. */
  predicate WithinLimit(p: Intake)
    requires p.line.location.Some?
  {
    && |p.store.text| <= p.line.location.value.maxBody
    && (if p.length.known then
          |p.store.text| <= p.length.read
          && (p.length.length > p.line.location.value.maxBody ==> p.discarding && p.toDiscard > 0)
        else p.store.text == "" && p.length.read == 0)
  }

  lemma ReadLengthWithin(p: Intake)
    requires p.line.location.Some? && p.length.known && p.length.read <= p.length.length && WithinLimit(p)
    ensures var r := ReadLength(p);
            r.intake.line == p.line && |r.intake.store.text| <= p.line.location.value.maxBody
            && (r.verdict.More? ==> WithinLimit(r.intake))
  {
    var n := Min(|p.buffer|, p.length.length - p.length.read);
    if n > 0 || p.length.length == 0 {
      ReadLengthTakes(p, n);
      if n < p.length.length - p.length.read {
        assert TakeOfLength(p, n).buffer == "";
      }
    }
  }

  /** At no point of a body of announced length is more stored than the limit allows. */
  lemma LengthLimitInFlight(p: Intake)
    requires BodyInv(p) && !IsChunked(p.headers) && HasLength(p.headers) && p.line.location.Some? && WithinLimit(p)
    ensures var r := ParseBody(p);
            r.intake.line == p.line && |r.intake.store.text| <= p.line.location.value.maxBody
            && (r.verdict.More? ==> WithinLimit(r.intake))
  {
    if p.length.known {
      ReadLengthWithin(p);
    } else {
      ReadLengthWithin(StartLength(p, StrToUl(p.headers["Content-Length"], 10)));
    }
  }
}
