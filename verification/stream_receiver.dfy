/** What a receiver that knows only the bytes makes of a completed CGI response. */
module StreamReceiver {
  import opened Text
  import opened Numerals
  import opened BodyStore
  import opened ParserModel
  import opened Fragmentation
  import opened ResponseModel
  import opened ChunkCodec
  import opened CgiStream
  import F = Framing

  /** A chunked head in front of anything is found. */
  lemma HeadFound(r: Reply, tail: string)
    requires r.isChunked && r.statusCode != "" && r.headers != map[]
    requires F.PrintableMap(r.headers) && NoCr(StatusLine(r))
    ensures F.HeadersIn(ResponseText(r) + tail) == r.headers && F.Behind(ResponseText(r) + tail) == tail
  {
    HeadWithTail(r, tail);
    F.HeadSeen(StatusLine(r), r.headers, tail);
  }

  lemma HeadWithTail(r: Reply, tail: string)
    requires r.isChunked && r.statusCode != ""
    ensures ResponseText(r) + tail == StatusLine(r) + CRLF + (Lines(HeaderLinesOf(r.headers)) + CRLF + tail)
  {
    assert HeadText(r) + "" == HeadText(r);
    F.HeadSplit(StatusLine(r), Lines(HeaderLinesOf(r.headers)), tail);
  }

  /**
   * The whole text a completed stream sent, with any bytes behind it: the receiver finds the
   * script's headers, and behind the blank line, in any fragmentation, the script's payload.
   */
  lemma ReceiverReadsStream(d: Delivery, payload: string, r: Reply, suffix: string, p: Intake, cuts: seq<string>)
    requires WholeResponse(d, payload) && |payload| < TWO_64 && d.head == ResponseText(r)
    requires r.isChunked && r.statusCode != "" && r.headers != map[]
    requires F.PrintableMap(r.headers) && NoCr(StatusLine(r))
    requires BeforeChunks(p) && Inv(p) && p.buffer == ""
    requires cuts != [] && (forall i | 0 <= i < |cuts| :: cuts[i] != "") && Concat(cuts) == F.Behind(d.sent + suffix)
    ensures F.HeadersIn(d.sent + suffix) == r.headers
    ensures var q := ParseReads(p, cuts); q.verdict.Done? && HoldsBody(q.intake, p, payload, suffix)
  {
    SentIs(d, payload, suffix);
    HeadFound(r, Encode(d.pieces) + TERMINATOR + suffix);
    ReadBack(d, payload, p, suffix, cuts);
  }

  lemma SentIs(d: Delivery, payload: string, suffix: string)
    requires WholeResponse(d, payload)
    ensures d.sent + suffix == d.head + (Encode(d.pieces) + TERMINATOR + suffix)
  {
    Assoc(d.head, Encode(d.pieces), TERMINATOR);
    Assoc(d.head, Encode(d.pieces) + TERMINATOR, suffix);
  }
}
