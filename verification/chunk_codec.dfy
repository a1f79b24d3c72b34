/**
 * The chunked transfer coding (section 4.1 of RFC 7230): the grammar the chunk loop accepts,
 * the encoder of the response side, and their round trip.
 */
module ChunkCodec {
  import opened Wrappers
  import opened Text
  import opened Numerals
  import opened BodyStore
  import opened ParserModel
  import opened Fragmentation
  import opened ResponseModel

  // ----------------------------------------------------------------- grammar

  /** One chunk as it travels; the loop does not look at the two bytes of `eol`. */
  datatype Chunk = Chunk(line: string, data: string, eol: string)

  function ChunkWire(c: Chunk): string {
    c.line + CRLF + (c.data + c.eol)
  }

  function Wire(chunks: seq<Chunk>): string {
    if chunks == [] then "" else ChunkWire(chunks[0]) + Wire(chunks[1..])
  }

  /** The zero-size line and the two bytes after it. */
  function LastWire(line: string, eol: string): string {
    line + CRLF + eol
  }

  function Payload(chunks: seq<Chunk>): string {
    if chunks == [] then "" else chunks[0].data + Payload(chunks[1..])
  }

  /** A line whose end is the first CRLF. */
  predicate OneLine(line: string) {
    IndexOf(line + CRLF, CRLF) == Some(|line|)
  }

  predicate GoodChunk(c: Chunk) {
    OneLine(c.line) && c.data != "" && StrToUl(c.line, 16) == |c.data| && |c.eol| == 2
  }

  predicate GoodChunks(chunks: seq<Chunk>) {
    forall i | 0 <= i < |chunks| :: GoodChunk(chunks[i])
  }

  predicate GoodLast(line: string, eol: string) {
    OneLine(line) && StrToUl(line, 16) == 0 && |eol| == 2
  }

  // --------------------------------------------- what a message is parsed to

  /** A body under the limit: the bytes kept so far and whether the rest is discarded. */
  datatype Kept = Kept(text: string, discarding: bool)

  function Admit(k: Kept, data: string, maxBody: nat): Kept {
    var discarding := k.discarding || OverLimit(|k.text|, |data|, maxBody);
    Kept(if discarding then k.text else k.text + data, discarding)
  }

  function AdmitAll(k: Kept, chunks: seq<Chunk>, maxBody: nat): Kept
    decreases |chunks|
  {
    if chunks == [] then k else AdmitAll(Admit(k, chunks[0].data, maxBody), chunks[1..], maxBody)
  }

  /** A request in the middle of its body, between two chunks. */
  predicate AtSizeLine(p: Intake) {
    p.chunk.state.Size? && p.line.location.Some? && p.store == StoreOf(p.store.text, MaxBuffer(p))
  }

  function KeptBy(p: Intake): Kept {
    Kept(p.store.text, p.discarding)
  }

  /** `p` with other kept bytes and `rest` in the buffer. */
  function Keeping(p: Intake, k: Kept, rest: string, c: ChunkParser): Intake {
    p.(store := StoreOf(k.text, MaxBuffer(p)),
       discarding := k.discarding, buffer := rest, chunk := c)
  }

  lemma OneLineThen(line: string, rest: string)
    requires OneLine(line)
    ensures IndexOf(line + CRLF + rest, CRLF) == Some(|line|)
  {
    IndexOfAppend(line + CRLF, rest, CRLF, 0);
  }

  lemma SizeLineStep(p: Intake, line: string, rest: string)
    requires AtSizeLine(p) && OneLine(line) && p.buffer == line + CRLF + rest
    ensures StepSize(p) == Announce(p, |line|, StrToUl(line, 16)) && p.buffer[|line| + 2..] == rest
  {
    OneLineThen(line, rest);
    assert p.buffer[..|line|] == line;
  }

  lemma OneStep(p: Intake, q: Intake)
    requires ChunkInv(p.chunk) && p.buffer != "" && ChunkStep(p) == Next(q)
    ensures ParseChunks(p) == ParseChunks(q)
  {
  }

  lemma DataStep(p: Intake, data: string, rest: string)
    requires p.chunk == ChunkParser(Data, |data|, 0) && data != "" && p.buffer == data + rest
    requires p.store == StoreOf(p.store.text, MaxBuffer(p))
    ensures var k := Kept(if p.discarding then p.store.text else p.store.text + data, p.discarding);
            ParseChunks(p) == ParseChunks(Keeping(p, k, rest, ChunkParser(Crlf, |data|, |data|)))
  {
    var k := Kept(if p.discarding then p.store.text else p.store.text + data, p.discarding);
    SliceAt(data, rest);
    AppendIs(p.store, data, MaxBuffer(p));
    StepDataTakes(p, |data|);
    OneStep(p, Keeping(p, k, rest, ChunkParser(Crlf, |data|, |data|)));
  }

  lemma SliceAt(x: string, y: string)
    ensures (x + y)[..|x|] == x && (x + y)[|x|..] == y
  {
  }

  lemma CrlfStep(p: Intake, eol: string, rest: string)
    requires p.chunk.state.Crlf? && |eol| == 2 && p.buffer == eol + rest
    ensures ParseChunks(p) == ParseChunks(p.(buffer := rest, chunk := p.chunk.(state := Size)))
  {
    SliceAt(eol, rest);
    OneStep(p, p.(buffer := rest, chunk := p.chunk.(state := Size)));
  }

  lemma SizeStep(p: Intake, line: string, n: nat, rest: string)
    requires AtSizeLine(p) && OneLine(line) && StrToUl(line, 16) == n > 0 && p.buffer == line + CRLF + rest
    ensures ParseChunks(p) ==
            ParseChunks(p.(buffer := rest, chunk := ChunkParser(Data, n, 0),
                           discarding := p.discarding || OverLimit(|p.store.text|, n, p.line.location.value.maxBody)))
  {
    SizeLineStep(p, line, rest);
    OneStep(p, p.(buffer := rest, chunk := ChunkParser(Data, n, 0),
                  discarding := p.discarding || OverLimit(|p.store.text|, n, p.line.location.value.maxBody)));
  }

  lemma ChunkWireThen(c: Chunk, rest: string)
    ensures ChunkWire(c) + rest == c.line + CRLF + (c.data + (c.eol + rest))
  {
  }

  /** One well-formed chunk takes the loop from one size line to the next. */
  lemma ChunkParsed(p: Intake, c: Chunk, rest: string)
    requires AtSizeLine(p) && GoodChunk(c) && p.buffer == ChunkWire(c) + rest
    ensures var k := Admit(KeptBy(p), c.data, p.line.location.value.maxBody);
            var q := Keeping(p, k, rest, ChunkParser(Size, |c.data|, |c.data|));
            AtSizeLine(q) && KeptBy(q) == k && ParseChunks(p) == ParseChunks(q)
  {
    var k := Admit(KeptBy(p), c.data, p.line.location.value.maxBody);
    ChunkWireThen(c, rest);
    SizeStep(p, c.line, |c.data|, c.data + (c.eol + rest));
    var p1 := p.(buffer := c.data + (c.eol + rest), chunk := ChunkParser(Data, |c.data|, 0),
      discarding := k.discarding);
    DataStep(p1, c.data, c.eol + rest);
    CrlfStep(Keeping(p1, k, c.eol + rest, ChunkParser(Crlf, |c.data|, |c.data|)), c.eol, rest);
  }

  lemma LastSizeStep(p: Intake, line: string, rest: string)
    requires AtSizeLine(p) && OneLine(line) && StrToUl(line, 16) == 0 && p.buffer == line + CRLF + rest
    ensures ParseChunks(p) ==
            ParseChunks(p.(buffer := rest, chunk := ChunkParser(Last, 0, p.chunk.read),
                           discarding := Admit(KeptBy(p), "", p.line.location.value.maxBody).discarding))
  {
    SizeLineStep(p, line, rest);
    OneStep(p, p.(buffer := rest, chunk := ChunkParser(Last, 0, p.chunk.read),
                  discarding := Admit(KeptBy(p), "", p.line.location.value.maxBody).discarding));
  }

  lemma LastStep(p: Intake, eol: string, rest: string)
    requires p.chunk.state.Last? && |eol| == 2 && p.buffer == eol + rest
    ensures ParseChunks(p) == Parsed(p.(buffer := rest, state := if p.discarding then ParseTooLarge else p.state), Done)
  {
    SliceAt(eol, rest);
  }

  lemma LastParsed(p: Intake, line: string, eol: string, rest: string)
    requires AtSizeLine(p) && GoodLast(line, eol) && p.buffer == LastWire(line, eol) + rest
    ensures var k := Admit(KeptBy(p), "", p.line.location.value.maxBody);
            ParseChunks(p) ==
            var state := if k.discarding then ParseTooLarge else p.state;
            Parsed(Keeping(p, k, rest, ChunkParser(Last, 0, p.chunk.read)).(state := state), Done)
  {
    var k := Admit(KeptBy(p), "", p.line.location.value.maxBody);
    assert p.buffer == line + CRLF + (eol + rest);
    LastSizeStep(p, line, eol + rest);
    var p1 := p.(buffer := eol + rest, chunk := ChunkParser(Last, 0, p.chunk.read), discarding := k.discarding);
    LastStep(p1, eol, rest);
    assert p.store.text + "" == p.store.text;
  }

  lemma WireCons(c: Chunk, more: seq<Chunk>, last: string, rest: string)
    ensures ChunkWire(c) + (Wire(more) + last + rest) == Wire([c] + more) + last + rest
  {
    assert ([c] + more)[1..] == more;
  }

  /** A whole message: what is kept, what stays in the buffer, and the verdict. */
  lemma {:induction false} MessageParsed(p: Intake, chunks: seq<Chunk>, line: string, eol: string, rest: string)
    requires AtSizeLine(p) && GoodChunks(chunks) && GoodLast(line, eol)
    requires p.buffer == Wire(chunks) + LastWire(line, eol) + rest
    ensures var maxBody := p.line.location.value.maxBody;
            var k := Admit(AdmitAll(KeptBy(p), chunks, maxBody), "", maxBody);
            var r := ParseChunks(p);
            r == Parsed(
              Keeping(p, k, rest, r.intake.chunk).(state := if k.discarding then ParseTooLarge else p.state), Done)
    decreases |chunks|
  {
    if chunks == [] {
      assert p.buffer == LastWire(line, eol) + rest;
      LastParsed(p, line, eol, rest);
    } else {
      var tail := Wire(chunks[1..]) + LastWire(line, eol) + rest;
      WireCons(chunks[0], chunks[1..], LastWire(line, eol), rest);
      assert [chunks[0]] + chunks[1..] == chunks;
      ChunkParsed(p, chunks[0], tail);
      var k := Admit(KeptBy(p), chunks[0].data, p.line.location.value.maxBody);
      var n := |chunks[0].data|;
      MessageParsed(Keeping(p, k, tail, ChunkParser(Size, n, n)), chunks[1..], line, eol, rest);
    }
  }

  // -------------------------------------------------------------- body limit

  lemma {:induction false} AdmitNothing(k: Kept, chunks: seq<Chunk>, maxBody: nat)
    requires k.discarding
    ensures AdmitAll(k, chunks, maxBody) == k
    decreases |chunks|
  {
    if chunks != [] {
      AdmitNothing(k, chunks[1..], maxBody);
    }
  }

  /** Discarding starts if and only if the chunk sizes sum to more than the limit. */
  lemma {:induction false} AdmitAllExact(k: Kept, chunks: seq<Chunk>, maxBody: nat)
    requires !k.discarding && |k.text| <= maxBody && |k.text| + |Payload(chunks)| < TWO_64
    ensures var r := AdmitAll(k, chunks, maxBody);
            |r.text| <= maxBody
            && (r.discarding <==> |k.text| + |Payload(chunks)| > maxBody)
            && (!r.discarding ==> r.text == k.text + Payload(chunks))
    decreases |chunks|
  {
    if chunks == [] {
      assert k.text + "" == k.text;
    } else {
      var k1 := Admit(k, chunks[0].data, maxBody);
      if k1.discarding {
        AdmitNothing(k1, chunks[1..], maxBody);
      } else {
        AdmitAllExact(k1, chunks[1..], maxBody);
        assert k.text + chunks[0].data + Payload(chunks[1..]) == k.text + Payload(chunks);
      }
    }
  }

  /** A request whose chunked body is about to start. */
  predicate BeforeChunks(p: Intake) {
    p.phase.Body? && IsChunked(p.headers) && p.line.location.Some?
    && p.chunk.state.Size? && p.store == EMPTY_STORE && !p.discarding && p.length.read <= p.length.length
  }

  /** The request after its whole chunked body of this text. */
  predicate HoldsBody(q: Intake, p: Intake, body: string, rest: string) {
    && q.buffer == rest && q.phase.Start?
    && q.line == p.line && q.headers == p.headers
    && p.line.location.Some?
    && if |body| > p.line.location.value.maxBody
      then q.state.ParseTooLarge? && |q.store.text| <= p.line.location.value.maxBody
       else q.state.ParseOk? && q.store == StoreOf(body, MaxBuffer(p)) && !q.discarding
  }

  /**
   * The body limit is exact for every well-formed chunked body: refused if and only if its
   * payload is longer than the limit, else stored in full; the bytes behind it stay unread.
   */
  lemma BodyLimitExact(p: Intake, chunks: seq<Chunk>, line: string, eol: string, rest: string)
    requires BeforeChunks(p) && p.state.ReadSuccess? && GoodChunks(chunks) && GoodLast(line, eol)
    requires p.buffer == Wire(chunks) + LastWire(line, eol) + rest
    requires |Payload(chunks)| < TWO_64
    ensures Parse(p).verdict.Done? && HoldsBody(Parse(p).intake, p, Payload(chunks), rest)
  {
    ChunksKept(p, chunks, line, eol, rest);
    ParseOfChunks(p);
  }

  lemma ParseOfChunks(p: Intake)
    requires p.phase.Body? && IsChunked(p.headers) && BodyInv(p) && ParseChunks(p).verdict.Done?
    ensures Parse(p) == Parsed(Finish(ParseChunks(p).intake), Done)
  {
  }

  lemma ChunksKept(p: Intake, chunks: seq<Chunk>, line: string, eol: string, rest: string)
    requires BeforeChunks(p) && GoodChunks(chunks) && GoodLast(line, eol)
    requires p.buffer == Wire(chunks) + LastWire(line, eol) + rest
    requires |Payload(chunks)| < TWO_64
    ensures var r := ParseChunks(p); var body := Payload(chunks); var maxBody := p.line.location.value.maxBody;
            r.verdict.Done? && r.intake.buffer == rest && r.intake.line == p.line && r.intake.headers == p.headers
            && |r.intake.store.text| <= maxBody && (r.intake.discarding <==> |body| > maxBody)
            && r.intake.state == (if |body| > maxBody then ParseTooLarge else p.state)
            && (|body| <= maxBody ==> r.intake.store == StoreOf(body, MaxBuffer(p)))
  {
    var maxBody := p.line.location.value.maxBody;
    var k := AdmitAll(KeptBy(p), chunks, maxBody);
    MessageParsed(p, chunks, line, eol, rest);
    AdmitAllExact(KeptBy(p), chunks, maxBody);
    assert "" + Payload(chunks) == Payload(chunks);
    AdmitNone(k, maxBody);
  }

  lemma AdmitNone(k: Kept, maxBody: nat)
    requires |k.text| <= maxBody
    ensures Admit(k, "", maxBody) == k
  {
    assert k.text + "" == k.text;
  }

  // --------------------------------------------------------------- soundness

  lemma LineOf(buffer: string, end: nat)
    requires IndexOf(buffer, CRLF) == Some(end)
    ensures end + 2 <= |buffer| && buffer == buffer[..end] + CRLF + buffer[end + 2..] && OneLine(buffer[..end])
  {
    assert buffer[end..end + 2] == CRLF;
    CutAt(buffer, end, CRLF);
    IndexOfPrefix(buffer, CRLF, 0, end, end + 2);
  }

  lemma CutAt(s: string, k: nat, pat: string)
    requires k + |pat| <= |s| && s[k..k + |pat|] == pat
    ensures s[..k + |pat|] == s[..k] + pat && s == s[..k] + pat + s[k + |pat|..]
  {
  }

  lemma FoundLast(p: Intake) returns (eol: string)
    requires p.chunk.state.Last? && ParseChunks(p).verdict.Done?
    ensures |eol| == 2 && p.buffer == eol + ParseChunks(p).intake.buffer
  {
    eol := p.buffer[..2];
  }

  lemma FoundData(p: Intake) returns (data: string, eol: string, q: Intake)
    requires p.chunk.state.Data? && p.chunk.read == 0 < p.chunk.size && ParseChunks(p).verdict.Done?
    ensures |data| == p.chunk.size && |eol| == 2 && p.buffer == data + (eol + q.buffer)
    ensures q.chunk.state.Size? && q.line == p.line && ParseChunks(p) == ParseChunks(q) && |q.buffer| < |p.buffer|
  {
    StepDataTakes(p, Min(p.chunk.size, |p.buffer|));
    var p1 := ChunkStep(p).intake;
    assert ParseChunks(p) == ParseChunks(p1) && p1.buffer == p.buffer[p.chunk.size..];
    data := p.buffer[..p.chunk.size];
    eol := p1.buffer[..2];
    q := ChunkStep(p1).intake;
  }

  lemma FoundSize(p: Intake) returns (line: string, q: Intake)
    requires p.chunk.state.Size? && p.line.location.Some? && ParseChunks(p).verdict.Done?
    ensures OneLine(line) && p.buffer == line + CRLF + q.buffer
    ensures q.line == p.line && ChunkInv(q.chunk) && ParseChunks(q) == ParseChunks(p) && |q.buffer| < |p.buffer|
    ensures if StrToUl(line, 16) == 0 then q.chunk.state.Last? else q.chunk == ChunkParser(Data, StrToUl(line, 16), 0)
  {
    var end := IndexOf(p.buffer, CRLF).value;
    LineOf(p.buffer, end);
    line := p.buffer[..end];
    q := Announce(p, end, StrToUl(line, 16)).intake;
    OneStep(p, q);
  }

  lemma GoodChunksCons(c: Chunk, more: seq<Chunk>)
    requires GoodChunk(c) && GoodChunks(more)
    ensures GoodChunks([c] + more)
  {
  }

  lemma FoundCons(buffer: string, c: Chunk, more: seq<Chunk>, last: string, rest: string)
    requires buffer == c.line + CRLF + (c.data + (c.eol + (Wire(more) + last + rest)))
    ensures buffer == Wire([c] + more) + last + rest
  {
    ChunkWireThen(c, Wire(more) + last + rest);
    WireCons(c, more, last, rest);
  }

  lemma FoundNone(buffer: string, line: string, eol: string, rest: string)
    requires buffer == line + CRLF + (eol + rest)
    ensures buffer == Wire([]) + LastWire(line, eol) + rest
  {
  }

  /**
   * Conservation: when the loop completes, the buffer it started from was exactly a list of
   * well-formed chunks, a zero-size line with its two bytes, and the bytes it left.
   */
  lemma {:induction false} MessageFound(p: Intake) returns (chunks: seq<Chunk>, line: string, eol: string)
    requires p.chunk.state.Size? && p.line.location.Some? && ParseChunks(p).verdict.Done?
    ensures GoodChunks(chunks) && GoodLast(line, eol)
    ensures p.buffer == Wire(chunks) + LastWire(line, eol) + ParseChunks(p).intake.buffer
    decreases |p.buffer|
  {
    var rest := ParseChunks(p).intake.buffer;
    var first, p1 := FoundSize(p);
    if StrToUl(first, 16) == 0 {
      eol := FoundLast(p1);
      chunks, line := [], first;
      FoundNone(p.buffer, line, eol, rest);
    } else {
      var data, chunkEol, q := FoundData(p1);
      var more;
      more, line, eol := MessageFound(q);
      var c := Chunk(first, data, chunkEol);
      chunks := [c] + more;
      GoodChunksCons(c, more);
      FoundCons(p.buffer, c, more, LastWire(line, eol), rest);
    }
  }

  // ------------------------------------------------------- unfinished loops

  /** The chunk that was begun: its size line and the data read so far, or the line of the last chunk. */
  predicate Begun(c: ChunkParser, line: string, data: string) {
    match c.state
    case Size => true
    case Data => OneLine(line) && StrToUl(line, 16) == c.size && |data| == c.read
    case Crlf => OneLine(line) && StrToUl(line, 16) == c.size == |data|
    case Last => OneLine(line) && StrToUl(line, 16) == 0 && data == ""
  }

  /** The bytes of the chunk that was begun. */
  function BegunWire(c: ChunkParser, line: string, data: string): string {
    if c.state.Size? then "" else line + CRLF + data
  }

  /** What the loop leaves unread is not enough for its state to go on with. */
  predicate Waiting(c: ChunkParser, rest: string) {
    match c.state
    case Size => IndexOf(rest, CRLF).None?
    case Data => rest == ""
    case Crlf => |rest| < 2
    case Last => |rest| < 2
  }

  /** The size line of an unfinished loop. */
  lemma LineBegun(p: Intake) returns (line: string, q: Intake)
    requires p.chunk.state.Size? && p.line.location.Some? && IndexOf(p.buffer, CRLF).Some?
    ensures OneLine(line) && p.buffer == line + CRLF + q.buffer && |q.buffer| < |p.buffer|
    ensures q.line == p.line && ChunkInv(q.chunk) && ParseChunks(q) == ParseChunks(p)
    ensures if StrToUl(line, 16) == 0 then q.chunk.state.Last? else q.chunk == ChunkParser(Data, StrToUl(line, 16), 0)
  {
    var end := IndexOf(p.buffer, CRLF).value;
    LineOf(p.buffer, end);
    line := p.buffer[..end];
    q := Announce(p, end, StrToUl(line, 16)).intake;
    OneStep(p, q);
  }

  /** The data of a chunk that is there in part, or as a whole without its end. */
  lemma DataBegun(p: Intake) returns (data: string)
    requires p.chunk.state.Data? && p.chunk.read == 0 < p.chunk.size && |p.buffer| < p.chunk.size + 2
    ensures var r := ParseChunks(p);
            r.verdict.More? && (r.intake.chunk.state.Data? || r.intake.chunk.state.Crlf?)
            && r.intake.chunk.size == p.chunk.size && |data| == r.intake.chunk.read
            && (r.intake.chunk.state.Crlf? ==> |data| == p.chunk.size)
            && p.buffer == data + r.intake.buffer && Waiting(r.intake.chunk, r.intake.buffer)
  {
    var n := Min(p.chunk.size, |p.buffer|);
    data := p.buffer[..n];
    assert p.buffer == data + p.buffer[n..];
    if p.buffer != "" {
      StepDataTakes(p, n);
    }
  }

  /** A chunk that is there as a whole leads to the next size line. */
  lemma DataWhole(p: Intake) returns (data: string, eol: string, q: Intake)
    requires p.chunk.state.Data? && p.chunk.read == 0 < p.chunk.size && p.chunk.size + 2 <= |p.buffer|
    ensures |data| == p.chunk.size && |eol| == 2 && p.buffer == data + (eol + q.buffer)
    ensures q.chunk.state.Size? && q.line == p.line && ParseChunks(p) == ParseChunks(q) && |q.buffer| < |p.buffer|
  {
    StepDataTakes(p, p.chunk.size);
    var p1 := ChunkStep(p).intake;
    OneStep(p, p1);
    data := p.buffer[..p.chunk.size];
    eol := p1.buffer[..2];
    q := ChunkStep(p1).intake;
    OneStep(p1, q);
  }

  /**
   * Conservation for a loop that is not finished: it consumed whole well-formed chunks and the
   * beginning of one more, as its state says, and left what that state cannot use yet.
   */
  lemma {:induction false} UnfinishedFound(p: Intake) returns (chunks: seq<Chunk>, line: string, data: string)
    requires p.chunk.state.Size? && p.line.location.Some? && ParseChunks(p).verdict.More?
    ensures var q := ParseChunks(p).intake;
            GoodChunks(chunks) && Begun(q.chunk, line, data) && Waiting(q.chunk, q.buffer)
            && p.buffer == Wire(chunks) + BegunWire(q.chunk, line, data) + q.buffer
    decreases |p.buffer|
  {
    var rest := ParseChunks(p).intake.buffer;
    chunks, line, data := [], "", "";
    if IndexOf(p.buffer, CRLF).None? {
      assert ParseChunks(p).intake == p && p.buffer == "" + "" + rest;
    } else {
      var first, p1 := LineBegun(p);
      if StrToUl(first, 16) == 0 {
        line := first;
        BegunIs(p.buffer, line, "", rest);
      } else if |p1.buffer| < p1.chunk.size + 2 {
        data := DataBegun(p1);
        line := first;
        BegunIs(p.buffer, line, data, rest);
      } else {
        var whole, eol, q := DataWhole(p1);
        var more;
        more, line, data := UnfinishedFound(q);
        var c := Chunk(first, whole, eol);
        chunks := [c] + more;
        GoodChunksCons(c, more);
        FoundCons(p.buffer, c, more, BegunWire(ParseChunks(p).intake.chunk, line, data), rest);
      }
    }
  }

  lemma BegunIs(buffer: string, line: string, data: string, rest: string)
    requires buffer == line + CRLF + (data + rest)
    ensures buffer == Wire([]) + (line + CRLF + data) + rest
  {
  }

  /** The buffer starts with a complete chunked body. */
  ghost predicate StartsWithMessage(buffer: string) {
    exists chunks: seq<Chunk>, line: string, eol: string, rest: string ::
      GoodChunks(chunks) && GoodLast(line, eol) && buffer == Wire(chunks) + LastWire(line, eol) + rest
  }

  /** The loop completes on exactly the buffers that start with a complete chunked body. */
  lemma CompletesIffMessage(p: Intake)
    requires AtSizeLine(p)
    ensures ParseChunks(p).verdict.Done? <==> StartsWithMessage(p.buffer)
  {
    if ParseChunks(p).verdict.Done? {
      var chunks, line, eol := MessageFound(p);
    }
    if StartsWithMessage(p.buffer) {
      var chunks: seq<Chunk>, line: string, eol: string, rest: string :|
        GoodChunks(chunks) && GoodLast(line, eol) && p.buffer == Wire(chunks) + LastWire(line, eol) + rest;
      MessageParsed(p, chunks, line, eol, rest);
    }
  }

  // ---------------------------------------------------------- limit in flight

  /** No stored byte is over the limit, and none that was let in will be. */
  predicate WithinLimit(p: Intake)
    requires p.line.location.Some?
  {
    |p.store.text| + (if p.chunk.state.Data? && !p.discarding then p.chunk.size - p.chunk.read else 0)
      <= p.line.location.value.maxBody
  }

  /** The guard's sum would pass 2^64 and come out as an acceptable size. */
  predicate WrapsUnnoticed(p: Intake, size: nat)
    requires p.line.location.Some?
  {
    !p.discarding && TWO_64 <= |p.store.text| + size <= TWO_64 + p.line.location.value.maxBody
  }

  lemma AnnouncedWithinLimit(p: Intake, end: nat, size: nat)
    requires p.chunk.state.Size? && p.line.location.Some? && WithinLimit(p) && end + 2 <= |p.buffer|
    requires p.line.location.value.maxBody < TWO_64 && 0 < size < TWO_64
    ensures Announce(p, end, size).Next?
    ensures WithinLimit(Announce(p, end, size).intake) <==> !WrapsUnnoticed(p, size)
  {
  }

  /** What a size line and bytes of its chunk leave in the store. */
  lemma ChunkStored(p: Intake, line: string, data: string)
    requires AtSizeLine(p) && OneLine(line) && p.buffer == line + CRLF + data && |data| <= StrToUl(line, 16)
    ensures var refused := p.discarding || OverLimit(|p.store.text|, StrToUl(line, 16), p.line.location.value.maxBody);
            ParseChunks(p).intake.store.text == if refused then p.store.text else p.store.text + data
  {
    var n := StrToUl(line, 16);
    var refused := p.discarding || OverLimit(|p.store.text|, n, p.line.location.value.maxBody);
    assert p.store.text + "" == p.store.text;
    if n == 0 {
      LastSizeStep(p, line, data);
    } else {
      SizeStep(p, line, n, data);
      var p1 := p.(buffer := data, chunk := ChunkParser(Data, n, 0), discarding := refused);
      if data != "" {
        DataStored(p1, data);
      }
    }
  }

  lemma DataStored(p: Intake, data: string)
    requires p.chunk.state.Data? && p.chunk.read == 0 < |data| <= p.chunk.size && p.buffer == data
    requires p.store == StoreOf(p.store.text, MaxBuffer(p))
    ensures ParseChunks(p).intake.store.text == if p.discarding then p.store.text else p.store.text + data
  {
    assert data + "" == data && data[..|data|] == data;
    if |data| == p.chunk.size {
      DataStep(p, data, "");
    } else {
      StepDataTakes(p, |data|);
    }
  }

  /**
   * Whatever bytes of the announced chunk follow a size line, no stored byte is over the limit,
   * if and only if the guard's sum does not wrap to an acceptable size.
   */
  lemma SizeLineKeepsLimit(p: Intake, line: string)
    requires AtSizeLine(p) && OneLine(line) && |p.store.text| <= p.line.location.value.maxBody < TWO_64
    ensures var maxBody := p.line.location.value.maxBody; var n := StrToUl(line, 16);
            (forall data: string | |data| <= n ::
              |ParseChunks(p.(buffer := line + CRLF + data)).intake.store.text| <= maxBody)
            <==> !WrapsUnnoticed(p, n)
  {
    var n := StrToUl(line, 16);
    var maxBody := p.line.location.value.maxBody;
    if WrapsUnnoticed(p, n) {
      var data := seq(maxBody + 1 - |p.store.text|, i => 'x');
      ChunkStored(p.(buffer := line + CRLF + data), line, data);
    } else {
      forall data: string | |data| <= n
        ensures |ParseChunks(p.(buffer := line + CRLF + data)).intake.store.text| <= maxBody
      {
        ChunkStored(p.(buffer := line + CRLF + data), line, data);
      }
    }
  }

  /** The largest size line announces 2^64 - 1 bytes. */
  lemma LargestSizeLine()
    ensures OneLine(Digits(ULONG_MAX, 16)) && StrToUl(Digits(ULONG_MAX, 16), 16) == ULONG_MAX
  {
    var line := Digits(ULONG_MAX, 16);
    PrintThenScan(ULONG_MAX, "", 16);
    DigitsAreDigits(ULONG_MAX, 16);
    LineEnd(line, "");
    assert line + "" == line && line + CRLF + "" == line + CRLF;
  }

  /** From a body that starts: one byte, the largest size line, and more bytes than allowed. All are stored. */
  lemma WrappingSizeLine(p: Intake, data: string)
    requires BeforeChunks(p) && 1 <= p.line.location.value.maxBody <= |data| <= ULONG_MAX
    requires p.buffer == ChunkWire(Chunk("1", "x", CRLF)) + (Digits(ULONG_MAX, 16) + CRLF + data)
    ensures |ParseChunks(p).intake.store.text| > p.line.location.value.maxBody
  {
    var rest := Digits(ULONG_MAX, 16) + CRLF + data;
    var c := Chunk("1", "x", CRLF);
    OneIsGood();
    ChunkParsed(p, c, rest);
    var k := Admit(KeptBy(p), c.data, p.line.location.value.maxBody);
    assert k == Kept("x", false) by { assert "" + "x" == "x"; }
    LargestSizeLine();
    ChunkStored(Keeping(p, k, rest, ChunkParser(Size, 1, 1)), Digits(ULONG_MAX, 16), data);
  }

  lemma OneIsGood()
    ensures GoodChunk(Chunk("1", "x", CRLF))
  {
    assert Digits(1, 16) == "1" && "1" + "" == "1";
    PrintThenScan(1, "", 16);
    DigitsAreDigits(1, 16);
    LineEnd("1", "");
    assert "1" + CRLF + "" == "1" + CRLF;
  }

  /** No size line met on the way wraps unnoticed. */
  ghost predicate NeverWraps(p: Intake)
    requires ChunkInv(p.chunk) && p.line.location.Some?
    decreases |p.buffer|
  {
    && (p.chunk.state.Size? && IndexOf(p.buffer, CRLF).Some? ==>
          !WrapsUnnoticed(p, StrToUl(p.buffer[..IndexOf(p.buffer, CRLF).value], 16)))
    && (p.buffer != "" && ChunkStep(p).Next? && ChunkStep(p).intake.line == p.line ==> NeverWraps(ChunkStep(p).intake))
  }

  lemma StepKeepsLimit(p: Intake)
    requires ChunkInv(p.chunk) && p.line.location.Some? && WithinLimit(p) && NeverWraps(p)
    requires p.line.location.value.maxBody < TWO_64
    ensures var q := ChunkStep(p).intake; q.line == p.line && WithinLimit(q)
  {
    match p.chunk.state
    case Size =>
      if IndexOf(p.buffer, CRLF).Some? {
        var end := IndexOf(p.buffer, CRLF).value;
        var size := StrToUl(p.buffer[..end], 16);
        assert !WrapsUnnoticed(p, size);
        if size > 0 {
          AnnouncedWithinLimit(p, end, size);
        }
      }
    case Data => StepDataTakes(p, Min(p.chunk.size - p.chunk.read, |p.buffer|));
    case Crlf =>
    case Last =>
  }

  /** At no point of any run, finished or not, is more stored than the limit allows. */
  lemma {:induction false} LimitHeldInFlight(p: Intake)
    requires ChunkInv(p.chunk) && p.line.location.Some? && WithinLimit(p) && NeverWraps(p)
    requires p.line.location.value.maxBody < TWO_64
    ensures var q := ParseChunks(p).intake; q.line == p.line && |q.store.text| <= p.line.location.value.maxBody
    decreases |p.buffer|
  {
    if p.buffer != "" {
      StepKeepsLimit(p);
      if ChunkStep(p).Next? {
        LimitHeldInFlight(ChunkStep(p).intake);
      }
    }
  }

  // ------------------------------------------------------ encoder, round trip

  function Encode(pieces: seq<string>): string {
    if pieces == [] then "" else EncodePiece(pieces[0]) + Encode(pieces[1..])
  }

  function ChunksOf(pieces: seq<string>): (chunks: seq<Chunk>)
    ensures |chunks| == |pieces|
  {
    if pieces == [] then [] else [Chunk(Digits(|pieces[0]|, 16), pieces[0], CRLF)] + ChunksOf(pieces[1..])
  }

  predicate NonEmpty(pieces: seq<string>) {
    forall i | 0 <= i < |pieces| :: pieces[i] != "" && |pieces[i]| < TWO_64
  }

  lemma EncodedChunkIsGood(piece: string)
    requires piece != "" && |piece| < TWO_64
    ensures GoodChunk(Chunk(Digits(|piece|, 16), piece, CRLF))
  {
    var line := Digits(|piece|, 16);
    DigitsAreDigits(|piece|, 16);
    PrintThenScan(|piece|, "", 16);
    assert line + "" == line;
    LineEnd(line, "");
    assert line + CRLF + "" == line + CRLF;
  }

  /** The encoder's output is a well-formed message with the same payload. */
  lemma {:induction false} EncodedIsWire(pieces: seq<string>)
    requires NonEmpty(pieces)
    ensures GoodChunks(ChunksOf(pieces)) && Wire(ChunksOf(pieces)) == Encode(pieces)
    ensures Payload(ChunksOf(pieces)) == Concat(pieces)
  {
    if pieces != [] {
      EncodedIsWire(pieces[1..]);
      EncodedChunkIsGood(pieces[0]);
      var c := Chunk(Digits(|pieces[0]|, 16), pieces[0], CRLF);
      assert ChunksOf(pieces)[1..] == ChunksOf(pieces[1..]);
      assert ChunkWire(c) == EncodePiece(pieces[0]);
    }
  }

  lemma TerminatorIsLast()
    ensures TERMINATOR == LastWire("0", CRLF) && GoodLast("0", CRLF)
  {
    assert Digits(0, 16) == "0";
    PrintThenScan(0, "", 16);
    assert "0" + "" == "0";
    LineEnd("0", "");
    assert "0" + CRLF + "" == "0" + CRLF;
  }

  /**
   * Round trip: whatever pieces were encoded, and however the result and the bytes after it
   * are cut into reads, the parser stores the concatenation of the pieces and leaves exactly
   * the suffix; a payload over the limit is refused instead.
   */
  lemma RoundTrip(p: Intake, pieces: seq<string>, suffix: string, cuts: seq<string>)
    requires BeforeChunks(p) && Inv(p) && p.buffer == ""
    requires NonEmpty(pieces) && |Concat(pieces)| < TWO_64
    requires cuts != [] && forall i | 0 <= i < |cuts| :: cuts[i] != ""
    requires Concat(cuts) == Encode(pieces) + TERMINATOR + suffix
    ensures var r := ParseReads(p, cuts);
            r.verdict.Done? && HoldsBody(r.intake, p, Concat(pieces), suffix)
  {
    var whole := Receive(p, Concat(cuts));
    assert whole.buffer == Encode(pieces) + TERMINATOR + suffix;
    EncodedIsWire(pieces);
    TerminatorIsLast();
    BodyLimitExact(whole, ChunksOf(pieces), "0", CRLF, suffix);
    assert Clear(whole);
    AnyFragmentation(p, cuts);
  }
}
