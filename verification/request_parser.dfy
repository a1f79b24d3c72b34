/** The request parser as the server runs it: loops that consume the client's read buffer in place. */
module RequestParser {
  import opened Wrappers
  import opened Text
  import opened Numerals
  import opened Config
  import opened BodyStore
  import opened ParserModel
  import opened Requests
  import opened Clients

  method DiscardingBody(client: Client)
    modifies client`readBuffer, client`bytesToDiscard, client`discardingBody, client`state
    modifies client.response`protocol, client.response`connection, client.response`range
    ensures client.Intake() == DiscardBody(old(client.Intake()))
  {
    var available := |client.readBuffer|;
    var toDiscard := client.bytesToDiscard;
    if available >= toDiscard {
      client.ConsumeReadBuffer(toDiscard);
      client.bytesToDiscard := 0;
      client.discardingBody := false;
      client.response.InitFromRequest(client.request.protocol, client.request.headers);
      client.state := ParseTooLarge;
    } else {
      client.bytesToDiscard := toDiscard - available;
      client.readBuffer := "";
    }
  }

  /** A body write that fails ends the request at once, as PARSE_ERROR, and nothing else does. */
  ghost predicate Reported(client: Client, verdict: Verdict, before: IoState)
    reads client, client.request, client.request.bodyFile
  {
    && (client.request.Refused() ==> verdict.Done? && client.state.ParseError?)
    && (!client.request.Refused() && !before.ParseError? ==> !client.state.ParseError?)
  }

  /** A body that was announced, and for which a pending discard is meant. */
  ghost predicate InBody(client: Client)
    reads client, client.request
  {
    client.request.phase.Body?
    && (IsChunked(client.request.headers)
        || (HasLength(client.request.headers) && client.request.length.known && client.bytesToDiscard > 0))
  }

  /** A discard is pending that was meant for an earlier request. */
  ghost predicate LeftOver(client: Client)
    reads client, client.request
  {
    client.discardingBody && !InBody(client)
  }

  /** Unless a discard was left over before, none is now, and a request that ends with one was refused. */
  ghost predicate Quieted(client: Client, verdict: Verdict, before: bool)
    reads client, client.request
  {
    before || ((verdict.Done? && client.discardingBody ==> client.state.ParseTooLarge?)
               && (verdict.More? ==> !LeftOver(client)))
  }

  /** Moves body bytes out of the buffer, as both body parsers do. */
  method StoreOrDrop(client: Client, n: nat) returns (failed: bool)
    requires client.Parsable() && n <= |client.readBuffer|
    modifies client`readBuffer, client`state
    modifies client.request`body, client.request`bodyInDisk, client.request`bodyFdSize, client.request.bodyFile
    ensures client.request.Valid() && Fits(client.request.Stored(), MaxBuffer(client.Intake()))
    ensures client.request.Sound() ==>
      old(client.request.Sound()) && !failed && client.Intake() == Take(old(client.Intake()), n)
    ensures failed == client.request.Refused() && (failed ==> !client.discardingBody)
    ensures client.discardingBody ==> client.request.Stored() == old(client.request.Stored())
    ensures if failed then client.state.ParseError?
            else client.state == old(client.state) && client.readBuffer == old(client.readBuffer)[n..]
  {
    failed := false;
    if !client.discardingBody {
      var rc := client.request.AppendBody(client.readBuffer[..n], client.config.maxBuffer);
      if rc != 0 {
        client.state := ParseError;
        return true;
      }
    }
    client.readBuffer := client.readBuffer[n..];
  }

  /** The second half of `parseContentLengthBody`: the length is known. */
  method ReadLengthBody(client: Client) returns (verdict: Verdict)
    requires client.Parsable() && client.request.phase.Body? && client.request.length.known
    modifies client`readBuffer, client`bytesToDiscard, client`discardingBody, client`state
    modifies client.request`body, client.request`bodyInDisk, client.request`bodyFdSize, client.request`length
    modifies client.request.bodyFile
    modifies client.response`protocol, client.response`connection, client.response`range
    ensures client.request.Sound() ==> old(client.request.Sound())
    ensures client.request.Sound() ==> Parsed(client.Intake(), verdict) == ReadLength(old(client.Intake()))
    ensures client.request.Valid() && (verdict.More? ==> client.Parsable()) && !verdict.NullLocation?
    ensures Reported(client, verdict, old(client.state))
    ensures HasLength(client.request.headers) ==> Quieted(client, verdict, old(LeftOver(client)))
  {
    var request := client.request;
    ghost var p := client.Intake();
    var remaining := request.length.length - request.length.read;
    var canRead := Min(|client.readBuffer|, remaining);
    if canRead == 0 && request.length.length > 0 {
      return More;
    }
    var discarding := client.discardingBody;
    var failed := StoreOrDrop(client, canRead);
    if failed {
      return Done;
    }
    request.length := request.length.(read := request.length.read + canRead);
    assert request.Sound() ==> client.Intake() == TakeOfLength(p, canRead);
    if discarding {
      DiscardingBody(client);
      client.state := ParseTooLarge;
    }
    verdict := if request.length.read >= request.length.length then Done else More;
    assert request.Sound() ==> Parsed(client.Intake(), verdict) == LengthVerdict(TakeOfLength(p, canRead));
  }

  /** `parseContentLengthBody`. */
  method ParseContentLengthBody(client: Client) returns (verdict: Verdict)
    requires client.Parsable() && client.request.phase.Body? && HasLength(client.request.headers)
    modifies client`readBuffer, client`bytesToDiscard, client`discardingBody, client`state
    modifies client.request`body, client.request`bodyInDisk, client.request`bodyFdSize, client.request`length
    modifies client.request.bodyFile
    modifies client.response`protocol, client.response`connection, client.response`range
    ensures client.request.Sound() ==> old(client.request.Sound())
    ensures client.request.Sound() ==> Parsed(client.Intake(), verdict) == ParseLength(old(client.Intake()))
    ensures client.request.Valid() && (verdict.More? ==> client.Parsable())
    ensures Reported(client, verdict, old(client.state)) && Quieted(client, verdict, old(LeftOver(client)))
    ensures verdict.NullLocation? ==> client.request.Sound()
  {
    var request := client.request;
    if !request.length.known {
      var length := StrToUl(request.headers["Content-Length"], 10);
      request.length := LengthParser(length, 0, true);
      if request.location.None? {
        return NullLocation;
      }
      if length > request.location.value.maxBody {
        client.discardingBody := true;
        client.bytesToDiscard := length;
      }
    }
    verdict := ReadLengthBody(client);
  }

  /** The CHUNK_SIZE case: `go` is false where the case returns from the loop. */
  method SizeCase(client: Client) returns (go: bool, verdict: Verdict)
    requires client.Parsable() && client.request.phase.Body? && client.request.chunk.state.Size?
    modifies client`readBuffer, client`discardingBody, client.request`chunk
    ensures client.request.Sound() ==>
      (if go then Next(client.Intake()) else Stop(client.Intake(), verdict)) == StepSize(old(client.Intake()))
    ensures (go || verdict.More? ==> client.Parsable()) && (go ==> |client.readBuffer| < |old(client.readBuffer)|)
    ensures !go ==> !verdict.Done?
    ensures !go && verdict.NullLocation? ==> client.request.Sound()
  {
    var request := client.request;
    var lineEnd := IndexOf(client.readBuffer, CRLF);
    if lineEnd.None? {
      return false, More;
    }
    ghost var p := client.Intake();
    var end := lineEnd.value;
    var size := StrToUl(client.readBuffer[..end], 16);
    request.chunk := request.chunk.(size := size);
    client.readBuffer := client.readBuffer[end + 2..];
    if !client.discardingBody {
      if request.location.None? {
        assert client.Intake() == Announce(p, end, size).intake;
        return false, NullLocation;
      }
      var stored := request.GetBodySize();
      if WrapAdd(stored, size) > request.location.value.maxBody {
        client.discardingBody := true;
      }
    }
    if size == 0 {
      request.chunk := request.chunk.(state := Last);
    } else {
      request.chunk := ChunkParser(Data, size, 0);
    }
    assert request.Sound() ==> Next(client.Intake()) == Announce(p, end, size);
    return true, More;
  }

  /** The CHUNK_DATA case. */
  method DataCase(client: Client) returns (go: bool, verdict: Verdict)
    requires client.Parsable() && client.request.phase.Body? && client.request.chunk.state.Data?
      && client.readBuffer != ""
    modifies client`readBuffer, client`state
    modifies client.request`body, client.request`bodyInDisk, client.request`bodyFdSize, client.request`chunk
    modifies client.request.bodyFile
    ensures client.request.Sound() ==> old(client.request.Sound())
    ensures client.request.Sound() ==>
      (if go then Next(client.Intake()) else Stop(client.Intake(), verdict)) == StepData(old(client.Intake()))
    ensures client.request.Valid() && (go || verdict.More? ==> client.Parsable()) && !verdict.NullLocation?
    ensures Reported(client, verdict, old(client.state)) && (verdict.Done? ==> !client.discardingBody)
    ensures go ==> |client.readBuffer| < |old(client.readBuffer)|
  {
    var request := client.request;
    ghost var p := client.Intake();
    var remaining := request.chunk.size - request.chunk.read;
    var canRead := Min(remaining, |client.readBuffer|);
    var failed := StoreOrDrop(client, canRead);
    if failed {
      return false, Done;
    }
    request.chunk := request.chunk.(read := request.chunk.read + canRead);
    go := request.chunk.read == request.chunk.size;
    if go {
      request.chunk := request.chunk.(state := Crlf);
    }
    verdict := More;
    assert request.Sound() ==> client.Intake() == Take(p, canRead).(chunk := request.chunk);
  }

  /** The CHUNK_CRLF and CHUNK_DONE cases. */
  method CrlfCase(client: Client) returns (go: bool, verdict: Verdict)
    requires client.Parsable() && (client.request.chunk.state.Crlf? || client.request.chunk.state.Last?)
    modifies client`readBuffer, client`state, client.request`chunk
    ensures (if go then Next(client.Intake()) else Stop(client.Intake(), verdict)) == ChunkStep(old(client.Intake()))
    ensures client.Parsable() && (go ==> |client.readBuffer| < |old(client.readBuffer)|) && !verdict.NullLocation?
    ensures verdict.Done? && client.discardingBody ==> client.state.ParseTooLarge?
  {
    var request := client.request;
    if |client.readBuffer| < 2 {
      return false, More;
    }
    client.readBuffer := client.readBuffer[2..];
    if request.chunk.state.Crlf? {
      request.chunk := request.chunk.(state := Size);
      return true, More;
    }
    if client.discardingBody {
      client.state := ParseTooLarge;
    }
    return false, Done;
  }

  /** `parseChunkBody`: the loop over the chunk machine. */
  method ParseChunkBody(client: Client) returns (verdict: Verdict)
    requires client.Parsable() && client.request.phase.Body?
    modifies client`readBuffer, client`discardingBody, client`state
    modifies client.request`body, client.request`bodyInDisk, client.request`bodyFdSize, client.request`chunk
    modifies client.request.bodyFile
    ensures client.request.Sound() ==> old(client.request.Sound())
    ensures client.request.Sound() ==> Parsed(client.Intake(), verdict) == ParseChunks(old(client.Intake()))
    ensures client.request.Valid() && (verdict.More? ==> client.Parsable())
    ensures Reported(client, verdict, old(client.state))
    ensures verdict.Done? && client.discardingBody ==> client.state.ParseTooLarge?
    ensures verdict.NullLocation? ==> client.request.Sound()
  {
    ghost var whole := ParseChunks(client.Intake());
    while client.readBuffer != ""
      invariant client.Parsable() && client.request.phase == old(client.request.phase)
      invariant !old(client.state.ParseError?) ==> !client.state.ParseError?
      invariant client.request.Sound() ==> old(client.request.Sound()) && ParseChunks(client.Intake()) == whole
      decreases |client.readBuffer|
    {
      var go: bool;
      match client.request.chunk.state {
        case Size => go, verdict := SizeCase(client);
        case Data => go, verdict := DataCase(client);
        case Crlf => go, verdict := CrlfCase(client);
        case Last => go, verdict := CrlfCase(client);
      }
      if !go {
        return;
      }
    }
    return More;
  }

  /** `parseRequestBody`. */
  method ParseRequestBody(client: Client) returns (verdict: Verdict)
    requires client.Parsable() && client.request.phase.Body?
    modifies client`readBuffer, client`bytesToDiscard, client`discardingBody, client`state
    modifies client.request, client.request.bodyFile
    modifies client.response`protocol, client.response`connection, client.response`range
    ensures client.request.Sound() ==> old(client.request.Sound())
    ensures client.request.Sound() ==> Parsed(client.Intake(), verdict) == ParseBody(old(client.Intake()))
    ensures client.request.Valid() && (verdict.More? ==> client.Parsable() && client.request.phase.Body?)
    ensures Reported(client, verdict, old(client.state)) && Quieted(client, verdict, old(LeftOver(client)))
    ensures verdict.NullLocation? ==> client.request.Sound()
  {
    var headers := client.request.headers;
    if "Transfer-Encoding" in headers && headers["Transfer-Encoding"] == "chunked" {
      verdict := ParseChunkBody(client);
    } else if "Content-Length" in headers {
      verdict := ParseContentLengthBody(client);
    } else {
      client.request.body := "";
      return Done;
    }
  }

  /** Decodes and matches the URI and cuts off its query. */
  method SetRequestLine(client: Client, verb: string, rawUri: string, protocol: string)
    modifies client.request`verb, client.request`uri, client.request`query, client.request`protocol,
      client.request`location
    ensures client.request.Line() == RequestLineOf(verb, rawUri, protocol, client.config)
  {
    var request := client.request;
    request.verb := verb;
    request.uri := DecodeUri(rawUri);
    request.protocol := protocol;
    request.location := GetMatchLocation(request.uri, client.config.locations);
    var fullPath := request.uri;
    var qpos := IndexOf(fullPath, "?");
    if qpos.Some? {
      request.query := fullPath[qpos.value + 1..];
      request.uri := fullPath[..qpos.value];
    } else {
      request.query := "";
    }
  }

  /** The two spaces of a request line. */
  method FindSpaces(text: string) returns (spaces: Option<(nat, nat)>)
    ensures spaces == SpacesOf(text)
  {
    var posM := IndexOf(text, " ");
    var posP := IndexOf(text, " ", if posM.Some? then posM.value + 1 else 0);
    if posM.None? || posP.None? {
      return None;
    }
    return Some((posM.value, posP.value));
  }

  /** `parseRequestLine` with `parseRequestQueries`; a line without two spaces is refused. */
  method ParseRequestLine(client: Client, requestLine: string) returns (ok: bool)
    modifies client.request`verb, client.request`uri, client.request`query, client.request`protocol,
      client.request`location
    ensures var line := ReadRequestLine(requestLine, client.config);
            ok == line.Some? && client.request.Line() == if line.Some? then line.value else old(client.request.Line())
  {
    var spaces := FindSpaces(requestLine);
    if spaces.None? {
      return false;
    }
    var (m, u) := spaces.value;
    SetRequestLine(client, requestLine[..m], requestLine[m + 1..u], requestLine[u + 1..]);
    return true;
  }

  /** Searching the buffer from `pos` is searching the block that is left. */
  lemma LineInBlock(buffer: string, headerEnd: nat, pos: nat)
    requires headerEnd + 2 <= |buffer| && pos <= headerEnd && MatchesAt(buffer, CRLF, headerEnd)
    ensures var lineEnd := IndexOf(buffer, CRLF, pos);
            lineEnd.Some? && lineEnd.value <= headerEnd
            && IndexOf(buffer[pos..headerEnd + 2], CRLF) == Some(lineEnd.value - pos)
  {
    FirstMatch(buffer, CRLF, pos);
    var lineEnd := IndexOf(buffer, CRLF, pos).value;
    IndexOfShift(buffer, CRLF, pos);
    IndexOfPrefix(buffer[pos..], CRLF, 0, lineEnd - pos, headerEnd + 2 - pos);
    assert buffer[pos..headerEnd + 2] == buffer[pos..][..headerEnd + 2 - pos];
  }

  lemma FirstLineRead(headers: map<string, string>, block: string, k: nat)
    requires IndexOf(block, CRLF) == Some(k)
    ensures ReadHeaders(headers, block) == if k == 0 then headers
      else ReadHeaders(PutHeader(headers, block[..k]), block[k + 2..])
  {
  }

  lemma BlockSlices(buffer: string, n: nat, pos: nat, lineEnd: nat)
    requires pos <= lineEnd && lineEnd + 2 <= n <= |buffer|
    ensures buffer[pos..n][..lineEnd - pos] == buffer[pos..lineEnd]
    ensures buffer[pos..n][lineEnd - pos + 2..] == buffer[lineEnd + 2..n]
  {
  }

  /** Where the next line of the block ends. */
  lemma NextLine(buffer: string, headerEnd: nat, pos: nat) returns (lineEnd: nat)
    requires headerEnd + 2 <= |buffer| && pos < headerEnd && MatchesAt(buffer, CRLF, headerEnd)
    ensures IndexOf(buffer, CRLF, pos) == Some(lineEnd) && pos <= lineEnd <= headerEnd && lineEnd + 1 != headerEnd
    ensures IndexOf(buffer[pos..headerEnd + 2], CRLF) == Some(lineEnd - pos)
  {
    LineInBlock(buffer, headerEnd, pos);
    lineEnd := IndexOf(buffer, CRLF, pos).value;
    LineEndsApart(buffer, headerEnd, lineEnd);
  }

  lemma LineTaken(headers: map<string, string>, buffer: string, n: nat, pos: nat, lineEnd: nat)
    requires pos <= lineEnd && lineEnd + 2 <= n <= |buffer| && IndexOf(buffer[pos..n], CRLF) == Some(lineEnd - pos)
    ensures ReadHeaders(headers, buffer[pos..n]) ==
            if lineEnd == pos then headers
              else ReadHeaders(PutHeader(headers, buffer[pos..lineEnd]), buffer[lineEnd + 2..n])
  {
    BlockSlices(buffer, n, pos, lineEnd);
    FirstLineRead(headers, buffer[pos..n], lineEnd - pos);
  }

  /** One round of the header loop: the line found in the buffer is the first of the block that is left. */
  lemma HeaderRound(headers: map<string, string>, buffer: string, headerEnd: nat, pos: nat) returns (lineEnd: nat)
    requires headerEnd + 2 <= |buffer| && pos < headerEnd && MatchesAt(buffer, CRLF, headerEnd)
    ensures IndexOf(buffer, CRLF, pos) == Some(lineEnd) && pos <= lineEnd <= headerEnd && lineEnd + 1 != headerEnd
    ensures ReadHeaders(headers, buffer[pos..headerEnd + 2]) ==
            if lineEnd == pos then headers
            else ReadHeaders(PutHeader(headers, buffer[pos..lineEnd]), buffer[lineEnd + 2..headerEnd + 2])
  {
    lineEnd := NextLine(buffer, headerEnd, pos);
    LineTaken(headers, buffer, headerEnd + 2, pos, lineEnd);
  }

  lemma NoMoreLines(headers: map<string, string>, block: string)
    requires block == "" || block == CRLF
    ensures ReadHeaders(headers, block) == headers
  {
    if block == CRLF {
      assert block[0..2] == CRLF;
    }
  }

  /** The CR LF pairs of a block do not overlap its end. */
  lemma LineEndsApart(buffer: string, headerEnd: nat, lineEnd: nat)
    requires MatchesAt(buffer, CRLF, headerEnd) && MatchesAt(buffer, CRLF, lineEnd)
    ensures lineEnd + 1 != headerEnd
  {
    assert buffer[lineEnd..lineEnd + 2] == CRLF && buffer[headerEnd..headerEnd + 2] == CRLF;
    assert buffer[lineEnd + 1] == CRLF[1] && buffer[headerEnd] == CRLF[0];
  }

  /** One header line: without a colon it is skipped. */
  method PutHeaderLine(request: Request, line: string)
    modifies request`headers
    ensures request.headers == PutHeader(old(request.headers), line)
  {
    var colon := IndexOf(line, ":");
    if colon.None? {
      return;
    }
    var key := FtStrTrim(line[..colon.value]);
    var value := FtStrTrim(line[colon.value + 1..]);
    request.headers := request.headers[key := value];
  }

  /** `parseRequestHeaders`: one header line per round, until the blank line. */
  method ParseRequestHeaders(client: Client, headerEnd: nat)
    requires headerEnd + 4 <= |client.readBuffer| && client.readBuffer[headerEnd..headerEnd + 4] == CRLF2
    modifies client.request`headers
    ensures client.request.headers == ReadHeaders(old(client.request.headers), client.readBuffer[..headerEnd + 2])
  {
    var request := client.request;
    var buffer := client.readBuffer;
    BlankLine(buffer, headerEnd);
    var pos := 0;
    assert buffer[0..headerEnd + 2] == buffer[..headerEnd + 2];
    while pos < headerEnd
      invariant 0 <= pos <= headerEnd + 2 && pos != headerEnd + 1
      invariant ReadHeaders(old(request.headers), buffer[..headerEnd + 2]) ==
        ReadHeaders(request.headers, buffer[pos..headerEnd + 2])
      decreases headerEnd + 2 - pos
    {
      ghost var end := HeaderRound(request.headers, buffer, headerEnd, pos);
      var lineEnd := IndexOf(buffer, CRLF, pos).value;
      if lineEnd == pos {
        return;
      }
      PutHeaderLine(request, buffer[pos..lineEnd]);
      pos := lineEnd + 2;
    }
    BlockUsedUp(request.headers, buffer, headerEnd, pos);
  }

  lemma BlankLine(buffer: string, headerEnd: nat)
    requires headerEnd + 4 <= |buffer| && buffer[headerEnd..headerEnd + 4] == CRLF2
    ensures MatchesAt(buffer, CRLF, headerEnd)
  {
    assert buffer[headerEnd..headerEnd + 2] == buffer[headerEnd..headerEnd + 4][..2] == CRLF;
  }

  lemma BlockUsedUp(headers: map<string, string>, buffer: string, headerEnd: nat, pos: nat)
    requires headerEnd + 2 <= |buffer| && MatchesAt(buffer, CRLF, headerEnd)
      && (pos == headerEnd || pos == headerEnd + 2)
    ensures ReadHeaders(headers, buffer[pos..headerEnd + 2]) == headers
  {
    NoMoreLines(headers, buffer[pos..headerEnd + 2]);
  }

  /** The START block of `parseRequestBuffer`. */
  method StartBlock(client: Client) returns (go: bool)
    requires client.Parsable() && client.request.phase.Start?
    modifies client`readBuffer, client`state
    modifies client.request`verb, client.request`uri, client.request`query, client.request`protocol,
      client.request`location
    modifies client.request`phase
    ensures (if go then Next(client.Intake()) else Stop(client.Intake(), More)) == AtStart(old(client.Intake()))
    ensures client.Parsable()
  {
    var lineEnd := IndexOf(client.readBuffer, CRLF);
    go := false;
    if lineEnd.Some? {
      go := ParseRequestLine(client, client.readBuffer[..lineEnd.value]);
    }
    if !go {
      client.state := ParseIncomplete;
      return;
    }
    client.readBuffer := client.readBuffer[lineEnd.value + 2..];
    client.request.phase := Header;
  }

  /** The HEADER block. */
  method HeaderBlock(client: Client) returns (go: bool)
    requires client.Parsable() && client.request.phase.Header?
    modifies client`readBuffer, client`state, client.request`headers, client.request`phase
    ensures (if go then Next(client.Intake()) else Stop(client.Intake(), More)) == AtHeader(old(client.Intake()))
    ensures client.Parsable()
  {
    var headerEnd := IndexOf(client.readBuffer, CRLF2);
    if headerEnd.None? {
      client.state := ParseIncomplete;
      return false;
    }
    ParseRequestHeaders(client, headerEnd.value);
    client.readBuffer := client.readBuffer[headerEnd.value + 4..];
    client.request.phase := Body;
    return true;
  }

  /** The BODY and FINISHED blocks. */
  method BodyBlock(client: Client) returns (verdict: Verdict)
    requires client.Parsable() && client.request.phase.Body?
    modifies client`readBuffer, client`bytesToDiscard, client`discardingBody, client`state
    modifies client.request, client.request.bodyFile
    modifies client.response`protocol, client.response`connection, client.response`range
    ensures client.request.Sound() ==> old(client.request.Sound())
    ensures client.request.Sound() ==> Parsed(client.Intake(), verdict) == AtBody(old(client.Intake()))
    ensures client.request.Valid() && (verdict.More? ==> client.Parsable() && client.state.ParseIncomplete?)
    ensures Reported(client, verdict, old(client.state)) && Quieted(client, verdict, old(LeftOver(client)))
    ensures verdict.NullLocation? ==> client.request.Sound()
    ensures verdict.Done? ==> client.state.ParseOk? || client.state.ParseError? || client.state.ParseTooLarge?
  {
    var request := client.request;
    verdict := ParseRequestBody(client);
    if verdict.More? {
      client.state := ParseIncomplete;
      return;
    }
    if verdict.NullLocation? {
      return;
    }
    FinishRequest(client);
  }

  /** The FINISHED block. */
  method FinishRequest(client: Client)
    modifies client`state, client.request`phase, client.request`chunk
    modifies client.response`protocol, client.response`connection, client.response`range
    ensures client.Intake() == Finish(old(client.Intake()))
  {
    client.request.phase := Finished;
    client.response.InitFromRequest(client.request.protocol, client.request.headers);
    client.request.chunk := FRESH_CHUNK;
    if client.state != ParseError && client.state != ParseTooLarge {
      client.state := ParseOk;
    }
    client.request.phase := Start;
  }

  /** `parseRequestBuffer`: every block runs as soon as the one before it is complete. */
  method ParseRequestBuffer(client: Client) returns (verdict: Verdict)
    requires client.Parsable()
    modifies client`readBuffer, client`bytesToDiscard, client`discardingBody, client`state
    modifies client.request, client.request.bodyFile
    modifies client.response`protocol, client.response`connection, client.response`range
    ensures client.request.Sound() ==> old(client.request.Sound())
    ensures client.request.Sound() ==> Parsed(client.Intake(), verdict) == Parse(old(client.Intake()))
    ensures client.request.Valid() && (verdict.More? ==> client.Parsable() && client.state.ParseIncomplete?)
    ensures Reported(client, verdict, old(client.state)) && Quieted(client, verdict, old(LeftOver(client)))
    ensures verdict.NullLocation? ==> client.request.Sound()
    ensures verdict.Done? ==> client.state.ParseOk? || client.state.ParseError? || client.state.ParseTooLarge?
  {
    var go := true;
    if client.request.phase.Start? {
      go := StartBlock(client);
      if !go {
        return More;
      }
    }
    if client.request.phase.Header? {
      go := HeaderBlock(client);
      if !go {
        return More;
      }
    }
    verdict := BodyBlock(client);
  }
}
