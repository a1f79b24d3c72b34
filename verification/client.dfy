/** One connection: its buffers, its request and response objects, and its socket calls. */
module Clients {
  import opened Config
  import opened BodyStore
  import opened ParserModel
  import opened ResponseModel
  import opened CgiStream
  import opened Requests
  import opened Responses

  const BUFFER_SIZE := 65536

  class Client {
    const fd: int
    const server: nat
    const config: ServerConfig
    const request: Request
    const response: Response
    var state: IoState
    var cgiPid: int
    var cgiOutputFd: int
    var bytesToDiscard: nat
    var discardingBody: bool
    var readBuffer: string
    var writeBuffer: string
    ghost var sent: string  // bytes of the current response the socket took

    constructor (fd: int, server: nat, config: ServerConfig)
      ensures this.fd == fd && this.server == server && this.config == config
      ensures Parsable() && request.Sound() && fresh(request) && fresh(request.bodyFile) && fresh(response)
      ensures Idle() && state.Reset?
      ensures Intake() == ResetRequest(Intake()) && readBuffer == "" && !discardingBody && bytesToDiscard == 0
    {
      this.fd, this.server, this.config := fd, server, config;
      request := new Request();
      response := new Response();
      state, cgiPid, cgiOutputFd := Reset, -1, -1;
      bytesToDiscard, discardingBody, readBuffer, writeBuffer, sent := 0, false, "", "", "";
    }

    ghost predicate Valid()
      reads request, request.bodyFile
    {
      request.Valid()
    }

    /** The parser may be called: the request object belongs to an incomplete request. */
    ghost predicate Parsable()
      reads this, request, request.bodyFile
    {
      Valid() && BodyInv(Intake()) && BodyFits(Intake()) && !request.phase.Finished? && !request.Refused()
    }

    /**
     * Before its body a request has fresh parsers and an empty store; from then on the store
     * obeys the buffer limit, and without a location nothing is stored.
     */
    static predicate BodyFits(p: Intake) {
      && (p.phase.Start? || p.phase.Header? ==>
            p.store == EMPTY_STORE && p.chunk == FRESH_CHUNK && p.length == FRESH_LENGTH)
      && Fits(p.store, MaxBuffer(p))
      && (p.phase.Body? && p.line.location.None? ==>
            p.store == EMPTY_STORE && !p.length.known && (p.chunk.state.Data? ==> p.discarding))
    }

    /** The value the parser's functions work on. */
    ghost function Intake(): Intake
      reads this, request, request.bodyFile
    {
      ParserModel.Intake(config, request.phase, request.Line(), request.headers, request.Stored(),
                         request.chunk, request.length, readBuffer, discardingBody, bytesToDiscard, state)
    }

    /** The write side, as the delivery machine sees it. */
    ghost function Writing(): Delivery
      reads this, response
    {
      Delivery(false, false, false, "", response.Value(), writeBuffer, sent, false, "", [])
    }

    /** Nothing of a response is under way and no CGI belongs to the client. */
    ghost predicate Idle()
      reads this, response
    {
      cgiOutputFd == -1 && writeBuffer == "" && Untouched(response.Value())
    }

    /** No builder ran on the response yet. */
    static predicate Untouched(r: Reply) {
      r.statusCode == "" && !r.isChunked && !r.headersParsed && r.chunkState.ParseHeaders? && r.outBuffer == ""
    }

    method ConsumeReadBuffer(n: nat)
      modifies this`readBuffer
      ensures readBuffer == if n >= |old(readBuffer)| then "" else old(readBuffer)[n..]
    {
      if n >= |readBuffer| {
        readBuffer := "";
      } else {
        readBuffer := readBuffer[n..];
      }
    }

    /** `read` on the socket: some bytes, the end of the stream, or an error. */
    method ReadFromClientSocket() returns (ok: bool)
      modifies this`readBuffer, this`state
      ensures ok ==> |old(readBuffer)| < |readBuffer| <= |old(readBuffer)| + BUFFER_SIZE
      ensures ok ==> Intake() == Receive(old(Intake()), readBuffer[|old(readBuffer)|..])
      ensures !ok ==> readBuffer == old(readBuffer) && (state.ReadEmpty? || state.ReadError?)
    {
      var bytesReceived: int := *;
      var bytes: string := *;
      if 0 < bytesReceived && 0 < |bytes| <= BUFFER_SIZE {
        readBuffer := readBuffer + bytes;
        state := ReadSuccess;
        assert readBuffer[|old(readBuffer)|..] == bytes;
        return true;
      } else if bytesReceived == 0 {
        state := ReadEmpty;
        return false;
      } else {
        state := ReadError;
        return false;
      }
    }

    method PrepareWriteBuffer()
      modifies this`writeBuffer, response`outBuffer
      ensures Writing() == Prepare(old(Writing()))
    {
      if writeBuffer == "" && !response.isChunked {
        var text := response.BuildResponseString();
        writeBuffer := writeBuffer + text;
      }
      if response.isChunked {
        var chunk := response.ConsumeOutBuffer();
        if chunk != "" {
          writeBuffer := writeBuffer + chunk;
        }
      }
    }

    /** `send`: any beginning of the buffer, or a failure. */
    method SendToClientSocket() returns (bytesSent: int)
      modifies this`writeBuffer, this`sent
      ensures -1 <= bytesSent <= |old(writeBuffer)|
      ensures bytesSent < 0 ==> writeBuffer == old(writeBuffer) && sent == old(sent)
      ensures bytesSent >= 0 ==>
        writeBuffer == old(writeBuffer)[bytesSent..] && sent == old(sent) + old(writeBuffer)[..bytesSent]
    {
      if writeBuffer == "" {
        assert sent + "" == sent;
        return 0;
      }
      bytesSent := *;
      if bytesSent < 0 || bytesSent > |writeBuffer| {
        return -1;
      }
      sent := sent + writeBuffer[..bytesSent];
      writeBuffer := writeBuffer[bytesSent..];
    }

    method FinalizeChunkedWrite()
      modifies response`isChunked
      ensures response.isChunked ==
              (old(response.isChunked) && !(writeBuffer == "" && response.chunkState == ChunkFinished))
    {
      if writeBuffer == "" && response.isChunked {
        if response.chunkState == ChunkFinished {
          response.MarkChunkEndDone();
        }
      }
    }

    /** `resetClientState`: read buffer and discard counters survive. */
    method ResetState()
      modifies this`state, this`writeBuffer, this`sent, request, request.bodyFile, response
      ensures Parsable() && request.Sound() && Untouched(response.Value()) && writeBuffer == "" && sent == ""
      ensures state.Reset? && Intake() == ResetRequest(old(Intake()))
    {
      state := Reset;
      writeBuffer, sent := "", "";
      request.Cleanup();
      response.Clear();
    }
  }
}
