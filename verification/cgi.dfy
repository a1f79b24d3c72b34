/** A CGI process as the event loop sees it: its output pipe and the client it answers for. */
module Cgis {
  import opened ParserModel
  import opened ResponseModel
  import opened Clients

  class Cgi {
    const outputFd: int
    const client: Client
    var outputBuffer: string
    var state: IoState
    var finished: bool
    var exitedNormally: bool

    constructor (outputFd: int, client: Client)
      ensures this.outputFd == outputFd && this.client == client && outputBuffer == "" && !finished
    {
      this.outputFd, this.client := outputFd, client;
      outputBuffer, state, finished, exitedNormally := "", Reset, false, false;
    }

    /** `readFromPipe`: some bytes, the end of the output, or nothing to read. */
    method ReadFromPipe() returns (ok: bool)
      modifies this`outputBuffer, this`state
      ensures |old(outputBuffer)| <= |outputBuffer| <= |old(outputBuffer)| + BUFFER_SIZE
      ensures outputBuffer[..|old(outputBuffer)|] == old(outputBuffer)
      ensures ok <==> outputBuffer != old(outputBuffer)
    {
      var bytesReceived: int := *;
      var bytes: string := *;
      if 0 < bytesReceived && 0 < |bytes| <= BUFFER_SIZE {
        outputBuffer := outputBuffer + bytes;
        state := ReadSuccess;
        return true;
      }
      state := if bytesReceived == 0 then CgiCompleted else ReadError;
      return false;
    }

    /** `hasFinished`: once the process was reaped, its exit status stays. */
    method HasFinished() returns (r: bool)
      modifies this`finished, this`exitedNormally
      ensures r == finished && (old(finished) ==> finished && exitedNormally == old(exitedNormally))
    {
      if finished {
        return true;
      }
      finished := *;
      if finished {
        exitedNormally := *;
      }
      r := finished;
    }

    method AppendOutputToResponse(date: string)
      modifies this`outputBuffer, client.response
      ensures CgiStep(client.response.Value(), outputBuffer) ==
        AppendMiddle(old(client.response.Value()), old(outputBuffer), date)
    {
      outputBuffer := client.response.AppendCgiChunk(outputBuffer, false, date);
    }

    method AppendFinalOutputToResponse(date: string)
      modifies this`outputBuffer, client.response
      ensures CgiStep(client.response.Value(), outputBuffer) ==
        AppendFinal(old(client.response.Value()), old(outputBuffer), date)
    {
      outputBuffer := client.response.AppendCgiChunk(outputBuffer, true, date);
    }
  }
}
