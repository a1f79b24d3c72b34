/**
 * A response that no CGI streams: `processWrite` runs the router again whenever the socket
 * takes bytes, so the response object may change while its text is partly out.
 */
module PlainDelivery {
  import opened ResponseModel
  import opened CgiStream

  /** One POLLOUT of the client: what the router left in the response, and what `send` took. */
  datatype Attempt = Attempt(reply: Reply, accepted: int)

  function Serve(d: Delivery, a: Attempt): Delivery {
    if d.reset then d else HandleResponse(d.(reply := a.reply), a.accepted)
  }

  function ServeAll(d: Delivery, attempts: seq<Attempt>): Delivery
    decreases |attempts|
  {
    if attempts == [] then d else ServeAll(Serve(d, attempts[0]), attempts[1..])
  }

  /** The text of the first response that was built at all. */
  function FirstAnswer(attempts: seq<Attempt>): string
    decreases |attempts|
  {
    if attempts == [] then ""
    else if ResponseText(attempts[0].reply) != "" then ResponseText(attempts[0].reply)
    else FirstAnswer(attempts[1..])
  }

  ghost predicate NoneChunked(attempts: seq<Attempt>) {
    forall i | 0 <= i < |attempts| :: !attempts[i].reply.isChunked
  }

  /** Nothing of the answer was serialized, or it was and is partly out, or it is out. */
  predicate Delivering(d: Delivery, answer: string) {
    d.sent + d.writeBuffer == answer && (d.reset ==> d.writeBuffer == "" && answer != "")
    && (!d.reset && d.writeBuffer == "" ==> answer == "")
  }

  lemma ServeKeeps(d: Delivery, a: Attempt, answer: string)
    requires Delivering(d, answer) && !a.reply.isChunked
    ensures Delivering(Serve(d, a), if answer == "" then ResponseText(a.reply) else answer)
  {
    if !d.reset {
      var p := Prepare(d.(reply := a.reply));
      assert d.writeBuffer == "" ==> d.sent + p.writeBuffer == p.writeBuffer;
      if p.writeBuffer != "" && a.accepted >= 0 {
        PlainSend(p, a.accepted);
      }
    }
  }

  lemma {:induction false} ServeAllKeeps(d: Delivery, attempts: seq<Attempt>, answer: string)
    requires Delivering(d, answer) && NoneChunked(attempts)
    ensures Delivering(ServeAll(d, attempts), if answer == "" then FirstAnswer(attempts) else answer)
    decreases |attempts|
  {
    if attempts != [] {
      ServeKeeps(d, attempts[0], answer);
      var next := if answer == "" then ResponseText(attempts[0].reply) else answer;
      ServeAllKeeps(Serve(d, attempts[0]), attempts[1..], next);
    }
  }

  /**
   * Conservation under partial and failed sends: whatever later rounds put into the response
   * object, the bytes that are out or wait are the first answer, and the client is reset
   * exactly when all of them are out.
   */
  lemma PlainResponseDelivered(d: Delivery, attempts: seq<Attempt>)
    requires d.sent == "" && d.writeBuffer == "" && !d.reset && NoneChunked(attempts)
    ensures var q := ServeAll(d, attempts); var answer := FirstAnswer(attempts);
            q.sent + q.writeBuffer == answer
            && (q.reset <==> answer != "" && q.sent == answer)
  {
    ServeAllKeeps(d, attempts, "");
    var q := ServeAll(d, attempts);
    var answer := FirstAnswer(attempts);
    assert q.writeBuffer == "" ==> q.sent + q.writeBuffer == q.sent;
    assert |q.sent| + |q.writeBuffer| == |answer|;
  }
}
