/**
 * The event loop: a poll vector swept by index while its handlers register and remove
 * entries, a client map and a CGI map.
 */
module EventProcessors {
  import opened Wrappers
  import opened Config
  import opened ParserModel
  import opened ResponseModel
  import CgiStream
  import opened Responses
  import opened Clients
  import opened Cgis
  import opened Registry
  import RequestParser
  import Fragmentation

  datatype Events = Events(pollIn: bool, pollOut: bool)

  datatype Revents = Revents(readable: bool, writable: bool, hangup: bool, error: bool)

  datatype PollFd = PollFd(fd: int, events: Events, revents: Revents)

  /** Why the invariant ended: a request that dereferences a null location, or a launch over an answer. */
  datatype Loss =
    | NullDereference(before: Intake, bytes: string)
    | LaunchedOver(reply: Reply, waiting: string)

  ghost predicate Genuine(l: Loss) {
    match l
    case NullDereference(before, bytes) =>
      bytes != "" && BodyInv(before) && Parse(Receive(before, bytes)).verdict.NullLocation?
    case LaunchedOver(reply, waiting) => reply.statusCode != "" || waiting != ""
  }

  const POLLIN := Events(true, false)
  const POLLOUT := Events(false, true)
  const NOTHING := Revents(false, false, false, false)

  /** What `poll` may report about an entry: only what was asked for, or a failure. */
  predicate Polled(p: PollFd) {
    (p.revents.readable ==> p.events.pollIn) && (p.revents.writable ==> p.events.pollOut)
  }

  /** Refused requests get a configured page, which keeps the connection if the request asked for it. */
  predicate KeepsRefused(config: ServerConfig) {
    HTTP_PAYLOAD.code in config.pages
  }

  /** A client that waits for a request, but for what an earlier one may have left over. */
  ghost predicate Waits(c: Client)
    reads c, c.request, c.request.bodyFile, c.response
  {
    c.Parsable() && c.Idle()
    && (c.state.Reset? || c.state.ReadSuccess? || c.state.ReadError? || c.state.ReadEmpty? || c.state.ParseIncomplete?)
  }

  /**
   * A client that waits for a request: the parser may run, no answer is under way, and no
   * discard is left over, unless refused requests may keep their connection.
   */
  ghost predicate Listening(c: Client)
    reads c, c.request, c.request.bodyFile, c.response
  {
    Waits(c) && (RequestParser.LeftOver(c) ==> KeepsRefused(c.config))
  }

  /** The chunk machine of a response that is not over. */
  predicate ReplyShape(r: Reply) {
    (r.isChunked <==> !r.chunkState.ParseHeaders?) && (!r.isChunked ==> r.outBuffer == "" && !r.headersParsed)
  }

  /** A client whose answer is under way: the request is complete and stays as it is. */
  ghost predicate Answering(c: Client)
    reads c, c.request, c.request.bodyFile, c.response
  {
    c.Valid() && ReplyShape(c.response.Value())
    && (c.state.ParseOk? || c.state.ParseError? || c.state.ParseTooLarge? || c.state.CgiJustStarted?
      || c.state.CgiCompleted?)
    && (c.cgiOutputFd == -1 ==> !c.state.CgiJustStarted?)
    && (c.cgiOutputFd != -1 ==> (c.state.CgiJustStarted? || c.state.CgiCompleted?) && Unfinished(c))
    && (!c.state.CgiJustStarted? && !c.state.CgiCompleted? ==> !c.response.isChunked)
    && DiscardKnown(c)
  }

  /** A discard that a complete request leaves means that it was refused, or that one before it was. */
  predicate DiscardKnown(c: Client)
    reads c
  {
    c.discardingBody ==> c.state.ParseTooLarge? || KeepsRefused(c.config)
  }

  /** While the script lives its response is either untouched or an open stream. */
  ghost predicate Unfinished(c: Client)
    reads c, c.response
  {
    if c.response.isChunked then c.response.chunkState.StreamBody?
    else Client.Untouched(c.response.Value()) && c.writeBuffer == ""
  }

  /** Half duplex: an entry asks for input or for output, never both, and its client agrees. */
  ghost predicate HalfDuplex(c: Client, events: Events)
    reads c, c.request, c.request.bodyFile, c.response
  {
    (events == POLLIN && Listening(c)) || (events == POLLOUT && Answering(c))
  }

  /** Framing in the middle leaves an untouched or streaming response in one of these two shapes. */
  lemma MiddleShape(r: Reply, buffer: string, date: string)
    requires ReplyShape(r) && (Client.Untouched(r) || r.chunkState.StreamBody?)
    ensures var q := AppendMiddle(r, buffer, date).reply;
            ReplyShape(q) && (if q.isChunked then q.chunkState.StreamBody? else q == r)
  {
    if !r.isChunked && Separator(buffer).Some? {
      var h := CgiStream.OpenIs(r, buffer, date);
      CgiStream.StartStreamIs(WithCgiHead(r, h), date);
    }
  }

  /** Sending keeps the shape of a response that is not out yet. */
  lemma HandleResponseShape(d: CgiStream.Delivery, accepted: int)
    requires ReplyShape(d.reply) && !d.reset
    ensures var q := CgiStream.HandleResponse(d, accepted);
            !q.reset ==> ReplyShape(q.reply) && q.reply.isChunked == d.reply.isChunked
  {
  }

  /** A client whose script lives is never reset. */
  lemma UnfinishedStays(d: CgiStream.Delivery, accepted: int)
    requires ReplyShape(d.reply) && !d.reset
    requires if d.reply.isChunked then d.reply.chunkState.StreamBody?
      else Client.Untouched(d.reply) && d.writeBuffer == ""
    ensures var q := CgiStream.HandleResponse(d, accepted);
            !q.reset && if q.reply.isChunked then q.reply.chunkState.StreamBody?
              else Client.Untouched(q.reply) && q.writeBuffer == ""
  {
  }

  lemma FinalShape(r: Reply, buffer: string, date: string)
    requires ReplyShape(r) && (Client.Untouched(r) || r.chunkState.StreamBody?)
    ensures var q := AppendFinal(r, buffer, date).reply; ReplyShape(q) && q.isChunked && q.chunkState.ChunkFinished?
  {
    if !r.isChunked {
      CgiStream.StartStreamIs(BuildResponse(r, HTTP_OK, "", date), date);
    }
  }

  type Outside = CgiStream.Outside

  /** What `handleCgiIO` makes of a response, given the script's unframed output and whether it is over. */
  function CgiAnswer(r: Reply, output: string, over: bool, succeeded: bool, o: Outside): Reply {
    if !over then AppendMiddle(r, output, o.date).reply
    else if !succeeded then BuildErrorResponse(r, HTTP_SERVER_ERR, o.page, o.date)
    else
      var m := AppendMiddle(r, output, o.date);
      AppendFinal(CgiStream.WithCookie(m.reply, o.cookie), m.buffer, o.date).reply
  }

  /** Two deliveries whose write sides are at the same point. */
  predicate SameWriteSide(d: CgiStream.Delivery, e: CgiStream.Delivery) {
    d.reply == e.reply && d.writeBuffer == e.writeBuffer && d.sent == e.sent && d.reset == e.reset
  }

  lemma PrepareSame(d: CgiStream.Delivery, e: CgiStream.Delivery)
    requires SameWriteSide(d, e)
    ensures SameWriteSide(CgiStream.Prepare(d), CgiStream.Prepare(e))
  {
  }

  lemma SendSame(d: CgiStream.Delivery, e: CgiStream.Delivery, accepted: nat)
    requires SameWriteSide(d, e)
    ensures SameWriteSide(CgiStream.Send(d, accepted), CgiStream.Send(e, accepted))
  {
    assert (if accepted < |d.writeBuffer| then accepted else |d.writeBuffer|) ==
      (if accepted < |e.writeBuffer| then accepted else |e.writeBuffer|);
  }

  /** What `handleResponse` leaves on the write side depends on the write side only. */
  lemma WriteSideOnly(d: CgiStream.Delivery, e: CgiStream.Delivery, accepted: int)
    requires SameWriteSide(d, e)
    ensures SameWriteSide(CgiStream.HandleResponse(d, accepted), CgiStream.HandleResponse(e, accepted))
  {
    PrepareSame(d, e);
    if accepted >= 0 {
      SendSame(CgiStream.Prepare(d), CgiStream.Prepare(e), accepted);
    }
  }

  /** The handlers take the steps of the delivery machine: one POLLOUT is one `Writable` event. */
  lemma HandlersDeliver(d: CgiStream.Delivery, accepted: int, o: Outside)
    requires d.live && !d.reset
    ensures var r := CgiAnswer(d.reply, d.pipe, d.exited, d.succeeded, o);
            SameWriteSide(CgiStream.Step(d, CgiStream.Writable(accepted, o)),
              CgiStream.HandleResponse(d.(reply := r), accepted))
  {
    var r := CgiAnswer(d.reply, d.pipe, d.exited, d.succeeded, o);
    CgiIoIs(d, o);
    WriteSideOnly(CgiStream.CgiIo(d, o), d.(reply := r), accepted);
  }

  lemma MiddleIs(d: CgiStream.Delivery, date: string)
    ensures var q := CgiStream.FrameMiddle(d, date); var m := AppendMiddle(d.reply, d.pipe, date);
            q.reply == m.reply && q.pipe == m.buffer && q.writeBuffer == d.writeBuffer && q.sent == d.sent
              && q.reset == d.reset
  {
  }

  lemma CgiIoIs(d: CgiStream.Delivery, o: Outside)
    requires d.live && !d.reset
    ensures SameWriteSide(CgiStream.CgiIo(d, o), d.(reply := CgiAnswer(d.reply, d.pipe, d.exited, d.succeeded, o)))
  {
    MiddleIs(d, o.date);
  }

  /** What a visit did to the vector: its own entry, one pipe behind it, one new pipe. */
  datatype Visit = Visit(removed: bool, gone: nat, added: nat)

  /** The vector without the pipe at `gone`, if that lies behind `index`. */
  function WithoutPipe<T>(before: seq<T>, index: nat, gone: nat): (after: seq<T>)
    ensures index < |before| ==> index < |after|
  {
    if index < gone < |before| then Erase(before, gone) else before
  }

  /** One visit of the entry at `index`, on the vector or on the identities. */
  ghost predicate Visited<T>(v: Visit, before: seq<T>, after: seq<T>, index: nat, entry: T) {
    index < |before| && v.added <= 1
    && after == (if v.removed then Erase(WithoutPipe(before, index, v.gone), index)
      else WithoutPipe(before, index, v.gone))
                + (if v.added == 1 then [entry] else [])
  }

  /** The next index to visit. */
  function NextIndex(v: Visit, index: nat): nat {
    if v.removed then index else index + 1
  }

  /** Where the entry at `j` stood before the visit. */
  function Source(v: Visit, index: nat, total: nat, j: nat): nat {
    var shifted := if v.removed then j + 1 else j;
    if index < v.gone < total && shifted >= v.gone then shifted + 1 else shifted
  }

  /** A visit leaves everything below it alone, and everything behind it stems from behind it or is new. */
  lemma VisitedTail<T>(v: Visit, before: seq<T>, after: seq<T>, index: nat, entry: T)
    requires Visited(v, before, after, index, entry)
    ensures NextIndex(v, index) <= |after| && after[..index] == before[..index]
    ensures !v.removed ==> after[index] == before[index]
    ensures forall j | NextIndex(v, index) <= j < |after| - v.added ::
      index < Source(v, index, |before|, j) < |before| && after[j] == before[Source(v, index, |before|, j)]
    ensures v.added == 1 ==> after[|after| - 1] == entry && NextIndex(v, index) < |after|
  {
    var w := WithoutPipe(before, index, v.gone);
    assert w[..index] == before[..index];
    forall j | NextIndex(v, index) <= j < |after| - v.added
      ensures index < Source(v, index, |before|, j) < |before| && after[j] == before[Source(v, index, |before|, j)]
    {
      var j1 := if v.removed then j + 1 else j;
      if v.removed { ErasedAt(w, index, j); }
      assert after[j] == w[j1];
      if index < v.gone < |before| { ErasedAt(before, v.gone, j1); }
    }
  }

  lemma VisitUpdate<T>(v: Visit, before: seq<T>, after: seq<T>, index: nat, entry: T, e: T)
    requires Visited(v, before, after, index, entry) && !v.removed && index < |after|
    ensures Visited(v, before[index := e], after[index := e], index, entry)
  {
    var w := WithoutPipe(before, index, v.gone);
    if index < v.gone < |before| {
      assert Erase(before[index := e], v.gone) == Erase(before, v.gone)[index := e];
    }
    assert (w + (if v.added == 1 then [entry] else []))[index := e] ==
      w[index := e] + (if v.added == 1 then [entry] else []);
  }

  lemma VisitClose<T>(v: Visit, before: seq<T>, after: seq<T>, index: nat, entry: T, e: T)
    requires Visited(v, before, after, index, entry) && !v.removed && v.added == 0 && index < |after|
    ensures Visited(v.(removed := true), before, Erase(after[index := e], index), index, entry)
    ensures Visited(v.(removed := true), before, Erase(after, index), index, entry)
  {
    assert Erase(after[index := e], index) == Erase(after, index);
    assert Erase(after, index) + [] == Erase(after, index);
  }

  /** The client entries from `index` on. */
  ghost function FdsFrom(entries: seq<PollFd>, clients: set<int>, index: nat): set<int> {
    set j | index <= j < |entries| && entries[j].fd in clients :: entries[j].fd
  }

  ghost predicate DistinctFds(entries: seq<PollFd>) {
    forall i, j | 0 <= i < j < |entries| :: entries[i].fd != entries[j].fd
  }

  /** Visiting a client leaves fewer clients to visit, whatever was registered or removed. */
  lemma VisitedClients(v: Visit, before: seq<PollFd>, after: seq<PollFd>, index: nat, entry: PollFd,
                       clients: set<int>, later: set<int>)
    requires Visited(v, before, after, index, entry) && DistinctFds(before) && before[index].fd in clients
    requires later <= clients && (v.added == 1 ==> entry.fd !in later)
    ensures FdsFrom(after, later, NextIndex(v, index)) < FdsFrom(before, clients, index)
  {
    VisitedTail(v, before, after, index, entry);
    var next := NextIndex(v, index);
    forall fd | fd in FdsFrom(after, later, next)
      ensures fd in FdsFrom(before, clients, index) && fd != before[index].fd
    {
      var j :| next <= j < |after| && after[j].fd in later && after[j].fd == fd;
      assert j < |after| - v.added;
      assert after[j] == before[Source(v, index, |before|, j)];
    }
    assert before[index].fd in FdsFrom(before, clients, index);
  }

  lemma VisitedPolled(v: Visit, before: seq<PollFd>, after: seq<PollFd>, index: nat, entry: PollFd)
    requires Visited(v, before, after, index, entry) && (v.added == 1 ==> Polled(entry))
    requires forall j | index < j < |before| :: Polled(before[j])
    ensures forall j | NextIndex(v, index) <= j < |after| :: Polled(after[j])
  {
    VisitedTail(v, before, after, index, entry);
    forall j | NextIndex(v, index) <= j < |after| ensures Polled(after[j]) {
      if j < |after| - v.added {
        assert after[j] == before[Source(v, index, |before|, j)];
      }
    }
  }

  /** The entries before `index` were seen, each once, and none from `index` on was. */
  ghost predicate SeenBelow(ids: seq<nat>, seen: seq<nat>, first: nat, index: nat) {
    Distinct(seen)
    && (forall j | first <= j < |ids| && j < index :: ids[j] in seen)
    && (forall j | index <= j < |ids| :: ids[j] !in seen)
  }

  lemma VisitedIds(v: Visit, before: seq<nat>, after: seq<nat>, index: nat, nextId: nat, seen: seq<nat>, first: nat)
    requires Visited(v, before, after, index, nextId) && Distinct(before) && first <= index
    requires (forall j | 0 <= j < |before| :: before[j] < nextId) && (forall j | 0 <= j < |seen| :: seen[j] < nextId)
    requires SeenBelow(before, seen, first, index)
    ensures SeenBelow(after, seen + [before[index]], first, NextIndex(v, index))
  {
    VisitedTail(v, before, after, index, nextId);
    var next := NextIndex(v, index);
    var seen' := seen + [before[index]];
    forall j | first <= j < |after| && j < next ensures after[j] in seen' {
      if j < index {
        assert after[j] == after[..index][j] == before[..index][j] == before[j];
      }
    }
    forall j | next <= j < |after| ensures after[j] !in seen' {
      if j < |after| - v.added {
        assert after[j] == before[Source(v, index, |before|, j)];
      } else {
        assert after[j] == nextId;
      }
    }
  }

  /** The vector, its identities and the client map at one moment of the sweep. */
  datatype Board = Board(entries: seq<PollFd>, ids: seq<nat>, clients: set<int>, nextId: nat)

  /** No descriptor and no identity stands in the vector twice. */
  ghost predicate Unique(b: Board) {
    && |b.entries| == |b.ids| && DistinctFds(b.entries) && Distinct(b.ids)
    && forall j | 0 <= j < |b.ids| :: b.ids[j] < b.nextId
  }

  /** The entries from `index` on are freshly polled and were not visited yet; those below were. */
  ghost predicate Awaiting(b: Board, index: nat, seen: seq<nat>, first: nat) {
    && first <= index <= |b.entries|
    && (forall j | index <= j < |b.entries| :: Polled(b.entries[j]))
    && (forall j | 0 <= j < |seen| :: seen[j] < b.nextId)
    && SeenBelow(b.ids, seen, first, index)
  }

  /** What the visit of a client's entry does to the board. */
  ghost predicate ClientVisited(v: Visit, b: Board, a: Board, index: nat, entry: PollFd) {
    && index < |b.entries| == |b.ids| && |a.entries| == |a.ids| && b.nextId <= a.nextId
    && (v.added == 1 ==> entry.events == POLLIN && entry.revents == NOTHING && b.nextId < a.nextId)
    && (!v.removed ==> index < |a.entries| && a.entries[index].fd == b.entries[index].fd)
    && Visited(v, if v.removed then b.entries else b.entries[index := a.entries[index]], a.entries, index, entry)
    && Visited(v, b.ids, a.ids, index, b.nextId)
    && a.clients == if v.removed then b.clients - {b.entries[index].fd} else b.clients
  }

  /** The visited entry changes once more. */
  lemma ThenUpdate(v: Visit, b: Board, m: Board, a: Board, index: nat, entry: PollFd)
    requires ClientVisited(v, b, m, index, entry) && !v.removed
    requires |a.entries| == |m.entries| && a.entries == m.entries[index := a.entries[index]]
    requires a.entries[index].fd == m.entries[index].fd && a.ids == m.ids && a.clients == m.clients
      && a.nextId == m.nextId
    ensures ClientVisited(v, b, a, index, entry)
  {
    var before := b.entries[index := m.entries[index]];
    VisitUpdate(v, before, m.entries, index, entry, a.entries[index]);
    assert before[index := a.entries[index]] == b.entries[index := a.entries[index]];
  }

  /** The visited client is removed after all. */
  lemma ThenClose(v: Visit, b: Board, m: Board, a: Board, index: nat, entry: PollFd)
    requires ClientVisited(v, b, m, index, entry) && !v.removed && v.added == 0
    requires a.entries == Erase(m.entries, index) && a.ids == Erase(m.ids, index) && a.nextId == m.nextId
    requires a.clients == m.clients - {b.entries[index].fd}
    ensures ClientVisited(v.(removed := true), b, a, index, entry)
  {
    var e := m.entries[index];
    VisitUpdate(v, b.entries[index := e], m.entries, index, entry, b.entries[index]);
    assert b.entries[index := e][index := b.entries[index]] == b.entries;
    var restored := m.entries[index := b.entries[index]];
    VisitClose(v, b.entries, restored, index, entry, e);
    assert restored[index := e] == m.entries;
    VisitClose(v, b.ids, m.ids, index, b.nextId, m.ids[index]);
  }

  /** The client is removed before it was served, and its pipe with it. */
  lemma ClientDropped(b: Board, a: Board, index: nat, k: nat, entry: PollFd)
    requires index < |b.entries| == |b.ids| && a.nextId == b.nextId
    requires a.entries == Erase(WithoutPipe(b.entries, index, k), index)
      && a.ids == Erase(WithoutPipe(b.ids, index, k), index)
    requires a.clients == b.clients - {b.entries[index].fd}
    ensures ClientVisited(Visit(true, k, 0), b, a, index, entry)
  {
    assert a.entries + [] == a.entries && a.ids + [] == a.ids;
  }

  /** Nothing happened yet. */
  lemma VisitBegins(b: Board, index: nat, entry: PollFd)
    requires index < |b.entries| == |b.ids|
    ensures ClientVisited(Visit(false, 0, 0), b, b, index, entry)
  {
    assert b.ids + [] == b.ids && b.entries[index := b.entries[index]] == b.entries && b.entries + [] == b.entries;
  }

  /**
   * What a visit of `index` does for the sweep: nothing below changed, no client is new, the
   * entries to come are freshly polled and unseen, and fewer clients, or else fewer entries,
   * are to come.
   */
  ghost predicate Progress(b: Board, a: Board, index: nat, next: nat, seen: seq<nat>, first: nat) {
    && index < |b.entries| == |b.ids| && index <= next <= |a.entries| == |a.ids|
    && a.entries[..index] == b.entries[..index] && a.ids[..index] == b.ids[..index]
    && a.clients <= b.clients && b.nextId <= a.nextId
    && Awaiting(a, next, seen + [b.ids[index]], first)
    && (FdsFrom(a.entries, a.clients, next) < FdsFrom(b.entries, b.clients, index)
        || (FdsFrom(a.entries, a.clients, next) == FdsFrom(b.entries, b.clients, index)
            && |a.entries| - next < |b.entries| - index))
  }

  lemma FdsSame(p: seq<PollFd>, q: seq<PollFd>, clients: set<int>, index: nat)
    requires |p| == |q| && forall j | 0 <= j < |p| :: p[j].fd == q[j].fd
    ensures FdsFrom(p, clients, index) == FdsFrom(q, clients, index)
  {
    forall fd ensures fd in FdsFrom(p, clients, index) <==> fd in FdsFrom(q, clients, index) {
      if j: nat :| index <= j < |p| && p[j].fd in clients && p[j].fd == fd {
        assert q[j].fd in FdsFrom(q, clients, index);
      }
      if j: nat :| index <= j < |q| && q[j].fd in clients && q[j].fd == fd {
        assert p[j].fd in FdsFrom(p, clients, index);
      }
    }
  }

  lemma ClientProgress(v: Visit, b: Board, a: Board, index: nat, entry: PollFd, seen: seq<nat>, first: nat)
    requires Unique(b) && Awaiting(b, index, seen, first) && ClientVisited(v, b, a, index, entry)
    requires b.entries[index].fd in b.clients && (v.added == 1 ==> entry.fd !in a.clients)
    ensures Progress(b, a, index, NextIndex(v, index), seen, first)
  {
    var before := if v.removed then b.entries else b.entries[index := a.entries[index]];
    VisitedTail(v, before, a.entries, index, entry);
    VisitedTail(v, b.ids, a.ids, index, b.nextId);
    VisitedPolled(v, before, a.entries, index, entry);
    VisitedIds(v, b.ids, a.ids, index, b.nextId, seen, first);
    VisitedClients(v, before, a.entries, index, entry, b.clients, a.clients);
    FdsSame(b.entries, before, b.clients, index);
    assert before[..index] == b.entries[..index];
  }

  lemma PipeProgress(b: Board, index: nat, seen: seq<nat>, first: nat)
    requires Unique(b) && Awaiting(b, index, seen, first) && index < |b.entries| && b.entries[index].fd !in b.clients
    ensures Progress(b, b, index, index + 1, seen, first)
  {
    assert b.ids + [] == b.ids;
    VisitedIds(Visit(false, 0, 0), b.ids, b.ids, index, b.nextId, seen, first);
    assert FdsFrom(b.entries, b.clients, index) == FdsFrom(b.entries, b.clients, index + 1);
  }

  /** For every pipe the descriptor of the client it answers. */
  function Owners(cgis: map<int, Cgi>): map<int, int> {
    map k | k in cgis :: cgis[k].client.fd
  }

  lemma OwnersAdd(cgis: map<int, Cgi>, k: int, cgi: Cgi)
    ensures Owners(cgis[k := cgi]) == Owners(cgis)[k := cgi.client.fd]
  {
  }

  lemma OwnersRemove(cgis: map<int, Cgi>, k: int)
    ensures Owners(cgis - {k}) == Owners(cgis) - {k}
  {
  }

  function Fds(entries: seq<PollFd>): seq<int> {
    seq(|entries|, i requires 0 <= i < |entries| => entries[i].fd)
  }

  lemma FdsErase(entries: seq<PollFd>, k: nat)
    requires k < |entries|
    ensures Fds(Erase(entries, k)) == Erase(Fds(entries), k)
  {
  }

  lemma FdsAppend(entries: seq<PollFd>, e: PollFd)
    ensures Fds(entries + [e]) == Fds(entries) + [e.fd]
  {
  }

  lemma FdsUpdate(entries: seq<PollFd>, i: nat, e: PollFd)
    requires i < |entries| && e.fd == entries[i].fd
    ensures Fds(entries[i := e]) == Fds(entries)
  {
  }

  class EventProcessor {
    const listeners: seq<int>
    const configs: seq<ServerConfig>
    var sockets: seq<PollFd>
    var clients: map<int, Client>
    var cgis: map<int, Cgi>
    var addresses: seq<set<int>>  // keys of every server's address map
    var open: set<int>            // the descriptors the loop owns in the kernel
    var lost: bool                // a null location was dereferenced, or a script launched over an answer
    ghost var ids: seq<nat>       // identity of every entry, also when a descriptor is reused
    ghost var nextId: nat
    ghost var repr: set<object>   // every object the handlers may update
    ghost var loss: Option<Loss>  // what `lost` is about

    ghost function Table(): Table
      reads this`sockets, this`clients, this`cgis
    {
      Registry.Table(listeners, Fds(sockets), clients.Keys,
                     Owners(cgis))
    }

    /** A client's pipe, if it has one, is a CGI of its own. */
    ghost predicate ClientLinks()
      reads this`clients, this`cgis, (set fd | fd in clients :: clients[fd])`cgiOutputFd
    {
      forall fd | fd in clients ::
        && clients[fd].fd == fd && clients[fd].server < |listeners|
        && (clients[fd].cgiOutputFd != -1 ==>
              clients[fd].cgiOutputFd in cgis && cgis[clients[fd].cgiOutputFd].client == clients[fd])
    }

    /** A CGI belongs to a live client whose pipe it is. */
    ghost predicate CgiLinks()
      reads this`clients, this`cgis, (set fd | fd in clients :: clients[fd])`cgiOutputFd
    {
      forall k | k in cgis ::
        && k >= 0 && cgis[k].outputFd == k
        && cgis[k].client.fd in clients && clients[cgis[k].client.fd] == cgis[k].client
        && cgis[k].client.cgiOutputFd == k
    }

    /** No two clients share an object. */
    ghost predicate Apart()
      reads this`clients
    {
      forall a, b | a in clients && b in clients && a != b ::
        clients[a].request != clients[b].request && clients[a].request.bodyFile != clients[b].request.bodyFile
        && clients[a].response != clients[b].response
    }

    /** The kernel holds exactly the registered descriptors. */
    ghost predicate Kernel()
      reads this`sockets, this`open
    {
      forall fd :: fd in open <==> fd in Fds(sockets)
    }

    /** Every address map holds its listener and its server's clients. */
    ghost predicate Addressed()
      reads this`clients, this`addresses
    {
      && |addresses| == |listeners| == |configs|
      && forall s, fd | 0 <= s < |listeners| ::
           fd in addresses[s] <==> fd == listeners[s] || (fd in clients && clients[fd].server == s)
    }

    /** Identities are unique and parallel to the vector. */
    ghost predicate Identified()
      reads this`sockets, this`ids, this`nextId
    {
      |ids| == |sockets| && Distinct(ids) && forall i | 0 <= i < |ids| :: ids[i] < nextId
    }

    ghost predicate Structure()
      reads this`sockets, this`clients, this`cgis, this`open, this`addresses, this`ids, this`nextId,
        (set fd | fd in clients :: clients[fd])`cgiOutputFd
    {
      Consistent(Table()) && ClientLinks() && CgiLinks() && Apart() && Kernel() && Addressed() && Identified()
    }

    /** The clients and the objects they own. */
    ghost function ClientObjects(): set<object>
      reads this`clients
    {
      (set fd | fd in clients :: clients[fd]) + (set fd | fd in clients :: clients[fd].request)
      + (set fd | fd in clients :: clients[fd].request.bodyFile) + (set fd | fd in clients :: clients[fd].response)
    }

    /** One entry keeps the protocol. */
    ghost predicate EntryKeeps(p: PollFd)
      reads this`clients, this`cgis, ClientObjects()
    {
      (p.fd in clients ==> HalfDuplex(clients[p.fd], p.events)) && (p.fd in cgis ==> p.events == POLLIN)
    }

    /** Every entry but the one at `except` keeps the protocol. */
    ghost predicate KeptBut(entries: seq<PollFd>, except: int)
      reads this`clients, this`cgis, ClientObjects()
    {
      forall i | |listeners| <= i < |entries| && i != except :: EntryKeeps(entries[i])
    }

    /** The registry invariant. */
    ghost predicate Valid()
      reads this, ClientObjects()
    {
      Structure() && Held() && (!lost ==> KeptBut(sockets, -1)) && LossKnown()
    }

    /** The invariant is lost if and only if a genuine loss was noted. */
    ghost predicate LossKnown()
      reads this`lost, this`loss
    {
      (lost <==> loss.Some?) && (loss.Some? ==> Genuine(loss.value))
    }

    /** Every object a handler may update is among `repr`. */
    ghost predicate Held()
      reads this`clients, this`cgis, this`repr
    {
      && this !in repr
      && (forall fd | fd in clients ::
        {clients[fd], clients[fd].request, clients[fd].request.bodyFile, clients[fd].response} <= repr)
      && (forall p | p in cgis :: cgis[p] in repr)
    }

    ghost function Now(): Board
      reads this`sockets, this`ids, this`clients, this`nextId
    {
      Board(sockets, ids, clients.Keys, nextId)
    }

    /** Between two states, no CGI was replaced by another that already existed. */
    twostate predicate SameCgis()
      reads this
    {
      forall p | p in cgis :: (p in old(cgis) && cgis[p] == old(cgis)[p]) || fresh(cgis[p])
    }

    constructor (listeners: seq<int>, configs: seq<ServerConfig>)
      requires Distinct(listeners) && |listeners| == |configs|
      ensures Valid() && this.listeners == listeners && !lost
    {
      this.listeners, this.configs := listeners, configs;
      sockets := seq(|listeners|, i requires 0 <= i < |listeners| => PollFd(listeners[i], POLLIN, NOTHING));
      clients, cgis, lost, loss := map[], map[], false, None;
      addresses := seq(|listeners|, i requires 0 <= i < |listeners| => {listeners[i]});
      open := set fd | fd in listeners;
      ids, nextId, repr := seq(|listeners|, i => i), |listeners|, {};
      new;
      assert Table().fds == listeners;
      assert Table().fds[|listeners|..] == [];
    }

    // ------------------------------------------------------------- CGI entries

    /** Between two states, no other client's pipe changed. */
    twostate predicate OnlyPipeOf(c: Client)
      reads this, set fd | fd in clients :: clients[fd]
    {
      unchanged(this`clients) && forall fd | fd in clients && clients[fd] != c ::
        clients[fd].cgiOutputFd == old(clients[fd].cgiOutputFd)
    }

    twostate lemma RegisterLinks(cgi: Cgi)
      requires old(ClientLinks() && CgiLinks()) && OnlyPipeOf(cgi.client) && cgi.outputFd >= 0
        && cgi.outputFd !in old(cgis)
      requires cgi.client.fd in clients && clients[cgi.client.fd] == cgi.client && old(cgi.client.cgiOutputFd) == -1
      requires cgi.client.cgiOutputFd == cgi.outputFd && cgis == old(cgis)[cgi.outputFd := cgi]
      ensures ClientLinks() && CgiLinks()
    {
    }

    twostate lemma RegisterTable(cgi: Cgi)
      requires old(Structure()) && unchanged(this`clients)
        && sockets == old(sockets) + [PollFd(cgi.outputFd, POLLIN, NOTHING)]
      requires cgi.client.fd in clients && clients[cgi.client.fd] == cgi.client && old(cgi.client.cgiOutputFd) == -1
      requires cgis == old(cgis)[cgi.outputFd := cgi] && cgi.outputFd !in old(open)
      ensures Consistent(Table()) && cgi.outputFd !in old(cgis)
    {
      var t := old(Table());
      forall p | p in t.owner ensures t.owner[p] != cgi.client.fd {
        assert old(cgis)[p].client.fd == t.owner[p];
      }
      AddPipe(t, cgi.outputFd, cgi.client.fd);
      NotRegistered(t, cgi.outputFd);
      FdsAppend(old(sockets), PollFd(cgi.outputFd, POLLIN, NOTHING));
      OwnersAdd(old(cgis), cgi.outputFd, cgi);
      assert Table() == t.(fds := t.fds + [cgi.outputFd], owner := t.owner[cgi.outputFd := cgi.client.fd]);
    }

    /** What only the client map and the address maps decide. */
    twostate lemma SameClients()
      requires old(Apart() && Addressed()) && unchanged(this`clients, this`addresses)
      ensures Apart() && Addressed()
    {
    }

    /** A descriptor that was opened and registered. */
    twostate lemma KernelGrows(e: PollFd)
      requires old(Kernel()) && sockets == old(sockets) + [e] && open == old(open) + {e.fd}
      ensures Kernel()
    {
      FdsAppend(old(sockets), e);
    }

    /** A descriptor that was erased and closed. */
    twostate lemma KernelShrinks(k: nat)
      requires old(Kernel() && Consistent(Table())) && k < |old(sockets)| && sockets == Erase(old(sockets), k)
      requires open == old(open) - {old(sockets)[k].fd}
      ensures Kernel()
    {
      FdsErase(old(sockets), k);
      EraseDistinct(old(Table()).fds, k);
    }

    /** What `registerCgi` and `launchCgi` write. */
    method WritePipe(cgi: Cgi, pid: int)
      modifies this`sockets, this`cgis, this`open, this`ids, this`nextId, cgi.client`cgiPid, cgi.client`cgiOutputFd
      ensures cgi.client.cgiOutputFd == cgi.outputFd && cgi.client.cgiPid == pid
      ensures cgis == old(cgis)[cgi.outputFd := cgi] && open == old(open) + {cgi.outputFd}
      ensures sockets == old(sockets) + [PollFd(cgi.outputFd, POLLIN, NOTHING)]
      ensures ids == old(ids) + [old(nextId)] && nextId == old(nextId) + 1
    {
      cgi.client.cgiPid := pid;
      cgi.client.cgiOutputFd := cgi.outputFd;
      open := open + {cgi.outputFd};
      cgis := cgis[cgi.outputFd := cgi];
      sockets := sockets + [PollFd(cgi.outputFd, POLLIN, NOTHING)];
      ids, nextId := ids + [nextId], nextId + 1;
    }

    /** Registering a pipe of a client without one keeps the registry. */
    twostate lemma RegisterKeeps(cgi: Cgi)
      requires old(Structure()) && OnlyPipeOf(cgi.client) && cgi.outputFd >= 0 && cgi.outputFd !in old(open)
      requires cgi.client.fd in clients && clients[cgi.client.fd] == cgi.client && old(cgi.client.cgiOutputFd) == -1
      requires cgi.client.cgiOutputFd == cgi.outputFd && cgis == old(cgis)[cgi.outputFd := cgi]
      requires sockets == old(sockets) + [PollFd(cgi.outputFd, POLLIN, NOTHING)] && unchanged(this`addresses)
      requires open == old(open) + {cgi.outputFd} && ids == old(ids) + [old(nextId)] && nextId == old(nextId) + 1
      ensures Structure()
    {
      RegisterTable(cgi);
      RegisterLinks(cgi);
      SameClients();
      KernelGrows(PollFd(cgi.outputFd, POLLIN, NOTHING));
      JoinIds();
    }

    /** `registerCgi`, with the two client fields `launchCgi` sets just before it. */
    method RegisterCgi(cgi: Cgi, pid: int)
      requires Structure() && cgi.outputFd >= 0 && cgi.outputFd !in open
      requires cgi.client.fd in clients && clients[cgi.client.fd] == cgi.client && cgi.client.cgiOutputFd == -1
      modifies this`sockets, this`cgis, this`open, this`ids, this`nextId, cgi.client`cgiPid, cgi.client`cgiOutputFd
      ensures Structure()
      ensures cgi.client.cgiOutputFd == cgi.outputFd && cgi.client.cgiPid == pid
      ensures cgis == old(cgis)[cgi.outputFd := cgi]
      ensures sockets == old(sockets) + [PollFd(cgi.outputFd, POLLIN, NOTHING)]
      ensures ids == old(ids) + [old(nextId)] && nextId == old(nextId) + 1
    {
      WritePipe(cgi, pid);
      RegisterKeeps(cgi);
    }

    twostate lemma CleanupLinks(cgi: Cgi)
      requires old(ClientLinks() && CgiLinks()) && OnlyPipeOf(cgi.client)
      requires cgi.outputFd in old(cgis) && old(cgis)[cgi.outputFd] == cgi
      requires cgi.client.cgiOutputFd == -1 && cgis == old(cgis) - {cgi.outputFd}
      ensures ClientLinks() && CgiLinks()
    {
    }

    twostate lemma CleanupTable(k: nat)
      requires old(Structure())
      requires unchanged(this`clients) && k < |old(sockets)| && sockets == Erase(old(sockets), k)
      requires old(sockets)[k].fd in old(cgis) && cgis == old(cgis) - {old(sockets)[k].fd}
      ensures Consistent(Table())
    {
      var t := old(Table());
      Registry.ErasePipe(t, k);
      FdsErase(old(sockets), k);
      OwnersRemove(old(cgis), t.fds[k]);
      assert Table() == t.(fds := Erase(t.fds, k), owner := t.owner - {t.fds[k]});
    }

    twostate lemma EraseIds(k: nat)
      requires old(Identified()) && k < |old(sockets)| && sockets == Erase(old(sockets), k) && ids == Erase(old(ids), k)
      requires nextId == old(nextId)
      ensures Identified()
      ensures forall id :: id in ids <==> id in old(ids) && id != old(ids)[k]
    {
      EraseDistinct(old(ids), k);
      forall i | 0 <= i < |ids| ensures ids[i] < nextId {
        ErasedAt(old(ids), k, i);
      }
    }

    /** `close`: only a descriptor the loop still owns may be closed, so none is closed twice. */
    method Close(fd: int)
      requires fd in open
      modifies this`open
      ensures open == old(open) - {fd}
    {
      open := open - {fd};
    }

    /** A pipe's entry comes after its owner's, wherever both are. */
    lemma OwnerBefore(k: nat)
      requires Structure() && k < |sockets| && sockets[k].fd in cgis
      ensures forall i | 0 <= i < |sockets| && sockets[i].fd == cgis[sockets[k].fd].client.fd :: |listeners| <= i < k
    {
      var t := Table();
      forall i: nat | i < |sockets| && sockets[i].fd == cgis[sockets[k].fd].client.fd ensures |listeners| <= i < k {
        assert t.fds[k] in t.owner && t.fds[i] == t.owner[t.fds[k]];
        EntryKind(t, i);
      }
    }

    /** What `cleanupCgi` writes once it found the entry. */
    method ErasePipe(cgi: Cgi, k: nat)
      requires k < |sockets| == |ids| && cgi.outputFd in open
      modifies this`sockets, this`cgis, this`open, this`ids, cgi.client`cgiPid, cgi.client`cgiOutputFd
      ensures cgi.client.cgiOutputFd == -1 && cgi.client.cgiPid == -1
      ensures sockets == Erase(old(sockets), k) && ids == Erase(old(ids), k)
      ensures cgis == old(cgis) - {cgi.outputFd} && open == old(open) - {cgi.outputFd}
    {
      sockets := Erase(sockets, k);
      ids := Erase(ids, k);
      cgis := cgis - {cgi.outputFd};
      cgi.client.cgiPid := -1;
      cgi.client.cgiOutputFd := -1;
      Close(cgi.outputFd);
    }

    /** Removing a pipe keeps the registry. */
    twostate lemma CleanupKeeps(cgi: Cgi)
      requires old(Structure()) && OnlyPipeOf(cgi.client) && unchanged(this`addresses, this`nextId)
      requires cgi.outputFd in old(cgis) && old(cgis)[cgi.outputFd] == cgi && cgi.client.cgiOutputFd == -1
      requires cgis == old(cgis) - {cgi.outputFd} && open == old(open) - {cgi.outputFd}
      requires exists k: nat :: IsErasedAt(k) && old(sockets)[k].fd == cgi.outputFd
      ensures Structure()
    {
      var k: nat :| IsErasedAt(k) && old(sockets)[k].fd == cgi.outputFd;
      CleanupTable(k);
      CleanupLinks(cgi);
      SameClients();
      KernelShrinks(k);
      EraseIds(k);
    }

    /** The entry at `k` is gone, from the vector and from the identities. */
    twostate predicate IsErasedAt(k: nat)
      reads this
    {
      k < |old(sockets)| == |old(ids)| && sockets == Erase(old(sockets), k) && ids == Erase(old(ids), k)
    }

    /** The search loop of `cleanupCgi`. */
    method FindPipe(cgi: Cgi) returns (i: nat)
      requires Structure() && cgi.outputFd in cgis && cgis[cgi.outputFd] == cgi
      ensures i < |sockets| == |ids| && sockets[i].fd == cgi.outputFd && cgi.outputFd in open
      ensures forall j | 0 <= j < |sockets| && sockets[j].fd == cgi.client.fd :: |listeners| <= j < i
    {
      ghost var k := PipeIndex(cgi.outputFd);
      OwnerBefore(k);
      i := 0;
      while sockets[i].fd != cgi.outputFd
        invariant i <= k
        invariant forall j | 0 <= j < i :: sockets[j].fd != cgi.outputFd
        decreases k - i
      {
        i := i + 1;
      }
      OneEntry(i, k);
    }

    /** `cleanupCgi`: the pipe's entry, found by its descriptor, goes first; then map, client, object. */
    method CleanupCgi(cgi: Cgi) returns (ghost k: nat)
      requires Structure() && cgi.outputFd in cgis && cgis[cgi.outputFd] == cgi
      modifies this`sockets, this`cgis, this`open, this`ids, cgi.client`cgiPid, cgi.client`cgiOutputFd
      ensures Structure()
      ensures cgi.client.cgiOutputFd == -1 && cgi.client.cgiPid == -1
      ensures cgis == old(cgis) - {cgi.outputFd}
      ensures k < |old(sockets)| == |old(ids)| && old(sockets)[k].fd == cgi.outputFd
      ensures sockets == Erase(old(sockets), k) && ids == Erase(old(ids), k)
      ensures forall i | 0 <= i < |old(sockets)| && old(sockets)[i].fd == cgi.client.fd :: |listeners| <= i < k
    {
      var i := FindPipe(cgi);
      k := i;
      ErasePipe(cgi, i);
      assert IsErasedAt(k);
      CleanupKeeps(cgi);
    }

    lemma PipeIndex(fd: int) returns (k: nat)
      requires Structure() && fd in cgis
      ensures |listeners| <= k < |sockets| && sockets[k].fd == fd && fd in open
    {
      k := IndexOfKey(Table(), fd);
      assert Table().fds[k] == sockets[k].fd;
    }

    lemma OneEntry(i: nat, k: nat)
      requires Consistent(Table()) && i <= k < |sockets| && sockets[i].fd == sockets[k].fd
      ensures i == k
    {
      assert Table().fds[i] == Table().fds[k];
    }

    // --------------------------------------------------------- removing clients

    twostate lemma DropTable(k: nat)
      requires old(Structure()) && k < |old(sockets)| && sockets == Erase(old(sockets), k) && unchanged(this`cgis)
      requires old(sockets)[k].fd in old(clients) && clients == old(clients) - {old(sockets)[k].fd}
      requires old(clients[sockets[k].fd].cgiOutputFd) == -1
      ensures Consistent(Table())
    {
      var t := old(Table());
      var fd := old(sockets)[k].fd;
      forall p | p in t.owner ensures t.owner[p] != fd {
        assert old(cgis)[p].client.fd == t.owner[p];
      }
      Registry.EraseClient(t, k);
      FdsErase(old(sockets), k);
      assert Table() == t.(fds := Erase(t.fds, k), clients := t.clients - {fd});
    }

    twostate lemma DropLinks(fd: int)
      requires old(ClientLinks() && CgiLinks() && Apart()) && fd in old(clients) && clients == old(clients) - {fd}
        && unchanged(this`cgis)
      requires old(clients[fd].cgiOutputFd) == -1
      requires forall d | d in clients :: clients[d].cgiOutputFd == old(clients[d].cgiOutputFd)
      ensures ClientLinks() && CgiLinks() && Apart()
    {
    }

    twostate lemma DropAddress(fd: int)
      requires old(Addressed() && ClientLinks()) && fd in old(clients) && clients == old(clients) - {fd}
      requires addresses == old(addresses)[old(clients)[fd].server := old(addresses)[old(clients)[fd].server] - {fd}]
      requires fd !in listeners
      ensures Addressed()
    {
    }

    lemma ClientEntry(index: nat)
      requires Structure() && index < |sockets| && sockets[index].fd in clients
      ensures |listeners| <= index && sockets[index].fd !in cgis && sockets[index].fd !in listeners
      ensures sockets[index].fd in open
    {
      var t := Table();
      assert t.fds[index] == sockets[index].fd;
      EntryKind(t, index);
      forall i | 0 <= i < |listeners| ensures listeners[i] != sockets[index].fd {
        assert t.fds[i] == t.fds[..|listeners|][i];
        assert t.fds[i] != t.fds[index];
      }
    }

    /** What removing the client at `index` writes. */
    method EraseClient(index: nat, server: nat)
      requires index < |sockets| == |ids| && sockets[index].fd in open && server < |addresses|
      modifies this`sockets, this`clients, this`addresses, this`open, this`ids
      ensures clients == old(clients) - {old(sockets)[index].fd} && IsErasedAt(index)
      ensures open == old(open) - {old(sockets)[index].fd}
      ensures addresses == old(addresses)[server := old(addresses)[server] - {old(sockets)[index].fd}]
    {
      var fd := sockets[index].fd;
      addresses := addresses[server := addresses[server] - {fd}];
      clients := clients - {fd};
      sockets := Erase(sockets, index);
      ids := Erase(ids, index);
      Close(fd);
    }

    /** Removing a client without a pipe keeps the registry. */
    twostate lemma DropKeeps(index: nat)
      requires old(Structure()) && IsErasedAt(index) && unchanged(this`cgis, this`nextId)
      requires old(sockets)[index].fd in old(clients) && old(sockets)[index].fd !in listeners
      requires clients == old(clients) - {old(sockets)[index].fd} && open == old(open) - {old(sockets)[index].fd}
      requires old(clients[sockets[index].fd].cgiOutputFd) == -1
      requires forall d | d in clients :: clients[d].cgiOutputFd == old(clients[d].cgiOutputFd)
      requires var server := old(clients)[old(sockets)[index].fd].server;
               server < |old(addresses)|
               && addresses == old(addresses)[server := old(addresses)[server] - {old(sockets)[index].fd}]
      ensures Structure()
    {
      DropTable(index);
      DropLinks(old(sockets)[index].fd);
      DropAddress(old(sockets)[index].fd);
      KernelShrinks(index);
      EraseIds(index);
    }

    /** Address map, client map, vector and kernel let go of a client without a CGI. */
    method DropClient(index: nat)
      requires Structure() && index < |sockets| && sockets[index].fd in clients
      requires clients[sockets[index].fd].cgiOutputFd == -1
      modifies this`sockets, this`clients, this`addresses, this`open, this`ids
      ensures Structure() && clients == old(clients) - {old(sockets)[index].fd}
      ensures |old(ids)| == |old(sockets)| && sockets == Erase(old(sockets), index) && ids == Erase(old(ids), index)
    {
      ClientEntry(index);
      EraseClient(index, clients[sockets[index].fd].server);
      DropKeeps(index);
    }

    /** The CGI of a client, if it has one, goes before the client. */
    method DropWithCgi(index: nat, client: Client) returns (ghost k: nat)
      requires Structure() && index < |sockets| && sockets[index].fd in clients && clients[sockets[index].fd] == client
      modifies this`sockets, this`clients, this`cgis, this`addresses, this`open, this`ids
      modifies client`cgiPid, client`cgiOutputFd
      ensures Structure() && clients == old(clients) - {old(sockets)[index].fd}
      ensures old(client.cgiOutputFd) == -1 ==> k == 0 && unchanged(this`cgis)
      ensures forall p | p in cgis :: p in old(cgis) && cgis[p] == old(cgis)[p]
      ensures |old(ids)| == |old(sockets)| && sockets == Erase(WithoutPipe(old(sockets), index, k), index)
        && ids == Erase(WithoutPipe(old(ids), index, k), index)
      ensures index < k < |old(sockets)| ==> old(sockets)[k].fd in old(cgis) && old(sockets)[k].fd !in cgis
    {
      k := 0;
      if client.cgiOutputFd != -1 {
        k := CleanupCgi(cgis[client.cgiOutputFd]);
        ErasedAt(old(sockets), k, index);
      }
      DropClient(index);
    }

    /** `closeClientConnection`. */
    method CloseClientConnection(index: nat, client: Client) returns (ghost k: nat)
      requires Structure() && index < |sockets| && sockets[index].fd in clients && clients[sockets[index].fd] == client
      modifies this`sockets, this`clients, this`cgis, this`addresses, this`open, this`ids
      modifies client`cgiPid, client`cgiOutputFd
      ensures Structure() && clients == old(clients) - {old(sockets)[index].fd}
      ensures old(client.cgiOutputFd) == -1 ==> k == 0 && unchanged(this`cgis)
      ensures forall p | p in cgis :: p in old(cgis) && cgis[p] == old(cgis)[p]
      ensures |old(ids)| == |old(sockets)| && sockets == Erase(WithoutPipe(old(sockets), index, k), index)
        && ids == Erase(WithoutPipe(old(ids), index, k), index)
      ensures index < k < |old(sockets)| ==> old(sockets)[k].fd in old(cgis) && old(sockets)[k].fd !in cgis
    {
      k := DropWithCgi(index, client);
    }

    // ------------------------------------------------------------ answering

    /** Changing what an entry asks for is no registry change. */
    method SetEvents(index: nat, events: Events)
      requires Structure() && index < |sockets|
      modifies this`sockets
      ensures Structure() && sockets == old(sockets)[index := old(sockets)[index].(events := events)]
    {
      FdsUpdate(sockets, index, sockets[index].(events := events));
      sockets := sockets[index := sockets[index].(events := events)];
      assert Table() == old(Table());
    }

    /** Nothing was built, and nothing waits to be sent. */
    ghost predicate Unanswered(client: Client)
      reads client, client.response
    {
      client.response.statusCode == "" && client.writeBuffer == ""
    }

    /** Until the response is chunked there is nothing to send if and only if nothing was built or waits. */
    static lemma NothingToSendIff(client: Client)
      requires !client.response.isChunked
      ensures CgiStream.Prepare(client.Writing()).writeBuffer == "" <==>
              client.response.statusCode == "" && client.writeBuffer == ""
    {
    }

    /** The client calls of `handleResponse`; `tried` is false when there was nothing to send. */
    method PushOut(client: Client) returns (tried: bool, accepted: int, done: bool)
      modifies client`writeBuffer, client`sent, client.response`outBuffer, client.response`isChunked
      ensures client.Writing().(reset := done) == CgiStream.HandleResponse(old(client.Writing()), accepted)
      ensures done ==> tried && accepted >= 0
      ensures !tried || accepted < 0 ==> !done
      ensures tried <==> CgiStream.Prepare(old(client.Writing())).writeBuffer != ""
    {
      ghost var d := client.Writing();
      client.PrepareWriteBuffer();
      tried, accepted, done := false, 0, false;
      if client.writeBuffer == "" {
        return;
      }
      tried := true;
      ghost var p := client.Writing();
      accepted := client.SendToClientSocket();
      if accepted < 0 {
        return;
      }
      client.FinalizeChunkedWrite();
      assert client.Writing() == CgiStream.Send(p, accepted);
      done := client.writeBuffer == "" && !client.response.isChunked;
    }

    /** A request that leaves a discard over is answered with a response that closes its connection. */
    ghost predicate Closes(client: Client)
      reads client, client.response
    {
      client.discardingBody ==> KeepsRefused(client.config) || client.response.ShouldCloseConnection()
    }

    /** Sends, and resets a client whose response is out. */
    method SendAndReset(client: Client) returns (tried: bool, accepted: int, done: bool, close: bool)
      requires InAnswer(client)
      modifies client`writeBuffer, client`sent, client`state, client.request, client.request.bodyFile, client.response
      ensures done == CgiStream.HandleResponse(old(client.Writing()), accepted).reset
      ensures !done ==> client.Writing() == CgiStream.HandleResponse(old(client.Writing()), accepted)
      ensures (done ==> tried && accepted >= 0 && Waits(client)) && (close ==> done)
      ensures done ==> close == old(client.response.ShouldCloseConnection())
      ensures done && !close ==> Listening(client)
      ensures tried <==> CgiStream.Prepare(old(client.Writing())).writeBuffer != ""
      ensures !done ==> Answering(client) && client.state == old(client.state)
      ensures !done ==> client.response.isChunked == old(client.response.isChunked)
    {
      ghost var d := client.Writing();
      tried, accepted, done := PushOut(client);
      close := false;
      HandleResponseShape(d, accepted);
      if client.cgiOutputFd != -1 {
        UnfinishedStays(d, accepted);
      }
      if done {
        close := client.response.ShouldCloseConnection();
        client.ResetState();
      }
    }

    /** What `handleResponse` asks of `poll` next. */
    static function NextEvents(events: Events, sent: int, done: bool, close: bool): Events {
      if sent < 0 then POLLOUT
      else if !done then events.(pollOut := true)
      else if close then events else POLLIN
    }

    /** `handleResponse`; `reset` says that the whole response is out. */
    method HandleResponse(index: nat, client: Client) returns (close: bool, ghost reset: bool, ghost accepted: int)
      requires Structure() && index < |sockets| && sockets[index].events == POLLOUT
      requires InAnswer(client)
      modifies this`sockets, client`writeBuffer, client`sent, client`state, client.request, client.request.bodyFile,
        client.response
      ensures Structure() && |sockets| == |old(sockets)|
      ensures sockets == old(sockets)[index := old(sockets)[index].(events := sockets[index].events)]
      ensures reset == CgiStream.HandleResponse(old(client.Writing()), accepted).reset
      ensures !reset ==> client.Writing() == CgiStream.HandleResponse(old(client.Writing()), accepted)
      ensures (close ==> reset) && (reset ==> close == old(client.response.ShouldCloseConnection()) && Waits(client))
      ensures CgiStream.Prepare(old(client.Writing())).writeBuffer == "" ==> unchanged(this`sockets)
      ensures reset && !close ==> Listening(client) && sockets[index].events == POLLIN
      ensures !reset ==> sockets[index].events == POLLOUT && Answering(client) && client.state == old(client.state)
      ensures !reset ==> client.response.isChunked == old(client.response.isChunked)
    {
      var tried, bytesSent, done;
      tried, bytesSent, done, close := SendAndReset(client);
      reset, accepted := done, bytesSent;
      if tried {
        SetEvents(index, NextEvents(sockets[index].events, bytesSent, done, close));
      }
    }

    /**
     * The page of an error response: a configured one, if it can be read, else a generated one.
     * A request for a range gets a part of a page, or the generated page of what went wrong.
     */
    method FindPage(client: Client, status: Status) returns (page: PageSource)
      ensures status.code !in client.config.pages ==> page.Generated?
      ensures client.response.range.None? ==> page.Generated? || page.Configured?
    {
      var text: string := *;
      var readable: bool := *;
      if !readable || status.code !in client.config.pages {
        return Generated(text);
      }
      var contentType: string := *;
      if client.response.range.None? {
        return Configured(text, contentType);
      }
      var accepted: bool := *;
      var refusal: RangeRefusal := *;
      return if accepted then ConfiguredRange(text, contentType) else RangeRefused(refusal, text);
    }

    /** `buildErrorResponse` as a whole. */
    method AnswerError(client: Client, status: Status)
      requires ReplyShape(client.response.Value()) && !client.response.isChunked && status.code != ""
      modifies client.response
      ensures ReplyShape(client.response.Value()) && !client.response.isChunked && client.response.statusCode != ""
      ensures old(client.response.range).None? || status.code !in client.config.pages ==>
        client.response.statusCode == status.code
      ensures status.code !in client.config.pages && (status.code[0] == '4' || status.code[0] == '5') ==>
        client.response.ShouldCloseConnection()
    {
      var page := FindPage(client, status);
      var date: string := *;
      client.response.BuildErrorResponse(status, page, date);
    }

    /** `handleCgiIO` for a script that lives. */
    method StreamCgi(client: Client, cgi: Cgi) returns (ghost o: Outside)
      requires cgi.client == client && Answering(client) && client.cgiOutputFd != -1
      modifies cgi`outputBuffer, client.response
      ensures InAnswer(client)
      ensures CgiStep(client.response.Value(), cgi.outputBuffer) ==
        AppendMiddle(old(client.response.Value()), old(cgi.outputBuffer), o.date)
    {
      var date: string := *;
      o := CgiStream.Outside(date, Generated(""), None);
      MiddleShape(client.response.Value(), cgi.outputBuffer, date);
      cgi.AppendOutputToResponse(date);
    }

    /** `handleCgiIO` for a script that ended well: the rest of its output and the terminator. */
    method FinishCgi(client: Client, cgi: Cgi) returns (ghost o: Outside)
      requires cgi.client == client && ReplyShape(client.response.Value()) && Unfinished(client)
      modifies cgi`outputBuffer, client.response
      ensures ReplyShape(client.response.Value())
      ensures client.response.Value() ==
        CgiAnswer(old(client.response.Value()), old(cgi.outputBuffer), true, true, o)
    {
      var date: string := *;
      var cookie: Option<string> := *;
      o := CgiStream.Outside(date, Generated(""), cookie);
      MiddleShape(client.response.Value(), cgi.outputBuffer, date);
      cgi.AppendOutputToResponse(date);
      if cookie.Some? {
        client.response.AddToHeader("Set-Cookie", cookie.value);
      }
      FinalShape(client.response.Value(), cgi.outputBuffer, date);
      cgi.AppendFinalOutputToResponse(date);
    }

    /** `handleCgiIO` for a script that is over. */
    method CompleteCgi(client: Client, cgi: Cgi) returns (ghost o: Outside)
      requires cgi.client == client && ReplyShape(client.response.Value()) && Unfinished(client)
      modifies cgi`outputBuffer, client.response
      ensures ReplyShape(client.response.Value())
      ensures client.response.Value() ==
        CgiAnswer(old(client.response.Value()), old(cgi.outputBuffer), true, cgi.exitedNormally, o)
    {
      if cgi.exitedNormally {
        o := FinishCgi(client, cgi);
      } else {
        var date: string := *;
        var page := FindPage(client, HTTP_SERVER_ERR);
        o := CgiStream.Outside(date, page, None);
        client.response.BuildErrorResponse(HTTP_SERVER_ERR, page, date);
      }
    }

    /** The response after `handleCgiIO`: a client without a CGI keeps its own. */
    ghost function CgiReply(client: Client, o: Outside): Reply
      reads this`cgis, client, client.response, if client.cgiOutputFd in cgis then {cgis[client.cgiOutputFd]} else {}
    {
      if client.cgiOutputFd !in cgis then client.response.Value()
      else
        var cgi := cgis[client.cgiOutputFd];
        CgiAnswer(client.response.Value(), cgi.outputBuffer, client.state.CgiCompleted?, cgi.exitedNormally, o)
    }

    /** A client whose script is over and gone is still being answered. */
    lemma StillInAnswer(client: Client)
      requires client.Valid() && ReplyShape(client.response.Value()) && client.cgiOutputFd == -1
      requires client.state.CgiCompleted? && DiscardKnown(client)
      ensures InAnswer(client)
    {
    }

    /** `handleCgiIO` for a script that is over: its last output, or an error page, and the clean-up. */
    method EndCgi(index: nat, client: Client, cgi: Cgi) returns (ghost v: Visit, ghost o: Outside)
      requires Structure() && index < |sockets| && sockets[index].fd in clients && clients[sockets[index].fd] == client
      requires cgi.outputFd in cgis && cgis[cgi.outputFd] == cgi && cgi.client == client
      requires ReplyShape(client.response.Value()) && Unfinished(client) && client.Valid()
      requires client.state.CgiCompleted? && DiscardKnown(client)
      modifies this`sockets, this`cgis, this`open, this`ids, client`cgiPid, client`cgiOutputFd, client.response
      modifies cgi`outputBuffer
      ensures Structure() && SameCgis() && !v.removed && v.added == 0
      ensures ClientVisited(v, old(Now()), Now(), index, old(sockets)[index]) && sockets[index] == old(sockets)[index]
      ensures InAnswer(client) && client.cgiOutputFd == -1 && cgi.outputFd !in cgis
      ensures client.response.Value() ==
        CgiAnswer(old(client.response.Value()), old(cgi.outputBuffer), true, old(cgi.exitedNormally), o)
    {
      ghost var entry, b := sockets[index], Now();
      o := CompleteCgi(client, cgi);
      ghost var k := CleanupCgi(cgi);
      v := Visit(false, k, 0);
      PipeDropped(b, Now(), index, k, entry);
      StillInAnswer(client);
    }

    /** `handleCgiIO`: the script's output joins the response, and a script that is over is cleaned up. */
    method HandleCgiIO(index: nat, client: Client) returns (ghost v: Visit, ghost o: Outside)
      requires Structure() && index < |sockets| && sockets[index].fd in clients && clients[sockets[index].fd] == client
      requires Answering(client) && InCgi(client.state)
      modifies this`sockets, this`cgis, this`open, this`ids, client`cgiPid, client`cgiOutputFd, client.response
      modifies set p | p in cgis :: cgis[p]
      ensures Structure() && SameCgis() && !v.removed && v.added == 0
      ensures ClientVisited(v, old(Now()), Now(), index, old(sockets)[index]) && sockets[index] == old(sockets)[index]
      ensures client.response.Value() == old(CgiReply(client, o)) && InAnswer(client)
      ensures client.cgiOutputFd == if client.state.CgiJustStarted? then old(client.cgiOutputFd) else -1
    {
      v, o := Visit(false, 0, 0), CgiStream.Outside("", Generated(""), None);
      VisitBegins(Now(), index, sockets[index]);
      if client.cgiOutputFd !in cgis {
        StillInAnswer(client);
        return;
      }
      var cgi := cgis[client.cgiOutputFd];
      if client.state == CgiJustStarted {
        o := StreamCgi(client, cgi);
      } else {
        v, o := EndCgi(index, client, cgi);
      }
    }

    /**
     * `launchCgi`, given what `pipe` and `fork` gave: a descriptor that is not open yet, or a
     * failure. A launch keeps the protocol if and only if nothing was built and nothing waits.
     */
    method LaunchCgi(client: Client, fd: int, pid: int) returns (launched: bool)
      requires Structure() && client.fd in clients && clients[client.fd] == client && client.cgiOutputFd == -1
      requires client.Valid() && ReplyShape(client.response.Value()) && !client.response.isChunked
      requires client.state.ParseOk? && DiscardKnown(client)
      modifies this`sockets, this`cgis, this`open, this`ids, this`nextId
      modifies client`cgiPid, client`cgiOutputFd, client`state, client.response
      ensures launched <==> fd >= 0 && fd !in old(open)
      ensures Structure() && client.Valid() && ReplyShape(client.response.Value()) && !client.response.isChunked
      ensures !launched ==> unchanged(this`sockets, this`ids, this`cgis, this`nextId)
      ensures !launched ==> client.cgiOutputFd == -1 && client.state == old(client.state)
      ensures !launched ==> client.response.statusCode != ""
      ensures !launched && HTTP_SERVER_ERR.code !in client.config.pages ==>
        client.response.statusCode == HTTP_SERVER_ERR.code
      ensures launched ==>
        client.cgiOutputFd in cgis && cgis == old(cgis)[client.cgiOutputFd := cgis[client.cgiOutputFd]]
      ensures launched ==> fresh(cgis[client.cgiOutputFd]) && client.cgiOutputFd == fd
      ensures launched ==> sockets == old(sockets) + [PollFd(fd, POLLIN, NOTHING)] && fd !in old(cgis)
      ensures launched ==> ids == old(ids) + [old(nextId)] && nextId == old(nextId) + 1
      ensures launched ==> client.state.CgiJustStarted? && client.response.Value() == old(client.response.Value())
      ensures launched ==> (HalfDuplex(client, POLLOUT) <==> old(Unanswered(client)))
    {
      if fd < 0 || fd in open {
        AnswerError(client, HTTP_SERVER_ERR);
        return false;
      }
      var cgi := new Cgi(fd, client);
      assert fd !in cgis by { PipesOpen(fd); }
      RegisterCgi(cgi, pid);
      client.state := CgiJustStarted;
      LaunchedKeepsIff(client);
      return true;
    }

    /** Right behind its launch a script is part of the protocol if and only if nothing was built or waits. */
    static lemma LaunchedKeepsIff(client: Client)
      requires client.Valid() && ReplyShape(client.response.Value()) && !client.response.isChunked
      requires client.state.CgiJustStarted? && client.cgiOutputFd != -1 && DiscardKnown(client)
      ensures HalfDuplex(client, POLLOUT) <==> client.response.statusCode == "" && client.writeBuffer == ""
    {
    }

    /** A launch that fails and one that succeeds at the next POLLOUT: the protocol is lost. */
    method FailedThenLaunched(client: Client, fd: int, pid: int)
      requires Structure() && client.fd in clients && clients[client.fd] == client
      requires Answering(client) && client.state.ParseOk? && Unanswered(client) && fd >= 0 && fd !in open
      modifies this`sockets, this`cgis, this`open, this`ids, this`nextId
      modifies client`cgiPid, client`cgiOutputFd, client`state, client.response
      ensures client.state.CgiJustStarted? && client.cgiOutputFd == fd && client.response.statusCode != ""
      ensures !HalfDuplex(client, POLLOUT) && CgiStream.Prepare(client.Writing()).writeBuffer != ""
    {
      var first := LaunchCgi(client, -1, pid);
      var second := LaunchCgi(client, fd, pid);
      NothingToSendIff(client);
    }

    lemma PipesOpen(fd: int)
      requires Structure() && fd !in open
      ensures fd !in cgis && fd !in clients
    {
      NotRegistered(Table(), fd);
    }

    /** Any answer of the router that is not a CGI: a status, a body and more headers. */
    method AnswerPlainly(response: Response)
      requires ReplyShape(response.Value()) && !response.isChunked
      modifies response
      ensures ReplyShape(response.Value()) && !response.isChunked
    {
      var status: Status := *;
      var body: string := *;
      var date: string := *;
      response.BuildResponse(status, body, date);
      var extra: seq<(string, string)> := *;
      for i := 0 to |extra|
        invariant ReplyShape(response.Value()) && !response.isChunked
      {
        response.AddToHeader(extra[i].0, extra[i].1);
      }
    }

    /** `processRequest`: an error page for a failed request, else the router, which runs again on every POLLOUT. */
    method ProcessRequest(client: Client) returns (launched: bool)
      requires Structure() && client.fd in clients && clients[client.fd] == client
      requires Answering(client) && !client.state.CgiJustStarted? && !client.state.CgiCompleted?
      modifies this`sockets, this`cgis, this`open, this`ids, this`nextId
      modifies client`cgiPid, client`cgiOutputFd, client`state, client.response
      ensures Structure() && client.Valid() && ReplyShape(client.response.Value()) && !client.response.isChunked
      ensures !launched ==> unchanged(this`sockets, this`ids, this`cgis, this`nextId)
      ensures !launched ==> client.cgiOutputFd == -1 && client.state == old(client.state)
      ensures SameCgis() && (launched ==> client.cgiOutputFd in cgis)
      ensures launched ==> sockets == old(sockets) + [PollFd(client.cgiOutputFd, POLLIN, NOTHING)]
      ensures launched ==> ids == old(ids) + [old(nextId)] && nextId == old(nextId) + 1
      ensures launched ==> client.state.CgiJustStarted? && client.response.Value() == old(client.response.Value())
      ensures launched ==> old(client.state).ParseOk? && (HalfDuplex(client, POLLOUT) <==> old(Unanswered(client)))
      ensures old(client.state).ParseTooLarge? && (old(client.response.range).None? || !KeepsRefused(client.config)) ==>
        client.response.statusCode == HTTP_PAYLOAD.code
      ensures old(client.state).ParseError? && HTTP_SERVER_ERR.code !in client.config.pages ==>
        client.response.statusCode == HTTP_SERVER_ERR.code
      ensures !launched ==> Closes(client)
    {
      launched := false;
      if client.state != ParseOk {
        AnswerError(client, if client.state == ParseTooLarge then HTTP_PAYLOAD else HTTP_SERVER_ERR);
        return;
      }
      var launch: bool := *;
      var answered: bool := *;
      if launch {
        var fd: int := *;
        var pid: int := *;
        launched := LaunchCgi(client, fd, pid);
      } else if answered {
        AnswerPlainly(client.response);
      }
    }

    /** The pipe's entry behind the client's is gone. */
    static lemma PipeDropped(b: Board, a: Board, index: nat, k: nat, entry: PollFd)
      requires index < |b.entries| == |b.ids| && a.clients == b.clients && a.nextId == b.nextId
      requires a.entries == WithoutPipe(b.entries, index, k) && a.ids == WithoutPipe(b.ids, index, k)
      ensures ClientVisited(Visit(false, k, 0), b, a, index, entry)
    {
      assert b.entries[index := a.entries[index]] == b.entries;
      assert a.entries + [] == a.entries && a.ids + [] == a.ids;
    }

    /** A pipe's entry is new. */
    static lemma PipeAdded(b: Board, a: Board, index: nat, entry: PollFd)
      requires index < |b.entries| == |b.ids| && a.clients == b.clients && a.nextId == b.nextId + 1
      requires entry == PollFd(entry.fd, POLLIN, NOTHING)
      requires a.entries == b.entries + [entry] && a.ids == b.ids + [b.nextId]
      ensures ClientVisited(Visit(false, 0, 1), b, a, index, entry)
    {
      assert b.entries[index := a.entries[index]] == b.entries;
    }

    /**
     * The first half of `processWrite` for a client without a script. A script that is launched
     * over an answer loses the protocol.
     */
    method AnswerRequest(index: nat, client: Client) returns (ghost v: Visit, ghost entry: PollFd)
      requires Structure() && index < |sockets| && sockets[index].fd in clients && clients[sockets[index].fd] == client
      requires Answering(client) && !InCgi(client.state) && !lost && LossKnown()
      modifies this`sockets, this`cgis, this`open, this`ids, this`nextId, this`lost, this`loss
      modifies client`cgiPid, client`cgiOutputFd, client`state, client.response
      ensures Structure() && SameCgis() && !v.removed && ClientVisited(v, old(Now()), Now(), index, entry)
      ensures sockets[index] == old(sockets)[index] && !client.response.isChunked
      ensures v.added == 1 ==>
        entry.fd in cgis && client.cgiOutputFd != -1 && client.response.Value() == old(client.response.Value())
      ensures (lost <==> v.added == 1 && !old(Unanswered(client))) && LossKnown()
      ensures lost ==> loss == Some(old(LaunchedOver(client.response.Value(), client.writeBuffer)))
      ensures !lost ==> InAnswer(client)
    {
      entry := sockets[index];
      ghost var b := Now();
      var unanswered := client.response.statusCode == "" && client.writeBuffer == "";
      var launched := ProcessRequest(client);
      v := Visit(false, 0, if launched then 1 else 0);
      if launched {
        entry := sockets[|sockets| - 1];
        PipeAdded(b, Now(), index, entry);
        Lose(!unanswered, LaunchedOver(client.response.Value(), client.writeBuffer));
      } else {
        VisitBegins(b, index, entry);
      }
    }

    /** From here on the invariant promises the registry only; the first loss is noted. */
    method Lose(now: bool, ghost why: Loss)
      requires Structure() && LossKnown() && !lost && (now ==> Genuine(why))
      modifies this`lost, this`loss
      ensures Structure() && LossKnown() && lost == now && (now ==> loss == Some(why))
    {
      if now {
        lost, loss := true, Some(why);
      }
    }

    /** The first half of `processWrite`: the script's output, or an answer to the request. */
    method Answer(index: nat, client: Client) returns (ghost v: Visit, ghost entry: PollFd, ghost built: Reply)
      requires Structure() && index < |sockets| && sockets[index].fd in clients && clients[sockets[index].fd] == client
      requires Answering(client) && !lost && LossKnown()
      modifies this`sockets, this`cgis, this`open, this`ids, this`nextId, this`lost, this`loss
      modifies client`cgiPid, client`cgiOutputFd, client`state, client.response
      modifies set p | p in cgis :: cgis[p]
      ensures Structure() && SameCgis() && !v.removed && ClientVisited(v, old(Now()), Now(), index, entry)
      ensures sockets[index] == old(sockets)[index] && client.Writing() == old(client.Writing()).(reply := built)
      ensures InCgi(old(client.state)) ==> exists o: Outside :: built == old(CgiReply(client, o))
      ensures !InCgi(old(client.state)) ==> !built.isChunked
      ensures v.added == 1 ==> entry.fd in cgis && client.cgiOutputFd != -1
      ensures v.added == 1 ==> !InCgi(old(client.state)) && built == old(client.response.Value())
      ensures (lost <==> v.added == 1 && !old(Unanswered(client))) && LossKnown()
      ensures lost ==> loss == Some(old(LaunchedOver(client.response.Value(), client.writeBuffer)))
      ensures !lost ==> InAnswer(client)
    {
      entry := sockets[index];
      if client.state == CgiJustStarted || client.state == CgiCompleted {
        ghost var o;
        v, o := HandleCgiIO(index, client);
      } else {
        v, entry := AnswerRequest(index, client);
      }
      built := client.response.Value();
    }

    static predicate InCgi(s: IoState) {
      s.CgiJustStarted? || s.CgiCompleted?
    }

    /** The client is where `handleResponse` may find it. */
    ghost predicate InAnswer(client: Client)
      reads client, client.request, client.request.bodyFile, client.response
    {
      && client.Valid() && ReplyShape(client.response.Value()) && (client.cgiOutputFd != -1 ==> Unfinished(client))
      && (client.state.ParseOk? || client.state.ParseError? || client.state.ParseTooLarge? || InCgi(client.state))
      && (client.cgiOutputFd == -1 ==> !client.state.CgiJustStarted?)
      && (client.cgiOutputFd != -1 ==> InCgi(client.state))
      && (!InCgi(client.state) ==> !client.response.isChunked)
      && DiscardKnown(client) && Closes(client)
    }

    /**
     * `processWrite` but for the close: answer and send. As long as the protocol holds, the
     * entry is only written while the vector has not grown, so the reference the handler holds
     * into it is still good; after a launch over an answer the handler would go on with a
     * reference into the old vector, and nothing more is said.
     */
    method AnswerAndSend(index: nat, client: Client)
      returns (close: bool, ghost v: Visit, ghost entry: PollFd, ghost reset: bool, ghost accepted: int,
        ghost built: Reply)
      requires Structure() && index < |sockets| && sockets[index].fd in clients && clients[sockets[index].fd] == client
      requires Answering(client) && sockets[index].events == POLLOUT && !lost && LossKnown()
      modifies this`sockets, this`cgis, this`open, this`ids, this`nextId, this`lost, this`loss
      modifies client, client.request, client.request.bodyFile, client.response
      modifies set p | p in cgis :: cgis[p]
      ensures Structure() && SameCgis() && !v.removed && ClientVisited(v, old(Now()), Now(), index, entry)
      ensures v.added == 1 ==> entry.fd in cgis && sockets[index] == old(sockets)[index]
      ensures (lost <==> v.added == 1 && !old(Unanswered(client))) && LossKnown()
      ensures lost ==> loss == Some(old(LaunchedOver(client.response.Value(), client.writeBuffer)))
      ensures close ==> reset && !lost
      ensures InCgi(old(client.state)) ==> exists o: Outside :: built == old(CgiReply(client, o))
      ensures !InCgi(old(client.state)) ==> !built.isChunked
      ensures !lost ==> reset == CgiStream.HandleResponse(old(client.Writing()).(reply := built), accepted).reset
      ensures !lost && !reset ==>
        client.Writing() == CgiStream.HandleResponse(old(client.Writing()).(reply := built), accepted)
      ensures !lost && v.added == 1 ==> client.cgiOutputFd != -1
      ensures !lost ==> if close then client.cgiOutputFd == -1 else HalfDuplex(client, sockets[index].events)
    {
      ghost var b := Now();
      v, entry, built := Answer(index, client);
      reset, accepted, close := false, 0, false;
      if lost {
        return;
      }
      ghost var m := Now();
      if v.added == 1 {
        NothingToSendIff(client);
      }
      close, reset, accepted := HandleResponse(index, client);
      ThenUpdate(v, b, m, Now(), index, entry);
    }

    /** `processWrite`: answer, send, and close when the response asked for it. */
    method ProcessWrite(index: nat, client: Client) returns (closed: bool, ghost v: Visit, ghost entry: PollFd)
      requires Structure() && index < |sockets| && sockets[index].fd in clients && clients[sockets[index].fd] == client
      requires Answering(client) && sockets[index].events == POLLOUT && !lost && LossKnown()
      modifies this`sockets, this`cgis, this`open, this`ids, this`nextId, this`clients, this`addresses, this`lost,
        this`loss
      modifies client, client.request, client.request.bodyFile, client.response
      modifies set p | p in cgis :: cgis[p]
      ensures Structure() && SameCgis() && v.removed == closed && ClientVisited(v, old(Now()), Now(), index, entry)
      ensures clients == if closed then old(clients) - {old(sockets)[index].fd} else old(clients)
      ensures (lost <==> v.added == 1 && !old(Unanswered(client))) && LossKnown()
      ensures lost ==> loss == Some(old(LaunchedOver(client.response.Value(), client.writeBuffer)))
      ensures v.added == 1 ==> entry.fd in cgis && (!lost ==> client.cgiOutputFd != -1)
      ensures !closed && !lost ==> HalfDuplex(client, sockets[index].events)
    {
      ghost var b := Now();
      ghost var reset, accepted, built;
      closed, v, entry, reset, accepted, built := AnswerAndSend(index, client);
      if closed {
        v := CloseVisited(index, client, b, v, entry);
      }
    }

    /** The end of a visit that closes its client, which has no script. */
    method CloseVisited(index: nat, client: Client, ghost b: Board, ghost v: Visit,
      ghost entry: PollFd) returns (ghost w: Visit)
      requires Structure() && index < |sockets| && sockets[index].fd in clients && clients[sockets[index].fd] == client
      requires client.cgiOutputFd == -1 && !v.removed && v.added == 0 && ClientVisited(v, b, Now(), index, entry)
      modifies this`sockets, this`clients, this`cgis, this`addresses, this`open, this`ids
      modifies client`cgiPid, client`cgiOutputFd
      ensures Structure() && w.removed && w.added == 0 && ClientVisited(w, b, Now(), index, entry)
      ensures clients == old(clients) - {old(sockets)[index].fd} && unchanged(this`cgis)
    {
      ghost var u := Now();
      ghost var k := CloseClientConnection(index, client);
      ThenClose(v, b, u, Now(), index, entry);
      w := v.(removed := true);
    }

    // --------------------------------------------------------------- one visit

    /** After a visit all entries keep the protocol if the one visited does and the others did. */
    lemma VisitKeepsProtocol(v: Visit, before: seq<PollFd>, index: nat, entry: PollFd)
      requires Structure() && Visited(v, before, sockets, index, entry) && |listeners| <= index
      requires KeptBut(before, index)
      requires v.added == 1 ==> EntryKeeps(entry)
      requires !v.removed ==> index < |sockets| && EntryKeeps(sockets[index])
      ensures KeptBut(sockets, -1)
    {
      VisitedTail(v, before, sockets, index, entry);
      forall i: nat | |listeners| <= i < |sockets| ensures EntryKeeps(sockets[i]) {
        if i < index {
          assert sockets[i] == sockets[..index][i] == before[..index][i] == before[i];
        } else if i == index && !v.removed {
        } else if i < |sockets| - v.added {
          assert sockets[i] == before[Source(v, index, |before|, i)];
        }
      }
    }

    /** The only place where the parser runs: on a client that listens. `None` if nothing was read. */
    method ReadAndParse(client: Client) returns (verdict: Option<Verdict>, ghost bytes: string)
      requires Listening(client)
      modifies client`readBuffer, client`bytesToDiscard, client`discardingBody, client`state
      modifies client.request, client.request.bodyFile, client.response
      ensures verdict == Some(Done) ==> Answering(client)
      ensures verdict != Some(Done) && verdict != Some(NullLocation) ==> Listening(client)
      ensures verdict.None? ==>
        bytes == "" && client.readBuffer == old(client.readBuffer)
          && (client.state.ReadEmpty? || client.state.ReadError?)
      ensures verdict.Some? && client.request.Sound() ==>
        bytes != "" && Parsed(client.Intake(), verdict.value) == Parse(Receive(old(client.Intake()), bytes))
      ensures verdict == Some(NullLocation) ==> client.request.Sound()
    {
      var ok := client.ReadFromClientSocket();
      if !ok {
        return None, "";
      }
      bytes := client.readBuffer[|old(client.readBuffer)|..];
      var v := RequestParser.ParseRequestBuffer(client);
      verdict := Some(v);
      if v.Done? {
        var newSession: bool := *;
        if newSession {
          var cookie: string := *;
          client.response.AddToHeader("Set-Cookie", cookie);
        }
      }
    }

    /** `processRead` of a client: a complete request turns its entry to output, a null location ends the invariant. */
    method ProcessRead(index: nat, client: Client) returns (ghost bytes: string)
      requires Structure() && index < |sockets| && sockets[index].events == POLLIN && Listening(client)
      requires !lost && LossKnown()
      modifies this`sockets, this`lost, this`loss
      modifies client`readBuffer, client`bytesToDiscard, client`discardingBody, client`state
      modifies client.request, client.request.bodyFile, client.response
      ensures Structure() && |sockets| == |old(sockets)| && LossKnown()
      ensures sockets == old(sockets)[index := old(sockets)[index].(events := sockets[index].events)]
      ensures !lost ==> HalfDuplex(client, sockets[index].events)
      ensures lost ==> loss == Some(NullDereference(old(client.Intake()), bytes))
      ensures !lost && client.request.Sound() && bytes != "" ==>
        !Parse(Receive(old(client.Intake()), bytes)).verdict.NullLocation?
    {
      var verdict;
      verdict, bytes := ReadAndParse(client);
      assert bytes != "" && client.request.Sound() ==>
        verdict.Some? && Parse(Receive(old(client.Intake()), bytes)).verdict == verdict.value;
      if verdict == Some(NullLocation) {
        Lose(true, NullDereference(old(client.Intake()), bytes));
      } else if verdict == Some(Done) {
        SetEvents(index, POLLOUT);
      }
    }

    /** The events of a CGI pipe: its output is collected, and its end noted in the client's state. */
    method ProcessPipeEvents(index: nat, cgi: Cgi)
      requires index < |sockets| && HalfDuplex(cgi.client, POLLOUT) && cgi.client.cgiOutputFd != -1
      modifies cgi`outputBuffer, cgi`state, cgi`finished, cgi`exitedNormally, cgi.client`state
      ensures HalfDuplex(cgi.client, POLLOUT)
      ensures |old(cgi.outputBuffer)| <= |cgi.outputBuffer|
        && cgi.outputBuffer[..|old(cgi.outputBuffer)|] == old(cgi.outputBuffer)
      ensures cgi.client.state == if sockets[index].revents.hangup && cgi.finished then CgiCompleted
        else old(cgi.client.state)
    {
      if sockets[index].revents.readable {
        var _ := cgi.ReadFromPipe();
      }
      if sockets[index].revents.hangup {
        var over := cgi.HasFinished();
        if over {
          var _ := cgi.ReadFromPipe();
          cgi.client.state := CgiCompleted;
        }
      }
    }

    /** `closeIdleConnection`; the clock decides whether the client idled too long. */
    method CloseIdleConnection(index: nat, client: Client, ghost b: Board, ghost v: Visit, ghost entry: PollFd)
      returns (closed: bool, ghost w: Visit)
      requires Structure() && index < |sockets| && sockets[index].fd in clients && clients[sockets[index].fd] == client
      requires !v.removed && (v.added == 1 ==> client.cgiOutputFd != -1) && ClientVisited(v, b, Now(), index, entry)
      modifies this`sockets, this`clients, this`cgis, this`addresses, this`open, this`ids, client`cgiPid,
        client`cgiOutputFd
      ensures Structure() && w.removed == closed && ClientVisited(w, b, Now(), index, entry) && unchanged(this`cgis)
      ensures closed ==> old(client.cgiOutputFd) == -1 && w.added == 0
      ensures clients == if closed then old(clients) - {old(sockets)[index].fd} else old(clients)
      ensures !closed ==> w == v && unchanged(this) && unchanged(client)
    {
      closed, w := false, v;
      if client.cgiPid != -1 || client.cgiOutputFd != -1 {
        return;
      }
      closed := *;
      if closed {
        w := CloseVisited(index, client, b, v, entry);
      }
    }

    /** The invariant was lost, if at all, at this client: by what it had received, or over what it was answering. */
    twostate predicate LossAt(client: Client)
      reads this, client, client.request, client.request.bodyFile, client.response
    {
      lost ==>
        loss == Some(old(LaunchedOver(client.response.Value(), client.writeBuffer)))
        || (loss.Some? && loss.value.NullDereference? && loss.value.before == old(client.Intake()))
    }

    /** `processClientEvents` of a client. */
    method ProcessClientEvents(index: nat, client: Client) returns (closed: bool, ghost v: Visit, ghost entry: PollFd)
      requires Structure() && index < |sockets| && sockets[index].fd in clients && clients[sockets[index].fd] == client
      requires Polled(sockets[index]) && HalfDuplex(client, sockets[index].events) && !lost && LossKnown()
      modifies this`sockets, this`cgis, this`open, this`ids, this`nextId, this`clients, this`addresses, this`lost,
        this`loss
      modifies client, client.request, client.request.bodyFile, client.response
      modifies set p | p in cgis :: cgis[p]
      ensures Structure() && SameCgis() && v.removed == closed && ClientVisited(v, old(Now()), Now(), index, entry)
      ensures clients == if closed then old(clients) - {old(sockets)[index].fd} else old(clients)
      ensures v.added == 1 ==> entry.fd in cgis && (!lost ==> client.cgiOutputFd != -1)
      ensures !closed && !lost ==> HalfDuplex(client, sockets[index].events)
      ensures LossKnown() && LossAt(client)
    {
      ghost var b := Now();
      closed, v, entry := false, Visit(false, 0, 0), sockets[index];
      VisitBegins(b, index, entry);
      var revents := sockets[index].revents;
      if revents.readable {
        ghost var bytes := ProcessRead(index, client);
        ThenUpdate(v, b, b, Now(), index, entry);
      }
      if revents.writable {
        closed, v, entry := ProcessWrite(index, client);
      }
    }

    /** The events of a client, then the idle check, as `handleClientIndex` does. */
    method HandleLiveClient(index: nat, client: Client) returns (ghost v: Visit, ghost entry: PollFd, removed: bool)
      requires Structure() && index < |sockets| && sockets[index].fd in clients && clients[sockets[index].fd] == client
      requires Polled(sockets[index]) && HalfDuplex(client, sockets[index].events) && !lost && LossKnown()
      modifies this`sockets, this`cgis, this`open, this`ids, this`nextId, this`clients, this`addresses, this`lost,
        this`loss
      modifies client, client.request, client.request.bodyFile, client.response
      modifies set p | p in cgis :: cgis[p]
      ensures Structure() && SameCgis() && v.removed == removed && ClientVisited(v, old(Now()), Now(), index, entry)
      ensures clients == if removed then old(clients) - {old(sockets)[index].fd} else old(clients)
      ensures v.added == 1 ==> entry.fd in cgis
      ensures !removed && !lost ==> HalfDuplex(client, sockets[index].events)
      ensures LossKnown() && LossAt(client)
    {
      ghost var b := Now();
      removed, v, entry := ProcessClientEvents(index, client);
      if removed || lost {
        return;
      }
      removed, v := CloseIdleConnection(index, client, b, v, entry);
    }

    /** `removeDeadConnections` and the rest of `handleClientIndex` on a client's entry. */
    method ServeClient(index: nat, client: Client) returns (ghost v: Visit, ghost entry: PollFd, removed: bool)
      requires Structure() && index < |sockets| && sockets[index].fd in clients && clients[sockets[index].fd] == client
      requires Polled(sockets[index]) && HalfDuplex(client, sockets[index].events) && !lost && LossKnown()
      modifies this`sockets, this`cgis, this`open, this`ids, this`nextId, this`clients, this`addresses, this`lost,
        this`loss
      modifies client, client.request, client.request.bodyFile, client.response
      modifies set p | p in cgis :: cgis[p]
      ensures Structure() && SameCgis() && v.removed == removed && ClientVisited(v, old(Now()), Now(), index, entry)
      ensures clients == if removed then old(clients) - {old(sockets)[index].fd} else old(clients)
      ensures v.added == 1 ==> entry.fd in cgis
      ensures !removed && !lost ==> HalfDuplex(client, sockets[index].events)
      ensures LossKnown() && LossAt(client)
    {
      ghost var b := Now();
      if sockets[index].revents.hangup || sockets[index].revents.error {
        entry, removed := sockets[index], true;
        ghost var k := DropWithCgi(index, client);
        v := Visit(true, k, 0);
        ClientDropped(b, Now(), index, k, entry);
      } else {
        v, entry, removed := HandleLiveClient(index, client);
      }
    }

    /** The client of a live CGI is being answered. */
    lemma OwnerAnswers(p: int)
      requires Structure() && KeptBut(sockets, -1) && p in cgis
      ensures HalfDuplex(cgis[p].client, POLLOUT) && cgis[p].client.cgiOutputFd == p
    {
      var client := cgis[p].client;
      var o := IndexOfKey(Table(), client.fd);
      assert EntryKeeps(sockets[o]);
    }

    /** `handleClientIndex` on a pipe's entry. */
    method VisitPipe(index: nat)
      requires Valid() && !lost && |listeners| <= index < |sockets| && sockets[index].fd in cgis
      modifies repr
      ensures Valid() && !lost
    {
      var cgi := cgis[sockets[index].fd];
      OwnerAnswers(sockets[index].fd);
      ProcessPipeEvents(index, cgi);
      forall i | |listeners| <= i < |sockets| ensures EntryKeeps(sockets[i]) {
        assert old(EntryKeeps(sockets[i]));
        if sockets[i].fd in clients && clients[sockets[i].fd] == cgi.client {
          assert old(sockets[i].events) == POLLOUT;
        }
      }
    }

    /** Between two states no client but this one, and none of its objects, was touched. */
    twostate predicate OnlyTouched(client: Client)
      reads this, ClientObjects()
    {
      forall fd | fd in clients && clients[fd] != client ::
        fd in old(clients) && clients[fd] == old(clients)[fd]
        && unchanged(clients[fd], clients[fd].request, clients[fd].request.bodyFile, clients[fd].response)
    }

    twostate lemma OthersKeep(client: Client)
      requires OnlyTouched(client)
      ensures forall p: PollFd | old(EntryKeeps(p)) && (p.fd in clients ==> clients[p.fd] != client)
        && (p.fd in cgis ==> p.fd in old(cgis)) ::
        EntryKeeps(p)
    {
    }

    /** An entry other than the visited one stays what it is, unless it is gone. */
    twostate lemma OthersStay(index: nat)
      requires old(Structure()) && Structure() && index < |old(sockets)|
      requires clients == old(clients) || clients == old(clients) - {old(sockets)[index].fd}
      ensures forall i | |listeners| <= i < |old(sockets)| && i != index ::
        old(sockets)[i].fd != old(sockets)[index].fd && (old(sockets)[i].fd in cgis ==> old(sockets)[i].fd in old(cgis))
    {
      forall i: nat | |listeners| <= i < |old(sockets)| && i != index
        ensures old(sockets)[i].fd != old(sockets)[index].fd
          && (old(sockets)[i].fd in cgis ==> old(sockets)[i].fd in old(cgis))
      {
        var fd := old(sockets)[i].fd;
        assert old(Table()).fds[i] == fd && old(Table()).fds[index] == old(sockets)[index].fd;
        EntryKind(old(Table()), i);
        if fd in cgis && fd in clients {
          PipeIsNoClient(fd);
        }
      }
    }

    /** The visit of a client keeps the protocol of all entries. */
    method VisitClient(index: nat, client: Client) returns (ghost v: Visit, ghost entry: PollFd, removed: bool)
      requires Structure() && KeptBut(sockets, -1) && !lost && LossKnown() && |listeners| <= index < |sockets|
      requires sockets[index].fd in clients && clients[sockets[index].fd] == client && Polled(sockets[index])
      modifies this`sockets, this`cgis, this`open, this`ids, this`nextId, this`clients, this`addresses, this`lost,
        this`loss
      modifies client, client.request, client.request.bodyFile, client.response
      modifies set p | p in cgis :: cgis[p]
      ensures Structure() && (!lost ==> KeptBut(sockets, -1)) && SameCgis() && LossKnown() && LossAt(client)
      ensures v.removed == removed && ClientVisited(v, old(Now()), Now(), index, entry)
      ensures clients == if removed then old(clients) - {old(sockets)[index].fd} else old(clients)
      ensures v.added == 1 ==> entry.fd !in clients
    {
      assert EntryKeeps(sockets[index]);
      ghost var was := sockets;
      v, entry, removed := ServeClient(index, client);
      if v.added == 1 {
        PipeIsNoClient(entry.fd);
      }
      if !lost {
        OthersKeep(client);
        OthersStay(index);
        forall i | |listeners| <= i < |was| && i != index ensures EntryKeeps(was[i]) {
          assert old(EntryKeeps(was[i]));
        }
        ghost var before := if removed then was else was[index := sockets[index]];
        VisitKeepsProtocol(v, before, index, entry);
      }
    }

    /** The new pipe, if the visit registered one, joins `repr`. */
    method VisitAndHold(index: nat, client: Client) returns (ghost v: Visit, ghost entry: PollFd, removed: bool)
      requires Valid() && !lost && |listeners| <= index < |sockets|
      requires sockets[index].fd in clients && clients[sockets[index].fd] == client && Polled(sockets[index])
      modifies this, repr
      ensures Valid() && fresh(repr - old(repr)) && LossAt(client)
      ensures v.removed == removed && ClientVisited(v, old(Now()), Now(), index, entry)
      ensures v.added == 1 ==> entry.fd !in clients
    {
      v, entry, removed := VisitClient(index, client);
      Hold(set p | p in cgis :: cgis[p]);
    }

    /** New objects join `repr`. */
    ghost method Hold(more: set<object>)
      requires Structure() && (!lost ==> KeptBut(sockets, -1)) && LossKnown() && this !in repr + more
      requires forall fd | fd in clients ::
        {clients[fd], clients[fd].request, clients[fd].request.bodyFile, clients[fd].response} <= repr + more
      requires forall p | p in cgis :: cgis[p] in repr + more
      modifies this`repr
      ensures Valid() && repr == old(repr) + more
    {
      repr := repr + more;
    }

    lemma BoardUnique()
      requires Structure()
      ensures Unique(Now())
    {
      forall i, j | 0 <= i < j < |sockets| ensures sockets[i].fd != sockets[j].fd {
        assert Table().fds[i] != Table().fds[j];
      }
    }

    lemma EntryIs(index: nat)
      requires Structure() && |listeners| <= index < |sockets|
      ensures sockets[index].fd in clients || sockets[index].fd in cgis
      ensures sockets[index].fd in clients ==> sockets[index].fd !in cgis
    {
      EntryKind(Table(), index);
    }

    lemma PipeIsNoClient(fd: int)
      requires Structure() && fd in cgis
      ensures fd !in clients
    {
      var i := IndexOfKey(Table(), fd);
    }

    /** `handleClientIndex`: every kind of visit leaves the registry valid and brings the sweep nearer to its end. */
    method HandleClientIndex(index: nat, ghost seen: seq<nat>) returns (removed: bool)
      requires Valid() && !lost && index < |sockets| && Awaiting(Now(), index, seen, |listeners|)
      modifies this, repr
      ensures Valid() && fresh(repr - old(repr))
      ensures lost ==> old(sockets)[index].fd in old(clients) && LossAt(old(clients)[old(sockets)[index].fd])
      ensures Progress(old(Now()), Now(), index, if removed then index else index + 1, seen, |listeners|)
    {
      EntryIs(index);
      BoardUnique();
      ghost var b := Now();
      var fd := sockets[index].fd;
      if fd in cgis {
        VisitPipe(index);
        removed := false;
        PipeProgress(b, index, seen, |listeners|);
      } else {
        ghost var v, entry;
        v, entry, removed := VisitAndHold(index, clients[fd]);
        ClientProgress(v, b, Now(), index, entry, seen, |listeners|);
      }
    }

    // ------------------------------------------------------------- whole rounds

    /**
     * The index loop of `run`: it ends although visits register and remove entries, and every
     * entry that is registered when it ends was visited exactly once.
     */
    method Sweep() returns (ghost seen: seq<nat>)
      requires Valid() && !lost && forall j | |listeners| <= j < |sockets| :: Polled(sockets[j])
      modifies this, repr
      ensures Valid() && fresh(repr - old(repr))
      ensures Distinct(seen) && (!lost ==> forall j | |listeners| <= j < |ids| :: ids[j] in seen)
    {
      seen := [];
      var i: nat := |listeners|;
      SweepStarts();
      while i < |sockets| && !lost
        invariant Valid() && fresh(repr - old(repr))
        invariant Awaiting(Now(), i, seen, |listeners|)
        decreases FdsFrom(sockets, clients.Keys, i), |sockets| - i
      {
        i, seen := VisitNext(i, seen);
      }
    }

    /** One round of the index loop: what is left to visit becomes less. */
    method VisitNext(index: nat, ghost seen: seq<nat>) returns (next: nat, ghost seenNow: seq<nat>)
      requires Valid() && !lost && index < |sockets| && Awaiting(Now(), index, seen, |listeners|)
      modifies this, repr
      ensures Valid() && fresh(repr - old(repr)) && Awaiting(Now(), next, seenNow, |listeners|)
      ensures FdsFrom(sockets, clients.Keys, next) < old(FdsFrom(sockets, clients.Keys, index))
        || (FdsFrom(sockets, clients.Keys, next) == old(FdsFrom(sockets, clients.Keys, index))
            && |sockets| - next < |old(sockets)| - index)
    {
      BoardUnique();
      seenNow := seen + [ids[index]];
      var removed := HandleClientIndex(index, seen);
      next := if removed then index else index + 1;
    }

    lemma SweepStarts()
      requires Structure()
      ensures |listeners| <= |sockets|
    {
    }

    /** `poll`, when it succeeds. */
    method Poll()
      requires Valid()
      modifies this`sockets
      ensures Valid() && |sockets| == |old(sockets)| && lost == old(lost)
      ensures forall j | 0 <= j < |sockets| :: Polled(sockets[j])
    {
      var i := 0;
      while i < |sockets|
        invariant Valid() && 0 <= i <= |sockets| == |old(sockets)|
        invariant forall j | 0 <= j < i :: Polled(sockets[j])
      {
        var r: Revents := *;
        var events := sockets[i].events;
        var reported := Revents(r.readable && events.pollIn, r.writable && events.pollOut, r.hangup, r.error);
        SetRevents(i, reported);
        i := i + 1;
      }
    }

    method SetRevents(i: nat, revents: Revents)
      requires Valid() && i < |sockets|
      modifies this`sockets
      ensures Valid() && sockets == old(sockets)[i := old(sockets)[i].(revents := revents)]
    {
      FdsUpdate(sockets, i, sockets[i].(revents := revents));
      sockets := sockets[i := sockets[i].(revents := revents)];
      assert Table() == old(Table());
      if !lost {
        forall j | |listeners| <= j < |sockets| ensures EntryKeeps(sockets[j]) {
          assert old(EntryKeeps(sockets[j]));
        }
      }
    }

    /** A client joined the map. */
    twostate predicate Joined(new client: Client)
      reads this
    {
      clients == old(clients)[client.fd := client] && client.fd !in old(clients) && unchanged(this`cgis)
    }

    twostate lemma JoinTable(new client: Client)
      requires old(Structure()) && Joined(client) && client.fd !in old(open)
      requires sockets == old(sockets) + [PollFd(client.fd, POLLIN, NOTHING)]
      ensures Consistent(Table()) && Table().fds == old(Table()).fds + [client.fd]
    {
      var t := old(Table());
      Registry.AddClient(t, client.fd);
      FdsAppend(old(sockets), PollFd(client.fd, POLLIN, NOTHING));
      assert Table() == t.(fds := t.fds + [client.fd], clients := t.clients + {client.fd});
    }

    twostate lemma JoinLinks(new client: Client)
      requires old(ClientLinks() && CgiLinks()) && Joined(client) && client.server < |listeners|
        && client.cgiOutputFd == -1
      requires forall fd | fd in old(clients) :: clients[fd].cgiOutputFd == old(clients[fd].cgiOutputFd)
      ensures ClientLinks() && CgiLinks()
    {
    }

    twostate lemma JoinApart(client: Client)
      requires old(Apart() && OwnObjects(client)) && Joined(client)
      ensures Apart()
    {
    }

    twostate lemma JoinAddress(new client: Client)
      requires old(Addressed()) && Joined(client) && client.server < |listeners|
      requires addresses == old(addresses)[client.server := old(addresses)[client.server] + {client.fd}]
      ensures Addressed()
    {
    }

    twostate lemma JoinIds()
      requires old(Identified()) && |sockets| == |old(sockets)| + 1 && ids == old(ids) + [old(nextId)]
        && nextId == old(nextId) + 1
      ensures Identified()
    {
    }

    /** The entries that were there keep the protocol when a client joins. */
    twostate lemma JoinKept(new client: Client)
      requires old(KeptBut(sockets, -1)) && Joined(client) && Listening(client)
      requires forall fd | fd in old(clients) ::
        unchanged(old(clients)[fd], old(clients)[fd].request, old(clients)[fd].request.bodyFile,
          old(clients)[fd].response)
      requires client.fd !in old(Table()).fds
      requires sockets == old(sockets) + [PollFd(client.fd, POLLIN, NOTHING)] && client.fd !in cgis
      ensures KeptBut(sockets, -1)
    {
      forall i | |listeners| <= i < |sockets| ensures EntryKeeps(sockets[i]) {
        if i < |old(sockets)| {
          assert old(EntryKeeps(sockets[i])) && sockets[i] == old(sockets)[i];
          assert old(Table()).fds[i] == sockets[i].fd;
        }
      }
    }

    /** The client shares no object with a registered one. */
    ghost predicate OwnObjects(c: Client)
      reads this`clients
    {
      forall fd | fd in clients ::
        clients[fd].request != c.request && clients[fd].request.bodyFile != c.request.bodyFile
          && clients[fd].response != c.response
    }

    /** What accepting a client writes. */
    method WriteClient(client: Client)
      requires client.server < |addresses|
      modifies this`sockets, this`clients, this`addresses, this`open, this`ids, this`nextId
      ensures sockets == old(sockets) + [PollFd(client.fd, POLLIN, NOTHING)]
      ensures clients == old(clients)[client.fd := client] && open == old(open) + {client.fd}
      ensures addresses == old(addresses)[client.server := old(addresses)[client.server] + {client.fd}]
      ensures ids == old(ids) + [old(nextId)] && nextId == old(nextId) + 1
    {
      open := open + {client.fd};
      sockets := sockets + [PollFd(client.fd, POLLIN, NOTHING)];
      ids, nextId := ids + [nextId], nextId + 1;
      addresses := addresses[client.server := addresses[client.server] + {client.fd}];
      clients := clients[client.fd := client];
    }

    /** A client on a descriptor that was not open keeps the registry. */
    twostate lemma JoinKeeps(client: Client)
      requires old(Structure() && OwnObjects(client)) && Joined(client) && client.fd !in old(open)
      requires client.server < |listeners| && client.cgiOutputFd == -1
      requires forall fd | fd in old(clients) :: clients[fd].cgiOutputFd == old(clients[fd].cgiOutputFd)
      requires sockets == old(sockets) + [PollFd(client.fd, POLLIN, NOTHING)] && open == old(open) + {client.fd}
      requires client.server < |old(addresses)|
        && addresses == old(addresses)[client.server := old(addresses)[client.server] + {client.fd}]
      requires ids == old(ids) + [old(nextId)] && nextId == old(nextId) + 1
      ensures Structure()
    {
      JoinTable(client);
      JoinLinks(client);
      JoinApart(client);
      JoinAddress(client);
      KernelGrows(PollFd(client.fd, POLLIN, NOTHING));
      JoinIds();
    }

    /** Vector, address map, client map and kernel learn of a client. */
    method EnterTables(client: Client)
      requires Structure() && client.fd !in open && client.server < |listeners|
      requires client.cgiOutputFd == -1 && OwnObjects(client)
      modifies this`sockets, this`clients, this`addresses, this`open, this`ids, this`nextId
      ensures Structure() && client.fd !in cgis && client.fd !in old(clients) && client.fd !in old(Table()).fds
      ensures sockets == old(sockets) + [PollFd(client.fd, POLLIN, NOTHING)]
        && clients == old(clients)[client.fd := client]
    {
      PipesOpen(client.fd);
      WriteClient(client);
      JoinKeeps(client);
    }

    /** The tables learn of a client that waits for its first request. */
    method EnterClient(client: Client)
      requires Structure() && (!lost ==> KeptBut(sockets, -1)) && client.fd !in open && client.server < |listeners|
      requires Listening(client) && OwnObjects(client)
      modifies this`sockets, this`clients, this`addresses, this`open, this`ids, this`nextId
      ensures Structure() && (!lost ==> KeptBut(sockets, -1))
      ensures sockets == old(sockets) + [PollFd(client.fd, POLLIN, NOTHING)]
        && clients == old(clients)[client.fd := client]
    {
      EnterTables(client);
      if !lost {
        JoinKept(client);
      }
    }

    /** One accepted connection of server `s`. */
    method AddClient(fd: int, s: nat)
      requires Valid() && fd !in open && s < |listeners|
      modifies this`sockets, this`clients, this`addresses, this`open, this`ids, this`nextId, this`repr
      ensures Valid() && fresh(repr - old(repr))
      ensures sockets == old(sockets) + [PollFd(fd, POLLIN, NOTHING)] && clients.Keys == old(clients).Keys + {fd}
      ensures fd in clients && clients[fd].server == s && clients[fd].config == configs[s]
    {
      var client := new Client(fd, s, configs[s]);
      EnterClient(client);
      Hold({client, client.request, client.request.bodyFile, client.response});
    }

    /** `acceptConnections`: every listener that reported input is drained; a hard error ends the call. */
    method AcceptConnections()
      requires Valid()
      modifies this`sockets, this`clients, this`addresses, this`open, this`ids, this`nextId, this`repr
      ensures Valid() && fresh(repr - old(repr)) && |old(sockets)| <= |sockets|
        && sockets[..|old(sockets)|] == old(sockets)
      ensures forall j | |old(sockets)| <= j < |sockets| :: sockets[j].events == POLLIN && sockets[j].revents == NOTHING
    {
      SweepStarts();
      var i := 0;
      while i < |listeners|
        invariant 0 <= i <= |listeners| <= |old(sockets)|
        invariant Valid() && fresh(repr - old(repr)) && |old(sockets)| <= |sockets|
          && sockets[..|old(sockets)|] == old(sockets)
        invariant forall j | |old(sockets)| <= j < |sockets| ::
          sockets[j].events == POLLIN && sockets[j].revents == NOTHING
      {
        var failed := AcceptFrom(i);
        if failed {
          return;
        }
        i := i + 1;
      }
    }

    /** The inner loop of `acceptConnections`; `pending` bounds the kernel's queue of connections. */
    method AcceptFrom(s: nat) returns (failed: bool)
      requires Valid() && s < |listeners| <= |sockets|
      modifies this`sockets, this`clients, this`addresses, this`open, this`ids, this`nextId, this`repr
      ensures Valid() && fresh(repr - old(repr)) && |old(sockets)| <= |sockets|
        && sockets[..|old(sockets)|] == old(sockets)
      ensures forall j | |old(sockets)| <= j < |sockets| :: sockets[j].events == POLLIN && sockets[j].revents == NOTHING
    {
      var pending: nat := *;
      while sockets[s].revents.readable
        invariant Valid() && fresh(repr - old(repr)) && |old(sockets)| <= |sockets|
          && sockets[..|old(sockets)|] == old(sockets)
        invariant forall j | |old(sockets)| <= j < |sockets| ::
          sockets[j].events == POLLIN && sockets[j].revents == NOTHING
        decreases pending
      {
        var fd: int := *;
        if pending == 0 || fd < 0 || fd in open {
          failed := *;
          return;
        }
        pending := pending - 1;
        AddClient(fd, s);
      }
      failed := false;
    }

    /** `run`, as long as `poll` succeeds and no handler crashes: any number of rounds keeps the registry invariant. */
    method Run(rounds: nat)
      requires Valid() && !lost
      modifies this, repr
      ensures Valid() && fresh(repr - old(repr))
    {
      var n := rounds;
      while 0 < n && !lost
        invariant Valid() && fresh(repr - old(repr))
        decreases n
      {
        Poll();
        AcceptConnections();
        ghost var seen := Sweep();
        n := n - 1;
      }
    }

    /** A refused chunked body under a configured page: the client listens again, with the discard left over. */
    method RefusedAndKept(client: Client, contents: string, contentType: string, date: string)
      requires Answering(client) && client.state.ParseTooLarge? && client.cgiOutputFd == -1 && client.discardingBody
      requires KeepsRefused(client.config) && client.response.range.None?
        && client.response.connection == Some("keep-alive")
      requires client.writeBuffer == ""
      modifies client`writeBuffer, client`sent, client`state, client.request, client.request.bodyFile, client.response
      ensures Listening(client) && RequestParser.LeftOver(client)
    {
      client.response.BuildErrorResponse(HTTP_PAYLOAD, Configured(contents, contentType), date);
      assert !client.response.ShouldCloseConnection();
      client.ResetState();
    }

    /**
     * Why `poll` must succeed. A read completes a request and turns the entry to output; `poll`
     * fails, so the entry still reports input; the next sweep reads from a client being answered.
     */
    method FailedPoll(index: nat, client: Client) returns (turned: bool)
      requires Structure() && index < |sockets| && sockets[index].events == POLLIN && sockets[index].revents.readable
      requires Listening(client) && !lost && LossKnown()
      modifies this`sockets, this`lost, this`loss
      modifies client`readBuffer, client`bytesToDiscard, client`discardingBody, client`state
      modifies client.request, client.request.bodyFile, client.response
      ensures index < |sockets| && sockets[index].revents == old(sockets)[index].revents
      ensures turned ==> sockets[index].events == POLLOUT && sockets[index].revents.readable
      ensures turned ==> !HalfDuplex(client, sockets[index].events)
      ensures !turned && !lost ==> HalfDuplex(client, POLLIN)
    {
      ghost var bytes := ProcessRead(index, client);
      turned := !lost && sockets[index].events == POLLOUT;
      if turned {
        assert !Polled(sockets[index]);
        var _ := client.ReadFromClientSocket();
      }
    }

    // ------------------------------------------------- what the invariant gives

    /** No descriptor is registered twice, and each entry behind the listeners is one client or one pipe. */
    lemma EntriesAre()
      requires Valid()
      ensures DistinctFds(sockets) && |listeners| <= |sockets|
      ensures forall i | 0 <= i < |listeners| :: sockets[i].fd == listeners[i]
      ensures forall i | |listeners| <= i < |sockets| :: sockets[i].fd in clients <==> sockets[i].fd !in cgis
      ensures forall fd | fd in clients || fd in cgis :: exists i :: |listeners| <= i < |sockets| && sockets[i].fd == fd
    {
      BoardUnique();
      assert Table().fds[..|listeners|] == listeners;
      forall i | 0 <= i < |listeners| ensures sockets[i].fd == listeners[i] {
        assert Table().fds[..|listeners|][i] == sockets[i].fd;
      }
      forall i | |listeners| <= i < |sockets| ensures sockets[i].fd in clients <==> sockets[i].fd !in cgis {
        EntryIs(i);
      }
      forall fd | fd in clients || fd in cgis ensures exists i :: |listeners| <= i < |sockets| && sockets[i].fd == fd {
        var i := IndexOfKey(Table(), fd);
        assert sockets[i].fd == fd;
      }
    }

    /**
     * Unless refused requests keep their connection, no listening client is cut off from the
     * parser's theorems: whatever bytes come next, it does not matter how they are cut.
     */
    lemma ReadsDoNotMatter(i: nat, bytes: string)
      requires Valid() && !lost && |listeners| <= i < |sockets| && sockets[i].fd in clients
        && sockets[i].events == POLLIN
      requires !KeepsRefused(clients[sockets[i].fd].config)
      ensures var p := clients[sockets[i].fd].Intake(); Fragmentation.Inv(p) && Fragmentation.Clear(Receive(p, bytes))
    {
      assert EntryKeeps(sockets[i]);
      QuietIsClear(clients[sockets[i].fd], bytes);
    }

    static lemma QuietIsClear(c: Client, bytes: string)
      requires c.Parsable() && !RequestParser.LeftOver(c)
      ensures Fragmentation.Inv(c.Intake()) && Fragmentation.Clear(Receive(c.Intake(), bytes))
    {
      if !c.discardingBody {
        Fragmentation.NotDiscardingIsClear(Receive(c.Intake(), bytes));
      }
    }

    /** The entry of a pipe stands behind its owner's; the owner is being answered, and has no other CGI. */
    lemma PipesHaveOwners(i: nat, k: nat)
      requires Valid() && i < |sockets| && k < |sockets| && sockets[k].fd in cgis
      requires sockets[i].fd == cgis[sockets[k].fd].client.fd
      ensures |listeners| <= i < k && sockets[i].fd in clients && clients[sockets[i].fd].cgiOutputFd == sockets[k].fd
      ensures forall p | p in cgis && cgis[p].client == clients[sockets[i].fd] :: p == sockets[k].fd
      ensures !lost ==> sockets[i].events == POLLOUT && sockets[k].events == POLLIN
    {
      OwnerBefore(k);
      if !lost {
        EntriesAre();
        assert EntryKeeps(sockets[i]) && EntryKeeps(sockets[k]);
      }
    }

    /** A client that waits for input is not being answered: it owns no CGI and nothing is left to send. */
    lemma WaitingClientIsIdle(i: nat)
      requires Valid() && !lost && |listeners| <= i < |sockets| && sockets[i].fd in clients
      ensures sockets[i].events == POLLIN || sockets[i].events == POLLOUT
      ensures sockets[i].events == POLLIN ==> clients[sockets[i].fd].Parsable() && clients[sockets[i].fd].Idle()
      ensures sockets[i].events == POLLOUT ==> Answering(clients[sockets[i].fd])
      ensures sockets[i].events == POLLIN ==> forall p | p in cgis :: cgis[p].client != clients[sockets[i].fd]
    {
      assert EntryKeeps(sockets[i]);
    }
  }
}
