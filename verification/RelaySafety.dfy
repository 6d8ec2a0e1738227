/** What every run of the relay keeps. */
module RelaySafety {
  import opened Options
  import opened Seqs
  import opened Connections
  import opened DataProxies
  import opened Relay

  // ----- the invariants ---------------------------------------------------------------

  /** The mutex, the destructor and the worker agree. */
  ghost predicate Control(s: System) {
    && (s.lock == ByWorker <==> s.worker.InLoop())
    && (s.proxy.quit <==> s.destructor != NotBegun)
    && (s.worker == Exited ==> s.proxy.quit)
    && (s.worker.SerialLoop? ==> s.proxy.bufSock == [])
    && s.late == (if s.worker == Exited || (s.worker.InLoop() && s.proxy.quit) then 1 else 0)
  }

  /** No lost wake-up: an unnotified sleeper has nothing to do, except while a producer is
      still about to notify or the destructor is between setting `quit_` and notifying. */
  ghost predicate NoLostWakeUp(s: System) {
    s.worker == Asleep && Awake(s.proxy) ==> s.lock == ByProducer || s.destructor == QuitSet
  }

  /** The two lists hold exactly the connections that have not left, each once, by kind. */
  ghost predicate ListsMatch(reg: Registry<Id>, peers: map<Id, Peer>) {
    && Distinct(reg.sock) && Distinct(reg.serial)
    && (forall id :: id in reg.sock <==> id in peers && peers[id].leftAt.None? && peers[id].kind != Serial)
    && (forall id :: id in reg.serial <==> id in peers && peers[id].leftAt.None? && peers[id].kind == Serial)
  }

  ghost predicate Position(w: Worker, reg: Registry<Id>) {
    && (w.SockLoop? ==> w.i <= |reg.serial|)
    && (w.SerialLoop? ==> w.i <= |reg.sock|)
  }

  ghost predicate Listed(s: System) {
    ListsMatch(s.proxy.reg, s.peers) && Position(s.worker, s.proxy.reg)
  }

  /** Drained bytes followed by the buffer are all the bytes ever appended. */
  ghost predicate BufferEnds(hist: seq<Tagged>, buf: seq<Tagged>) {
    |buf| <= |hist| && hist[|hist| - |buf|..] == buf
  }

  ghost predicate Conserved(s: System) {
    BufferEnds(s.histSerial, s.proxy.bufSerial) && BufferEnds(s.histSock, s.proxy.bufSock)
  }

  /** The worker has handed the buffer now being broadcast to this client already. */
  ghost predicate Served(s: System, id: Id)
    requires Listed(s)
  {
    match s.worker
    case SockLoop(i) => id in s.proxy.reg.serial[..i]
    case SerialLoop(i) => id in s.proxy.reg.sock[..i]
    case _ => false
  }

  /** How much of its history a client has been handed. */
  ghost function Seen(s: System, id: Id): int
    requires Listed(s) && id in s.peers
  {
    var p := s.peers[id];
    match p.leftAt
    case Some(e) => e
    case None => Drained(s, p.kind) + if Served(s, id) then |Pending(s, p.kind)| else 0
  }

  /** All calls of `received` concatenate to the slice of the history that was drained while
      the client was registered. */
  ghost predicate Slice(s: System, id: Id)
    requires Listed(s) && id in s.peers
  {
    var p := s.peers[id];
    && p.joinedAt <= Seen(s, id) <= |History(s, p.kind)|
    && p.got == History(s, p.kind)[p.joinedAt..Seen(s, id)]
  }

  ghost predicate Slices(s: System) {
    Listed(s) && forall id :: id in s.peers ==> Slice(s, id)
  }

  /** Everything queued for a connection so far, sent or not: what is on the wire, and then
      the queue without the bytes that are written but not yet popped. */
  function Outgoing(p: Peer): seq<Tagged> {
    p.wire + match p.flush
             case Written(n) => if n <= |p.txbuf| then p.txbuf[n..] else []
             case _ => p.txbuf
  }

  function Payload(s: seq<Tagged>): seq<Tagged> {
    Filter((t: Tagged) => t.origin != Notice, s)
  }

  /** The flush in progress only ever concerns a prefix of the queue, and what is queued is
      what was received, notices aside. */
  ghost predicate Queued(p: Peer) {
    && (p.flush.Offering? ==> p.flush.content <= p.txbuf)
    && (p.flush.Written? ==> p.flush.n <= |p.txbuf|)
    && Payload(Outgoing(p)) == (if p.kind == Admin then [] else p.got)
    && (p.kind == Serial ==> Outgoing(p) == p.got)
  }

  ghost predicate AllQueued(s: System) {
    forall id :: id in s.peers ==> Queued(s.peers[id])
  }

  /** Each history holds only bytes produced by connections of its own side. */
  ghost predicate Sourced(s: System) {
    && (forall t :: t in s.histSerial ==>
          t.origin.From? && t.origin.id in s.peers && s.peers[t.origin.id].kind == Serial)
    && (forall t :: t in s.histSock ==>
          t.origin.From? && t.origin.id in s.peers && s.peers[t.origin.id].kind == Client)
  }

  ghost predicate Inv(s: System) {
    && Control(s) && NoLostWakeUp(s) && Listed(s) && Conserved(s)
    && Slices(s) && AllQueued(s) && Sourced(s)
  }

  // ----- each event keeps each of them ------------------------------------------------

  lemma ControlKept(s: System, e: Event)
    requires Control(s) && NoLostWakeUp(s) && Enabled(s, e)
    ensures Control(Next(s, e)) && NoLostWakeUp(Next(s, e))
  {
  }

  /** Nobody joins or leaves between the two states. */
  ghost predicate SameRoster(s: System, t: System) {
    && s.proxy.reg == t.proxy.reg && s.peers.Keys == t.peers.Keys
    && forall id :: id in s.peers ==>
         && s.peers[id].kind == t.peers[id].kind
         && s.peers[id].joinedAt == t.peers[id].joinedAt
         && s.peers[id].leftAt == t.peers[id].leftAt
  }

  lemma RosterKept(s: System, e: Event)
    requires Enabled(s, e) && !e.Joins? && !e.Leaves?
    ensures SameRoster(s, Next(s, e))
  {
  }

  lemma ListedKept(s: System, e: Event)
    requires Control(s) && Listed(s) && Enabled(s, e)
    ensures Listed(Next(s, e))
  {
    PositionKept(s, e);
    if e.Joins? {
    } else if e.Leaves? {
      LeavesListed(s.proxy.reg, s.peers, e.id);
    } else {
      RosterKept(s, e);
      SameRosterListed(s, Next(s, e));
    }
  }

  lemma PositionKept(s: System, e: Event)
    requires Control(s) && Position(s.worker, s.proxy.reg) && Enabled(s, e)
    ensures Position(Next(s, e).worker, Next(s, e).proxy.reg)
  {
  }

  lemma SameRosterListed(s: System, t: System)
    requires SameRoster(s, t) && ListsMatch(s.proxy.reg, s.peers)
    ensures ListsMatch(t.proxy.reg, t.peers)
  {
  }

  lemma LeavesListed(reg: Registry<Id>, peers: map<Id, Peer>, id: Id)
    requires ListsMatch(reg, peers) && id in peers
    ensures forall left :: ListsMatch(Deregister(reg, id, DirectionOf(peers[id].kind)),
                                      peers[id := peers[id].(leftAt := Some(left))])
  {
    EraseDistinct(reg.sock, id);
    EraseDistinct(reg.serial, id);
    forall x | x != id
      ensures x in Erase(reg.sock, id) <==> x in reg.sock
      ensures x in Erase(reg.serial, id) <==> x in reg.serial
    {
      EraseMembers(reg.sock, id, x);
      EraseMembers(reg.serial, id, x);
    }
  }

  lemma ConservedKept(s: System, e: Event)
    requires Conserved(s) && Enabled(s, e)
    ensures Conserved(Next(s, e))
  {
    if e.Insert? {
      var x := Tag(e.bytes, From(e.id));
      var hist := if e.dir == Serial2Sock then s.histSerial else s.histSock;
      var buf := if e.dir == Serial2Sock then s.proxy.bufSerial else s.proxy.bufSock;
      assert (hist + x)[|hist| - |buf|..] == hist[|hist| - |buf|..] + x;
    }
  }

  lemma SlicesKept(s: System, e: Event)
    requires Control(s) && Slices(s) && Conserved(s) && Enabled(s, e)
    ensures Slices(Next(s, e))
  {
    ListedKept(s, e);
    var t := Next(s, e);
    forall id | id in t.peers
      ensures Slice(t, id)
    {
      match e
      case Insert(_, _, _) => InsertSlice(s, e, id);
      case WorkerSteps => WorkerSlice(s, id);
      case Joins(_, _) => JoinsSlice(s, e, id);
      case Leaves(_) => LeavesSlice(s, e, id);
      case _ => QuietSlice(s, e, id);
    }
  }

  lemma QuietSlice(s: System, e: Event, id: Id)
    requires Control(s) && Slices(s) && Enabled(s, e) && id in s.peers
    requires !e.Insert? && !e.WorkerSteps? && !e.Joins? && !e.Leaves?
    requires Listed(Next(s, e))
    ensures id in Next(s, e).peers && Slice(Next(s, e), id)
  {
    assert Slice(s, id);
    RosterKept(s, e);
    assert Next(s, e).peers[id].got == s.peers[id].got;
    assert Seen(Next(s, e), id) == Seen(s, id);
  }

  lemma InsertSlice(s: System, e: Event, id: Id)
    requires Control(s) && Slices(s) && Conserved(s) && Enabled(s, e) && id in s.peers
    requires e.Insert? && Listed(Next(s, e))
    ensures Slice(Next(s, e), id)
  {
    assert Slice(s, id);
    assert Seen(Next(s, e), id) == Seen(s, id);
    var h, x := History(s, s.peers[id].kind), Tag(e.bytes, From(e.id));
    SliceStable(h, x, s.peers[id].joinedAt, Seen(s, id));
  }

  /** The list, buffer and position of the loop that the worker is in. */
  ghost function Loop(s: System): (r: (seq<Id>, seq<Tagged>, nat))
    requires s.worker.InLoop()
  {
    if s.worker.SockLoop? then (s.proxy.reg.serial, s.proxy.bufSock, s.worker.i)
    else (s.proxy.reg.sock, s.proxy.bufSerial, s.worker.i)
  }

  lemma WorkerSlice(s: System, id: Id)
    requires Control(s) && Slices(s) && Conserved(s) && Enabled(s, WorkerSteps) && id in s.peers
    requires Listed(WorkerStep(s))
    ensures id in WorkerStep(s).peers && Slice(WorkerStep(s), id)
  {
    assert Slice(s, id);
    var (list, buf, i) := Loop(s);
    if buf != [] && i < |list| {
      DeliverSlice(s, id);
    } else {
      ClearSlice(s, id);
    }
  }

  lemma DeliverSlice(s: System, id: Id)
    requires Listed(s) && Conserved(s) && s.worker.InLoop() && id in s.peers && Slice(s, id)
    requires Loop(s).1 != [] && Loop(s).2 < |Loop(s).0|
    requires Listed(WorkerStep(s))
    ensures id in WorkerStep(s).peers && Slice(WorkerStep(s), id)
  {
    var (list, buf, i) := Loop(s);
    TakeNext(list, i, id);
    if id == list[i] {
      assert id in list;
      DeliverNext(s, id);
    } else {
      assert Seen(WorkerStep(s), id) == Seen(s, id);
    }
  }

  lemma DeliverNext(s: System, id: Id)
    requires Listed(s) && Conserved(s) && s.worker.InLoop() && id in s.peers && Slice(s, id)
    requires Loop(s).1 != [] && Loop(s).2 < |Loop(s).0|
    requires id == Loop(s).0[Loop(s).2] && id in Loop(s).0[..Loop(s).2 + 1] && Live(s, id)
    requires (s.peers[id].kind == Serial) == s.worker.SockLoop?
    requires Listed(WorkerStep(s))
    ensures Slice(WorkerStep(s), id)
  {
    var p := s.peers[id];
    assert !Served(s, id) && Served(WorkerStep(s), id);
    SliceToEnd(History(s, p.kind), p.joinedAt, Seen(s, id));
  }

  lemma ClearSlice(s: System, id: Id)
    requires Listed(s) && s.worker.InLoop() && id in s.peers && Slice(s, id)
    requires Loop(s).1 == [] || Loop(s).2 == |Loop(s).0|
    requires Listed(WorkerStep(s))
    ensures id in WorkerStep(s).peers && Slice(WorkerStep(s), id)
  {
    var (list, buf, i) := Loop(s);
    if i == |list| {
      assert list[..i] == list;
    }
    assert Seen(WorkerStep(s), id) == Seen(s, id);
  }

  lemma JoinsSlice(s: System, e: Event, id: Id)
    requires Control(s) && Slices(s) && Conserved(s) && Enabled(s, e) && id in Next(s, e).peers
    requires e.Joins? && Listed(Next(s, e))
    ensures Slice(Next(s, e), id)
  {
    assert id != e.id ==> Slice(s, id);
  }

  lemma LeavesSlice(s: System, e: Event, id: Id)
    requires Control(s) && Slices(s) && Conserved(s) && Enabled(s, e) && id in s.peers
    requires e.Leaves? && Listed(Next(s, e))
    ensures Slice(Next(s, e), id)
  {
    assert Slice(s, id);
    assert !s.worker.InLoop();
    assert Seen(Next(s, e), id) == Seen(s, id);
  }

  /** Bytes appended at the end of the queue, whatever the flush is doing. */
  lemma AppendQueued(p: Peer, x: seq<Tagged>)
    requires Queued(p)
    ensures var q := p.(txbuf := p.txbuf + x);
            && Payload(Outgoing(q)) == Payload(Outgoing(p)) + Payload(x)
            && Outgoing(q) == Outgoing(p) + x
            && (q.flush.Offering? ==> q.flush.content <= q.txbuf)
            && (q.flush.Written? ==> q.flush.n <= |q.txbuf|)
  {
    FilterConcat((t: Tagged) => t.origin != Notice, Outgoing(p), x);
    assert Outgoing(p.(txbuf := p.txbuf + x)) == Outgoing(p) + x;
  }

  lemma ReceiveQueued(p: Peer, x: seq<Tagged>)
    requires Queued(p)
    requires forall t :: t in x ==> t.origin != Notice
    ensures Queued(Receive(p, x))
  {
    AppendQueued(p, x);
    FilterAll((t: Tagged) => t.origin != Notice, x);
    var q := p.(txbuf := p.txbuf + x);
    assert Outgoing(Receive(p, x)) == if p.kind == Admin then Outgoing(p) else Outgoing(q);
  }

  /** The bytes popped are the bytes written, although the queue may have grown since. */
  lemma PeerQueued(p: Peer, e: PeerStep)
    requires Queued(p) && PeerEnabled(p, e)
    ensures Queued(PeerNext(p, e))
    ensures Outgoing(PeerNext(p, e)) == Outgoing(p) + if e.WriteNotice? then Tag(e.text, Notice) else []
  {
    match e
    case WriteNotice(text) =>
      AppendQueued(p, Tag(text, Notice));
      FilterNone((t: Tagged) => t.origin != Notice, Tag(text, Notice));
    case WriteAccepts(n) =>
      assert p.flush.content[..n] == p.txbuf[..n];
      MovePrefix(p.wire, p.txbuf, n);
    case _ =>
  }

  lemma AllQueuedKept(s: System, e: Event)
    requires Conserved(s) && Sourced(s) && AllQueued(s) && Enabled(s, e)
    ensures AllQueued(Next(s, e))
  {
    var t := Next(s, e);
    forall id | id in t.peers
      ensures Queued(t.peers[id])
    {
      if e.WorkerSteps? {
        WorkerQueued(s, id);
      } else if e.Joins? || e.Leaves? {
        RosterQueued(s, e, id);
      } else if e.OnPeer? && e.id == id {
        PeerQueued(s.peers[id], e.step);
      } else {
        assert t.peers[id] == s.peers[id];
      }
    }
  }

  lemma RosterQueued(s: System, e: Event, id: Id)
    requires AllQueued(s) && Enabled(s, e) && (e.Joins? || e.Leaves?) && id in Next(s, e).peers
    ensures Queued(Next(s, e).peers[id])
  {
    if id == e.id && e.Joins? {
      assert Outgoing(Next(s, e).peers[id]) == [];
    } else {
      var p, q := s.peers[id], Next(s, e).peers[id];
      assert Queued(p);
      assert Outgoing(q) == Outgoing(p);
    }
  }

  lemma WorkerQueued(s: System, id: Id)
    requires Conserved(s) && Sourced(s) && s.worker.InLoop() && id in s.peers && Queued(s.peers[id])
    ensures id in WorkerStep(s).peers && Queued(WorkerStep(s).peers[id])
  {
    var hist := if s.worker.SockLoop? then s.histSock else s.histSerial;
    var buf := Loop(s).1;
    forall x | x in buf
      ensures x.origin != Notice
    {
      assert x in hist[|hist| - |buf|..];
      assert x in hist;
    }
    ReceiveQueued(s.peers[id], buf);
  }

  lemma SourcedKept(s: System, e: Event)
    requires Sourced(s) && Enabled(s, e)
    ensures Sourced(Next(s, e))
  {
    var t := Next(s, e);
    assert forall id :: id in s.peers ==> id in t.peers && t.peers[id].kind == s.peers[id].kind;
    if e.Insert? {
      assert forall x :: x in Tag(e.bytes, From(e.id)) ==> x.origin == From(e.id);
    } else {
      assert t.histSerial == s.histSerial && t.histSock == s.histSock;
    }
  }

  // ----- over whole runs --------------------------------------------------------------

  lemma {:induction false} Reachable(run: seq<Event>)
    requires After(run).Some?
    ensures Inv(After(run).value)
  {
    if run == [] {
    } else {
      var front, e := run[..|run| - 1], run[|run| - 1];
      Reachable(front);
      var s := After(front).value;
      ControlKept(s, e);
      ListedKept(s, e);
      ConservedKept(s, e);
      SlicesKept(s, e);
      AllQueuedKept(s, e);
      SourcedKept(s, e);
    }
  }
}
