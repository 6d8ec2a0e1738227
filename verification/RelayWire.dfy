/** What exactly goes into each connection's queue and onto its wire, step by step and over
    whole runs, notices included. */
module RelayWire {
  import opened Options
  import opened Seqs
  import opened Connections
  import opened Relay
  import opened RelaySafety
  import opened RelayTheorems

  // ----- the wire ---------------------------------------------------------------------

  /** Only an accepted write puts bytes on the wire, and then the first `n` of the queue. */
  lemma PeerWrites(p: Peer, e: PeerStep)
    requires Queued(p) && PeerEnabled(p, e)
    ensures e.WriteAccepts? ==> e.n <= |p.txbuf|
    ensures PeerNext(p, e).wire == p.wire + if e.WriteAccepts? then p.txbuf[..e.n] else []
  {
    if e.WriteAccepts? {
      assert p.flush.content[..e.n] == p.txbuf[..e.n];
    }
  }

  /** How many bytes the writes to one connection accepted in a run. */
  function WrittenTo(run: seq<Event>, id: Id): nat {
    if run == [] then 0
    else
      var e := run[|run| - 1];
      WrittenTo(run[..|run| - 1], id) +
      if e.OnPeer? && e.id == id && e.step.WriteAccepts? then e.step.n else 0
  }

  // ----- the queue --------------------------------------------------------------------

  /** The worker is about to hand its buffer to this connection. */
  predicate ToBeHanded(s: System, id: Id) {
    match s.worker
    case SockLoop(i) => s.proxy.bufSock != [] && i < |s.proxy.reg.serial| && s.proxy.reg.serial[i] == id
    case SerialLoop(i) => s.proxy.bufSerial != [] && i < |s.proxy.reg.sock| && s.proxy.reg.sock[i] == id
    case _ => false
  }

  /** What one event adds to what is queued for a connection. */
  function Added(s: System, e: Event, id: Id): seq<Tagged> {
    if e.OnPeer? && e.id == id && e.step.WriteNotice? then Tag(e.step.text, Notice)
    else if e == WorkerSteps && ToBeHanded(s, id) && id in s.peers && s.peers[id].kind != Admin then
      Pending(s, s.peers[id].kind)
    else []
  }

  /** No event touches what is already queued, sent or not; it only adds at the end. */
  lemma OutgoingGrows(s: System, e: Event, id: Id)
    requires Listed(s) && AllQueued(s) && Enabled(s, e) && id in s.peers
    ensures id in Next(s, e).peers
    ensures Outgoing(Next(s, e).peers[id]) == Outgoing(s.peers[id]) + Added(s, e, id)
  {
    var p := s.peers[id];
    assert Queued(p);
    if e.WorkerSteps? {
      WorkerGrows(s, id);
    } else if e.OnPeer? && e.id == id {
      PeerQueued(p, e.step);
    } else if e.Leaves? && e.id == id {
      assert Outgoing(Next(s, e).peers[id]) == Outgoing(p);
    } else {
      assert Next(s, e).peers[id] == p;
    }
  }

  lemma WorkerGrows(s: System, id: Id)
    requires Listed(s) && s.worker.InLoop() && id in s.peers && Queued(s.peers[id])
    ensures id in WorkerStep(s).peers
    ensures Outgoing(WorkerStep(s).peers[id]) == Outgoing(s.peers[id]) + Added(s, WorkerSteps, id)
  {
    var (list, buf, i) := Loop(s);
    if ToBeHanded(s, id) {
      assert id in list;
      assert buf == Pending(s, s.peers[id].kind);
      AppendQueued(s.peers[id], buf);
      assert s.peers[id].kind != Admin ==>
          Outgoing(Receive(s.peers[id], buf)) == Outgoing(s.peers[id].(txbuf := s.peers[id].txbuf + buf));
      assert s.peers[id].kind == Admin ==> Outgoing(Receive(s.peers[id], buf)) == Outgoing(s.peers[id]);
    } else {
      assert WorkerStep(s).peers[id] == s.peers[id];
    }
  }

  /** All that a run queues for a connection, in order. */
  function QueuedFor(run: seq<Event>, id: Id): seq<Tagged>
    requires After(run).Some?
  {
    if run == [] then []
    else
      var front := run[..|run| - 1];
      QueuedFor(front, id) + Added(After(front).value, run[|run| - 1], id)
  }

  /** Nothing happens to a connection before it joins. */
  lemma {:induction false} NothingBefore(run: seq<Event>, id: Id)
    requires After(run).Some? && id !in After(run).value.peers
    ensures QueuedFor(run, id) == [] && WrittenTo(run, id) == 0 && Noticed(run, id) == ""
  {
    if run != [] {
      var front, e := run[..|run| - 1], run[|run| - 1];
      if id in After(front).value.peers {
        StepRemembers(After(front).value, e, id);
      }
      NothingBefore(front, id);
    }
  }

  lemma {:induction false} OutgoingIsQueued(run: seq<Event>, id: Id)
    requires After(run).Some? && id in After(run).value.peers
    ensures Outgoing(After(run).value.peers[id]) == QueuedFor(run, id)
  {
    var front, e := run[..|run| - 1], run[|run| - 1];
    var s := After(front).value;
    if id in s.peers {
      OutgoingIsQueued(front, id);
      Reachable(front);
      OutgoingGrows(s, e, id);
    } else {
      NothingBefore(front, id);
      JoinsEmpty(s, e, id);
    }
  }

  lemma JoinsEmpty(s: System, e: Event, id: Id)
    requires Enabled(s, e) && id !in s.peers && id in Next(s, e).peers
    ensures Outgoing(Next(s, e).peers[id]) == [] && Added(s, e, id) == []
    ensures Next(s, e).peers[id].wire == [] && !(e.OnPeer? && e.id == id)
  {
  }

  lemma {:induction false} WireLength(run: seq<Event>, id: Id)
    requires After(run).Some? && id in After(run).value.peers
    ensures |After(run).value.peers[id].wire| == WrittenTo(run, id)
  {
    var front, e := run[..|run| - 1], run[|run| - 1];
    var s := After(front).value;
    if id in s.peers {
      WireLength(front, id);
      Reachable(front);
      WireStep(s, e, id);
    } else {
      NothingBefore(front, id);
      JoinsEmpty(s, e, id);
    }
  }

  /** The wire and the queue of every connection after every run, exactly: what is queued is what
      the broadcasts and notices of the run queued for it, in their order, and the wire is as
      much of it as the writes of the run accepted. */
  lemma WireExactly(run: seq<Event>, id: Id)
    requires After(run).Some? && id in After(run).value.peers
    ensures Outgoing(After(run).value.peers[id]) == QueuedFor(run, id)
    ensures WrittenTo(run, id) <= |QueuedFor(run, id)|
    ensures After(run).value.peers[id].wire == QueuedFor(run, id)[..WrittenTo(run, id)]
  {
    OutgoingIsQueued(run, id);
    WireLength(run, id);
    WireFirst(After(run).value.peers[id]);
  }

  lemma WireFirst(p: Peer)
    ensures |p.wire| <= |Outgoing(p)| && p.wire == Outgoing(p)[..|p.wire|]
  {
  }

  lemma WireStep(s: System, e: Event, id: Id)
    requires AllQueued(s) && Enabled(s, e) && id in s.peers
    ensures id in Next(s, e).peers
    ensures |Next(s, e).peers[id].wire| ==
            |s.peers[id].wire| + if e.OnPeer? && e.id == id && e.step.WriteAccepts? then e.step.n else 0
  {
    assert Queued(s.peers[id]);
    if e.OnPeer? && e.id == id {
      PeerWrites(s.peers[id], e.step);
    }
  }

  // ----- notices ----------------------------------------------------------------------

  /** The notices written to one connection in a run. */
  function Noticed(run: seq<Event>, id: Id): string {
    if run == [] then ""
    else
      var e := run[|run| - 1];
      Noticed(run[..|run| - 1], id) +
      if e.OnPeer? && e.id == id && e.step.WriteNotice? then e.step.text else ""
  }

  function NoticesIn(s: seq<Tagged>): string {
    Bytes(Filter((t: Tagged) => t.origin == Notice, s))
  }

  lemma NoticesConcat(a: seq<Tagged>, b: seq<Tagged>)
    ensures NoticesIn(a + b) == NoticesIn(a) + NoticesIn(b)
  {
    FilterConcat((t: Tagged) => t.origin == Notice, a, b);
  }

  lemma NoticesOfTag(text: string)
    ensures NoticesIn(Tag(text, Notice)) == text
  {
    FilterAll((t: Tagged) => t.origin == Notice, Tag(text, Notice));
  }

  lemma NoNoticesIn(s: seq<Tagged>)
    requires forall t :: t in s ==> t.origin != Notice
    ensures NoticesIn(s) == ""
  {
    FilterNone((t: Tagged) => t.origin == Notice, s);
  }

  /** No broadcast loses, repeats or reorders a notice. */
  lemma {:induction false} NoticesKept(run: seq<Event>, id: Id)
    requires After(run).Some?
    ensures NoticesIn(QueuedFor(run, id)) == Noticed(run, id)
  {
    if run == [] {
    } else {
      var front, e := run[..|run| - 1], run[|run| - 1];
      NoticesKept(front, id);
      Reachable(front);
      NoticesConcat(QueuedFor(front, id), Added(After(front).value, e, id));
      NoticesAdded(After(front).value, e, id);
    }
  }

  lemma NoticesAdded(s: System, e: Event, id: Id)
    requires Conserved(s) && Sourced(s)
    ensures NoticesIn(Added(s, e, id)) ==
            if e.OnPeer? && e.id == id && e.step.WriteNotice? then e.step.text else ""
  {
    if e.OnPeer? && e.id == id && e.step.WriteNotice? {
      NoticesOfTag(e.step.text);
    } else {
      forall t | t in Added(s, e, id)
        ensures t.origin != Notice
      {
        assert t in s.histSerial || t in s.histSock;
      }
      NoNoticesIn(Added(s, e, id));
    }
  }
}
