/** The main results about the relay, each over every run of the transition system. */
module RelayTheorems {
  import opened Options
  import opened Seqs
  import opened Connections
  import opened DataProxies
  import opened Relay
  import opened RelaySafety

  // ----- the histories are what the run says ------------------------------------------

  /** All bytes that a run appends in one direction, in order. */
  function Appended(run: seq<Event>, dir: Direction): seq<Tagged> {
    if run == [] then []
    else
      var e := run[|run| - 1];
      Appended(run[..|run| - 1], dir) +
      if e.Insert? && e.dir == dir then Tag(e.bytes, From(e.id)) else []
  }

  /** All bytes that one client transfers in a run. */
  function Sent(run: seq<Event>, id: Id): string {
    if run == [] then ""
    else
      var e := run[|run| - 1];
      Sent(run[..|run| - 1], id) + if e.Insert? && e.id == id then e.bytes else ""
  }

  /** The direction that a connection of this kind listens to. */
  function HeardDirection(kind: Kind): Direction {
    if kind == Serial then Sock2Serial else Serial2Sock
  }

  lemma {:induction false} HistoryIsAppended(run: seq<Event>)
    requires After(run).Some?
    ensures After(run).value.histSerial == Appended(run, Serial2Sock)
    ensures After(run).value.histSock == Appended(run, Sock2Serial)
  {
    if run != [] {
      HistoryIsAppended(run[..|run| - 1]);
    }
  }

  lemma {:induction false} PrefixRuns(run: seq<Event>, n: nat)
    requires After(run).Some? && n <= |run|
    ensures After(run[..n]).Some?
    decreases |run|
  {
    if n == |run| {
      assert run[..n] == run;
    } else {
      var front := run[..|run| - 1];
      PrefixRuns(front, n);
      assert front[..n] == run[..n];
    }
  }

  /** A client keeps its kind and the position at which it joined. */
  lemma {:induction false} JoinRemembered(run: seq<Event>, n: nat)
    requires After(run).Some? && n < |run| && run[n].Joins?
    ensures After(run[..n]).Some?
    ensures var s, e := After(run[..n]).value, run[n];
            && e.id in After(run).value.peers
            && After(run).value.peers[e.id].kind == e.kind
            && After(run).value.peers[e.id].joinedAt == Drained(s, e.kind)
    decreases |run|
  {
    PrefixRuns(run, n);
    var front, e := run[..|run| - 1], run[|run| - 1];
    var s := After(front).value;
    if n == |run| - 1 {
      Reachable(front);
      JoinStep(s, e);
    } else {
      assert front[..n] == run[..n];
      JoinRemembered(front, n);
      StepRemembers(s, e, run[n].id);
    }
  }

  lemma JoinStep(s: System, e: Event)
    requires Enabled(s, e) && e.Joins? && Conserved(s)
    ensures e.id in Next(s, e).peers
    ensures Next(s, e).peers[e.id].kind == e.kind
    ensures Next(s, e).peers[e.id].joinedAt == Drained(s, e.kind)
  {
  }

  lemma StepRemembers(s: System, e: Event, id: Id)
    requires Enabled(s, e) && id in s.peers
    ensures id in Next(s, e).peers
    ensures Next(s, e).peers[id].kind == s.peers[id].kind
    ensures Next(s, e).peers[id].joinedAt == s.peers[id].joinedAt
    ensures s.peers[id].leftAt.Some? ==> Next(s, e).peers[id].leftAt == s.peers[id].leftAt
  {
  }

  /** A client that leaves keeps the position at which it left. */
  lemma {:induction false} LeaveRemembered(run: seq<Event>, n: nat)
    requires After(run).Some? && n < |run| && run[n].Leaves?
    ensures After(run[..n]).Some?
    ensures var s, id := After(run[..n]).value, run[n].id;
            && id in s.peers && id in After(run).value.peers
            && After(run).value.peers[id].leftAt == Some(Drained(s, s.peers[id].kind))
    decreases |run|
  {
    PrefixRuns(run, n);
    var front, e := run[..|run| - 1], run[|run| - 1];
    if n == |run| - 1 {
      Reachable(front);
      LeaveStep(After(front).value, e);
    } else {
      assert front[..n] == run[..n];
      LeaveRemembered(front, n);
      StepRemembers(After(front).value, e, run[n].id);
    }
  }

  lemma LeaveStep(s: System, e: Event)
    requires Enabled(s, e) && e.Leaves? && Conserved(s)
    ensures e.id in s.peers && e.id in Next(s, e).peers
    ensures Next(s, e).peers[e.id].leftAt == Some(Drained(s, s.peers[e.id].kind))
  {
  }

  // ----- end to end -------------------------------------------------------------------

  /** How much of its history a client has been handed, on the state after a run: what was
      drained when it left, or, while it stays, what has been drained by now and the buffer
      being broadcast if the worker has already come to it. */
  lemma HandedOver(run: seq<Event>, id: Id)
    requires After(run).Some? && id in After(run).value.peers
    ensures Listed(After(run).value)
    ensures var s, p := After(run).value, After(run).value.peers[id];
            && (p.leftAt.Some? ==> Seen(s, id) == p.leftAt.value)
            && (p.leftAt.None? && !s.worker.InLoop() ==> Seen(s, id) == Drained(s, p.kind))
            && (p.leftAt.None? ==> Seen(s, id) == Drained(s, p.kind) ||
                                   Seen(s, id) == Drained(s, p.kind) + |Pending(s, p.kind)|)
  {
    Reachable(run);
  }

  /** End-to-end integrity, in both directions and in every state of every run, broadcasts and
      flushes in progress included.  Let the `n`-th event let a connection join, when `a`
      bytes of its direction had been drained.  All that its `received` was called with is
      exactly the slice from `a` of all bytes appended in that direction, as far as they have
      been handed over; and what is on its wire followed by what is still to be sent is,
      notices removed, that same slice, or nothing for an admin, which ignores it. */
  lemma EndToEnd(run: seq<Event>, n: nat)
    requires After(run).Some? && n < |run| && run[n].Joins?
    ensures After(run[..n]).Some? && run[n].id in After(run).value.peers && Listed(After(run).value)
    ensures var s, e, p := After(run).value, run[n], After(run).value.peers[run[n].id];
            var a, upto := Drained(After(run[..n]).value, e.kind), Seen(s, e.id);
            && 0 <= a <= upto <= |Appended(run, HeardDirection(e.kind))|
            && p.got == Appended(run, HeardDirection(e.kind))[a..upto]
            && Payload(Outgoing(p)) == if e.kind == Admin then [] else p.got
  {
    Reachable(run);
    JoinRemembered(run, n);
    HistoryIsAppended(run);
    assert Slice(After(run).value, run[n].id);
    assert Queued(After(run).value.peers[run[n].id]);
  }

  /** Between two turns of the worker that slice ends where the buffer begins. */
  lemma EndToEndBetweenTurns(run: seq<Event>, n: nat)
    requires After(run).Some? && n < |run| && run[n].Joins? && run[n].kind != Admin
    requires Live(After(run).value, run[n].id) && !After(run).value.worker.InLoop()
    ensures After(run[..n]).Some?
    ensures var s, kind, p := After(run).value, run[n].kind, After(run).value.peers[run[n].id];
            var a, drained := Drained(After(run[..n]).value, kind), Drained(s, kind);
            && 0 <= a <= drained <= |Appended(run, HeardDirection(kind))|
            && Payload(Outgoing(p)) == Appended(run, HeardDirection(kind))[a..drained]
            && Appended(run, HeardDirection(kind))[drained..] == Pending(s, kind)
  {
    EndToEnd(run, n);
    HandedOver(run, run[n].id);
    JoinRemembered(run, n);
    HistoryIsAppended(run);
    Reachable(run);
  }

  lemma LiveSlice(s: System, id: Id)
    requires Slices(s) && Conserved(s) && Live(s, id) && !s.worker.InLoop()
    ensures var p, h, drained := s.peers[id], History(s, s.peers[id].kind), Drained(s, s.peers[id].kind);
            && p.joinedAt <= drained <= |h|
            && p.got == h[p.joinedAt..drained]
            && h[drained..] == Pending(s, p.kind)
  {
    assert Slice(s, id);
  }

  /** At every moment, even in the middle of a broadcast or a flush, and even after the
      connection has left, the wire carries a prefix of that slice and nothing else. */
  lemma WireIsPrefix(run: seq<Event>, n: nat)
    requires After(run).Some? && n < |run| && run[n].Joins? && run[n].kind != Admin
    ensures After(run[..n]).Some? && run[n].id in After(run).value.peers
    ensures var kind, p := run[n].kind, After(run).value.peers[run[n].id];
            var a := Drained(After(run[..n]).value, kind);
            && 0 <= a <= |Appended(run, HeardDirection(kind))|
            && Payload(p.wire) <= Appended(run, HeardDirection(kind))[a..]
  {
    Reachable(run);
    JoinRemembered(run, n);
    HistoryIsAppended(run);
    WirePrefix(After(run).value, run[n].id);
  }

  lemma WirePrefix(s: System, id: Id)
    requires Slices(s) && AllQueued(s) && id in s.peers && s.peers[id].kind != Admin
    ensures var p, h := s.peers[id], History(s, s.peers[id].kind);
            p.joinedAt <= |h| && Payload(p.wire) <= h[p.joinedAt..]
  {
    var p := s.peers[id];
    assert Slice(s, id);
    assert Queued(p);
    var rest := Outgoing(p)[|p.wire|..];
    FilterConcat((t: Tagged) => t.origin != Notice, p.wire, rest);
    assert Outgoing(p) == p.wire + rest;
    assert Payload(p.wire) <= p.got;
  }

  /** A connection that joined with the `i`-th event and left with the `j`-th was handed exactly
      what was drained in between, in order; this includes admin connections. */
  lemma ReceivedWhileRegistered(run: seq<Event>, i: nat, j: nat)
    requires After(run).Some? && i < |run| && j < |run|
    requires run[i].Joins? && run[j].Leaves? && run[i].id == run[j].id
    ensures After(run[..i]).Some? && After(run[..j]).Some? && run[i].id in After(run).value.peers
    ensures var kind := run[i].kind;
            var a, b := Drained(After(run[..i]).value, kind), Drained(After(run[..j]).value, kind);
            && 0 <= a <= b <= |Appended(run, HeardDirection(kind))|
            && After(run).value.peers[run[i].id].got == Appended(run, HeardDirection(kind))[a..b]
  {
    EndToEnd(run, i);
    HandedOver(run, run[i].id);
    LeaveRemembered(run, j);
    JoinRemembered(run, i);
    KindRemembered(run, j, run[j].id);
  }

  lemma {:induction false} KindRemembered(run: seq<Event>, n: nat, id: Id)
    requires After(run).Some? && n <= |run|
    requires After(run[..n]).Some? && id in After(run[..n]).value.peers
    ensures id in After(run).value.peers
    ensures After(run).value.peers[id].kind == After(run[..n]).value.peers[id].kind
    decreases |run|
  {
    if n == |run| {
      assert run[..n] == run;
    } else {
      var front := run[..|run| - 1];
      assert front[..n] == run[..n];
      KindRemembered(front, n, id);
      StepRemembers(After(front).value, run[|run| - 1], id);
    }
  }

  /** One uninterrupted round of `flush`: a prefix of the queue moves to the wire, as
      `Connection.Flush` has it for each of its writes. */
  lemma FlushRound(p: Peer, n: nat)
    requires p.flush == Idle && 0 < n <= |p.txbuf|
    ensures PeerEnabled(p, OfferSnapshot)
    ensures PeerEnabled(PeerNext(p, OfferSnapshot), WriteAccepts(n))
    ensures var written := PeerNext(PeerNext(p, OfferSnapshot), WriteAccepts(n));
            && PeerEnabled(written, PopWritten)
            && PeerNext(written, PopWritten) == p.(wire := p.wire + p.txbuf[..n], txbuf := p.txbuf[n..])
  {
  }

  // ----- no cross-talk ----------------------------------------------------------------

  /** A byte on its way to a connection is a notice or was produced on the other side, so no
      connection ever gets back a byte of its own direction; and the serial line gets no
      notices at all. */
  lemma NoCrossTalk(run: seq<Event>, id: Id, t: Tagged)
    requires After(run).Some? && id in After(run).value.peers
    requires t in Outgoing(After(run).value.peers[id])
    ensures var peers := After(run).value.peers;
            match t.origin
            case Notice => peers[id].kind != Serial
            case From(producer) =>
              && producer in peers && producer != id
              && (peers[id].kind == Serial ==> peers[producer].kind == Client)
              && (peers[id].kind != Serial ==> peers[producer].kind == Serial)
  {
    Reachable(run);
    var s := After(run).value;
    if t.origin != Notice || s.peers[id].kind == Serial {
      FilterMembers((x: Tagged) => x.origin != Notice, Outgoing(s.peers[id]), t);
      HeardFromHistory(s, id, t);
    }
  }

  lemma HeardFromHistory(s: System, id: Id, t: Tagged)
    requires Slices(s) && AllQueued(s) && id in s.peers
    requires t in Payload(Outgoing(s.peers[id])) ||
             (s.peers[id].kind == Serial && t in Outgoing(s.peers[id]))
    ensures t in History(s, s.peers[id].kind)
  {
    assert Slice(s, id);
    assert Queued(s.peers[id]);
    assert t in s.peers[id].got;
  }

  // ----- many clients into one stream -------------------------------------------------

  function Bytes(s: seq<Tagged>): string {
    seq(|s|, k requires 0 <= k < |s| => s[k].b)
  }

  /** The bytes of a stream that one client produced. */
  function By(s: seq<Tagged>, id: Id): string {
    Bytes(Filter((t: Tagged) => t.origin == From(id), s))
  }

  lemma ByConcat(a: seq<Tagged>, b: seq<Tagged>, id: Id)
    ensures By(a + b, id) == By(a, id) + By(b, id)
  {
    FilterConcat((t: Tagged) => t.origin == From(id), a, b);
  }

  lemma ByTag(bytes: string, from: Id, id: Id)
    ensures By(Tag(bytes, From(from)), id) == if from == id then bytes else ""
  {
    if from == id {
      FilterAll((t: Tagged) => t.origin == From(id), Tag(bytes, From(from)));
    } else {
      FilterNone((t: Tagged) => t.origin == From(id), Tag(bytes, From(from)));
    }
  }

  /** The stream towards the serial port is a merge of the clients' transfers: `Appended` lays
      each transfer down in one piece, and projecting the stream on a client gives back
      all that this client transferred, in its own order. */
  lemma {:induction false} MergeProjects(run: seq<Event>, id: Id)
    requires After(run).Some?
    requires id in After(run).value.peers ==> After(run).value.peers[id].kind != Serial
    ensures By(Appended(run, Sock2Serial), id) == Sent(run, id)
  {
    if run == [] {
    } else {
      var front, e := run[..|run| - 1], run[|run| - 1];
      var s := After(front).value;
      assert id in s.peers ==> s.peers[id].kind != Serial by {
        if id in s.peers {
          StepRemembers(s, e, id);
        }
      }
      MergeProjects(front, id);
      if e.Insert? {
        ByConcat(Appended(front, Sock2Serial), Tag(e.bytes, From(e.id)), id);
        ByTag(e.bytes, e.id, id);
      }
      assert Appended(front, Sock2Serial) + [] == Appended(front, Sock2Serial);
    }
  }

  lemma BySlices(h: seq<Tagged>, a: int, b: int, id: Id)
    requires 0 <= a <= b <= |h|
    ensures By(h, id) == By(h[..a], id) + By(h[a..b], id) + By(h[b..], id)
  {
    var x, y, z := h[..a], h[a..b], h[b..];
    assert h == x + y + z;
    ByConcat(x + y, z, id);
    ByConcat(x, y, id);
  }

  /** What a serial connection, which joined with the `n`-th event, was handed of one client's
      bytes is one contiguous piece of all that this client transferred.  The piece starts
      after the client's bytes that had been drained when the serial connection joined, and
      ends after those that have been handed over to it. */
  lemma ClientPieceContiguous(run: seq<Event>, n: nat, client: Id)
    requires After(run).Some? && n < |run| && run[n].Joins? && run[n].kind == Serial
    requires client in After(run).value.peers && After(run).value.peers[client].kind == Client
    ensures After(run[..n]).Some? && run[n].id in After(run).value.peers && Listed(After(run).value)
    ensures var s, all := After(run).value, Appended(run, Sock2Serial);
            var a, upto := Drained(After(run[..n]).value, Serial), Seen(s, run[n].id);
            && 0 <= a <= upto <= |all|
            && var i, j := |By(all[..a], client)|, |By(all[..upto], client)|;
            && i <= j <= |Sent(run, client)|
            && By(s.peers[run[n].id].got, client) == Sent(run, client)[i..j]
  {
    EndToEnd(run, n);
    MergeProjects(run, client);
    var s, all := After(run).value, Appended(run, Sock2Serial);
    var a, upto := Drained(After(run[..n]).value, Serial), Seen(s, run[n].id);
    ByPiece(all, a, upto, client);
  }

  lemma ByPiece(h: seq<Tagged>, a: int, b: int, id: Id)
    requires 0 <= a <= b <= |h|
    ensures var i, j := |By(h[..a], id)|, |By(h[..b], id)|;
            i <= j <= |By(h, id)| && By(h[a..b], id) == By(h, id)[i..j]
  {
    BySlices(h, a, b, id);
    BySlices(h[..b], a, b, id);
    assert h[..b][..a] == h[..a] && h[..b][a..b] == h[a..b] && h[..b][b..] == [];
  }

  // ----- the worker -------------------------------------------------------------------

  /** No lost wake-up.  Whenever a buffer is not empty or `quit_` is set, and the worker has not
      left its loop, either a step of the worker is possible or a notification is outstanding;
      an outstanding one is a producer's that still holds the mutex, or the destructor's. */
  lemma NeverStuck(run: seq<Event>)
    requires After(run).Some? && After(run).value.worker != Exited
    requires var p := After(run).value.proxy; p.bufSock != [] || p.bufSerial != [] || p.quit
    ensures var s := After(run).value;
            || Enabled(s, WorkerLocks) || Enabled(s, WorkerSteps) || Enabled(s, NotifyInserted)
            || (s.worker == Asleep && Enabled(s, NotifyQuit))
    ensures var s := After(run).value;
            s.worker == Asleep ==>
              (Enabled(s, NotifyInserted) && Next(s, NotifyInserted).worker == Want) ||
              (Enabled(s, NotifyQuit) && Next(s, NotifyQuit).worker == Want)
  {
    Reachable(run);
  }

  /** The worker goes to sleep exactly when both buffers are empty and `quit_` is not set, and
      otherwise begins a turn. */
  lemma SleepsIffIdle(s: System)
    requires Enabled(s, WorkerLocks)
    ensures var idle := s.proxy.bufSock == [] && s.proxy.bufSerial == [] && !s.proxy.quit;
            && (Next(s, WorkerLocks).worker == Asleep <==> idle)
            && (Next(s, WorkerLocks).worker == SockLoop(0) <==> !idle)
  {
  }

  /** The worker leaves its loop only with both buffers empty and with every byte ever
      appended handed to every connection that listens; and at most one iteration begins
      after `quit_` was set. */
  lemma ShutdownDrains(run: seq<Event>, id: Id)
    requires After(run).Some? && run != []
    ensures After(run[..|run| - 1]).Some?
    ensures After(run).value.late <= 1
    ensures After(run).value.late == 1 && !After(run).value.worker.InLoop() ==> After(run).value.worker == Exited
    ensures var before, s := After(run[..|run| - 1]).value, After(run).value;
            before.worker != Exited && s.worker == Exited ==>
              && s.proxy.quit && s.proxy.bufSerial == [] && s.proxy.bufSock == []
              && (Live(s, id) ==>
                    var p, h := s.peers[id], Appended(run, HeardDirection(s.peers[id].kind));
                    p.joinedAt <= |h| && p.got == h[p.joinedAt..])
  {
    Reachable(run);
    Reachable(run[..|run| - 1]);
    HistoryIsAppended(run);
    ExitDrains(After(run[..|run| - 1]).value, run[|run| - 1], id);
  }

  lemma ExitDrains(before: System, e: Event, id: Id)
    requires Control(before) && Enabled(before, e) && Inv(Next(before, e))
    ensures var s := Next(before, e);
            before.worker != Exited && s.worker == Exited ==>
              && s.proxy.quit && s.proxy.bufSerial == [] && s.proxy.bufSock == []
              && (Live(s, id) ==>
                    var p, h := s.peers[id], History(s, s.peers[id].kind);
                    p.joinedAt <= |h| && p.got == h[p.joinedAt..])
  {
    var s := Next(before, e);
    if before.worker != Exited && s.worker == Exited {
      ExitEmpty(before, e);
      if Live(s, id) {
        DrainedSlice(s, id);
      }
    }
  }

  lemma DrainedSlice(s: System, id: Id)
    requires Slices(s) && Conserved(s) && Live(s, id) && !s.worker.InLoop()
    requires s.proxy.bufSerial == [] && s.proxy.bufSock == []
    ensures var p, h := s.peers[id], History(s, s.peers[id].kind);
            p.joinedAt <= |h| && p.got == h[p.joinedAt..]
  {
    LiveSlice(s, id);
  }

  lemma ExitEmpty(s: System, e: Event)
    requires Control(s) && Enabled(s, e) && s.worker != Exited && Next(s, e).worker == Exited
    ensures Next(s, e).proxy.bufSerial == [] && Next(s, e).proxy.bufSock == []
    ensures s.proxy.quit && Next(s, e).proxy.quit
  {
  }

  // ----- a turn of the worker, uninterrupted ------------------------------------------

  function DeliverAll(peers: map<Id, Peer>, calls: seq<Call<Id, Tagged>>): map<Id, Peer> {
    if calls == [] then peers
    else DeliverAll(Deliver(peers, calls[0].client, calls[0].content), calls[1..])
  }

  /** How many steps of its own the worker can still be from the end of its turn. */
  function StepsLeft(s: System): nat {
    match s.worker
    case SockLoop(i) => (if i < |s.proxy.reg.serial| then |s.proxy.reg.serial| - i else 0) + |s.proxy.reg.sock| + 2
    case SerialLoop(i) => (if i < |s.proxy.reg.sock| then |s.proxy.reg.sock| - i else 0) + 1
    case _ => 0
  }

  /** The worker runs to the end of its turn. */
  function Finish(s: System): System
    decreases StepsLeft(s)
  {
    if s.worker.InLoop() then Finish(WorkerStep(s)) else s
  }

  /** Only the worker's own steps move it through its turn, and each brings the end closer, so
      a turn ends after a bounded number of them whatever the other threads do. */
  lemma TurnEnds(s: System, e: Event)
    requires Control(s) && s.worker.InLoop() && Enabled(s, e)
    ensures e == WorkerSteps ==> StepsLeft(Next(s, e)) < StepsLeft(s)
    ensures e != WorkerSteps ==> StepsLeft(Next(s, e)) == StepsLeft(s) && Next(s, e).worker == s.worker
  {
  }

  lemma {:induction false} FinishSerial(s: System)
    requires s.worker.SerialLoop? && s.worker.i <= |s.proxy.reg.sock|
    requires s.worker.i > 0 ==> s.proxy.bufSerial != []
    ensures Finish(s) == s.(
      peers := DeliverAll(s.peers, Broadcast(s.proxy.reg.sock[s.worker.i..], s.proxy.bufSerial)),
      proxy := s.proxy.(bufSerial := []), lock := Free,
      worker := if s.proxy.quit then Exited else Want)
    decreases |s.proxy.reg.sock| - s.worker.i
  {
    var i, list, buf := s.worker.i, s.proxy.reg.sock, s.proxy.bufSerial;
    if buf != [] && i < |list| {
      FinishSerial(WorkerStep(s));
      var calls := Broadcast(list[i..], buf);
      assert calls[0] == Call(list[i], buf);
      assert calls[1..] == Broadcast(list[i + 1..], buf);
    }
  }

  lemma {:induction false} FinishSock(s: System)
    requires s.worker.SockLoop? && s.worker.i <= |s.proxy.reg.serial|
    requires s.worker.i > 0 ==> s.proxy.bufSock != []
    ensures Finish(s) == s.(
      peers := DeliverAll(s.peers,
        Broadcast(s.proxy.reg.serial[s.worker.i..], s.proxy.bufSock) +
        Broadcast(s.proxy.reg.sock, s.proxy.bufSerial)),
      proxy := s.proxy.(bufSerial := [], bufSock := []), lock := Free,
      worker := if s.proxy.quit then Exited else Want)
    decreases |s.proxy.reg.serial| - s.worker.i
  {
    var i, list, buf := s.worker.i, s.proxy.reg.serial, s.proxy.bufSock;
    var rest := Broadcast(s.proxy.reg.sock, s.proxy.bufSerial);
    if buf != [] && i < |list| {
      FinishSock(WorkerStep(s));
      var calls := Broadcast(list[i..], buf);
      assert calls[0] == Call(list[i], buf);
      assert calls[1..] == Broadcast(list[i + 1..], buf);
      assert (calls + rest)[1..] == calls[1..] + rest;
    } else {
      FinishSerial(WorkerStep(s));
      assert s.proxy.reg.sock[0..] == s.proxy.reg.sock;
      assert Broadcast(list[i..], buf) + rest == rest;
    }
  }

  /** The small steps of a turn add up to what `DataProxy.WorkerTurn` is specified to do: the
      same calls in the same order, and both buffers cleared. */
  lemma TurnRefines(s: System)
    requires s.worker == SockLoop(0)
    ensures Finish(s).peers == DeliverAll(s.peers,
              Broadcast(s.proxy.reg.serial, s.proxy.bufSock) +
              Broadcast(s.proxy.reg.sock, s.proxy.bufSerial))
    ensures Finish(s).proxy == s.proxy.(bufSerial := [], bufSock := [])
    ensures Finish(s).worker == if s.proxy.quit then Exited else Want
  {
    FinishSock(s);
    assert s.proxy.reg.serial[0..] == s.proxy.reg.serial;
  }
}
