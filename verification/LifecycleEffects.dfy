/** What each event does, exactly: which connections it adds, who asks to quit, and which
    descriptors are closed on the way. */
module LifecycleEffects {
  import opened Options
  import opened Connections
  import opened DataProxies
  import opened Lifecycle
  import opened LifecycleSafety
  import opened StaleDescriptors

  // ----- who asks to quit -------------------------------------------------------------

  /** This reader is an admin that types `exit`. */
  ghost predicate AsksToQuit(s: State, e: Event, c: Conn) {
    && e.Readable? && e.fd !in s.listening && Find(s.conns, e.fd) == Some(c)
    && c.kind == Admin && exists r :: r in e.batch && r.cmd == ExitCmd
  }

  lemma ConnectQuits(s: State, o: Opening)
    ensures Connect(s, o).quitting == s.quitting
  {
  }

  lemma DisconnectQuits(s: State)
    ensures Disconnect(s).quitting == s.quitting
  {
  }

  lemma OneReadQuits(s: State, c: Conn, r: Read)
    requires OneRead(s, c, r).Some?
    ensures OneRead(s, c, r).value.quitting ==
            if c.kind == Admin && r.cmd == ExitCmd then s.quitting + {c.id} else s.quitting
  {
    ConnectQuits(s, r.before);
    var s1 := Connect(s, r.before);
    ConnectQuits(s1, r.during);
    DisconnectQuits(s1);
    ConnectQuits(Disconnect(s1), r.during);
  }

  lemma {:induction false} ReadsQuit(s: State, c: Conn, batch: seq<Read>)
    requires AllReads(s, c, batch).Some?
    ensures AllReads(s, c, batch).value.quitting ==
            if c.kind == Admin && exists r :: r in batch && r.cmd == ExitCmd
            then s.quitting + {c.id} else s.quitting
  {
    if batch != [] {
      var front, r := batch[..|batch| - 1], batch[|batch| - 1];
      ReadsQuit(s, c, front);
      OneReadQuits(AllReads(s, c, front).value, c, r);
      assert forall x :: x in batch <==> x in front || x == r;
    }
  }

  lemma {:induction false} AcceptsQuit(s: State, srv: int, fds: seq<int>)
    ensures AcceptAll(s, srv, fds).quitting == s.quitting
    decreases |fds|
  {
    if fds != [] && Grantable(s, fds[0]) {
      AcceptsQuit(Accept(s, srv, fds[0]), srv, fds[1..]);
    }
  }

  /** An id joins the quitting ones exactly if it is that of an admin whose input contains
      `exit`; nothing else changes them. */
  lemma QuittingExactly(s: State, e: Event)
    requires Handle(s, e).Some?
    ensures forall id :: id in Handle(s, e).value.quitting <==>
              id in s.quitting || exists c :: AsksToQuit(s, e, c) && c.id == id
  {
    match e
    case Incoming(srv, fds) => AcceptsQuit(s, srv, fds);
    case Readable(fd, batch, end) =>
      if fd !in s.listening {
        var c := Find(s.conns, fd).value;
        ReadsQuit(s, c, batch);
        assert AllReads(s, c, batch).value.quitting ==
            if AsksToQuit(s, e, c) then s.quitting + {c.id} else s.quitting;
      }
    case _ =>
  }

  /** So an admin that typed `exit` is closed by the next output event on its descriptor. */
  lemma ExitCloses(s: State, e: Event, c: Conn)
    requires Inv(s) && c in s.conns && AsksToQuit(s, e, c) && e.end == Again && Handle(s, e).Some?
    ensures var t := Handle(s, e).value;
            && c in t.conns
            && Handle(t, Writable(c.fd)).Some?
            && var u := Handle(t, Writable(c.fd)).value;
               c !in u.conns && c.fd !in u.open && c !in u.reg.sock
  {
    HandleKeeps(s, e);
    AllReadsKeep(s, c, e.batch);
    var t := Handle(s, e).value;
    QuittingExactly(s, e);
    FindUnique(t.conns, c);
    CloseConnectionKeeps(t, c);
    IndexesAgree(CloseConnection(t, c), c, c);
  }

  // ----- accepted connections ---------------------------------------------------------

  /** How many of these answers of `accept` are descriptors that the kernel can grant in turn. */
  function Taken(open: set<int>, fds: seq<int>): (n: nat)
    ensures n <= |fds|
    decreases |fds|
  {
    if fds == [] || fds[0] <= 2 || fds[0] in open then 0 else 1 + Taken(open + {fds[0]}, fds[1..])
  }

  /** What `accept` adds: each descriptor handed out before the first failing answer becomes one
      connection of the listening socket's kind, in that order. */
  lemma {:induction false} AcceptAdds(s: State, srv: int, fds: seq<int>)
    ensures var t, n := AcceptAll(s, srv, fds), Taken(s.open, fds);
            && |t.conns| == |s.conns| + n && t.conns[..|s.conns|] == s.conns
            && (forall k :: 0 <= k < n ==>
                  t.conns[|s.conns| + k] == Conn(s.nextId + k, fds[k], if srv == s.admin then Admin else Client))
            && (n < |fds| ==> !Grantable(t, fds[n]))
    decreases |fds|
  {
    if fds != [] && Grantable(s, fds[0]) {
      var next, t, n := Accept(s, srv, fds[0]), AcceptAll(s, srv, fds), Taken(s.open, fds);
      AcceptAdds(next, srv, fds[1..]);
      assert t.conns[|s.conns|] == t.conns[..|next.conns|][|s.conns|];
      assert forall k :: 1 <= k < n ==>
          t.conns[|s.conns| + k] == t.conns[|next.conns| + (k - 1)] && fds[k] == fds[1..][k - 1];
    }
  }

  /** One event on a listening socket takes in every pending connection, up to the first failing
      answer, in order and with the kind of that socket, and keeps all the others. */
  lemma IncomingAdds(s: State, srv: int, fds: seq<int>)
    requires srv in s.listening
    ensures Handle(s, Incoming(srv, fds)).Some?
    ensures var t, n := Handle(s, Incoming(srv, fds)).value, Taken(s.open, fds);
            && |t.conns| == |s.conns| + n && t.conns[..|s.conns|] == s.conns
            && forall k :: 0 <= k < n ==>
                 t.conns[|s.conns| + k] == Conn(s.nextId + k, fds[k], if srv == s.admin then Admin else Client)
  {
    AcceptAdds(s, srv, fds);
  }

  // ----- serial connections -----------------------------------------------------------

  /** Connections that are not in `s` are serial ones and were made later. */
  ghost predicate OnlySerialAdded(s: State, t: State) {
    s.nextId <= t.nextId && forall x :: x in t.conns ==> x in s.conns || (x.kind == Serial && x.id >= s.nextId)
  }

  lemma ConnectAdds(s: State, o: Opening)
    ensures OnlySerialAdded(s, Connect(s, o))
    ensures s.serialFd > 0 ==> Connect(s, o) == s
  {
  }

  lemma DisconnectAdds(s: State)
    requires Inv(s)
    ensures OnlySerialAdded(s, Disconnect(s))
  {
    DisconnectKeeps(s);
  }

  lemma AddsAgain(s: State, t: State, u: State)
    requires OnlySerialAdded(s, t) && OnlySerialAdded(t, u)
    ensures OnlySerialAdded(s, u)
  {
  }

  lemma OneReadAdds(s: State, c: Conn, r: Read)
    requires Inv(s) && c in s.conns && OneRead(s, c, r).Some?
    ensures OnlySerialAdded(s, OneRead(s, c, r).value)
    ensures s.serialFd > 0 && !Cuts(c, r) ==> OneRead(s, c, r).value.conns == s.conns
    ensures s.serialFd > 0 && !Cuts(c, r) ==> OneRead(s, c, r).value.serialFd == s.serialFd
  {
    ConnectKeeps(s, r.before);
    ConnectAdds(s, r.before);
    if c.kind == Admin {
      ObeyAdds(Connect(s, r.before), c, r);
      AddsAgain(s, Connect(s, r.before), OneRead(s, c, r).value);
    }
  }

  lemma ObeyAdds(s: State, c: Conn, r: Read)
    requires Inv(s) && Obey(s, c, r).Some?
    ensures OnlySerialAdded(s, Obey(s, c, r).value)
    ensures s.serialFd > 0 && !Severs(r.cmd) ==>
              Obey(s, c, r).value.conns == s.conns && Obey(s, c, r).value.serialFd == s.serialFd
  {
    DisconnectAdds(s);
    ConnectAdds(s, r.during);
    if r.cmd == ReconnectCmd {
      ConnectAdds(Disconnect(s), r.during);
      AddsAgain(s, Disconnect(s), Connect(Disconnect(s), r.during));
    }
  }

  lemma {:induction false} AllReadsAdd(s: State, c: Conn, batch: seq<Read>)
    requires Inv(s) && c in s.conns && AllReads(s, c, batch).Some?
    ensures OnlySerialAdded(s, AllReads(s, c, batch).value)
    ensures s.serialFd > 0 && !Cut(c, batch) ==>
              AllReads(s, c, batch).value.conns == s.conns && AllReads(s, c, batch).value.serialFd == s.serialFd
  {
    if batch != [] {
      var front, r := batch[..|batch| - 1], batch[|batch| - 1];
      AllReadsAdd(s, c, front);
      AllReadsKeep(s, c, front);
      OneReadAdds(AllReads(s, c, front).value, c, r);
      AddsAgain(s, AllReads(s, c, front).value, AllReads(s, c, batch).value);
    }
  }

  lemma {:induction false} CutIff(c: Conn, batch: seq<Read>)
    ensures Cut(c, batch) <==> c.kind == Admin && exists r :: r in batch && Severs(r.cmd)
  {
    if batch != [] {
      var front, r := batch[..|batch| - 1], batch[|batch| - 1];
      CutIff(c, front);
      assert forall x :: x in batch <==> x in front || x == r;
    }
  }

  /** The answer of the device that this batch of reads ends up with, if it opens it at all. */
  function Opened(s: State, c: Conn, batch: seq<Read>): Opening {
    if Cut(c, batch) then First(s.open - {s.serialFd}, Since(c, batch))
    else if s.serialFd <= 0 then First(s.open, Since(c, batch))
    else Refused
  }

  /** A batch adds a connection on `fd` exactly if the device answers with `fd` and works. */
  lemma ReadsAddSerial(s: State, c: Conn, batch: seq<Read>, fd: int)
    requires Inv(s) && c in s.conns && AllReads(s, c, batch).Some?
    ensures (exists x :: x in AllReads(s, c, batch).value.conns && x !in s.conns && x.fd == fd) <==>
            Opened(s, c, batch) == Works(fd)
  {
    var t, base := AllReads(s, c, batch).value, Base(s, c, batch);
    AllReadsKeep(s, c, batch);
    AllReadsAdd(s, c, batch);
    if Cut(c, batch) || s.serialFd <= 0 {
      DisconnectKeeps(s);
      DisconnectNotStale(s);
      BatchComesTo(s, c, batch);
      FirstOpens(base.open, Since(c, batch));
      ConnectStaleIff(base, First(base.open, Since(c, batch)));
      assert Opened(s, c, batch) == First(base.open, Since(c, batch));
      OldSerialGone(s, c, batch);
      if Opened(s, c, batch) == Works(fd) {
        var x :| x in t.conns && x.kind == Serial;
        assert x !in s.conns && x.fd == fd;
      }
    }
  }

  lemma OldSerialGone(s: State, c: Conn, batch: seq<Read>)
    requires Inv(s) && c in s.conns && AllReads(s, c, batch).Some?
    requires Cut(c, batch) || s.serialFd <= 0
    ensures forall d :: d in AllReads(s, c, batch).value.conns && d.kind == Serial ==> d !in s.conns
  {
    CutIff(c, batch);
    forall d | d in s.conns && d.kind == Serial
      ensures d !in AllReads(s, c, batch).value.conns
    {
      AllReadsLater(s, c, batch, d);
    }
  }

  // ----- the events -------------------------------------------------------------------

  /** This event adds a connection of this kind with this descriptor. */
  ghost predicate Adds(s: State, e: Event, fd: int, kind: Kind) {
    match e
    case Incoming(srv, fds) =>
      srv in s.listening && kind == (if srv == s.admin then Admin else Client) &&
      exists k :: 0 <= k < Taken(s.open, fds) && fds[k] == fd
    case Readable(from, batch, _) =>
      kind == Serial && from !in s.listening && Find(s.conns, from).Some? &&
      Opened(s, Find(s.conns, from).value, batch) == Works(fd)
    case _ => false
  }

  /** Exactly which connections an event adds: those pending at a listening socket, and the serial
      one if the device is opened, by the automatic reconnect or by a command, and works. */
  lemma AddsExactly(s: State, e: Event, fd: int, kind: Kind)
    requires Inv(s) && Handle(s, e).Some?
    ensures (exists c :: c in Handle(s, e).value.conns && c !in s.conns && c.fd == fd && c.kind == kind) <==>
            Adds(s, e, fd, kind)
  {
    match e
    case Incoming(srv, fds) =>
      if srv in s.listening {
        IncomingAddsExactly(s, srv, fds, fd, kind);
      }
    case Readable(from, batch, end) =>
      if from !in s.listening {
        ReadableAddsExactly(s, Find(s.conns, from).value, batch, end, fd, kind);
      }
    case Writable(from) => CloseByFdKeeps(s, from);
    case Broken(from) =>
      DisconnectKeeps(s);
      CloseByFdKeeps(if from == s.serialFd then Disconnect(s) else s, from);
  }

  /** A new connection of an incoming event comes from one of its answers. */
  lemma IncomingSource(s: State, srv: int, fds: seq<int>, c: Conn) returns (k: nat)
    requires c in AcceptAll(s, srv, fds).conns && c !in s.conns
    ensures k < Taken(s.open, fds) && fds[k] == c.fd && c.kind == if srv == s.admin then Admin else Client
  {
    AcceptAdds(s, srv, fds);
    var t, m := AcceptAll(s, srv, fds), |s.conns|;
    var j :| 0 <= j < |t.conns| && t.conns[j] == c;
    assert forall i :: 0 <= i < m ==> t.conns[i] == s.conns[i];
    k := j - m;
    assert c == t.conns[m + k];
  }

  /** And each answer up to the first failing one makes a new connection. */
  lemma IncomingResult(s: State, srv: int, fds: seq<int>, k: nat) returns (c: Conn)
    requires DistinctConns(s) && k < Taken(s.open, fds)
    ensures c in AcceptAll(s, srv, fds).conns && c !in s.conns
    ensures fds[k] == c.fd && c.kind == if srv == s.admin then Admin else Client
  {
    AcceptAdds(s, srv, fds);
    var t, m := AcceptAll(s, srv, fds), |s.conns|;
    c := t.conns[m + k];
    assert c == Conn(s.nextId + k, fds[k], if srv == s.admin then Admin else Client);
  }

  lemma IncomingAddsExactly(s: State, srv: int, fds: seq<int>, fd: int, kind: Kind)
    requires Inv(s) && srv in s.listening
    ensures (exists c :: c in AcceptAll(s, srv, fds).conns && c !in s.conns && c.fd == fd && c.kind == kind) <==>
            Adds(s, Incoming(srv, fds), fd, kind)
  {
    if Adds(s, Incoming(srv, fds), fd, kind) {
      var k :| 0 <= k < Taken(s.open, fds) && fds[k] == fd;
      var _ := IncomingResult(s, srv, fds, k);
    }
    if c :| c in AcceptAll(s, srv, fds).conns && c !in s.conns && c.fd == fd && c.kind == kind {
      var _ := IncomingSource(s, srv, fds, c);
    }
  }

  lemma ReadableAddsExactly(s: State, c: Conn, batch: seq<Read>, end: End, fd: int, kind: Kind)
    requires Inv(s) && c in s.conns && AllReads(s, c, batch).Some?
    ensures var t := AllReads(s, c, batch).value;
            var u := if end == Again then t else CloseConnection(t, c);
            (exists x :: x in u.conns && x !in s.conns && x.fd == fd && x.kind == kind) <==>
            (kind == Serial && Opened(s, c, batch) == Works(fd))
  {
    var t := AllReads(s, c, batch).value;
    AllReadsKeep(s, c, batch);
    AllReadsAdd(s, c, batch);
    ReadsAddSerial(s, c, batch, fd);
    CloseConnectionKeeps(t, c);
    EraseConn(t.conns, c);
  }

  // ----- the closes -------------------------------------------------------------------

  /** Deleting a connection closes its descriptor, which is open then and no longer managed. */
  lemma CloseLogged(s: State, c: Conn)
    requires Inv(s) && c in s.conns
    ensures CloseConnection(s, c).closes == s.closes + [Close(c.fd, Destructor, true, None)]
  {
    EraseConn(s.conns, c);
    assert c.fd in Fds(s.conns);
  }

  /** A failed set-up closes the descriptor once; any other connect closes nothing. */
  lemma ConnectLogged(s: State, o: Opening)
    requires Inv(s)
    ensures Connect(s, o).closes ==
            s.closes + if s.serialFd <= 0 && o.SetupFails? && Opens(s.open, o)
                       then [Close(o.fd, SetupFailed, true, None)] else []
  {
    assert s.closes + [] == s.closes;
  }

  /** `disconnect` closes the descriptor of the connection that uses `fd_`, if there is one, and
      then that same number again, when it is not open any more. */
  lemma DisconnectLogged(s: State)
    requires Inv(s)
    ensures Disconnect(s).closes ==
            s.closes +
            (if exists c :: c in s.conns && c.fd == s.serialFd
             then [Close(s.serialFd, Destructor, true, None)] else []) +
            (if s.serialFd > 0 then [Close(s.serialFd, AfterCallbacks, false, None)] else [])
  {
    assert s.closes + [] == s.closes;
    if s.serialFd > 0 {
      CloseByFdKeeps(s, s.serialFd);
      ClosedStaysClosed(CloseByFd(s, s.serialFd), s.serialFd);
      match Find(s.conns, s.serialFd)
      case None =>
      case Some(c) => CloseLogged(s, c);
    }
  }
}
