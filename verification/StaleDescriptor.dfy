/** `SerialPort::fd_` is meant to be set exactly while there is a serial connection.  This module
    says exactly when a run departs from that, how long it lasts, and what it then does. */
module StaleDescriptors {
  import opened Options
  import opened Connections
  import opened DataProxies
  import opened Lifecycle
  import opened LifecycleSafety

  /** `isconnected()` says yes, but there is no serial connection. */
  ghost predicate Stale(s: State) {
    s.serialFd > 0 && forall c :: c in s.conns ==> c.kind != Serial
  }

  /** So `isconnected()` tells the truth exactly outside these states. */
  lemma ConnectedIffNotStale(s: State)
    requires Inv(s)
    ensures (s.serialFd > 0 <==> exists c :: c in s.conns && c.kind == Serial) <==> !Stale(s)
  {
  }

  // ----- the operations ---------------------------------------------------------------

  /** This answer opens the device: the kernel grants its descriptor. */
  predicate Opens(open: set<int>, o: Opening) {
    !o.Refused? && o.fd > 2 && o.fd !in open
  }

  lemma ConnectStaleIff(s: State, o: Opening)
    requires Inv(s)
    ensures Stale(Connect(s, o)) <==>
            Stale(s) || (s.serialFd <= 0 && o.SetupFails? && Opens(s.open, o))
    ensures Connect(s, o).serialFd == if s.serialFd <= 0 && Opens(s.open, o) then o.fd else s.serialFd
    ensures Connect(s, o).open ==
            s.open + if s.serialFd <= 0 && o.Works? && Opens(s.open, o) then {o.fd} else {}
  {
    if s.serialFd <= 0 && o.Works? && Opens(s.open, o) {
      var t := Connect(s, o);
      assert t.conns[|s.conns|] in t.conns;
    }
  }

  lemma CloseStaleIff(s: State, c: Conn)
    requires Inv(s) && c in s.conns
    ensures Stale(CloseConnection(s, c)) <==> Stale(s) || c.kind == Serial
  {
    CloseConnectionKeeps(s, c);
    EraseConn(s.conns, c);
    if c.kind == Serial {
      assert forall d :: d in s.conns && d.kind == Serial ==> d.fd == c.fd;
    }
  }

  lemma DisconnectNotStale(s: State)
    requires Inv(s)
    ensures !Stale(Disconnect(s)) && Disconnect(s).serialFd == -1
    ensures Disconnect(s).open == s.open - {s.serialFd}
  {
    DisconnectKeeps(s);
    DisconnectOpens(s);
  }

  lemma DisconnectOpens(s: State)
    requires Inv(s)
    ensures Disconnect(s).open == s.open - {s.serialFd}
  {
    if s.serialFd <= 0 {
      assert s.serialFd !in s.open;
    }
  }

  // ----- a batch of reads -------------------------------------------------------------

  /** The answers of the device that one read may need, in order. */
  function Answers(c: Conn, r: Read): seq<Opening> {
    [r.before] + if c.kind == Admin && r.cmd == ConnectCmd then [r.during] else []
  }

  /** An admin's disconnect or reconnect. */
  predicate Cuts(c: Conn, r: Read) {
    c.kind == Admin && Severs(r.cmd)
  }

  /** Some read of the batch is one. */
  predicate Cut(c: Conn, batch: seq<Read>) {
    batch != [] && (Cuts(c, batch[|batch| - 1]) || Cut(c, batch[..|batch| - 1]))
  }

  /** The answers since the last disconnect or reconnect of the batch, its own included. */
  function Since(c: Conn, batch: seq<Read>): seq<Opening> {
    if batch == [] then []
    else
      var r := batch[|batch| - 1];
      if Cuts(c, r) then if r.cmd == ReconnectCmd then [r.during] else []
      else Since(c, batch[..|batch| - 1]) + Answers(c, r)
  }

  /** The first of these answers that opens the device. */
  function First(open: set<int>, os: seq<Opening>): Opening {
    if os == [] then Refused
    else
      var f := First(open, os[..|os| - 1]);
      if f != Refused then f else if Opens(open, os[|os| - 1]) then os[|os| - 1] else Refused
  }

  lemma {:induction false} FirstOpens(open: set<int>, os: seq<Opening>)
    ensures First(open, os) != Refused ==> Opens(open, First(open, os))
  {
    if os != [] {
      FirstOpens(open, os[..|os| - 1]);
    }
  }

  /** Two states that agree on the descriptors and on being stale. */
  ghost predicate Alike(s: State, t: State) {
    s.open == t.open && s.serialFd == t.serialFd && (Stale(s) <==> Stale(t))
  }

  /** Where a batch starts from as far as the serial port goes. */
  function Base(s: State, c: Conn, batch: seq<Read>): State {
    if Cut(c, batch) then Disconnect(s) else s
  }

  /** One more answer, after those that came before. */
  lemma OneMore(t: State, base: State, os: seq<Opening>, o: Opening)
    requires Inv(t) && Inv(base) && Alike(t, Connect(base, First(base.open, os)))
    ensures Alike(Connect(t, o), Connect(base, First(base.open, os + [o])))
  {
    assert (os + [o])[..|os|] == os;
    FirstOpens(base.open, os);
    ConnectStaleIff(base, First(base.open, os));
    ConnectStaleIff(base, First(base.open, os + [o]));
    ConnectStaleIff(t, o);
  }

  /** A read that cuts nothing only tries its answers. */
  lemma ReadTries(t: State, c: Conn, r: Read, base: State, os: seq<Opening>)
    requires Inv(t) && Inv(base) && c in t.conns && !Cuts(c, r) && OneRead(t, c, r).Some?
    requires Alike(t, Connect(base, First(base.open, os)))
    ensures Alike(OneRead(t, c, r).value, Connect(base, First(base.open, os + Answers(c, r))))
  {
    OneMore(t, base, os, r.before);
    ConnectKeeps(t, r.before);
    if c.kind == Admin && r.cmd == ConnectCmd {
      OneMore(Connect(t, r.before), base, os + [r.before], r.during);
      assert os + [r.before] + [r.during] == os + Answers(c, r);
    } else {
      assert Answers(c, r) == [r.before];
    }
  }

  /** The descriptors in use apart from the serial port's do not change. */
  lemma ConnectKeepsOthers(t: State, o: Opening)
    requires Inv(t)
    ensures Connect(t, o).open - {Connect(t, o).serialFd} == t.open - {t.serialFd}
  {
    ConnectStaleIff(t, o);
    assert t.serialFd <= 0 ==> t.serialFd !in t.open;
  }

  lemma OthersKept(s: State, t: State, base: State, o: Opening)
    requires Inv(s) && Inv(base) && (base == s || base == Disconnect(s)) && Alike(t, Connect(base, o))
    ensures t.open - {t.serialFd} == s.open - {s.serialFd}
  {
    ConnectKeepsOthers(base, o);
    DisconnectNotStale(s);
    assert base == Disconnect(s) ==> base.serialFd !in s.open;
  }

  /** A disconnect or reconnect forgets all that came before it. */
  lemma ReadCuts(s: State, t: State, c: Conn, r: Read)
    requires Inv(s) && Inv(t) && Cuts(c, r) && OneRead(t, c, r).Some?
    requires t.open - {t.serialFd} == s.open - {s.serialFd}
    ensures var since := if r.cmd == ReconnectCmd then [r.during] else [];
            Alike(OneRead(t, c, r).value, Connect(Disconnect(s), First(Disconnect(s).open, since)))
  {
    var t1 := Connect(t, r.before);
    ConnectKeeps(t, r.before);
    ConnectKeepsOthers(t, r.before);
    DisconnectNotStale(s);
    DisconnectNotStale(t1);
    DisconnectKeeps(s);
    DisconnectKeeps(t1);
    assert Alike(Disconnect(t1), Disconnect(s));
    if r.cmd == ReconnectCmd {
      OneMore(Disconnect(t1), Disconnect(s), [], r.during);
      assert [] + [r.during] == [r.during];
    }
  }

  /** As far as the serial port goes, a whole batch comes to at most one disconnect and then the
      first answer since then that opens the device. */
  lemma {:induction false} BatchComesTo(s: State, c: Conn, batch: seq<Read>)
    requires Inv(s) && c in s.conns && AllReads(s, c, batch).Some?
    ensures var base := Base(s, c, batch);
            Alike(AllReads(s, c, batch).value, Connect(base, First(base.open, Since(c, batch))))
  {
    if batch != [] {
      var front, r := batch[..|batch| - 1], batch[|batch| - 1];
      BatchComesTo(s, c, front);
      AllReadsKeep(s, c, front);
      ReadStep(s, AllReads(s, c, front).value, c, r, Base(s, c, front), Since(c, front));
    }
  }

  lemma ReadStep(s: State, t: State, c: Conn, r: Read, base: State, os: seq<Opening>)
    requires Inv(s) && Inv(t) && c in t.conns && OneRead(t, c, r).Some?
    requires base == s || base == Disconnect(s)
    requires Alike(t, Connect(base, First(base.open, os)))
    ensures var next := if Cuts(c, r) then Disconnect(s) else base;
            var since := if Cuts(c, r) then if r.cmd == ReconnectCmd then [r.during] else []
                         else os + Answers(c, r);
            Alike(OneRead(t, c, r).value, Connect(next, First(next.open, since)))
  {
    DisconnectKeeps(s);
    if Cuts(c, r) {
      OthersKept(s, t, base, First(base.open, os));
      ReadCuts(s, t, c, r);
    } else {
      ReadTries(t, c, r, base, os);
    }
  }

  // ----- the events -------------------------------------------------------------------

  /** What makes or keeps `fd_` stale, in terms of the state before and of the event alone. */
  ghost predicate LeavesStale(s: State, e: Event) {
    match e
    case Incoming(_, _) => Stale(s)
    case Writable(_) => Stale(s)
    case Broken(fd) => Stale(s) && fd != s.serialFd
    case Readable(fd, batch, end) =>
      if fd in s.listening || Find(s.conns, fd).None? then Stale(s)
      else
        var c := Find(s.conns, fd).value;
        || (c.kind == Serial && end != Again)
        || (if Cut(c, batch) then First(s.open - {s.serialFd}, Since(c, batch)).SetupFails?
            else Stale(s) || (s.serialFd <= 0 && First(s.open, Since(c, batch)).SetupFails?))
  }

  /** Exactly when `fd_` is stale after an event.  It becomes stale when the serial connection
      reaches its end of file or an error, or when the first answer that opens the device,
      with no descriptor set or since an admin's last disconnect, then fails its set-up.  It
      stops being stale by a hang-up on that very descriptor or an admin's disconnect or
      reconnect, and by nothing else. */
  lemma StaleIff(s: State, e: Event)
    requires Inv(s) && Handle(s, e).Some?
    ensures Stale(Handle(s, e).value) <==> LeavesStale(s, e)
  {
    match e
    case Incoming(srv, fds) => AcceptAllKeeps(s, srv, fds);
    case Readable(fd, batch, end) =>
      if fd !in s.listening {
        ReadableStaleIff(s, Find(s.conns, fd).value, batch, end);
      }
    case Writable(fd) =>
      if Find(s.conns, fd).Some? {
        CloseStaleIff(s, Find(s.conns, fd).value);
      }
    case Broken(fd) =>
      DisconnectNotStale(s);
      DisconnectKeeps(s);
      if Find(s.conns, fd).Some? {
        CloseStaleIff(s, Find(s.conns, fd).value);
      }
      CloseByFdKeeps(Disconnect(s), fd);
  }

  lemma ReadableStaleIff(s: State, c: Conn, batch: seq<Read>, end: End)
    requires Inv(s) && c in s.conns && AllReads(s, c, batch).Some?
    ensures var t := AllReads(s, c, batch).value;
            Stale(if end == Again then t else CloseConnection(t, c)) <==>
            || (c.kind == Serial && end != Again)
            || (if Cut(c, batch) then First(s.open - {s.serialFd}, Since(c, batch)).SetupFails?
                else Stale(s) || (s.serialFd <= 0 && First(s.open, Since(c, batch)).SetupFails?))
  {
    var base := Base(s, c, batch);
    BatchComesTo(s, c, batch);
    AllReadsKeep(s, c, batch);
    DisconnectKeeps(s);
    DisconnectNotStale(s);
    FirstOpens(base.open, Since(c, batch));
    ConnectStaleIff(base, First(base.open, Since(c, batch)));
    CloseStaleIff(AllReads(s, c, batch).value, c);
  }

  /** The first connect of all. */
  lemma BootedStaleIff(client: int, admin: int, first: Opening)
    requires client > 2 && admin > 2 && client != admin
    ensures Stale(Connect(Booted(client, admin), first)) <==>
            first.SetupFails? && Opens({client, admin}, first)
  {
    BootedSafe(client, admin);
    ConnectStaleIff(Booted(client, admin), first);
  }

  /** In particular a stale `fd_` stays, and the port is not reopened, until a hang-up on that
      descriptor or an admin's disconnect or reconnect. */
  lemma StaleStays(s: State, e: Event)
    requires Inv(s) && Stale(s) && Handle(s, e).Some?
    requires e.Broken? ==> e.fd != s.serialFd
    requires e.Readable? && Find(s.conns, e.fd).Some? ==> !Cut(Find(s.conns, e.fd).value, e.batch)
    ensures Stale(Handle(s, e).value) && Handle(s, e).value.serialFd == s.serialFd
  {
    StaleIff(s, e);
    match e
    case Incoming(srv, fds) => AcceptAllKeeps(s, srv, fds);
    case Readable(fd, batch, end) =>
      if fd !in s.listening {
        ReadableKeepsFd(s, Find(s.conns, fd).value, batch);
      }
    case Writable(fd) => CloseByFdKeeps(s, fd);
    case Broken(fd) => CloseByFdKeeps(s, fd);
  }

  lemma ReadableKeepsFd(s: State, c: Conn, batch: seq<Read>)
    requires Inv(s) && Stale(s) && c in s.conns && AllReads(s, c, batch).Some? && !Cut(c, batch)
    ensures var t := AllReads(s, c, batch).value;
            t.serialFd == s.serialFd && CloseConnection(t, c).serialFd == s.serialFd
  {
    BatchComesTo(s, c, batch);
    AllReadsKeep(s, c, batch);
    CloseConnectionKeeps(AllReads(s, c, batch).value, c);
  }

  /** `disconnect` removes the connection that uses `fd_`, whatever its kind; so it drops a
      client or an admin if and only if one of them has been given the stale descriptor. */
  lemma DisconnectDropsBystanderIff(s: State)
    requires Inv(s)
    ensures (exists c :: c in s.conns && c.kind != Serial && c !in Disconnect(s).conns) <==>
            (exists c :: c in s.conns && c.kind != Serial && c.fd == s.serialFd)
  {
    DisconnectKeeps(s);
  }

  // ----- it does happen ---------------------------------------------------------------

  lemma RunTwo(s: State, e: Event, f: Event)
    ensures Run(s, [e]) == Handle(s, e)
    ensures Run(s, [e, f]) == match Handle(s, e)
                              case None => None
                              case Some(t) => Handle(t, f)
  {
    assert [e][..0] == [] && [e, f][..1] == [e];
  }

  /** One descriptor accepted, and one command read. */
  lemma SmallSteps(s: State, srv: int, fd: int, c: Conn, r: Read)
    ensures AcceptAll(s, srv, [fd]) == Accept(s, srv, fd)
    ensures AllReads(s, c, [r]) == OneRead(s, c, r)
  {
    assert [r][..0] == [];
    assert [fd][1..] == [];
  }

  /** A client is given 5 and an admin 6, after setting the device up failed with 5. */
  function AfterReuse(): State {
    Attach(Attach(Connect(Booted(3, 4), SetupFails(5)).(open := {3, 4, 5}), 5, Client).(open := {3, 4, 5, 6}), 6, Admin)
  }

  lemma ReuseHappens()
    ensures Started(3, 4, SetupFails(5), [Incoming(3, [5]), Incoming(4, [6])]) == Some(AfterReuse())
    ensures AfterReuse().conns == [Conn(0, 5, Client), Conn(1, 6, Admin)] && AfterReuse().serialFd == 5
  {
    var s0 := Connect(Booted(3, 4), SetupFails(5));
    var s1 := Accept(s0, 3, 5);
    assert s0.open == {3, 4} && s1.open == {3, 4, 5};
    assert [5][1..] == [] && [6][1..] == [];
    assert s1 == AcceptAll(s0, 3, [5]) && Accept(s1, 4, 6) == AcceptAll(s1, 4, [6]);
    assert Accept(s1, 4, 6).open == {3, 4, 5, 6};
    RunTwo(s0, Incoming(3, [5]), Incoming(4, [6]));
  }

  /** Setting the device up fails after it was opened as 5; a client is then given 5; an admin
      types `disconnect`, and the client is gone. */
  lemma BystanderDropped()
    ensures var typed := Readable(6, [Read(DisconnectCmd, Refused, Refused)], Again);
            && Handle(AfterReuse(), typed).Some?
            && Handle(AfterReuse(), typed).value.conns == [Conn(1, 6, Admin)]
  {
    ReuseHappens();
    var s := AfterReuse();
    var r := Read(DisconnectCmd, Refused, Refused);
    assert Find(s.conns, 5) == Some(Conn(0, 5, Client)) && Find(s.conns, 6) == Some(Conn(1, 6, Admin));
    assert [r][..0] == [];
    assert AllReads(s, Conn(1, 6, Admin), [r]) == Some(Disconnect(s));
  }

  /** The same with an admin as the new owner of 5: its own `disconnect` destroys it while it is
      being executed. */
  lemma AdminDestroysItself()
    ensures Started(3, 4, SetupFails(5),
              [Incoming(4, [5]), Readable(5, [Read(DisconnectCmd, Refused, Refused)], Again)]) == None
  {
    var s0, admin := Connect(Booted(3, 4), SetupFails(5)), Conn(0, 5, Admin);
    var s1, r := Accept(s0, 4, 5), Read(DisconnectCmd, Refused, Refused);
    SmallSteps(s0, 4, 5, admin, r);
    SmallSteps(s1, 4, 5, admin, r);
    RunTwo(s0, Incoming(4, [5]), Readable(5, [r], Again));
    assert Find(s1.conns, 5) == Some(admin);
  }

  /** The end of file: the device opened as 5 hangs up quietly, and `fd_` still says 5. */
  lemma EofLeavesStale()
    ensures Started(3, 4, Works(5), [Readable(5, [], Eof)]).Some?
    ensures Stale(Started(3, 4, Works(5), [Readable(5, [], Eof)]).value)
  {
    var s := Connect(Booted(3, 4), Works(5));
    var events := [Readable(5, [], Eof)];
    assert events[..0] == [];
    assert s.conns == [Conn(0, 5, Serial)];
    assert Find(s.conns, 5) == Some(Conn(0, 5, Serial));
    BootedSafe(3, 4);
    ConnectKeeps(Booted(3, 4), Works(5));
    StaleIff(s, events[0]);
  }

  /** An admin takes 6 and disconnects the device, which was 5. */
  lemma AdminDisconnects() returns (s: State)
    ensures Started(3, 4, Works(5),
              [Incoming(4, [6]), Readable(6, [Read(DisconnectCmd, Refused, Refused)], Again)]) == Some(s)
    ensures s.conns == [Conn(1, 6, Admin)] && s.listening == {3, 4}
  {
    var s0 := Connect(Booted(3, 4), Works(5));
    var s1 := Accept(s0, 4, 6);
    var serial, admin := Conn(0, 5, Serial), Conn(1, 6, Admin);
    var r := Read(DisconnectCmd, Refused, Refused);
    SmallSteps(s0, 4, 6, admin, r);
    SmallSteps(s1, 4, 6, admin, r);
    RunTwo(s0, Incoming(4, [6]), Readable(6, [r], Again));
    assert s1.conns == [serial, admin];
    assert Find(s1.conns, 5) == Some(serial) && Find(s1.conns, 6) == Some(admin);
    s := Disconnect(s1);
  }

  /** A readable event of the device that was queued behind that finds no connection. */
  lemma UnknownDescriptorHappens()
    ensures var before := [Incoming(4, [6]), Readable(6, [Read(DisconnectCmd, Refused, Refused)], Again)];
            && Started(3, 4, Works(5), before).Some?
            && Started(3, 4, Works(5), before + [Readable(5, [], Again)]) == None
  {
    var s := AdminDisconnects();
    var before := [Incoming(4, [6]), Readable(6, [Read(DisconnectCmd, Refused, Refused)], Again)];
    assert (before + [Readable(5, [], Again)])[..2] == before;
    assert Find(s.conns, 5) == None;
  }

  /** An admin that sends a line without a word, or a number too big, as its first line. */
  lemma FatalLineHappens(cmd: Command)
    requires cmd == Blank || cmd == Oversized
    ensures Started(3, 4, Refused, [Incoming(4, [5])]).Some?
    ensures Started(3, 4, Refused, [Incoming(4, [5]), Readable(5, [Read(cmd, Refused, Refused)], Again)]) == None
  {
    var s0, admin := Booted(3, 4), Conn(0, 5, Admin);
    var s1, r := Accept(s0, 4, 5), Read(cmd, Refused, Refused);
    SmallSteps(s0, 4, 5, admin, r);
    SmallSteps(s1, 4, 5, admin, r);
    RunTwo(s0, Incoming(4, [5]), Readable(5, [r], Again));
    assert Find(s1.conns, 5) == Some(admin);
  }
}
