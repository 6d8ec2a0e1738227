/** What every run of the server keeps, and where it goes wrong. */
module LifecycleSafety {
  import opened Options
  import opened Seqs
  import opened Connections
  import opened DataProxies
  import opened Lifecycle

  // ----- the invariants ---------------------------------------------------------------

  function Fds(conns: seq<Conn>): set<int> {
    set c | c in conns :: c.fd
  }

  /** No connection is listed twice, and no two share an identity or a descriptor. */
  ghost predicate Unique(conns: seq<Conn>) {
    && Distinct(conns)
    && (forall c, d :: c in conns && d in conns && (c.fd == d.fd || c.id == d.id) ==> c == d)
  }

  ghost predicate DistinctConns(s: State) {
    Unique(s.conns) && forall c :: c in s.conns ==> c.fd > 2 && c.id < s.nextId
  }

  /** The open descriptors are the listening ones and those of managed connections: none leaks,
      and none is closed while in use. */
  ghost predicate Accounted(s: State) {
    && s.open == s.listening + Fds(s.conns)
    && s.listening !! Fds(s.conns)
    && (forall fd :: fd in s.listening ==> fd > 2)
  }

  /** The proxy's lists are the managed connections, by kind, in the same order. */
  ghost predicate Indexed(s: State) {
    && s.reg.sock == Filter((x: Conn) => x.kind != Serial, s.conns)
    && s.reg.serial == Filter((x: Conn) => x.kind == Serial, s.conns)
  }

  /** Only admins ask to quit. */
  ghost predicate Quitters(s: State) {
    forall id :: id in s.quitting ==>
      id < s.nextId && forall c :: c in s.conns && c.id == id ==> c.kind == Admin
  }

  /** A serial connection uses `SerialPort::fd_`; but `fd_` may be stale. */
  ghost predicate SerialKnown(s: State) {
    && (s.serialFd == -1 || (s.serialFd > 2 && s.serialFd !in s.listening))
    && forall c :: c in s.conns && c.kind == Serial ==> c.fd == s.serialFd
  }

  /** No close ever hit a descriptor in use by a managed connection; the second close of
      `disconnect` never hit an open descriptor at all, and the others always did. */
  ghost predicate ClosesHarmless(s: State) {
    forall k :: 0 <= k < |s.closes| ==>
      s.closes[k].user == None && (s.closes[k].wasOpen <==> s.closes[k].site != AfterCallbacks)
  }

  ghost predicate Inv(s: State) {
    && DistinctConns(s) && Accounted(s) && Indexed(s) && SerialKnown(s)
    && Quitters(s) && ClosesHarmless(s)
  }

  // ----- facts about the manager ------------------------------------------------------

  lemma FindUnique(conns: seq<Conn>, c: Conn)
    requires Unique(conns) && c in conns
    ensures Find(conns, c.fd) == Some(c)
  {
  }

  lemma EraseConn(conns: seq<Conn>, c: Conn)
    requires Unique(conns) && c in conns
    ensures Without(conns, c.fd) == Erase(conns, c)
    ensures forall d :: d in Erase(conns, c) <==> d in conns && d != c
    ensures Unique(Erase(conns, c))
    ensures Fds(Erase(conns, c)) == Fds(conns) - {c.fd}
  {
    FindUnique(conns, c);
    EraseDistinct(conns, c);
    forall d | d != c
      ensures d in Erase(conns, c) <==> d in conns
    {
      EraseMembers(conns, c, d);
    }
    assert forall d :: d in conns && d != c ==> d.fd != c.fd;
  }

  // ----- each operation ---------------------------------------------------------------

  lemma CloseConnectionKeeps(s: State, c: Conn)
    requires Inv(s) && c in s.conns
    ensures var t := CloseConnection(s, c);
            && Inv(t) && t.conns == Erase(s.conns, c) && c !in t.conns && c.fd !in t.open
            && t.serialFd == s.serialFd && t.listening == s.listening
  {
    EraseConn(s.conns, c);
    ReindexErase(s, c);
    assert c.fd in Fds(s.conns);
  }

  lemma ReindexErase(s: State, c: Conn)
    requires Indexed(s)
    ensures Indexed(s.(conns := Erase(s.conns, c), reg := Deregister(s.reg, c, DirectionOf(c.kind))))
  {
    FilterErase((x: Conn) => x.kind != Serial, s.conns, c);
    FilterErase((x: Conn) => x.kind == Serial, s.conns, c);
  }

  lemma ReindexAppend(s: State, c: Conn)
    requires Indexed(s)
    ensures Indexed(s.(conns := s.conns + [c], reg := Register(s.reg, c, DirectionOf(c.kind))))
  {
    FilterConcat((x: Conn) => x.kind != Serial, s.conns, [c]);
    FilterConcat((x: Conn) => x.kind == Serial, s.conns, [c]);
  }

  lemma AttachKeeps(s: State, fd: int, kind: Kind)
    requires Inv(s) && Grantable(s, fd)
    requires kind == Serial ==> s.serialFd <= 0
    ensures var t := Attach(s.(open := s.open + {fd}, serialFd := if kind == Serial then fd else s.serialFd), fd, kind);
            Inv(t)
  {
    var c := Conn(s.nextId, fd, kind);
    ReindexAppend(s, c);
    assert forall d :: d in s.conns ==> d.fd in Fds(s.conns);
    AppendConn(s.conns, c);
  }

  lemma AppendConn(conns: seq<Conn>, c: Conn)
    requires Unique(conns) && forall d :: d in conns ==> d.fd != c.fd && d.id != c.id
    ensures Unique(conns + [c]) && Fds(conns + [c]) == Fds(conns) + {c.fd}
    ensures forall d :: d in conns + [c] <==> d in conns || d == c
  {
    assert forall d :: d in conns + [c] <==> d in conns || d == c;
  }

  lemma ConnectKeeps(s: State, o: Opening)
    requires Inv(s)
    ensures Inv(Connect(s, o)) && Connect(s, o).listening == s.listening
    ensures forall c :: c in s.conns ==>
              c in Connect(s, o).conns && (Connect(s, o).serialFd == c.fd <==> s.serialFd == c.fd)
  {
    if !(s.serialFd > 0 || o.Refused? || !Grantable(s, o.fd)) && o.Works? {
      AttachKeeps(s, o.fd, Serial);
    }
  }

  lemma DisconnectKeeps(s: State)
    requires Inv(s)
    ensures Inv(Disconnect(s))
    ensures forall c :: c in Disconnect(s).conns <==> c in s.conns && (s.serialFd <= 0 || c.fd != s.serialFd)
    ensures Disconnect(s).listening == s.listening && Disconnect(s).serialFd == -1
  {
    if s.serialFd > 0 {
      CloseByFdKeeps(s, s.serialFd);
      ClosedStaysClosed(CloseByFd(s, s.serialFd), s.serialFd);
    }
  }

  /** The second close of `disconnect`: nothing is open there any more. */
  lemma ClosedStaysClosed(s: State, fd: int)
    requires Inv(s) && fd == s.serialFd > 0 && forall c :: c in s.conns ==> c.fd != fd
    ensures fd !in s.open && Inv(CloseFd(s, fd, AfterCallbacks).(serialFd := -1))
  {
    assert fd !in Fds(s.conns);
    assert s.open - {fd} == s.open;
  }

  lemma CloseByFdKeeps(s: State, fd: int)
    requires Inv(s)
    ensures var t := CloseByFd(s, fd);
            && Inv(t) && t.serialFd == s.serialFd && t.listening == s.listening
            && forall c :: c in t.conns <==> c in s.conns && c.fd != fd
  {
    match Find(s.conns, fd)
    case None =>
    case Some(c) =>
      CloseConnectionKeeps(s, c);
      EraseConn(s.conns, c);
      assert forall d :: d in s.conns && d.fd == fd ==> d == c;
  }

  lemma {:induction false} AcceptAllKeeps(s: State, srv: int, fds: seq<int>)
    requires Inv(s)
    ensures Inv(AcceptAll(s, srv, fds)) && AcceptAll(s, srv, fds).serialFd == s.serialFd
    ensures s.conns <= AcceptAll(s, srv, fds).conns
    ensures forall c :: c in AcceptAll(s, srv, fds).conns && c !in s.conns ==> c.kind != Serial
    decreases |fds|
  {
    if fds != [] && Grantable(s, fds[0]) {
      AttachKeeps(s, fds[0], if srv == s.admin then Admin else Client);
      assert s.(open := s.open + {fds[0]}, serialFd := s.serialFd) == s.(open := s.open + {fds[0]});
      AcceptAllKeeps(Accept(s, srv, fds[0]), srv, fds[1..]);
    }
  }

  // ----- the read loop ----------------------------------------------------------------

  predicate Severs(cmd: Command) {
    cmd == DisconnectCmd || cmd == ReconnectCmd
  }

  /** A read that the server cannot survive: a line without a word, a number too big, or a command that
      closes the descriptor that `SerialPort::fd_` and this connection share. */
  predicate Fatal(s: State, c: Conn, r: Read) {
    c.kind == Admin && (r.cmd == Blank || r.cmd == Oversized || (Severs(r.cmd) && s.serialFd == c.fd))
  }

  lemma OneReadKeeps(s: State, c: Conn, r: Read)
    requires Inv(s) && c in s.conns
    ensures OneRead(s, c, r) == None <==> Fatal(s, c, r)
    ensures OneRead(s, c, r).Some? ==>
              var t := OneRead(s, c, r).value;
              Inv(t) && c in t.conns && (c.kind == Admin ==> (t.serialFd == c.fd <==> s.serialFd == c.fd))
  {
    ConnectKeeps(s, r.before);
    if c.kind == Admin {
      ObeyKeeps(Connect(s, r.before), c, r);
    }
  }

  lemma ObeyKeeps(s: State, c: Conn, r: Read)
    requires Inv(s) && c in s.conns && c.kind == Admin
    ensures Obey(s, c, r) == None <==> Fatal(s, c, r)
    ensures Obey(s, c, r).Some? ==>
              var t := Obey(s, c, r).value;
              Inv(t) && c in t.conns && (t.serialFd == c.fd <==> s.serialFd == c.fd)
  {
    FindUnique(s.conns, c);
    match r.cmd
    case ConnectCmd => ConnectKeeps(s, r.during);
    case DisconnectCmd => DisconnectKeeps(s);
    case ReconnectCmd =>
      DisconnectKeeps(s);
      ConnectKeeps(Disconnect(s), r.during);
    case _ =>
  }

  lemma {:induction false} AllReadsKeep(s: State, c: Conn, batch: seq<Read>)
    requires Inv(s) && c in s.conns
    ensures AllReads(s, c, batch) == None <==> exists r :: r in batch && Fatal(s, c, r)
    ensures AllReads(s, c, batch).Some? ==>
              var t := AllReads(s, c, batch).value;
              Inv(t) && c in t.conns && (c.kind == Admin ==> (t.serialFd == c.fd <==> s.serialFd == c.fd))
  {
    if batch != [] {
      var front, r := batch[..|batch| - 1], batch[|batch| - 1];
      AllReadsKeep(s, c, front);
      assert forall x :: x in batch <==> x in front || x == r;
      if AllReads(s, c, front).Some? {
        var t := AllReads(s, c, front).value;
        OneReadKeeps(t, c, r);
        assert Fatal(t, c, r) <==> Fatal(s, c, r);
      }
    }
  }

  // ----- one event, and all runs ------------------------------------------------------

  /** The events that the server does not survive: a null or dangling pointer, an index past the
      end, or an exception that nobody catches. */
  ghost predicate Unsurvived(s: State, e: Event) {
    e.Readable? && e.fd !in s.listening &&
    match Find(s.conns, e.fd)
    case None => true
    case Some(c) => exists r :: r in e.batch && Fatal(s, c, r)
  }

  lemma InputKeeps(s: State, c: Conn, batch: seq<Read>, end: End)
    requires Inv(s) && c in s.conns && Find(s.conns, c.fd) == Some(c)
    ensures Input(s, c.fd, batch, end) == None <==> exists r :: r in batch && Fatal(s, c, r)
    ensures Input(s, c.fd, batch, end).Some? ==> Inv(Input(s, c.fd, batch, end).value)
  {
    AllReadsKeep(s, c, batch);
    if AllReads(s, c, batch).Some? {
      CloseConnectionKeeps(AllReads(s, c, batch).value, c);
    }
  }

  /** Every event either keeps all the invariants or is not survived, and that is so exactly
      when the descriptor belongs to no connection, or an admin sends a fatal line. */
  lemma HandleKeeps(s: State, e: Event)
    requires Inv(s)
    ensures Handle(s, e) == None <==> Unsurvived(s, e)
    ensures Handle(s, e).Some? ==> Inv(Handle(s, e).value)
  {
    match e
    case Incoming(srv, fds) => AcceptAllKeeps(s, srv, fds);
    case Readable(fd, batch, end) =>
      if fd !in s.listening && Find(s.conns, fd).Some? {
        InputKeeps(s, Find(s.conns, fd).value, batch, end);
      }
    case Writable(fd) =>
      if Find(s.conns, fd).Some? {
        CloseConnectionKeeps(s, Find(s.conns, fd).value);
      }
    case Broken(fd) =>
      DisconnectKeeps(s);
      CloseByFdKeeps(if fd == s.serialFd then Disconnect(s) else s, fd);
  }

  lemma {:induction false} RunKeeps(s: State, events: seq<Event>)
    requires Inv(s) && Run(s, events).Some?
    ensures Inv(Run(s, events).value)
  {
    if events != [] {
      RunKeeps(s, events[..|events| - 1]);
      HandleKeeps(Run(s, events[..|events| - 1]).value, events[|events| - 1]);
    }
  }

  /** Lifecycle safety, over every run of the server, with descriptors reused and connects
      failing in any way. */
  lemma AlwaysSafe(client: int, admin: int, first: Opening, events: seq<Event>)
    requires client > 2 && admin > 2 && client != admin
    requires Started(client, admin, first, events).Some?
    ensures Inv(Started(client, admin, first, events).value)
    ensures var s := Started(client, admin, first, events).value;
            && (forall c, d :: c in s.conns && d in s.conns && c != d ==> c.fd != d.fd)
            && (forall c :: c in s.conns ==> c.fd in s.open)
            && (forall k :: 0 <= k < |s.closes| ==> s.closes[k].user == None)
            && (forall fd :: fd in s.listening ==> fd in s.open)
  {
    BootedSafe(client, admin);
    ConnectKeeps(Booted(client, admin), first);
    RunKeeps(Connect(Booted(client, admin), first), events);
  }

  lemma BootedSafe(client: int, admin: int)
    requires client > 2 && admin > 2 && client != admin
    ensures Inv(Booted(client, admin))
  {
    assert Fds([]) == {};
  }

  /** The indexes agree: the proxy lists a connection once, in the list of its type, exactly
      while it is managed; and a second serial connection never exists. */
  lemma IndexesAgree(s: State, c: Conn, d: Conn)
    requires Inv(s)
    ensures c in s.conns <==> c in s.reg.sock || c in s.reg.serial
    ensures c in s.reg.serial <==> c in s.conns && c.kind == Serial
    ensures c in s.reg.sock <==> c in s.conns && c.kind != Serial
    ensures Distinct(s.reg.sock) && Distinct(s.reg.serial)
    ensures c in s.reg.serial && d in s.reg.serial ==> c == d && c.fd == s.serialFd && |s.reg.serial| == 1
  {
    FilterMembers((x: Conn) => x.kind != Serial, s.conns, c);
    FilterMembers((x: Conn) => x.kind == Serial, s.conns, c);
    FilterMembers((x: Conn) => x.kind == Serial, s.conns, d);
    FilterDistinct((x: Conn) => x.kind != Serial, s.conns);
    FilterDistinct((x: Conn) => x.kind == Serial, s.conns);
    if c in s.reg.serial && |s.reg.serial| > 1 {
      var a, b := s.reg.serial[0], s.reg.serial[1];
      FilterMembers((x: Conn) => x.kind == Serial, s.conns, a);
      FilterMembers((x: Conn) => x.kind == Serial, s.conns, b);
      SameFdSame(s, a, b);
      assert false;
    }
    if c in s.reg.serial && d in s.reg.serial {
      SameFdSame(s, c, d);
    }
  }

  lemma SameFdSame(s: State, a: Conn, b: Conn)
    requires DistinctConns(s) && a in s.conns && b in s.conns && a.fd == b.fd
    ensures a == b
  {
  }

  // ----- which connections an event ends ----------------------------------------------

  /** `d` is ended by this event. */
  ghost predicate Ends(s: State, e: Event, d: Conn) {
    match e
    case Incoming(_, _) => false
    case Writable(fd) => d.fd == fd && d.id in s.quitting
    case Broken(fd) => d.fd == fd
    case Readable(fd, batch, end) =>
      fd !in s.listening &&
      ((d.fd == fd && end != Again) || (d.fd == s.serialFd && Commanded(s.conns, fd, batch)))
  }

  /** An admin sends `disconnect` or `reconnect`. */
  ghost predicate Commanded(conns: seq<Conn>, fd: int, batch: seq<Read>) {
    Find(conns, fd).Some? && Find(conns, fd).value.kind == Admin && exists r :: r in batch && Severs(r.cmd)
  }

  /** `t` is a later state: `d` is in it unless it was ended, and then it never comes back. */
  ghost predicate Later(s: State, t: State, d: Conn, ended: bool) {
    && s.nextId <= t.nextId
    && (ended ==> d !in t.conns)
    && (!ended ==> d in t.conns && (t.serialFd == d.fd <==> s.serialFd == d.fd))
  }

  lemma ConnectLater(s: State, o: Opening, d: Conn)
    requires Inv(s) && d.id < s.nextId
    ensures Inv(Connect(s, o)) && s.nextId <= Connect(s, o).nextId
    ensures d in Connect(s, o).conns <==> d in s.conns
    ensures d in s.conns ==> (Connect(s, o).serialFd == d.fd <==> s.serialFd == d.fd)
  {
    ConnectKeeps(s, o);
  }

  lemma DisconnectLater(s: State, d: Conn)
    requires Inv(s) && d.id < s.nextId
    ensures Inv(Disconnect(s)) && s.nextId == Disconnect(s).nextId && Disconnect(s).serialFd == -1
    ensures d in Disconnect(s).conns <==> d in s.conns && d.fd != s.serialFd
    ensures d in s.conns ==> d.fd > 2
  {
    DisconnectKeeps(s);
  }

  lemma ObeyLater(s: State, c: Conn, r: Read, d: Conn)
    requires Inv(s) && d.id < s.nextId && Obey(s, c, r).Some?
    ensures var t := Obey(s, c, r).value;
            && s.nextId <= t.nextId
            && (d in t.conns <==> d in s.conns && !(Severs(r.cmd) && d.fd == s.serialFd))
            && (d in t.conns ==> (t.serialFd == d.fd <==> s.serialFd == d.fd))
  {
    match r.cmd
    case ConnectCmd => ConnectLater(s, r.during, d);
    case DisconnectCmd => DisconnectLater(s, d);
    case ReconnectCmd =>
      DisconnectLater(s, d);
      ConnectLater(Disconnect(s), r.during, d);
    case _ =>
  }

  lemma OneReadLater(s: State, c: Conn, r: Read, d: Conn)
    requires Inv(s) && c in s.conns && d.id < s.nextId && OneRead(s, c, r).Some?
    ensures var t := OneRead(s, c, r).value;
            && s.nextId <= t.nextId
            && (d in t.conns <==> d in s.conns && !(c.kind == Admin && Severs(r.cmd) && d.fd == s.serialFd))
            && (d in t.conns ==> (t.serialFd == d.fd <==> s.serialFd == d.fd))
  {
    ConnectLater(s, r.before, d);
    if c.kind == Admin {
      ObeyLater(Connect(s, r.before), c, r, d);
    }
  }

  lemma {:induction false} AllReadsLater(s: State, c: Conn, batch: seq<Read>, d: Conn)
    requires Inv(s) && c in s.conns && d in s.conns && AllReads(s, c, batch).Some?
    ensures Later(s, AllReads(s, c, batch).value, d,
                  c.kind == Admin && d.fd == s.serialFd && exists r :: r in batch && Severs(r.cmd))
  {
    if batch != [] {
      var front, r := batch[..|batch| - 1], batch[|batch| - 1];
      AllReadsLater(s, c, front, d);
      AllReadsKeep(s, c, front);
      OneReadLater(AllReads(s, c, front).value, c, r, d);
      assert forall x :: x in batch <==> x in front || x == r;
    }
  }

  lemma ReadableEnds(s: State, c: Conn, batch: seq<Read>, end: End, d: Conn)
    requires Inv(s) && d in s.conns && c in s.conns && AllReads(s, c, batch).Some?
    ensures var t := AllReads(s, c, batch).value;
            d in (if end == Again then t else CloseConnection(t, c)).conns <==>
            !((d.fd == c.fd && end != Again) ||
              (d.fd == s.serialFd && c.kind == Admin && exists r :: r in batch && Severs(r.cmd)))
  {
    AllReadsLater(s, c, batch, d);
    AllReadsKeep(s, c, batch);
    var t := AllReads(s, c, batch).value;
    CloseConnectionKeeps(t, c);
    EraseConn(t.conns, c);
    SameFdSame(s, if d.fd == c.fd then d else c, c);
  }

  /** Exactly the connections that an event names are ended by it: the reader at its end of file
      or error, a quitting writer, whoever hung up, and on an admin's command whoever uses
      `SerialPort::fd_`.  Every other connection survives. */
  lemma EndsExactly(s: State, e: Event, d: Conn)
    requires Inv(s) && d in s.conns && Handle(s, e).Some?
    ensures d in Handle(s, e).value.conns <==> !Ends(s, e, d)
  {
    match e
    case Incoming(srv, fds) => AcceptAllKeeps(s, srv, fds);
    case Readable(fd, batch, end) =>
      if fd !in s.listening {
        ReadableEnds(s, Find(s.conns, fd).value, batch, end, d);
      }
    case Writable(fd) =>
      CloseByFdKeeps(s, fd);
      FindUnique(s.conns, d);
    case Broken(fd) =>
      DisconnectKeeps(s);
      CloseByFdKeeps(if fd == s.serialFd then Disconnect(s) else s, fd);
  }
}
