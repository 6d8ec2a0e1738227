/** The life of connections in the server: the kernel's descriptors, the connection manager's
    vector, the proxy's two client lists and `SerialPort::fd_`, as values.  One event is one
    call of `Server::handle` on the main thread, src/sockserver.cc; the classes of
    module Servers carry these functions out. */
module Lifecycle {
  import opened Options
  import opened Seqs
  import opened Connections
  import opened DataProxies

  /** A `Connection *`: `id` is the identity of the object. */
  datatype Conn = Conn(id: nat, fd: int, kind: Kind)

  datatype Site = Destructor | AfterCallbacks | SetupFailed

  /** A record of one `close(fd)`: whether `fd` was open then, and which managed connection, if
      any, was using it. */
  datatype Close = Close(fd: int, site: Site, wasOpen: bool, user: Option<Conn>)

  datatype State = State(
    listening: set<int>, admin: int,
    open: set<int>, conns: seq<Conn>, reg: Registry<Conn>,
    serialFd: int, quitting: set<nat>, nextId: nat, closes: seq<Close>)

  // ----- the connection manager, src/connection_server.cc -----------------------------

  /** The first connection with this descriptor. */
  function Find(conns: seq<Conn>, fd: int): (r: Option<Conn>)
    ensures r.Some? ==> r.value in conns && r.value.fd == fd
    ensures r.None? ==> forall c :: c in conns ==> c.fd != fd
  {
    if conns == [] then None
    else if conns[0].fd == fd then Some(conns[0])
    else Find(conns[1..], fd)
  }

  /** The list without it. */
  function Without(conns: seq<Conn>, fd: int): seq<Conn> {
    match Find(conns, fd)
    case None => conns
    case Some(c) => Erase(conns, c)
  }

  // ----- closing ----------------------------------------------------------------------

  function CloseFd(s: State, fd: int, site: Site): State {
    s.(open := s.open - {fd},
       closes := s.closes + [Close(fd, site, fd in s.open, Find(s.conns, fd))])
  }

  /** `delete`: the proxy forgets the client, then the descriptor is closed. */
  function Delete(s: State, c: Conn): State {
    var s1 := s.(reg := Deregister(s.reg, c, DirectionOf(c.kind)));
    if c.fd > 0 then CloseFd(s1, c.fd, Destructor) else s1
  }

  /** `close_connection(Connection *)`: the manager removes by descriptor. */
  function CloseConnection(s: State, c: Conn): State {
    Delete(s.(conns := Without(s.conns, c.fd)), c)
  }

  /** `close_connection(int)`. */
  function CloseByFd(s: State, fd: int): State {
    match Find(s.conns, fd)
    case None => s
    case Some(c) => CloseConnection(s, c)
  }

  // ----- opening ----------------------------------------------------------------------

  /** The kernel hands out any descriptor above 2 that is not open. */
  predicate Grantable(s: State, fd: int) {
    fd > 2 && fd !in s.open
  }

  /** `new ...Connection(fd)`, which registers with the proxy, and `append`. */
  function Attach(s: State, fd: int, kind: Kind): State {
    var c := Conn(s.nextId, fd, kind);
    s.(reg := Register(s.reg, c, DirectionOf(kind)), conns := s.conns + [c], nextId := s.nextId + 1)
  }

  /** What `open` and the set-up of the serial device come to.  An answer that names a
      descriptor that the kernel cannot grant stands for a failing `open`. */
  datatype Opening = Refused | SetupFails(fd: int) | Works(fd: int)

  // ----- the serial port, src/serialport.cc -------------------------------------------

  function Connect(s: State, o: Opening): State {
    if s.serialFd > 0 || o.Refused? || !Grantable(s, o.fd) then s
    else
      var s1 := s.(open := s.open + {o.fd}, serialFd := o.fd);
      if o.Works? then Attach(s1, o.fd, Serial) else CloseFd(s1, o.fd, SetupFailed)
  }

  function Disconnect(s: State): State {
    if s.serialFd > 0 then
      CloseFd(CloseByFd(s, s.serialFd), s.serialFd, AfterCallbacks).(serialFd := -1)
    else s
  }

  // ----- the server's handlers --------------------------------------------------------

  /** One round of `accept_connection`. */
  function Accept(s: State, srv: int, fd: int): State {
    if Grantable(s, fd) then
      Attach(s.(open := s.open + {fd}), fd, if srv == s.admin then Admin else Client)
    else s
  }

  function AcceptAll(s: State, srv: int, fds: seq<int>): State
    decreases |fds|
  {
    if fds == [] || !Grantable(s, fds[0]) then s
    else AcceptAll(Accept(s, srv, fds[0]), srv, fds[1..])
  }

  /** What a console command of an admin connection does to connections.  `Blank` is input
      without any word in it other than a single LF: `process_cmd` then reads `args[0]` of
      an empty vector.  `Oversized` is a `set` of the baud rate, data bits or parity to a number
      that no `int` holds: `stoi` then throws an exception that nobody catches. */
  datatype Command = Blank | Oversized | ConnectCmd | DisconnectCmd | ReconnectCmd | ExitCmd | Other

  /** One successful read: the command it carries if an admin sent it, and what the serial
      device answers if it is opened before or by the command. */
  datatype Read = Read(cmd: Command, before: Opening, during: Opening)

  /** How the read loop ends. */
  datatype End = Again | Eof | Failed

  /** An admin command.  `None`: the server does not go on as described, because of `Blank` or
      `Oversized`, or because the command destroyed the connection that is executing it. */
  function Obey(s: State, c: Conn, r: Read): Option<State> {
    match r.cmd
    case Blank => None
    case Oversized => None
    case ConnectCmd => Some(Connect(s, r.during))
    case DisconnectCmd => if s.serialFd > 0 && Find(s.conns, s.serialFd) == Some(c) then None else Some(Disconnect(s))
    case ReconnectCmd =>
      if s.serialFd > 0 && Find(s.conns, s.serialFd) == Some(c) then None
      else Some(Connect(Disconnect(s), r.during))
    case ExitCmd => Some(s.(quitting := s.quitting + {c.id}))
    case Other => Some(s)
  }

  /** One turn of the read loop: reconnect if need be, then `write_rxbuf`. */
  function OneRead(s: State, c: Conn, r: Read): Option<State> {
    var s1 := Connect(s, r.before);
    if c.kind == Admin then Obey(s1, c, r) else Some(s1)
  }

  function AllReads(s: State, c: Conn, batch: seq<Read>): Option<State> {
    if batch == [] then Some(s)
    else
      match AllReads(s, c, batch[..|batch| - 1])
      case None => None
      case Some(s1) => OneRead(s1, c, batch[|batch| - 1])
  }

  /** `input_data_handler`.  `None` also if no connection has this descriptor: the loop then
      dereferences a null pointer. */
  function Input(s: State, fd: int, batch: seq<Read>, end: End): Option<State> {
    match Find(s.conns, fd)
    case None => None
    case Some(c) =>
      match AllReads(s, c, batch)
      case None => None
      case Some(s1) => Some(if end == Again then s1 else CloseConnection(s1, c))
  }

  function Output(s: State, fd: int): State {
    match Find(s.conns, fd)
    case None => s
    case Some(c) => if c.id in s.quitting then CloseConnection(s, c) else s
  }

  function Hangup(s: State, fd: int): State {
    CloseByFd(if fd == s.serialFd then Disconnect(s) else s, fd)
  }

  datatype Event =
    | Incoming(srv: int, fds: seq<int>)
    | Readable(fd: int, batch: seq<Read>, end: End)
    | Writable(fd: int)
    | Broken(fd: int)

  /** `Server::handle`.  Input on a listening descriptor is `Incoming`, on any other `Readable`;
      the two remaining combinations are no events and change nothing. */
  function Handle(s: State, e: Event): Option<State> {
    match e
    case Incoming(srv, fds) => Some(if srv in s.listening then AcceptAll(s, srv, fds) else s)
    case Readable(fd, batch, end) => if fd in s.listening then Some(s) else Input(s, fd, batch, end)
    case Writable(fd) => Some(Output(s, fd))
    case Broken(fd) => Some(Hangup(s, fd))
  }

  /** The server once its two sockets listen, before and after the first connect. */
  function Booted(client: int, admin: int): State {
    State({client, admin}, admin, {client, admin}, [], Registry([], []), -1, {}, 0, [])
  }

  function Run(s: State, events: seq<Event>): Option<State> {
    if events == [] then Some(s)
    else
      match Run(s, events[..|events| - 1])
      case None => None
      case Some(t) => Handle(t, events[|events| - 1])
  }

  /** The server constructed with `first` as the answer of its first connect, and then run. */
  function Started(client: int, admin: int, first: Opening, events: seq<Event>): Option<State> {
    Run(Connect(Booted(client, admin), first), events)
  }
}
