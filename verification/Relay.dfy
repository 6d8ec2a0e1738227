/** The relay as a transition system: producers, the worker thread of src/dataproxy.cc, clients
    that join and leave, and the three small steps of `Connection::flush`, interleaved in
    any order.  Bytes carry a ghost tag that says where they come from. */
module Relay {
  import opened Options
  import opened Connections
  import opened DataProxies

  type Id = nat

  datatype Origin = From(id: Id) | Notice
  datatype Tagged = Tagged(b: char, origin: Origin)

  /** `flush` between its steps: the content offered to `write` is a snapshot, and what was
      written stays in the queue until it is popped. */
  datatype Flush = Idle | Offering(content: seq<Tagged>) | Written(n: nat)

  /** One connection.  `joinedAt` and `leftAt` are positions in the history that it listens to,
      `got` is all that its `received` was called with. */
  datatype Peer = Peer(
    kind: Kind, joinedAt: nat, leftAt: Option<nat>,
    got: seq<Tagged>, txbuf: seq<Tagged>, wire: seq<Tagged>, flush: Flush)

  /** Where the worker is.  In the two loops it holds the mutex; `Asleep` is inside the wait
      of the condition variable, `Want` is on its way to the mutex and the predicate. */
  datatype Worker = Want | Asleep | SockLoop(i: nat) | SerialLoop(i: nat) | Exited {
    predicate InLoop() { SockLoop? || SerialLoop? }
  }

  datatype Lock = Free | ByWorker | ByProducer

  /** The destructor sets `quit_` under the mutex and notifies after releasing it. */
  datatype Destructor = NotBegun | QuitSet | Joining

  /** `late` counts the iterations of the worker that begin with `quit_` already set. */
  datatype System = System(
    proxy: Proxy<Id, Tagged>, peers: map<Id, Peer>,
    worker: Worker, lock: Lock, destructor: Destructor,
    histSerial: seq<Tagged>, histSock: seq<Tagged>, late: nat)

  const START: System := System(
    Proxy(Registry([], []), [], [], false), map[], Want, Free, NotBegun, [], [], 0)

  /** What happens to one connection alone. */
  datatype PeerStep =
    | WriteNotice(text: string)
    | OfferSnapshot
    | WriteAccepts(n: nat)
    | WriteRefuses
    | PopWritten

  datatype Event =
    | Insert(id: Id, dir: Direction, bytes: string)
    | NotifyInserted
    | WorkerLocks
    | WorkerSteps
    | SpuriousWake
    | Joins(id: Id, kind: Kind)
    | Leaves(id: Id)
    | OnPeer(id: Id, step: PeerStep)
    | SetQuit
    | NotifyQuit

  function Tag(bytes: string, origin: Origin): seq<Tagged> {
    seq(|bytes|, k requires 0 <= k < |bytes| => Tagged(bytes[k], origin))
  }

  predicate Live(s: System, id: Id) {
    id in s.peers && s.peers[id].leftAt.None?
  }

  predicate PeerEnabled(p: Peer, e: PeerStep) {
    match e
    case WriteNotice(text) => p.kind != Serial
    case OfferSnapshot => p.flush == Idle && p.txbuf != []
    case WriteAccepts(n) => p.flush.Offering? && 0 < n <= |p.flush.content|
    case WriteRefuses => p.flush.Offering?
    case PopWritten => p.flush.Written?
  }

  function PeerNext(p: Peer, e: PeerStep): Peer
    requires PeerEnabled(p, e)
  {
    match e
    case WriteNotice(text) => p.(txbuf := p.txbuf + Tag(text, Notice))
    case OfferSnapshot => p.(flush := Offering(p.txbuf))
    case WriteAccepts(n) => p.(wire := p.wire + p.flush.content[..n], flush := Written(n))
    case WriteRefuses => p.(flush := Idle)
    case PopWritten =>
      var n := if p.flush.n > |p.txbuf| then |p.txbuf| else p.flush.n;
      p.(txbuf := p.txbuf[n..], flush := Idle)
  }

  predicate Enabled(s: System, e: Event) {
    match e
    case Insert(id, dir, bytes) =>
      s.lock == Free && Live(s, id) && s.peers[id].kind != Admin &&
      dir == DirectionOf(s.peers[id].kind) && bytes != ""
    case NotifyInserted => s.lock == ByProducer
    case WorkerLocks => s.lock == Free && s.worker == Want
    case WorkerSteps => s.worker.InLoop()
    case SpuriousWake => s.worker == Asleep
    case Joins(id, kind) => s.lock == Free && id !in s.peers
    case Leaves(id) => s.lock == Free && Live(s, id)
    case OnPeer(id, step) => Live(s, id) && PeerEnabled(s.peers[id], step)
    case SetQuit => s.lock == Free && s.destructor == NotBegun
    case NotifyQuit => s.destructor == QuitSet
  }

  /** `notify_one`: there is only one waiter. */
  function Notified(w: Worker): Worker {
    if w == Asleep then Want else w
  }

  /** `received`, as the three kinds of connection implement it. */
  function Receive(p: Peer, bytes: seq<Tagged>): Peer {
    p.(got := p.got + bytes, txbuf := if p.kind == Admin then p.txbuf else p.txbuf + bytes)
  }

  function Deliver(peers: map<Id, Peer>, id: Id, bytes: seq<Tagged>): map<Id, Peer> {
    if id in peers then peers[id := Receive(peers[id], bytes)] else peers
  }

  /** One step of the worker inside its critical section: hand the buffer to the next client
      of the list, or clear it and go on. */
  function WorkerStep(s: System): System
    requires s.worker.InLoop()
  {
    var p := s.proxy;
    match s.worker
    case SockLoop(i) =>
      if p.bufSock != [] && i < |p.reg.serial| then
        s.(peers := Deliver(s.peers, p.reg.serial[i], p.bufSock), worker := SockLoop(i + 1))
      else
        s.(proxy := p.(bufSock := []), worker := SerialLoop(0))
    case SerialLoop(i) =>
      if p.bufSerial != [] && i < |p.reg.sock| then
        s.(peers := Deliver(s.peers, p.reg.sock[i], p.bufSerial), worker := SerialLoop(i + 1))
      else
        s.(proxy := p.(bufSerial := []), lock := Free, worker := if p.quit then Exited else Want)
  }

  function WithPeer(s: System, id: Id, p: Peer): System {
    s.(peers := s.peers[id := p])
  }

  /** The history that a connection of this kind listens to, and the buffer that ends it. */
  function History(s: System, kind: Kind): seq<Tagged> {
    if kind == Serial then s.histSock else s.histSerial
  }

  function Pending(s: System, kind: Kind): seq<Tagged> {
    if kind == Serial then s.proxy.bufSock else s.proxy.bufSerial
  }

  function Drained(s: System, kind: Kind): int {
    |History(s, kind)| - |Pending(s, kind)|
  }

  function Next(s: System, e: Event): System
    requires Enabled(s, e)
  {
    match e
    case Insert(id, dir, bytes) =>
      var tagged := Tag(bytes, From(id));
      var s1 := s.(proxy := Transfer(s.proxy, dir, tagged), lock := ByProducer);
      if dir == Serial2Sock then s1.(histSerial := s.histSerial + tagged)
      else s1.(histSock := s.histSock + tagged)
    case NotifyInserted => s.(lock := Free, worker := Notified(s.worker))
    case WorkerLocks =>
      if Awake(s.proxy) then
        s.(worker := SockLoop(0), lock := ByWorker, late := s.late + if s.proxy.quit then 1 else 0)
      else s.(worker := Asleep)
    case WorkerSteps => WorkerStep(s)
    case SpuriousWake => s.(worker := Want)
    case Joins(id, kind) =>
      var joinedAt := Drained(s, kind);
      var p := Peer(kind, if joinedAt < 0 then 0 else joinedAt, None, [], [], [], Idle);
      WithPeer(s, id, p).(proxy := s.proxy.(reg := Register(s.proxy.reg, id, DirectionOf(kind))))
    case Leaves(id) =>
      var p := s.peers[id];
      var leftAt := Drained(s, p.kind);
      WithPeer(s, id, p.(leftAt := Some(if leftAt < 0 then 0 else leftAt)))
        .(proxy := s.proxy.(reg := Deregister(s.proxy.reg, id, DirectionOf(p.kind))))
    case OnPeer(id, step) => WithPeer(s, id, PeerNext(s.peers[id], step))
    case SetQuit => s.(proxy := s.proxy.(quit := true), destructor := QuitSet)
    case NotifyQuit => s.(destructor := Joining, worker := Notified(s.worker))
  }

  /** The state after a run, if every event of the run was enabled when it happened. */
  function After(run: seq<Event>): Option<System> {
    if run == [] then Some(START)
    else
      var n := |run| - 1;
      match After(run[..n])
      case None => None
      case Some(s) => if Enabled(s, run[n]) then Some(Next(s, run[n])) else None
  }
}
