/** The objects that carry the lifecycle out: `ConnectionManager`, `SerialPort` and `Server`.
    Each method does to the objects what the function of the same name in module Lifecycle
    does to their common view. */
module Servers {
  import opened Options
  import opened Seqs
  import opened Connections
  import opened DataProxies
  import L = Lifecycle
  import Safety = LifecycleSafety

  type Conn = L.Conn

  class ConnectionManager {
    var connections: seq<Conn>

    constructor ()
      ensures connections == []
    {
      connections := [];
    }

    method Append(c: Conn)
      modifies this
      ensures connections == old(connections) + [c]
    {
      connections := connections + [c];
    }

    method Find(fd: int) returns (found: Option<Conn>)
      ensures found == L.Find(connections, fd)
    {
      for i := 0 to |connections|
        invariant L.Find(connections, fd) == L.Find(connections[i..], fd)
      {
        var p := connections[i];
        if p.fd == fd {
          return Some(p);
        }
      }
      return None;
    }

    method RemoveFd(fd: int) returns (removed: Option<Conn>)
      modifies this
      ensures removed == L.Find(old(connections), fd)
      ensures connections == L.Without(old(connections), fd)
    {
      for i := 0 to |connections|
        invariant connections == old(connections)
        invariant L.Find(connections, fd) == L.Find(connections[i..], fd)
        invariant forall k :: 0 <= k < i ==> connections[k].fd != fd
      {
        var p := connections[i];
        if p.fd == fd {
          EraseAt(connections, p, i);
          connections := connections[..i] + connections[i + 1..];
          return Some(p);
        }
      }
      return None;
    }

    /** Removes by descriptor, whatever connection that is. */
    method Remove(c: Conn) returns (fd: int)
      modifies this
      ensures fd == c.fd && connections == L.Without(old(connections), c.fd)
    {
      fd := c.fd;
      var _ := RemoveFd(fd);
    }
  }

  class SerialPort {
    var fd: int

    constructor ()
      ensures fd == -1
    {
      fd := -1;
    }

    /** `server` is the one status callback that is installed. */
    method Connect(server: Server, o: L.Opening)
      requires server.serial == this
      modifies this, server, server.manager, server.proxy
      ensures server.View() == L.Connect(old(server.View()), o)
    {
      if fd > 0 {
        return;
      }
      var granted := server.Grant(o);
      if granted <= 0 {
        return;
      }
      fd := granted;
      if o.SetupFails? {
        server.CloseFd(granted, L.SetupFailed);
        return;
      }
      server.OnSerialPortConnectionChanged(true, granted);
    }

    method Disconnect(server: Server)
      requires server.serial == this
      modifies this, server, server.manager, server.proxy
      ensures server.View() == L.Disconnect(old(server.View()))
    {
      if fd > 0 {
        server.OnSerialPortConnectionChanged(false, fd);
        server.CloseFd(fd, L.AfterCallbacks);
        fd := -1;
      }
    }
  }

  class Server {
    const listening: set<int>
    const adminSocket: int
    const manager: ConnectionManager
    const proxy: DataProxy<Conn>
    const serial: SerialPort
    /** The kernel's table of open descriptors, and the connections that asked to quit. */
    var open: set<int>
    var quitting: set<nat>
    var nextId: nat
    ghost var closes: seq<L.Close>

    ghost function View(): L.State
      reads this, manager, proxy, serial
    {
      L.State(listening, adminSocket, open, manager.connections, proxy.View().reg,
              serial.fd, quitting, nextId, closes)
    }

    /** All that the runs of the server keep; see module LifecycleSafety. */
    ghost predicate Valid()
      reads this, manager, proxy, serial
    {
      Safety.Inv(View())
    }

    /** The two listening descriptors come from the kernel: distinct, and above 2. */
    constructor (client: int, admin: int, first: L.Opening)
      ensures client > 2 && admin > 2 && client != admin ==> Valid()
      ensures View() == L.Connect(L.Booted(client, admin), first)
    {
      listening := {client, admin};
      adminSocket := admin;
      manager := new ConnectionManager();
      proxy := new DataProxy();
      serial := new SerialPort();
      open := {client, admin};
      quitting := {};
      nextId := 0;
      closes := [];
      new;
      serial.Connect(this, first);
      if client > 2 && admin > 2 && client != admin {
        Safety.BootedSafe(client, admin);
        Safety.ConnectKeeps(L.Booted(client, admin), first);
      }
    }

    // ----- the kernel and the heap ----------------------------------------------------

    /** `open` of the serial device: -1, or a descriptor that was not open. */
    method Grant(o: L.Opening) returns (fd: int)
      modifies this`open
      ensures if o.Refused? || !L.Grantable(old(View()), o.fd) then fd == -1 && View() == old(View())
              else fd == o.fd && View() == old(View()).(open := old(open) + {fd})
    {
      if o.Refused? || o.fd <= 2 || o.fd in open {
        return -1;
      }
      fd := o.fd;
      open := open + {fd};
    }

    method CloseFd(fd: int, site: L.Site)
      modifies this`open, this`closes
      ensures View() == L.CloseFd(old(View()), fd, site)
    {
      closes := closes + [L.Close(fd, site, fd in open, L.Find(manager.connections, fd))];
      open := open - {fd};
    }

    method Delete(c: Conn)
      modifies this`open, this`closes, proxy
      ensures View() == L.Delete(old(View()), c)
    {
      proxy.DeregisterClient(c, DirectionOf(c.kind));
      if c.fd > 0 {
        CloseFd(c.fd, L.Destructor);
      }
    }

    method NewConnection(fd: int, kind: Kind)
      modifies this`nextId, manager, proxy
      ensures View() == L.Attach(old(View()), fd, kind)
    {
      var c := L.Conn(nextId, fd, kind);
      nextId := nextId + 1;
      proxy.RegisterClient(c, DirectionOf(kind));
      manager.Append(c);
    }

    // ----- the handlers ---------------------------------------------------------------

    method CloseConnection(c: Conn)
      modifies this`open, this`closes, manager, proxy
      ensures View() == L.CloseConnection(old(View()), c)
    {
      var _ := manager.Remove(c);
      Delete(c);
    }

    method CloseByFd(fd: int)
      modifies this`open, this`closes, manager, proxy
      ensures View() == L.CloseByFd(old(View()), fd)
    {
      var found := manager.Find(fd);
      if found.Some? {
        CloseConnection(found.value);
      }
    }

    method OnSerialPortConnectionChanged(up: bool, fd: int)
      modifies this, manager, proxy
      ensures View() == if up then L.Attach(old(View()), fd, Serial) else L.CloseByFd(old(View()), fd)
    {
      if up {
        NewConnection(fd, Serial);
      } else {
        var removed := manager.RemoveFd(fd);
        if removed.Some? {
          Delete(removed.value);
        }
      }
    }

    /** `answers` are the answers of `accept`; the loop ends when one is not a descriptor that
        the kernel can grant, or with the last. */
    method AcceptConnection(srv: int, answers: seq<int>)
      modifies this`open, this`nextId, manager, proxy
      ensures View() == L.AcceptAll(old(View()), srv, answers)
    {
      var i := 0;
      while i < |answers|
        invariant 0 <= i <= |answers|
        invariant L.AcceptAll(View(), srv, answers[i..]) == L.AcceptAll(old(View()), srv, answers)
      {
        var fd := answers[i];
        assert answers[i..][1..] == answers[i + 1..];
        if fd <= 2 || fd in open {
          return;
        }
        open := open + {fd};
        NewConnection(fd, if srv == adminSocket then Admin else Client);
        i := i + 1;
      }
    }

    /** One admin command; `ok` is false if the C++ code does not go on from here. */
    method ProcessCommand(c: Conn, r: L.Read) returns (ok: bool)
      modifies this, manager, proxy, serial
      ensures ok <==> L.Obey(old(View()), c, r).Some?
      ensures ok ==> View() == L.Obey(old(View()), c, r).value
    {
      if r.cmd.Blank? || r.cmd.Oversized? {
        return false;
      }
      if r.cmd.DisconnectCmd? || r.cmd.ReconnectCmd? {
        var victim := manager.Find(serial.fd);
        if serial.fd > 0 && victim == Some(c) {
          return false;
        }
        serial.Disconnect(this);
      }
      if r.cmd.ConnectCmd? || r.cmd.ReconnectCmd? {
        serial.Connect(this, r.during);
      }
      if r.cmd.ExitCmd? {
        quitting := quitting + {c.id};
      }
      ok := true;
    }

    method InputDataHandler(fd: int, batch: seq<L.Read>, end: L.End) returns (ok: bool)
      modifies this, manager, proxy, serial
      ensures ok <==> L.Input(old(View()), fd, batch, end).Some?
      ensures ok ==> View() == L.Input(old(View()), fd, batch, end).value
    {
      var pconn := manager.Find(fd);
      if pconn.None? {
        return false;
      }
      var c := pconn.value;
      ghost var start := View();
      for i := 0 to |batch|
        invariant L.AllReads(start, c, batch[..i]) == Some(View())
      {
        assert batch[..i + 1][..i] == batch[..i];
        if serial.fd <= 0 {
          serial.Connect(this, batch[i].before);
        }
        if c.kind == Admin {
          var alive := ProcessCommand(c, batch[i]);
          if !alive {
            NoneStays(start, c, batch, i + 1);
            return false;
          }
        }
      }
      assert batch[..|batch|] == batch;
      if end != L.Again {
        CloseConnection(c);
      }
      ok := true;
    }

    method OutputDataHandler(fd: int)
      modifies this`open, this`closes, manager, proxy
      ensures View() == L.Output(old(View()), fd)
    {
      var pconn := manager.Find(fd);
      if pconn.Some? && pconn.value.id in quitting {
        CloseConnection(pconn.value);
      }
    }

    /** Keeps all the invariants, unless the event is one of those that the server does not
        survive, and exactly then `ok` is false. */
    method Handle(e: L.Event) returns (ok: bool)
      requires Valid()
      modifies this, manager, proxy, serial
      ensures ok ==> Valid()
      ensures !ok <==> Safety.Unsurvived(old(View()), e)
      ensures ok <==> L.Handle(old(View()), e).Some?
      ensures ok ==> View() == L.Handle(old(View()), e).value
    {
      Safety.HandleKeeps(View(), e);
      ok := true;
      match e
      case Incoming(srv, fds) =>
        if srv in listening {
          AcceptConnection(srv, fds);
        }
      case Readable(fd, batch, end) =>
        if fd !in listening {
          ok := InputDataHandler(fd, batch, end);
        }
      case Writable(fd) => OutputDataHandler(fd);
      case Broken(fd) =>
        if fd == serial.fd {
          serial.Disconnect(this);
        }
        CloseByFd(fd);
    }
  }

  lemma {:induction false} NoneStays(s: L.State, c: Conn, batch: seq<L.Read>, n: nat)
    requires n <= |batch| && L.AllReads(s, c, batch[..n]).None?
    ensures L.AllReads(s, c, batch).None?
    decreases |batch|
  {
    if n < |batch| {
      var front := batch[..|batch| - 1];
      assert front[..n] == batch[..n];
      NoneStays(s, c, front, n);
    } else {
      assert batch[..n] == batch;
    }
  }
}
