/** The exchange in the middle of the server, src/dataproxy.cc: two shared buffers, two client
    lists, and one worker thread.  The specification functions are generic in the handle
    of a client and in the bytes, because the class below and the transition system of
    module Relay both use them. */
module DataProxies {
  import opened Connections
  import opened Seqs

  /** `Client::Type`: which way a client's own transfers go. */
  datatype Direction = Serial2Sock | Sock2Serial

  /** The type that each kind of connection passes to its base class. */
  function DirectionOf(kind: Kind): Direction {
    if kind == Serial then Serial2Sock else Sock2Serial
  }

  /** The two client lists; a client is listed for the direction it listens to. */
  datatype Registry<C> = Registry(sock: seq<C>, serial: seq<C>)

  datatype Proxy<C, B> = Proxy(reg: Registry<C>, bufSerial: seq<B>, bufSock: seq<B>, quit: bool)

  function Register<C>(r: Registry<C>, c: C, t: Direction): Registry<C> {
    if t == Sock2Serial then r.(sock := r.sock + [c]) else r.(serial := r.serial + [c])
  }

  function Deregister<C(==)>(r: Registry<C>, c: C, t: Direction): Registry<C> {
    if t == Sock2Serial then r.(sock := Erase(r.sock, c)) else r.(serial := Erase(r.serial, c))
  }

  /** `Client::transfer` and the append that it selects. */
  function Transfer<C, B>(p: Proxy<C, B>, t: Direction, content: seq<B>): Proxy<C, B> {
    if t == Serial2Sock then p.(bufSerial := p.bufSerial + content)
    else p.(bufSock := p.bufSock + content)
  }

  /** The predicate the worker waits for. */
  predicate Awake<C, B>(p: Proxy<C, B>) {
    p.bufSock != [] || p.bufSerial != [] || p.quit
  }

  /** One call of the virtual `received`. */
  datatype Call<C, B> = Call(client: C, content: seq<B>)

  /** The calls that hand one buffer to one list, in list order; none if there is nothing. */
  function Broadcast<C, B>(clients: seq<C>, content: seq<B>): (calls: seq<Call<C, B>>)
    ensures |calls| == if content == [] then 0 else |clients|
    ensures forall k :: 0 <= k < |calls| ==> calls[k] == Call(clients[k], content)
  {
    if content == [] then [] else seq(|clients|, k requires 0 <= k < |clients| => Call(clients[k], content))
  }

  lemma BroadcastNext<C, B>(before: seq<Call<C, B>>, clients: seq<C>, content: seq<B>, i: nat)
    requires content != [] && i < |clients|
    ensures before + Broadcast(clients[..i + 1], content) ==
            before + Broadcast(clients[..i], content) + [Call(clients[i], content)]
    ensures Broadcast(clients[..i + 1], content) ==
            Broadcast(clients[..i], content) + [Call(clients[i], content)]
  {
  }

  /** All that a client is handed by a sequence of calls. */
  function Heard<C(==), B>(calls: seq<Call<C, B>>, c: C): seq<B> {
    if calls == [] then []
    else Heard(calls[..|calls| - 1], c) +
         if calls[|calls| - 1].client == c then calls[|calls| - 1].content else []
  }

  lemma {:induction false} HeardConcat<C, B>(a: seq<Call<C, B>>, b: seq<Call<C, B>>, c: C)
    ensures Heard(a + b, c) == Heard(a, c) + Heard(b, c)
  {
    if b == [] {
      assert a + b == a;
    } else {
      assert (a + b)[..|a + b| - 1] == a + b[..|b| - 1];
      HeardConcat(a, b[..|b| - 1], c);
    }
  }

  /** Each client of the list hears the buffer once and nobody else hears anything. */
  lemma {:induction false} BroadcastOnce<C, B>(clients: seq<C>, content: seq<B>, c: C)
    requires Distinct(clients)
    ensures Heard(Broadcast(clients, content), c) == if c in clients then content else []
  {
    if content == [] || clients == [] {
    } else {
      var front := clients[..|clients| - 1];
      BroadcastOnce(front, content, c);
      assert Broadcast(clients, content)[..|clients| - 1] == Broadcast(front, content);
      assert clients == front + [clients[|clients| - 1]];
    }
  }

  /** A whole iteration of the worker, seen from one client: a client in exactly one of the
      lists hears exactly the buffer of that list. */
  lemma IterationHeard<C, B>(p: Proxy<C, B>, c: C)
    requires Distinct(p.reg.sock) && Distinct(p.reg.serial)
    requires !(c in p.reg.sock && c in p.reg.serial)
    ensures Heard(Broadcast(p.reg.serial, p.bufSock) + Broadcast(p.reg.sock, p.bufSerial), c) ==
            if c in p.reg.serial then p.bufSock else if c in p.reg.sock then p.bufSerial else []
  {
    HeardConcat(Broadcast(p.reg.serial, p.bufSock), Broadcast(p.reg.sock, p.bufSerial), c);
    BroadcastOnce(p.reg.serial, p.bufSock, c);
    BroadcastOnce(p.reg.sock, p.bufSerial, c);
  }

  /** Every method is one critical section of `mutex_`. */
  class DataProxy<C(==)> {
    var bufferSerial: string
    var bufferSock: string
    var clientSock: seq<C>
    var clientSerial: seq<C>
    var quit: bool

    function View(): Proxy<C, char>
      reads this
    {
      Proxy(Registry(clientSock, clientSerial), bufferSerial, bufferSock, quit)
    }

    constructor ()
      ensures View() == Proxy(Registry([], []), "", "", false)
    {
      quit := false;
      bufferSerial, bufferSock := "", "";
      clientSock, clientSerial := [], [];
    }

    method RegisterClient(c: C, t: Direction)
      modifies this`clientSock, this`clientSerial
      ensures View() == old(View()).(reg := Register(old(View()).reg, c, t))
    {
      if t == Sock2Serial {
        clientSock := clientSock + [c];
      } else {
        clientSerial := clientSerial + [c];
      }
    }

    /** The loop shared by both lists: find the client and erase it. */
    static method EraseFrom(list: seq<C>, c: C) returns (rest: seq<C>)
      ensures rest == Erase(list, c)
    {
      rest := list;
      for i := 0 to |list|
        invariant rest == list && c !in list[..i]
      {
        if list[i] == c {
          EraseAt(list, c, i);
          return list[..i] + list[i + 1..];
        }
        assert list[..i + 1] == list[..i] + [list[i]];
      }
      EraseAbsent(list, c);
    }

    method DeregisterClient(c: C, t: Direction)
      modifies this`clientSock, this`clientSerial
      ensures View() == old(View()).(reg := Deregister(old(View()).reg, c, t))
    {
      if t == Sock2Serial {
        clientSock := EraseFrom(clientSock, c);
      } else {
        clientSerial := EraseFrom(clientSerial, c);
      }
    }

    method AppendSerialInput(content: string)
      modifies this`bufferSerial
      ensures View() == Transfer(old(View()), Serial2Sock, content)
    {
      if content == "" {
        return;
      }
      bufferSerial := bufferSerial + content;
    }

    method AppendSockInput(content: string)
      modifies this`bufferSock
      ensures View() == Transfer(old(View()), Sock2Serial, content)
    {
      if content == "" {
        return;
      }
      bufferSock := bufferSock + content;
    }

    method TransferFrom(t: Direction, content: string)
      modifies this`bufferSerial, this`bufferSock
      ensures View() == Transfer(old(View()), t, content)
    {
      if t == Serial2Sock {
        AppendSerialInput(content);
      }
      if t == Sock2Serial {
        AppendSockInput(content);
      }
    }

    /** What the destructor does in its critical section. */
    method RequestQuit()
      modifies this`quit
      ensures View() == old(View()).(quit := true)
    {
      quit := true;
    }

    /** One turn of the worker's loop after its wait has returned.  `calls` are the calls of
        `received` in the order they are made, `stop` says that the loop is left. */
    method WorkerTurn() returns (calls: seq<Call<C, char>>, stop: bool)
      requires Awake(View())
      modifies this`bufferSerial, this`bufferSock
      ensures View() == old(View()).(bufSerial := "", bufSock := "")
      ensures calls == Broadcast(clientSerial, old(bufferSock)) + Broadcast(clientSock, old(bufferSerial))
      ensures stop == quit
    {
      calls := [];
      if bufferSock != "" {
        for i := 0 to |clientSerial|
          invariant bufferSock == old(bufferSock) && bufferSerial == old(bufferSerial)
          invariant calls == Broadcast(clientSerial[..i], bufferSock)
        {
          BroadcastNext([], clientSerial, bufferSock, i);
          calls := calls + [Call(clientSerial[i], bufferSock)];
        }
        assert clientSerial[..|clientSerial|] == clientSerial;
        bufferSock := "";
      }
      ghost var first := calls;
      if bufferSerial != "" {
        for i := 0 to |clientSock|
          invariant bufferSock == "" && bufferSerial == old(bufferSerial)
          invariant calls == first + Broadcast(clientSock[..i], bufferSerial)
        {
          BroadcastNext(first, clientSock, bufferSerial, i);
          calls := calls + [Call(clientSock[i], bufferSerial)];
        }
        assert clientSock[..|clientSock|] == clientSock;
        bufferSerial := "";
      }
      stop := quit;
    }
  }
}
