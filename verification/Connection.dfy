/** The outgoing half of a connection, src/connection.cc, and what the three kinds do with
    bytes broadcast to them, src/connection_server.cc. */
module Connections {
  import opened CharBufs
  import opened Seqs

  datatype Kind = Client | Admin | Serial

  /** What the first `calls` writes would accept from an endless supply of bytes. */
  function Offered(writes: nat -> int, calls: nat): nat {
    if calls == 0 then 0
    else Offered(writes, calls - 1) + if writes(calls - 1) > 0 then writes(calls - 1) else 0
  }

  /** How many write calls `flush` makes on a queue of `len` bytes: it stops as soon as the
      queue is empty or a write is not positive, and not before. */
  ghost predicate StopsAfter(len: nat, writes: nat -> int, calls: nat) {
    && (forall k: nat :: k + 1 < calls ==> writes(k) > 0)
    && (calls > 0 ==> Offered(writes, calls - 1) < len)
    && (Offered(writes, calls) >= len || (calls > 0 && writes(calls - 1) <= 0))
  }

  lemma {:induction false} OfferedMonotone(writes: nat -> int, a: nat, b: nat)
    requires a <= b
    ensures Offered(writes, a) <= Offered(writes, b)
  {
    if a < b {
      OfferedMonotone(writes, a, b - 1);
    }
  }

  /** So the write results alone decide where `flush` stops. */
  lemma StopsOnce(len: nat, writes: nat -> int, a: nat, b: nat)
    requires StopsAfter(len, writes, a) && StopsAfter(len, writes, b)
    ensures a == b
  {
    if a < b {
      OfferedMonotone(writes, a, b - 1);
    } else if b < a {
      OfferedMonotone(writes, b, a - 1);
    }
  }

  class Connection {
    const fd: int
    const kind: Kind
    const txbuf: CharBuf
    var reqQuit: bool
    /** Every byte the kernel has accepted for `fd`, oldest first. */
    ghost var wire: string

    constructor (fd: int, kind: Kind)
      ensures this.fd == fd && this.kind == kind && !reqQuit
      ensures fresh(txbuf) && txbuf.buf == "" && wire == ""
    {
      this.fd := fd;
      this.kind := kind;
      txbuf := new CharBuf();
      reqQuit := false;
      wire := "";
    }

    method WriteTxbuf(content: string) returns (length: nat)
      modifies txbuf
      ensures txbuf.buf == old(txbuf.buf) + content && length == |content|
    {
      length := txbuf.Append(content);
    }

    /** An admin connection ignores what comes from the serial port. */
    method Received(content: string)
      modifies txbuf
      ensures txbuf.buf == old(txbuf.buf) + (if kind == Admin then "" else content)
    {
      if kind != Admin {
        var _ := WriteTxbuf(content);
      }
    }

    /** `write(fd_, content, |content|)`: the kernel takes at most what it is offered. */
    method Write(content: string, result: int) returns (written: int)
      requires content != ""
      modifies this`wire
      ensures written == if result > |content| then |content| else result
      ensures written <= 0 ==> wire == old(wire)
      ensures written > 0 ==> wire == old(wire) + content[..written]
    {
      written := if result > |content| then |content| else result;
      if written > 0 {
        wire := wire + content[..written];
      }
    }

    /** `writes(k)` is the answer of the k-th write.  Whatever the answers are, `flush`
        terminates, moves a prefix of the queue onto the wire, and stops at the first
        answer that is not positive or with an empty queue. */
    method Flush(writes: nat -> int) returns (calls: nat)
      modifies this`wire, txbuf
      ensures StopsAfter(|old(txbuf.buf)|, writes, calls)
      ensures wire + txbuf.buf == old(wire + txbuf.buf)
      ensures |txbuf.buf| == if Offered(writes, calls) >= |old(txbuf.buf)| then 0
                             else |old(txbuf.buf)| - Offered(writes, calls)
    {
      calls := 0;
      ghost var n := |txbuf.buf|;
      var isEmpty := txbuf.Empty();
      while !isEmpty
        invariant isEmpty <==> txbuf.buf == ""
        invariant wire + txbuf.buf == old(wire + txbuf.buf)
        invariant forall k: nat :: k < calls ==> writes(k) > 0
        invariant calls > 0 ==> Offered(writes, calls - 1) < n
        invariant |txbuf.buf| == if Offered(writes, calls) >= n then 0 else n - Offered(writes, calls)
        decreases |txbuf.buf|
      {
        var content := txbuf.buf;
        ghost var before := wire;
        var written := Write(content, writes(calls));
        calls := calls + 1;
        if written <= 0 {
          break;
        }
        MovePrefix(before, content, written);
        txbuf.Pop(written);
        isEmpty := txbuf.Empty();
      }
    }
  }
}
