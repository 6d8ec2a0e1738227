/** The byte queue of src/charbuf.cc.  A C++ `char` is a Dafny `char`; nothing below
    depends on its range.  The buffer is a vector that is changed in place, so it is a
    class with a sequence field; what its operations promise over whole scripts of calls
    is proved about the specification functions. */
module CharBufs {
  import opened Chars
  import opened Options

  /** Where `std::find` stops: the first LF, or the end. */
  function LineEnd(s: string): (n: nat)
    ensures n <= |s|
    ensures LF !in s[..n]
    ensures n < |s| ==> s[n] == LF
    ensures n == |s| <==> LF !in s
  {
    if s == [] || s[0] == LF then 0
    else
      var n := 1 + LineEnd(s[1..]);
      assert s[..n] == [s[0]] + s[1..][..n - 1];
      assert s == [s[0]] + s[1..];
      n
  }

  /** Lines, each followed by its LF, and then an unfinished rest. */
  function Join(lines: seq<string>, rest: string): string {
    if lines == [] then rest else lines[0] + [LF] + Join(lines[1..], rest)
  }

  ghost predicate LineFree(lines: seq<string>) {
    forall l :: l in lines ==> LF !in l
  }

  lemma {:induction false} JoinSnoc(lines: seq<string>, l: string, rest: string)
    ensures Join(lines + [l], rest) == Join(lines, l + [LF] + rest)
  {
    if lines == [] {
      assert [l][1..] == [];
    } else {
      assert (lines + [l])[1..] == lines[1..] + [l];
      JoinSnoc(lines[1..], l, rest);
    }
  }

  lemma {:induction false} JoinAppend(lines: seq<string>, rest: string, more: string)
    ensures Join(lines, rest + more) == Join(lines, rest) + more
  {
    if lines == [] {
    } else {
      JoinAppend(lines[1..], rest, more);
    }
  }

  lemma {:induction false} JoinConcat(a: seq<string>, b: seq<string>, rest: string)
    ensures Join(a + b, rest) == Join(a, Join(b, rest))
  {
    if a == [] {
      assert a + b == b;
    } else {
      assert (a + b)[1..] == a[1..] + b;
      JoinConcat(a[1..], b, rest);
    }
  }

  /** The first LF cuts a string in one way only. */
  lemma FirstLineUnique(a: string, x: string, b: string, y: string)
    requires LF !in a && LF !in b
    requires a + [LF] + x == b + [LF] + y
    ensures a == b && x == y
  {
    var s := a + [LF] + x;
    assert s == b + [LF] + y;
    assert forall k :: 0 <= k < |a| ==> s[k] == a[k] && a[k] in a;
    assert forall k :: 0 <= k < |b| ==> s[k] == b[k] && b[k] in b;
    assert s[|a|] == LF && s[|b|] == LF;
    assert |a| == |b|;
    assert a == s[..|a|] == b;
    assert x == s[|a| + 1..] == y;
  }

  lemma JoinHasLF(lines: seq<string>, rest: string)
    requires LF !in rest
    ensures LF in Join(lines, rest) <==> lines != []
  {
    if lines != [] {
      assert Join(lines, rest)[|lines[0]|] == LF;
    }
  }

  /** A byte stream has exactly one decomposition into LF-terminated lines and a rest. */
  lemma {:induction false} JoinUnique(l1: seq<string>, r1: string, l2: seq<string>, r2: string)
    requires LineFree(l1) && LineFree(l2) && LF !in r1 && LF !in r2
    requires Join(l1, r1) == Join(l2, r2)
    ensures l1 == l2 && r1 == r2
    decreases |l1|
  {
    JoinHasLF(l1, r1);
    JoinHasLF(l2, r2);
    if l1 != [] && l2 != [] {
      assert l1[0] in l1 && l2[0] in l2;
      FirstLineUnique(l1[0], Join(l1[1..], r1), l2[0], Join(l2[1..], r2));
      JoinUnique(l1[1..], r1, l2[1..], r2);
      assert l1 == [l1[0]] + l1[1..] && l2 == [l2[0]] + l2[1..];
    }
  }

  /** ... and at least one. */
  lemma {:induction false} JoinExists(s: string) returns (lines: seq<string>, rest: string)
    ensures LineFree(lines) && LF !in rest && Join(lines, rest) == s
    decreases |s|
  {
    var n := LineEnd(s);
    if n == |s| {
      return [], s;
    }
    var tail;
    tail, rest := JoinExists(s[n + 1..]);
    lines := [s[..n]] + tail;
    assert lines[1..] == tail;
    assert s == s[..n] + [LF] + s[n + 1..];
  }

  // ----- scripts of appends and line pops ---------------------------------------------

  datatype Op = Append(chunk: string) | PopLine

  /** What a script leaves in the buffer and what it has popped. */
  datatype Reader = Reader(buf: string, popped: seq<string>)

  function Apply(r: Reader, op: Op): Reader {
    match op
    case Append(chunk) => Reader(r.buf + chunk, r.popped)
    case PopLine =>
      var n := LineEnd(r.buf);
      if n < |r.buf| then Reader(r.buf[n + 1..], r.popped + [r.buf[..n]])
      else Reader(r.buf, r.popped + [""])
  }

  function Run(r: Reader, ops: seq<Op>): Reader
    decreases |ops|
  {
    if ops == [] then r else Run(Apply(r, ops[0]), ops[1..])
  }

  /** Lines are popped only when `hasline` says there is one. */
  predicate Guarded(r: Reader, ops: seq<Op>)
    decreases |ops|
  {
    ops == [] ||
    ((ops[0].PopLine? ==> LF in r.buf) && Guarded(Apply(r, ops[0]), ops[1..]))
  }

  /** The stream that a script appends, whatever its chunks are. */
  function Stream(ops: seq<Op>): string {
    if ops == [] then ""
    else (if ops[0].Append? then ops[0].chunk else "") + Stream(ops[1..])
  }

  lemma StepJoin(r: Reader, op: Op)
    requires op.PopLine? ==> LF in r.buf
    requires LineFree(r.popped)
    ensures var next := Apply(r, op);
            && Join(next.popped, next.buf) ==
               Join(r.popped, r.buf) + (if op.Append? then op.chunk else "")
            && LineFree(next.popped) && r.popped <= next.popped
  {
    if op.Append? {
      JoinAppend(r.popped, r.buf, op.chunk);
    } else {
      var n := LineEnd(r.buf);
      assert r.buf == r.buf[..n] + [LF] + r.buf[n + 1..];
      JoinSnoc(r.popped, r.buf[..n], r.buf[n + 1..]);
    }
  }

  /** Nothing is lost, repeated or reordered: the popped lines, each with its LF, and the
      remaining buffer are the stream. */
  lemma {:induction false} Reassembly(r: Reader, ops: seq<Op>)
    requires Guarded(r, ops) && LineFree(r.popped)
    ensures Join(Run(r, ops).popped, Run(r, ops).buf) == Join(r.popped, r.buf) + Stream(ops)
    ensures LineFree(Run(r, ops).popped) && r.popped <= Run(r, ops).popped
    decreases |ops|
  {
    if ops == [] {
    } else {
      var next := Apply(r, ops[0]);
      StepJoin(r, ops[0]);
      Reassembly(next, ops[1..]);
    }
  }

  const FRESH: Reader := Reader("", [])

  /** However a stream is split into appends and whenever lines are popped, a reader that
      has drained the buffer has popped exactly the stream's lines, so a second reader
      of the same stream, drained or not, has popped a prefix of them. */
  lemma ChunkingIndependent(ops: seq<Op>, other: seq<Op>)
    requires Guarded(FRESH, ops) && Guarded(FRESH, other)
    requires Stream(ops) == Stream(other)
    requires LF !in Run(FRESH, ops).buf
    ensures Run(FRESH, other).popped <= Run(FRESH, ops).popped
    ensures LF !in Run(FRESH, other).buf ==> Run(FRESH, other) == Run(FRESH, ops)
  {
    Reassembly(FRESH, ops);
    Reassembly(FRESH, other);
    var drained, partial := Run(FRESH, ops), Run(FRESH, other);
    var more, rest := JoinExists(partial.buf);
    JoinConcat(partial.popped, more, rest);
    JoinUnique(drained.popped, drained.buf, partial.popped + more, rest);
    if LF !in partial.buf {
      JoinUnique([], partial.buf, more, rest);
    }
  }

  lemma JoinLength(lines: seq<string>, rest: string)
    ensures |Join(lines, rest)| == |Join(lines, "")| + |rest|
  {
    JoinAppend(lines, "", rest);
    assert "" + rest == rest;
  }

  /** A pop without a line in the buffer adds an empty line: one byte that nobody appended. */
  lemma UnguardedStep(r: Reader)
    requires LF !in r.buf
    ensures var next := Apply(r, PopLine);
            |Join(next.popped, next.buf)| == |Join(r.popped, r.buf)| + 1
  {
    JoinSnoc(r.popped, "", r.buf);
    JoinLength(r.popped, "" + [LF] + r.buf);
    JoinLength(r.popped, r.buf);
  }

  lemma GuardedStep(r: Reader, op: Op)
    requires op.PopLine? ==> LF in r.buf
    ensures var next := Apply(r, op);
            |Join(next.popped, next.buf)| == |Join(r.popped, r.buf)| + if op.Append? then |op.chunk| else 0
  {
    if op.Append? {
      JoinAppend(r.popped, r.buf, op.chunk);
    } else {
      var n := LineEnd(r.buf);
      assert r.buf == r.buf[..n] + [LF] + r.buf[n + 1..];
      JoinSnoc(r.popped, r.buf[..n], r.buf[n + 1..]);
    }
  }

  /** Nothing ever gets lost, and every unguarded pop makes the join longer than the stream. */
  lemma {:induction false} UnguardedGrows(r: Reader, ops: seq<Op>)
    ensures var last := Run(r, ops);
            && |Join(last.popped, last.buf)| >= |Join(r.popped, r.buf)| + |Stream(ops)|
            && (!Guarded(r, ops) ==> |Join(last.popped, last.buf)| > |Join(r.popped, r.buf)| + |Stream(ops)|)
    decreases |ops|
  {
    if ops != [] {
      UnguardedGrows(Apply(r, ops[0]), ops[1..]);
      if ops[0].PopLine? && LF !in r.buf {
        UnguardedStep(r);
      } else {
        GuardedStep(r, ops[0]);
      }
    }
  }

  /** The guard cannot be dropped anywhere: the popped lines and the buffer give the stream back
      if and only if every pop was made with a line in the buffer. */
  lemma ReassemblyIffGuarded(r: Reader, ops: seq<Op>)
    requires LineFree(r.popped)
    ensures Guarded(r, ops) <==>
            Join(Run(r, ops).popped, Run(r, ops).buf) == Join(r.popped, r.buf) + Stream(ops)
  {
    if Guarded(r, ops) {
      Reassembly(r, ops);
    } else {
      UnguardedGrows(r, ops);
    }
  }

  // ----- erasing at the end of the unfinished line ------------------------------------

  /** The loop of `remove_line_char`, from a buffer already found non-empty.  `None` when it
      would look at the back of an empty vector. */
  function EraseLoop(s: string, length: int, removed: nat): Option<(string, nat)>
    decreases |s|
  {
    if length == 0 then Some((s, removed))
    else if s == "" then None
    else if s[|s| - 1] == LF then Some((s, removed))
    else if length - 1 <= 0 then Some((s[..|s| - 1], removed + 1))
    else EraseLoop(s[..|s| - 1], length - 1, removed + 1)
  }

  /** Where the unfinished last line starts: just after the last LF. */
  function TailStart(s: string): (n: nat)
    ensures n <= |s|
    ensures forall k :: n <= k < |s| ==> s[k] != LF
    ensures n > 0 ==> s[n - 1] == LF
  {
    if s == "" || s[|s| - 1] == LF then |s| else TailStart(s[..|s| - 1])
  }

  function LastLine(s: string): string {
    s[TailStart(s)..]
  }

  /** How many bytes `remove_line_char(length)` takes: a negative length still takes one. */
  function Erased(s: string, length: int): (k: nat)
    ensures k <= |s|
  {
    var wanted := if length < 0 then 1 else length;
    var there := |s| - TailStart(s);
    if wanted <= there then wanted else there
  }

  /** The inputs on which `remove_line_char` stays inside the vector. */
  predicate EraseDefined(s: string, length: int) {
    s == "" || LF in s || length <= |s|
  }

  /** The loop is defined exactly on those inputs and then erases exactly that many. */
  lemma {:induction false} EraseLoopExact(s: string, length: int, removed: nat)
    requires s != ""
    ensures EraseLoop(s, length, removed) ==
            if EraseDefined(s, length)
            then Some((s[..|s| - Erased(s, length)], removed + Erased(s, length)))
            else None
    decreases |s|
  {
    if length == 0 || s[|s| - 1] == LF || length - 1 <= 0 {
      assert s[..|s| - 0] == s;
    } else {
      var t := s[..|s| - 1];
      assert s == t + [s[|s| - 1]];
      if t != "" {
        EraseLoopExact(t, length - 1, removed + 1);
        var k := Erased(t, length - 1);
        assert t[..|t| - k] == s[..|t| - k];
        assert TailStart(s) > 0 <==> LF in s;
      }
    }
  }

  lemma TailStartUnique(s: string, n: nat)
    requires n <= |s|
    requires forall k :: n <= k < |s| ==> s[k] != LF
    requires n > 0 ==> s[n - 1] == LF
    ensures TailStart(s) == n
  {
  }

  /** Erasing never reaches into a complete line: the lines still to be popped stay the same
      and only the unfinished rest gets shorter. */
  lemma {:induction false} EraseKeepsLines(lines: seq<string>, rest: string, length: int)
    requires LineFree(lines) && LF !in rest
    ensures var s := Join(lines, rest);
            var k := Erased(s, length);
            && LastLine(s) == rest
            && s[..|s| - k] == Join(lines, rest[..|rest| - k])
  {
    var s := Join(lines, rest);
    JoinEndsWith(lines, rest);
    TailStartUnique(s, |s| - |rest|);
    var k := Erased(s, length);
    assert rest == rest[..|rest| - k] + rest[|rest| - k..];
    JoinAppend(lines, rest[..|rest| - k], rest[|rest| - k..]);
    var cut := Join(lines, rest[..|rest| - k]);
    assert s == cut + rest[|rest| - k..];
    assert s[..|s| - k] == cut;
  }

  lemma {:induction false} LinesEndWithLF(lines: seq<string>)
    requires lines != []
    ensures var s := Join(lines, ""); s != "" && s[|s| - 1] == LF
  {
    var tail := Join(lines[1..], "");
    assert Join(lines, "") == lines[0] + [LF] + tail;
    if lines[1..] != [] {
      LinesEndWithLF(lines[1..]);
    }
  }

  lemma JoinEndsWith(lines: seq<string>, rest: string)
    ensures var s := Join(lines, rest);
            && |rest| <= |s| && s[|s| - |rest|..] == rest
            && (|rest| < |s| ==> s[|s| - |rest| - 1] == LF)
  {
    JoinAppend(lines, "", rest);
    var whole := Join(lines, "");
    assert "" + rest == rest;
    assert Join(lines, rest) == whole + rest;
    if lines != [] {
      LinesEndWithLF(lines);
    }
  }

  // ----- the class --------------------------------------------------------------------

  class CharBuf {
    var buf: string

    constructor ()
      ensures buf == ""
    {
      buf := "";
    }

    method Reset()
      modifies this
      ensures buf == ""
    {
      buf := "";
    }

    method Append(content: string) returns (length: nat)
      modifies this
      ensures buf == old(buf) + content
      ensures length == |content|
    {
      if content == "" {
        return 0;
      }
      buf := buf + content;
      length := |content|;
    }

    method HasLine() returns (yes: bool)
      ensures yes <==> LF in buf
    {
      yes := LineEnd(buf) != |buf|;
    }

    method GetChar() returns (c: char, ok: bool)
      ensures ok <==> buf != ""
      ensures c == if buf != "" then buf[0] else 0 as char
    {
      c, ok := 0 as char, false;
      if buf != "" {
        c, ok := buf[0], true;
      }
    }

    method Empty() returns (yes: bool)
      ensures yes <==> buf == ""
    {
      yes := true;
      if buf != "" {
        yes := false;
      }
    }

    method PopLine() returns (line: string)
      modifies this
      ensures LF in old(buf) ==> old(buf) == line + [LF] + buf && LF !in line
      ensures LF !in old(buf) ==> line == "" && buf == old(buf)
      ensures Reader(buf, [line]) == Apply(Reader(old(buf), []), Op.PopLine)
    {
      var loc := LineEnd(buf);
      if loc != |buf| {
        line := buf[..loc];
        buf := buf[loc + 1..];
      } else {
        line := "";
      }
    }

    method PopChar() returns (c: char)
      modifies this
      ensures old(buf) != "" ==> old(buf) == [c] + buf
      ensures old(buf) == "" ==> c == 0 as char && buf == ""
    {
      c := 0 as char;
      if buf != "" {
        c := buf[0];
        buf := buf[1..];
      }
    }

    /** A length out of range, which includes a negative one because the comparison is unsigned,
        takes everything. */
    method Pop(length: int)
      modifies this
      ensures buf == if 0 <= length <= |old(buf)| then old(buf)[length..] else ""
    {
      if buf != "" {
        var n := if length < 0 || length > |buf| then |buf| else length;
        buf := buf[n..];
      }
    }

    method RemoveLineChar(n: int) returns (removed: nat)
      requires EraseDefined(buf, n)
      modifies this
      ensures removed == Erased(old(buf), n)
      ensures buf == old(buf)[..|old(buf)| - removed]
    {
      removed := 0;
      var length := n;
      if buf != "" {
        EraseLoopExact(buf, n, 0);
        ghost var goal := EraseLoop(buf, n, 0);
        while length != 0
          invariant EraseLoop(buf, length, removed) == goal
          decreases |buf|
        {
          if buf[|buf| - 1] != LF {
            buf := buf[..|buf| - 1];
            length := length - 1;
            removed := removed + 1;
          } else {
            length := 0;
          }
          if length <= 0 {
            assert goal == Some((buf, removed));
            break;
          }
        }
        assert goal == Some((buf, removed));
      }
    }
  }
}
