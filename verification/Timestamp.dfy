/** The byte-at-a-time timestamp filter inside `Server::input_data_handler`, src/sockserver.cc.
    Its one bit of state is a function static, so all connections share it. */
module Timestamps {
  import opened Chars
  import opened Connections

  /** The printed format; `d` stands for a digit. */
  const TEMPLATE: string := "\U{1B}[37;44m[dddd-dd-dd dd:dd:dd.ddd]\U{1B}[0m "
  const WIDTH: nat := 38

  /** The same format, character by character. */
  function TemplateAt(k: nat): char {
    if k == 0 || k == 33 then ESC
    else if k == 1 || k == 8 || k == 34 then '['
    else if k == 2 then '3'
    else if k == 3 then '7'
    else if k == 4 then ';'
    else if k == 5 || k == 6 then '4'
    else if k == 7 || k == 36 then 'm'
    else if k == 13 || k == 16 then '-'
    else if k == 19 || k == 37 then ' '
    else if k == 22 || k == 25 then ':'
    else if k == 28 then '.'
    else if k == 32 then ']'
    else if k == 35 then '0'
    else 'd'
  }

  lemma TemplateSpelled()
    ensures |TEMPLATE| == WIDTH
    ensures forall k :: 0 <= k < WIDTH ==> TEMPLATE[k] == TemplateAt(k)
  {
  }

  predicate Fits(c: char, t: char) {
    if t == 'd' then '0' <= c <= '9' else c == t
  }

  predicate IsStamp(s: string) {
    |s| == WIDTH && forall k :: 0 <= k < WIDTH ==> Fits(s[k], TemplateAt(k))
  }

  /** Remove every stamp, scanning from the left. */
  function Strip(s: string): string {
    if s == "" then ""
    else if StartsWithStamp(s) then Strip(s[WIDTH..])
    else [s[0]] + Strip(s[1..])
  }

  // ----- the filter -------------------------------------------------------------------

  /** One successful `read`: what arrived on which connection, the setting at that moment, and
      the stamp that the clock would print then. */
  datatype Read = Read(conn: nat, kind: Kind, tsOn: bool, data: string, stamp: string)

  /** A serial connection is read byte by byte, the others up to 128 bytes at a time. */
  predicate Possible(r: Read) {
    && 0 < |r.data| <= (if r.kind == Serial then 1 else 128)
    && IsStamp(r.stamp)
  }

  /** The bytes passed to `write_rxbuf` for one read, and the new value of `new_ts`. */
  function Step(newTs: bool, r: Read): (string, bool)
    requires r.data != ""
  {
    var eol := r.kind == Serial && r.tsOn && r.data[0] == LF;
    var head := if eol then [LF] else "";
    var rest := if eol then r.data[1..] else r.data;
    if (newTs || eol) && rest != "" then (head + r.stamp + rest, false)
    else (head + rest, newTs || eol)
  }

  /** A read that is not the end of a line under the setting passes whole, after the stamp if
      one is pending. */
  lemma StepWhole(newTs: bool, r: Read)
    requires r.data != "" && !(r.kind == Serial && r.tsOn && r.data[0] == LF)
    ensures Step(newTs, r) == (if newTs then r.stamp + r.data else r.data, false)
  {
    assert "" + r.stamp + r.data == r.stamp + r.data && "" + r.data == r.data;
  }

  /** The byte that ends a line passes and makes a stamp pending. */
  lemma StepEnd(newTs: bool, r: Read)
    requires r.data == [LF] && r.kind == Serial && r.tsOn
    ensures Step(newTs, r) == (r.data, true)
  {
    assert r.data[1..] == "" && [LF] + "" == [LF];
  }

  ghost predicate AllPossible(rs: seq<Read>) {
    forall r :: r in rs ==> Possible(r)
  }

  /** `new_ts` after a sequence of reads on any connections. */
  function Pending(newTs: bool, rs: seq<Read>): bool
    requires forall r :: r in rs ==> r.data != ""
  {
    if rs == [] then newTs else Step(Pending(newTs, rs[..|rs| - 1]), rs[|rs| - 1]).1
  }

  /** All raw input that arrives on one connection. */
  function Input(rs: seq<Read>, conn: nat): string {
    if rs == [] then ""
    else
      var r := rs[|rs| - 1];
      Input(rs[..|rs| - 1], conn) + if r.conn == conn then r.data else ""
  }

  /** All that the filter passes on for one connection. */
  function Output(newTs: bool, rs: seq<Read>, conn: nat): string
    requires forall r :: r in rs ==> r.data != ""
  {
    if rs == [] then ""
    else
      var front, r := rs[..|rs| - 1], rs[|rs| - 1];
      Output(newTs, front, conn) + if r.conn == conn then Step(Pending(newTs, front), r).0 else ""
  }

  // ----- stripping --------------------------------------------------------------------

  lemma InsideStamp(s: string, k: nat)
    requires IsStamp(s) && k < |s|
    ensures s[k] != LF && s[0] == ESC
  {
    assert Fits(s[k], TemplateAt(k)) && Fits(s[0], TemplateAt(0));
  }

  /** No ESC byte. */
  predicate Plain(s: string) {
    forall k :: 0 <= k < |s| ==> s[k] != ESC
  }

  predicate StartsWithStamp(s: string) {
    |s| >= WIDTH && IsStamp(s[..WIDTH])
  }

  lemma NotAtHead(s: string)
    requires s != "" && s[0] != ESC
    ensures !StartsWithStamp(s)
  {
    if StartsWithStamp(s) {
      InsideStamp(s[..WIDTH], 0);
    }
  }

  lemma NoLineInside(x: string, z: string)
    requires x != "" && x[|x| - 1] == LF && StartsWithStamp(x + z)
    ensures |x| > WIDTH
  {
    if |x| <= WIDTH {
      InsideStamp((x + z)[..WIDTH], |x| - 1);
    }
  }

  predicate AtLineStart(x: string) {
    x == "" || x[|x| - 1] == LF
  }

  /** Scanning may be resumed after `x`: nothing that `f` recognises straddles its end. */
  ghost predicate Cut(f: string -> string, x: string) {
    forall z: string :: f(x + z) == f(x) + f(z)
  }

  lemma CutConcat(f: string -> string, x: string, w: string)
    requires Cut(f, x) && Cut(f, w)
    ensures Cut(f, x + w) && f(x + w) == f(x) + f(w)
  {
    forall z: string
      ensures f(x + w + z) == f(x + w) + f(z)
    {
      assert x + w + z == x + (w + z);
      assert f(x) + (f(w) + f(z)) == f(x) + f(w) + f(z);
    }
  }

  lemma CutEmpty()
    ensures Cut(Strip, "")
  {
    forall z: string
      ensures Strip("" + z) == Strip("") + Strip(z)
    {
      assert "" + z == z;
    }
  }

  lemma CutStamp(stamp: string)
    requires IsStamp(stamp)
    ensures Cut(Strip, stamp) && Strip(stamp) == ""
  {
    assert stamp[..WIDTH] == stamp && stamp[WIDTH..] == "";
    forall z: string
      ensures Strip(stamp + z) == Strip(stamp) + Strip(z)
    {
      assert (stamp + z)[..WIDTH] == stamp && (stamp + z)[WIDTH..] == z;
    }
  }

  lemma {:induction false} StripAtLineStart(x: string, z: string)
    requires AtLineStart(x)
    ensures Strip(x + z) == Strip(x) + Strip(z)
    decreases |x|
  {
    if x == "" {
      assert x + z == z;
    } else {
      assert |x| >= WIDTH ==> (x + z)[..WIDTH] == x[..WIDTH];
      if StartsWithStamp(x + z) {
        NoLineInside(x, z);
        assert (x + z)[WIDTH..] == x[WIDTH..] + z;
        StripAtLineStart(x[WIDTH..], z);
      } else {
        assert (x + z)[1..] == x[1..] + z;
        StripAtLineStart(x[1..], z);
        assert [x[0]] + (Strip(x[1..]) + Strip(z)) == [x[0]] + Strip(x[1..]) + Strip(z);
      }
    }
  }

  lemma CutLine(w: string)
    requires AtLineStart(w)
    ensures Cut(Strip, w)
  {
    forall z: string
      ensures Strip(w + z) == Strip(w) + Strip(z)
    {
      StripAtLineStart(w, z);
    }
  }

  lemma HeadTail(x: string, y: string)
    requires x != ""
    ensures [x[0]] + (x[1..] + y) == x + y
  {
  }

  lemma {:induction false} StripPlain(x: string, z: string)
    requires Plain(x)
    ensures Strip(x + z) == x + Strip(z)
  {
    if x == "" {
      assert x + z == z;
    } else {
      NotAtHead(x + z);
      assert (x + z)[1..] == x[1..] + z;
      StripPlain(x[1..], z);
      HeadTail(x, Strip(z));
    }
  }

  lemma CutPlain(w: string)
    requires Plain(w)
    ensures Cut(Strip, w) && Strip(w) == w
  {
    StripPlain(w, "");
    assert w + "" == w;
    forall z: string
      ensures Strip(w + z) == Strip(w) + Strip(z)
    {
      StripPlain(w, z);
    }
  }

  // ----- stamps are erasable ----------------------------------------------------------

  /** Whatever the setting does and however the reads of different connections interleave, a
      connection whose input has no ESC byte gets its input back by stripping. */
  lemma {:induction false} Erasable(newTs: bool, rs: seq<Read>, conn: nat)
    requires AllPossible(rs)
    requires Plain(Input(rs, conn))
    ensures Strip(Output(newTs, rs, conn)) == Input(rs, conn)
    ensures Cut(Strip, Output(newTs, rs, conn))
  {
    if rs == [] {
      CutEmpty();
    } else {
      var front, r := rs[..|rs| - 1], rs[|rs| - 1];
      assert r in rs && AllPossible(front);
      PlainParts(Input(front, conn), if r.conn == conn then r.data else "");
      Erasable(newTs, front, conn);
      var out := Output(newTs, front, conn);
      if r.conn == conn {
        StepErasable(out, Pending(newTs, front), r);
      } else {
        assert out + "" == out;
      }
    }
  }

  lemma PlainParts(x: string, y: string)
    requires Plain(x + y)
    ensures Plain(x) && Plain(y)
  {
    assert forall k :: 0 <= k < |x| ==> (x + y)[k] == x[k];
    assert forall k :: 0 <= k < |y| ==> (x + y)[|x| + k] == y[k];
  }

  lemma StepErasable(out: string, newTs: bool, r: Read)
    requires Cut(Strip, out) && Possible(r) && Plain(r.data)
    ensures Cut(Strip, out + Step(newTs, r).0)
    ensures Strip(out + Step(newTs, r).0) == Strip(out) + r.data
  {
    CutPlain(r.data);
    if r.kind == Serial && r.tsOn && r.data[0] == LF {
      StepEnd(newTs, r);
      CutConcat(Strip, out, r.data);
    } else {
      StepWhole(newTs, r);
      CutStamp(r.stamp);
      CutConcat(Strip, r.stamp, r.data);
      CutConcat(Strip, out, r.stamp + r.data);
      CutConcat(Strip, out, r.data);
    }
  }

  /** All serial reads are those of this one connection. */
  ghost predicate OneSerial(rs: seq<Read>, serial: nat) {
    forall r :: r in rs ==> (r.kind == Serial <==> r.conn == serial)
  }

  /** Output and input end alike since the last stamp, and what comes before strips alike. */
  ghost predicate Aligned(f: string -> string, out: string, input: string, pending: bool,
                          done: string, taken: string, w: string)
  {
    && out == done + w && input == taken + w
    && Cut(f, done) && Cut(f, taken) && f(done) == f(taken)
    && (pending ==> AtLineStart(w))
  }

  lemma AlignPlain(f: string -> string, out: string, input: string, pending: bool,
                   done: string, taken: string, w: string, data: string)
    requires Aligned(f, out, input, pending, done, taken, w)
    ensures Aligned(f, out + data, input + data, AtLineStart(w + data), done, taken, w + data)
  {
    assert done + w + data == done + (w + data) && taken + w + data == taken + (w + data);
  }

  lemma AlignStamp(f: string -> string, out: string, input: string,
                   done: string, taken: string, w: string, stamp: string, data: string)
    requires Aligned(f, out, input, true, done, taken, w) && Cut(f, w)
    requires Cut(f, stamp) && f(stamp) == ""
    ensures Aligned(f, out + (stamp + data), input + data, false, done + w + stamp, taken + w, data)
  {
    CutConcat(f, done, w);
    CutConcat(f, taken, w);
    CutConcat(f, done + w, stamp);
    assert out + (stamp + data) == done + w + stamp + data;
    assert f(done + w) + "" == f(done + w);
  }

  lemma SerialStep(out: string, input: string, newTs: bool, r: Read,
                   done: string, taken: string, w: string)
    returns (done': string, taken': string, w': string)
    requires Aligned(Strip, out, input, newTs, done, taken, w) && Possible(r) && r.kind == Serial
    ensures Aligned(Strip, out + Step(newTs, r).0, input + r.data, Step(newTs, r).1, done', taken', w')
  {
    if r.tsOn && r.data[0] == LF {
      StepEnd(newTs, r);
      AlignPlain(Strip, out, input, newTs, done, taken, w, r.data);
      done', taken', w' := done, taken, w + r.data;
    } else if newTs {
      StepWhole(newTs, r);
      CutLine(w);
      CutStamp(r.stamp);
      AlignStamp(Strip, out, input, done, taken, w, r.stamp, r.data);
      done', taken', w' := done + w + r.stamp, taken + w, r.data;
    } else {
      StepWhole(newTs, r);
      AlignPlain(Strip, out, input, newTs, done, taken, w, r.data);
      done', taken', w' := done, taken, w + r.data;
    }
  }

  lemma NotYetStarted(newTs: bool)
    ensures Aligned(Strip, "", "", newTs, "", "", "")
  {
    CutEmpty();
  }

  /** On the serial stream a stamp is only ever put at the start of a line. */
  lemma {:induction false} SerialSplit(newTs: bool, rs: seq<Read>, serial: nat)
    returns (done: string, taken: string, w: string)
    requires AllPossible(rs) && OneSerial(rs, serial)
    ensures Aligned(Strip, Output(newTs, rs, serial), Input(rs, serial), Pending(newTs, rs), done, taken, w)
  {
    if rs == [] {
      NotYetStarted(newTs);
      return "", "", "";
    }
    var front, r := rs[..|rs| - 1], rs[|rs| - 1];
    assert r in rs && AllPossible(front) && OneSerial(front, serial);
    done, taken, w := SerialSplit(newTs, front, serial);
    if r.conn == serial {
      done, taken, w := SerialStep(Output(newTs, front, serial), Input(front, serial),
                                   Pending(newTs, front), r, done, taken, w);
    } else {
      StepWhole(Pending(newTs, front), r);
      assert Output(newTs, front, serial) + "" == Output(newTs, front, serial);
      assert Input(front, serial) + "" == Input(front, serial);
    }
  }

  /** So for the serial stream stripping the output is stripping the input, whatever bytes the
      device sends, the ESC byte included. */
  lemma SerialErasable(newTs: bool, rs: seq<Read>, serial: nat)
    requires AllPossible(rs) && OneSerial(rs, serial)
    ensures Strip(Output(newTs, rs, serial)) == Strip(Input(rs, serial))
  {
    var done, taken, w := SerialSplit(newTs, rs, serial);
  }

  predicate StampAt(s: string, k: int) {
    0 <= k <= |s| && StartsWithStamp(s[k..])
  }

  ghost predicate NoStamp(s: string) {
    forall k :: !StampAt(s, k)
  }

  lemma NoStampTail(s: string)
    requires s != ""
    ensures NoStamp(s) <==> !StartsWithStamp(s) && NoStamp(s[1..])
  {
    var t := s[1..];
    assert s[0..] == s;
    assert StampAt(s, 0) <==> StartsWithStamp(s);
    assert forall k :: 0 < k <= |s| ==> s[k..] == t[k - 1..];
    assert forall k :: 0 < k ==> (StampAt(s, k) <==> StampAt(t, k - 1));
    assert forall k :: StampAt(t, k) ==> StampAt(s, k + 1);
  }

  lemma {:induction false} StripShorter(s: string)
    ensures |Strip(s)| <= |s|
    decreases |s|
  {
    if s != "" {
      StripShorter(if StartsWithStamp(s) then s[WIDTH..] else s[1..]);
    }
  }

  lemma {:induction false} StripSameIff(s: string)
    ensures Strip(s) == s <==> NoStamp(s)
  {
    if s != "" {
      NoStampTail(s);
      if StartsWithStamp(s) {
        StripShorter(s[WIDTH..]);
      } else {
        StripSameIff(s[1..]);
        assert Strip(s)[1..] == Strip(s[1..]);
      }
    }
  }

  /** Stripping gives back the serial input exactly when the device itself sends nothing that
      looks like a stamp. */
  lemma SerialRoundTrip(newTs: bool, rs: seq<Read>, serial: nat)
    requires AllPossible(rs) && OneSerial(rs, serial)
    ensures Strip(Output(newTs, rs, serial)) == Input(rs, serial) <==> NoStamp(Input(rs, serial))
  {
    SerialErasable(newTs, rs, serial);
    StripSameIff(Input(rs, serial));
  }

  // ----- where stamps stand -----------------------------------------------------------

  /** The line-level description, without any state: a stamp stands immediately before byte `i`
      exactly when byte `i` is not LF and byte `i - 1` is LF.  Blank lines and the first
      line get none. */
  function Stamped(input: string, stamps: seq<string>): string
    requires |input| == |stamps|
  {
    if input == "" then ""
    else
      var i := |input| - 1;
      Stamped(input[..i], stamps[..i]) +
      (if i > 0 && input[i - 1] == LF && input[i] != LF then stamps[i] else "") + [input[i]]
  }

  /** The reads that deliver `input` byte by byte with the setting on. */
  function SerialReads(input: string, stamps: seq<string>, serial: nat): seq<Read>
    requires |input| == |stamps|
  {
    seq(|input|, i requires 0 <= i < |input| => Read(serial, Serial, true, [input[i]], stamps[i]))
  }

  lemma {:induction false} Placement(input: string, stamps: seq<string>, serial: nat)
    requires |input| == |stamps|
    ensures var rs := SerialReads(input, stamps, serial);
            && Output(false, rs, serial) == Stamped(input, stamps)
            && (Pending(false, rs) <==> input != "" && input[|input| - 1] == LF)
  {
    if input != "" {
      var i := |input| - 1;
      Placement(input[..i], stamps[..i], serial);
      var rs := SerialReads(input, stamps, serial);
      assert rs[..i] == SerialReads(input[..i], stamps[..i], serial);
      if input[i] == LF {
        StepEnd(Pending(false, rs[..i]), rs[i]);
      } else {
        StepWhole(Pending(false, rs[..i]), rs[i]);
      }
      assert input[..i] != "" ==> input[..i][|input[..i]| - 1] == input[i - 1];
    }
  }

  // ----- the shared state leaks between connections -----------------------------------

  /** How many reads of a connection find a stamp pending. */
  function Hits(newTs: bool, rs: seq<Read>, conn: nat): nat
    requires forall r :: r in rs ==> r.data != ""
  {
    if rs == [] then 0
    else
      var front, r := rs[..|rs| - 1], rs[|rs| - 1];
      Hits(newTs, front, conn) + if r.conn == conn && Pending(newTs, front) then 1 else 0
  }

  /** A socket connection gets one stamp for each of its reads that finds one pending, although
      none of them belongs to it. */
  lemma {:induction false} SocketGetsStamps(newTs: bool, rs: seq<Read>, conn: nat)
    requires AllPossible(rs)
    requires forall r :: r in rs && r.conn == conn ==> r.kind != Serial
    ensures |Output(newTs, rs, conn)| == |Input(rs, conn)| + WIDTH * Hits(newTs, rs, conn)
    ensures Hits(newTs, rs, conn) == 0 ==> Output(newTs, rs, conn) == Input(rs, conn)
  {
    if rs != [] {
      var front, r := rs[..|rs| - 1], rs[|rs| - 1];
      assert r in rs && AllPossible(front);
      SocketGetsStamps(newTs, front, conn);
      if r.conn == conn {
        StepWhole(Pending(newTs, front), r);
      }
    }
  }

  /** A read that ends a line of the device while the setting is on. */
  predicate EndsLine(r: Read) {
    r.kind == Serial && r.tsOn && r.data == [LF]
  }

  /** Seen from the input: after any reads, a stamp is pending exactly if the last of them, on
      whatever connection, ended a line. */
  lemma PendingIffLineEnded(newTs: bool, rs: seq<Read>)
    requires AllPossible(rs) && rs != []
    ensures Pending(newTs, rs) <==> EndsLine(rs[|rs| - 1])
  {
    var front, r := rs[..|rs| - 1], rs[|rs| - 1];
    assert r in rs && AllPossible(front);
    if EndsLine(r) {
      StepEnd(Pending(newTs, front), r);
    } else {
      assert r.kind == Serial ==> r.data == [r.data[0]];
      StepWhole(Pending(newTs, front), r);
    }
  }

  /** The `i`-th read comes directly after a read that ended a line, or first with the flag set. */
  predicate FollowsLine(newTs: bool, rs: seq<Read>, i: nat)
    requires i < |rs|
  {
    if i == 0 then newTs else EndsLine(rs[i - 1])
  }

  lemma {:induction false} NoHitsIff(newTs: bool, rs: seq<Read>, conn: nat)
    requires AllPossible(rs)
    ensures Hits(newTs, rs, conn) == 0 <==>
            forall i :: 0 <= i < |rs| && rs[i].conn == conn ==> !FollowsLine(newTs, rs, i)
  {
    if rs != [] {
      var n := |rs| - 1;
      var front := rs[..n];
      assert AllPossible(front);
      NoHitsIff(newTs, front, conn);
      if front != [] {
        PendingIffLineEnded(newTs, front);
      }
      assert Pending(newTs, front) <==> FollowsLine(newTs, rs, n);
      assert forall i :: 0 <= i < n ==> (FollowsLine(newTs, rs, i) <==> FollowsLine(newTs, front, i));
      assert forall i :: 0 <= i < n ==> rs[i] == front[i];
    }
  }

  /** So a socket stream passes unchanged if and only if none of its reads comes directly after a
      read that ended a line of the device, or first with the flag set. */
  lemma SocketUnchangedIff(newTs: bool, rs: seq<Read>, conn: nat)
    requires AllPossible(rs)
    requires forall r :: r in rs && r.conn == conn ==> r.kind != Serial
    ensures Output(newTs, rs, conn) == Input(rs, conn) <==>
            forall i :: 0 <= i < |rs| && rs[i].conn == conn ==> !FollowsLine(newTs, rs, i)
  {
    SocketGetsStamps(newTs, rs, conn);
    NoHitsIff(newTs, rs, conn);
  }

  /** The stream of any connection, described from the reads alone: each read passes whole, and a
      stamp goes before it exactly if it comes directly after a read that ended a line, or
      first with the flag set, and does not end a line itself. */
  function Described(newTs: bool, rs: seq<Read>, conn: nat): string {
    if rs == [] then ""
    else
      var n := |rs| - 1;
      Described(newTs, rs[..n], conn) +
      if rs[n].conn != conn then ""
      else if FollowsLine(newTs, rs, n) && !EndsLine(rs[n]) then rs[n].stamp + rs[n].data
      else rs[n].data
  }

  /** That describes the filter for every connection, any interleaving and any toggling. */
  lemma {:induction false} OutputExactly(newTs: bool, rs: seq<Read>, conn: nat)
    requires AllPossible(rs)
    ensures Output(newTs, rs, conn) == Described(newTs, rs, conn)
  {
    if rs != [] {
      var front, r := rs[..|rs| - 1], rs[|rs| - 1];
      assert r in rs && AllPossible(front);
      OutputExactly(newTs, front, conn);
      if front != [] {
        PendingIffLineEnded(newTs, front);
      }
      if EndsLine(r) {
        StepEnd(Pending(newTs, front), r);
      } else {
        assert r.kind == Serial ==> r.data == [r.data[0]];
        StepWhole(Pending(newTs, front), r);
      }
    }
  }

  /** It does happen: the device ends a line, and the next bytes are a client's. */
  lemma StampReachesClient(stamp: string)
    requires IsStamp(stamp)
    ensures var rs := [Read(1, Serial, true, [LF], stamp), Read(2, Client, true, "x", stamp)];
            AllPossible(rs) && Output(false, rs, 2) == stamp + "x" && Output(false, rs, 1) == [LF]
  {
    var first, second := Read(1, Serial, true, [LF], stamp), Read(2, Client, true, "x", stamp);
    var rs := [first, second];
    StepEnd(false, first);
    StepWhole(true, second);
    assert rs[..1] == [first] && [first][..0] == [];
    assert Pending(false, [first]) && Output(false, [first], 1) == [LF] && Output(false, [first], 2) == "";
  }

  // ----- the code ---------------------------------------------------------------------

  function Concat(parts: seq<string>): string {
    if parts == [] then "" else parts[0] + Concat(parts[1..])
  }

  class InputFilter {
    /** The function static `new_ts`. */
    var newTs: bool

    constructor ()
      ensures !newTs
    {
      newTs := false;
    }

    /** The body of the read loop after a successful read; `writes` are the contents of the
        calls of `write_rxbuf`, in order. */
    method Handle(r: Read) returns (writes: seq<string>)
      requires Possible(r)
      modifies this
      ensures Concat(writes) == Step(old(newTs), r).0
      ensures newTs == Step(old(newTs), r).1
    {
      writes := [];
      var pbuf := r.data;
      if r.kind == Serial && r.tsOn {
        if pbuf[0] == LF {
          newTs := true;
          writes := writes + ["\n"];
          pbuf := pbuf[1..];
        }
      }
      if newTs && |pbuf| > 0 {
        writes := writes + [r.stamp];
        newTs := false;
      }
      writes := writes + [pbuf];
      ConcatThree(writes);
    }

    /** The read loop on one connection. */
    method HandleAll(conn: nat, rs: seq<Read>) returns (out: string)
      requires AllPossible(rs) && forall r :: r in rs ==> r.conn == conn
      modifies this
      ensures out == Output(old(newTs), rs, conn)
      ensures newTs == Pending(old(newTs), rs)
    {
      out := "";
      for i := 0 to |rs|
        invariant AllPossible(rs[..i])
        invariant out == Output(old(newTs), rs[..i], conn)
        invariant newTs == Pending(old(newTs), rs[..i])
      {
        var writes := Handle(rs[i]);
        out := out + Concat(writes);
        assert rs[..i + 1][..i] == rs[..i];
      }
      assert rs[..|rs|] == rs;
    }
  }

  lemma ConcatThree(parts: seq<string>)
    ensures |parts| == 1 ==> Concat(parts) == parts[0]
    ensures |parts| == 2 ==> Concat(parts) == parts[0] + parts[1]
    ensures |parts| == 3 ==> Concat(parts) == parts[0] + parts[1] + parts[2]
  {
    if |parts| == 2 {
      assert Concat(parts[1..]) == parts[1] + Concat(parts[1..][1..]);
    } else if |parts| == 3 {
      assert Concat(parts[1..]) == parts[1] + Concat(parts[1..][1..]);
      assert Concat(parts[1..][1..]) == parts[2] + Concat(parts[1..][1..][1..]);
    }
  }
}
