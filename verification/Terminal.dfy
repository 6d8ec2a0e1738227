/** The client program, src/sockclient.cc: the console editor and the mode machine that diverts
    serial output while the control panel is open and replays it afterwards. */
module Terminals {
  import opened Chars
  import opened Options
  import opened Seqs
  import E = LineEditors

  const CTRL_Q: char := '\U{11}'

  // ----- the command line -------------------------------------------------------------

  predicate IsSpace(c: char) {
    c == ' ' || ('\t' <= c <= '\r')
  }

  function WordEnd(s: string): (n: nat)
    ensures n <= |s| && (s != "" && !IsSpace(s[0]) ==> n > 0)
    ensures forall k :: 0 <= k < n ==> !IsSpace(s[k])
    ensures n < |s| ==> IsSpace(s[n])
  {
    if s == "" || IsSpace(s[0]) then 0 else 1 + WordEnd(s[1..])
  }

  /** The words of a line, as `istream_iterator<string>` yields them. */
  function Tokens(s: string): seq<string>
    decreases |s|
  {
    if s == "" then []
    else if IsSpace(s[0]) then Tokens(s[1..])
    else [s[..WordEnd(s)]] + Tokens(s[WordEnd(s)..])
  }

  lemma {:induction false} NoTokensIff(s: string)
    ensures Tokens(s) == [] <==> forall k :: 0 <= k < |s| ==> IsSpace(s[k])
    decreases |s|
  {
    if s != "" && IsSpace(s[0]) {
      NoTokensIff(s[1..]);
      assert forall k :: 0 < k < |s| ==> s[k] == s[1..][k - 1];
    }
  }

  /** A command line that `handle_cmd` treats itself. */
  predicate BuiltIn(args: seq<string>)
    requires args != []
  {
    args[0] == "help" || args[0] == "history" || args[0] == "exit" || args[0] == "ls" ||
    (args[0] == "cat" && |args| > 1) || args[0] == "log"
  }

  // ----- the state --------------------------------------------------------------------

  /** A byte that `write_rxbuf` put on standard output, and whether it came from the relay. */
  datatype Shown = Shown(b: char, fromMain: bool)

  /** `fd`, `clientFd`, `adminSocket` and `clientBuf` are the fields of those names.  `mainFd` is
      the relay socket.  `shown` is what standard output accepted, `lost` counts the relay's
      bytes that it did not accept. */
  datatype Terminal = Terminal(
    mainFd: int, fd: int, clientFd: int, adminSocket: Option<int>, clientBuf: string,
    editor: E.Editor, shown: seq<Shown>, lost: nat)

  function Marked(content: string, fromMain: bool): seq<Shown> {
    seq(|content|, k requires 0 <= k < |content| => Shown(content[k], fromMain))
  }

  /** How much of `content` a write with this answer accepts. */
  function Accepted(content: string, answer: int): nat {
    if answer < 0 then 0 else if answer > |content| then |content| else answer
  }

  /** `write_rxbuf`, whose result nobody looks at. */
  function Show(t: Terminal, content: string, fromMain: bool, answer: int): Terminal {
    var n := Accepted(content, answer);
    t.(shown := t.shown + Marked(content[..n], fromMain),
       lost := t.lost + if fromMain then |content| - n else 0)
  }

  /** The descriptor of a new socket: a failed connect gives -1, and so does an answer that the
      kernel cannot give. */
  function NewSocket(t: Terminal, answer: int): int {
    if answer > 2 && answer != t.mainFd then answer else -1
  }

  function OpenPanel(t: Terminal, socket: int): Terminal {
    if t.adminSocket.Some? then t
    else
      var s := NewSocket(t, socket);
      t.(adminSocket := Some(s), clientFd := t.fd, fd := s)
  }

  function ClosePanel(t: Terminal, answer: int): Terminal {
    if t.adminSocket.None? then t
    else
      var t1 := t.(fd := t.clientFd, adminSocket := None);
      if t.clientBuf != "" then Show(t1, t.clientBuf, true, answer).(clientBuf := "") else t1
  }

  // ----- the events -------------------------------------------------------------------

  /** One successful read on `from` and the answers that its handling may need: of the write to
      standard output, of the new socket, and whether a snippet of that name exists. */
  datatype Read = Read(from: int, data: string, answer: int, socket: int, snippet: bool)

  /** `handle_cmd`, as far as the mode goes.  `None`: it would read `args[0]` of an empty vector. */
  function Command(t: Terminal, line: string, r: Read): Option<Terminal> {
    var args := Tokens(line);
    if args == [] then None
    else if !BuiltIn(args) && r.snippet then Some(ClosePanel(t, r.answer))
    else Some(t)
  }

  /** `process_console_input`. */
  function Console(t: Terminal, r: Read): Option<Terminal>
    requires E.Valid(t.editor)
  {
    var a := E.Decode(r.data);
    var edited := E.Step(t.editor, a);
    if a == E.Enter && t.editor.line != "" then
      match Command(t, t.editor.line, r)
      case None => None
      case Some(t1) => Some(t1.(editor := edited))
    else Some(t.(editor := edited))
  }

  /** One turn of the read loop of `input_data_handler`. */
  function Next(t: Terminal, r: Read): (next: Option<Terminal>)
    requires E.Valid(t.editor)
    ensures next.Some? ==> E.Valid(next.value.editor)
  {
    if r.from == 0 then
      if r.data == [CTRL_Q] then
        Some(if t.adminSocket.None? then OpenPanel(t, r.socket) else ClosePanel(t, r.answer))
      else if t.adminSocket.Some? then Console(t, r)
      else Some(t)
    else if r.from == t.clientFd && t.adminSocket.Some? then
      Some(t.(clientBuf := t.clientBuf + r.data))
    else Some(Show(t, r.data, r.from == t.mainFd, r.answer))
  }

  function Run(t: Terminal, rs: seq<Read>): (next: Option<Terminal>)
    requires E.Valid(t.editor)
    ensures next.Some? ==> E.Valid(next.value.editor)
  {
    if rs == [] then Some(t)
    else
      match Run(t, rs[..|rs| - 1])
      case None => None
      case Some(t1) => Next(t1, rs[|rs| - 1])
  }

  function Begin(mainFd: int, history: seq<string>): Terminal {
    Terminal(mainFd, mainFd, mainFd, None, "", E.Editor("", 0, history, 0), [], 0)
  }

  // ----- what every run keeps ---------------------------------------------------------

  /** All bytes received on the relay socket. */
  function Received(rs: seq<Read>, mainFd: int): string {
    if rs == [] then ""
    else
      Received(rs[..|rs| - 1], mainFd) + if rs[|rs| - 1].from == mainFd then rs[|rs| - 1].data else ""
  }

  function Bytes(s: seq<Shown>): string {
    seq(|s|, k requires 0 <= k < |s| => s[k].b)
  }

  /** The relay's bytes among those shown. */
  function MainShown(s: seq<Shown>): string {
    Bytes(Filter((x: Shown) => x.fromMain, s))
  }

  /** `clientFd` never leaves the relay socket; outside the panel `fd` is that socket too and
      nothing is held back. */
  ghost predicate Modes(t: Terminal) {
    && t.mainFd > 2 && t.clientFd == t.mainFd
    && (t.adminSocket.None? ==> t.fd == t.mainFd && t.clientBuf == "")
    && (t.adminSocket.Some? ==> t.fd == t.adminSocket.value && t.fd != t.mainFd)
  }

  ghost predicate Keeps(t: Terminal, received: string) {
    && Modes(t) && E.Valid(t.editor)
    && |MainShown(t.shown)| + |t.clientBuf| + t.lost == |received|
    && (t.lost == 0 ==> MainShown(t.shown) + t.clientBuf == received)
  }

  lemma MainConcat(a: seq<Shown>, b: seq<Shown>)
    ensures MainShown(a + b) == MainShown(a) + MainShown(b)
  {
    FilterConcat((x: Shown) => x.fromMain, a, b);
  }

  lemma MainMarked(content: string, fromMain: bool)
    ensures MainShown(Marked(content, fromMain)) == if fromMain then content else ""
  {
    if fromMain {
      FilterAll((x: Shown) => x.fromMain, Marked(content, fromMain));
    } else {
      FilterNone((x: Shown) => x.fromMain, Marked(content, fromMain));
    }
  }

  lemma ShowMain(t: Terminal, content: string, fromMain: bool, answer: int)
    ensures var u, n := Show(t, content, fromMain, answer), Accepted(content, answer);
            && MainShown(u.shown) == MainShown(t.shown) + (if fromMain then content[..n] else "")
            && u.lost == t.lost + (if fromMain then |content| - n else 0)
            && u == t.(shown := u.shown, lost := u.lost)
  {
    var n := Accepted(content, answer);
    MainConcat(t.shown, Marked(content[..n], fromMain));
    MainMarked(content[..n], fromMain);
  }

  lemma ClosePanelKeeps(t: Terminal, answer: int, received: string)
    requires Keeps(t, received)
    ensures Keeps(ClosePanel(t, answer), received) && ClosePanel(t, answer).mainFd == t.mainFd
  {
    if t.adminSocket.Some? && t.clientBuf != "" {
      ShowMain(t.(fd := t.clientFd, adminSocket := None), t.clientBuf, true, answer);
      assert t.clientBuf[..|t.clientBuf|] == t.clientBuf;
    }
  }

  lemma NextKeeps(t: Terminal, r: Read, received: string)
    requires Keeps(t, received) && Next(t, r).Some?
    ensures Keeps(Next(t, r).value, received + if r.from == t.mainFd then r.data else "")
    ensures Next(t, r).value.mainFd == t.mainFd
  {
    assert received + "" == received;
    if r.from == 0 {
      ClosePanelKeeps(t, r.answer, received);
    } else if r.from == t.mainFd && t.adminSocket.Some? {
      assert MainShown(t.shown) + (t.clientBuf + r.data) == MainShown(t.shown) + t.clientBuf + r.data;
    } else {
      ShowMain(t, r.data, r.from == t.mainFd, r.answer);
      assert r.data[..|r.data|] == r.data;
    }
  }

  lemma {:induction false} RunKeeps(mainFd: int, history: seq<string>, rs: seq<Read>)
    requires mainFd > 2 && Run(Begin(mainFd, history), rs).Some?
    ensures var t := Run(Begin(mainFd, history), rs).value;
            Keeps(t, Received(rs, mainFd)) && t.mainFd == mainFd
  {
    if rs == [] {
    } else {
      var front := rs[..|rs| - 1];
      RunKeeps(mainFd, history, front);
      NextKeeps(Run(Begin(mainFd, history), front).value, rs[|rs| - 1], Received(front, mainFd));
    }
  }

  /** This read makes the client leave the panel: Ctrl-Q, or a submitted snippet name. */
  predicate Leaves(t: Terminal, r: Read) {
    r.from == 0 && t.adminSocket.Some? &&
    (r.data == [CTRL_Q] ||
     (E.Decode(r.data) == E.Enter && t.editor.line != "" &&
      Tokens(t.editor.line) != [] && !BuiltIn(Tokens(t.editor.line)) && r.snippet))
  }

  /** The write to standard output of relay bytes that this read causes, if any, is accepted
      whole. */
  predicate WritesWhole(t: Terminal, r: Read) {
    if Leaves(t, r) then r.answer >= |t.clientBuf| || t.clientBuf == ""
    else if r.from == t.mainFd && t.adminSocket.None? then r.answer >= |r.data| || r.data == ""
    else true
  }

  predicate AllWhole(t: Terminal, rs: seq<Read>)
    requires E.Valid(t.editor)
  {
    rs == [] ||
    (AllWhole(t, rs[..|rs| - 1]) &&
     match Run(t, rs[..|rs| - 1])
     case None => true
     case Some(t1) => WritesWhole(t1, rs[|rs| - 1]))
  }

  lemma NextLoses(t: Terminal, r: Read)
    requires Modes(t) && E.Valid(t.editor) && Next(t, r).Some?
    ensures Next(t, r).value.lost >= t.lost
    ensures Next(t, r).value.lost == t.lost <==> WritesWhole(t, r)
  {
  }

  lemma {:induction false} RunLoses(mainFd: int, history: seq<string>, rs: seq<Read>)
    requires mainFd > 2 && Run(Begin(mainFd, history), rs).Some?
    ensures Run(Begin(mainFd, history), rs).value.lost == 0 <==> AllWhole(Begin(mainFd, history), rs)
  {
    if rs != [] {
      var front := rs[..|rs| - 1];
      RunLoses(mainFd, history, front);
      RunKeeps(mainFd, history, front);
      NextLoses(Run(Begin(mainFd, history), front).value, rs[|rs| - 1]);
    }
  }

  /** Diversion loses nothing by itself.  Over every run of reads, keys and mode switches, the
      relay's bytes shown, followed by those held back, are all the relay's bytes received
      if and only if standard output accepted every write of them whole.  Outside the panel
      nothing is held back. */
  lemma DiversionLosesNothing(mainFd: int, history: seq<string>, rs: seq<Read>)
    requires mainFd > 2 && Run(Begin(mainFd, history), rs).Some?
    ensures var t := Run(Begin(mainFd, history), rs).value;
            && Modes(t)
            && (MainShown(t.shown) + t.clientBuf == Received(rs, mainFd) <==>
                AllWhole(Begin(mainFd, history), rs))
  {
    RunKeeps(mainFd, history, rs);
    RunLoses(mainFd, history, rs);
  }

  /** The client is undefined exactly when, in the panel, Enter submits a line that consists of
      white space only. */
  lemma UndefinedIff(t: Terminal, r: Read)
    requires E.Valid(t.editor)
    ensures Next(t, r) == None <==>
            && r.from == 0 && t.adminSocket.Some? && r.data == [LF]
            && t.editor.line != ""
            && forall k :: 0 <= k < |t.editor.line| ==> IsSpace(t.editor.line[k])
  {
    NoTokensIff(t.editor.line);
  }

  // ----- the editor inside the client -------------------------------------------------

  /** The actions of the keys that reach the console: those read while the panel is open. */
  function Keys(t: Terminal, rs: seq<Read>): seq<E.Action>
    requires E.Valid(t.editor)
  {
    if rs == [] then []
    else
      var front, r := rs[..|rs| - 1], rs[|rs| - 1];
      Keys(t, front) +
      match Run(t, front)
      case None => []
      case Some(u) =>
        if r.from == 0 && u.adminSocket.Some? && r.data != [CTRL_Q] then [E.Decode(r.data)] else []
  }

  /** Whatever the modes and the sockets do, the client's line, cursor and history are those of
      the editor run on these keys, so all that is proved of the editor holds of the client. */
  lemma {:induction false} ClientRunsEditor(t: Terminal, rs: seq<Read>)
    requires E.Valid(t.editor) && Run(t, rs).Some?
    ensures Run(t, rs).value.editor == E.Run(t.editor, Keys(t, rs))
  {
    if rs != [] {
      var front, r := rs[..|rs| - 1], rs[|rs| - 1];
      ClientRunsEditor(t, front);
      NextEdits(Run(t, front).value, r);
      E.RunConcat(t.editor, Keys(t, front), [E.Decode(r.data)]);
      E.RunOne(Run(t, front).value.editor, E.Decode(r.data));
      assert Keys(t, front) + [] == Keys(t, front);
    }
  }

  lemma NextEdits(t: Terminal, r: Read)
    requires E.Valid(t.editor) && Next(t, r).Some?
    ensures Next(t, r).value.editor ==
            if r.from == 0 && t.adminSocket.Some? && r.data != [CTRL_Q]
            then E.Step(t.editor, E.Decode(r.data)) else t.editor
  {
  }

  // ----- a visit to the panel ---------------------------------------------------------

  /** None of these reads makes the client leave the panel. */
  predicate StaysOpen(t: Terminal, rs: seq<Read>)
    requires E.Valid(t.editor)
  {
    rs == [] ||
    (StaysOpen(t, rs[..|rs| - 1]) &&
     match Run(t, rs[..|rs| - 1])
     case None => true
     case Some(u) => !Leaves(u, rs[|rs| - 1]))
  }

  /** `u` follows `t` within one visit to the panel, during which the relay sent `held`. */
  ghost predicate Within(t: Terminal, u: Terminal, held: string) {
    && u.mainFd == t.mainFd && u.fd == t.fd && u.clientFd == t.clientFd
    && u.adminSocket == t.adminSocket && u.clientBuf == t.clientBuf + held
    && MainShown(u.shown) == MainShown(t.shown) && u.lost == t.lost
  }

  lemma PanelStep(t: Terminal, r: Read)
    requires Modes(t) && E.Valid(t.editor) && t.adminSocket.Some?
    requires Next(t, r).Some? && !Leaves(t, r)
    ensures Within(t, Next(t, r).value, if r.from == t.mainFd then r.data else "")
  {
    assert t.clientBuf + "" == t.clientBuf;
    if r.from != 0 && r.from != t.mainFd {
      ShowMain(t, r.data, false, r.answer);
    }
  }

  lemma {:induction false} PanelHolds(t: Terminal, middle: seq<Read>)
    requires Modes(t) && E.Valid(t.editor) && t.adminSocket.Some?
    requires Run(t, middle).Some? && StaysOpen(t, middle)
    ensures Within(t, Run(t, middle).value, Received(middle, t.mainFd))
  {
    if middle == [] {
      assert t.clientBuf + "" == t.clientBuf;
    } else {
      var front, r := middle[..|middle| - 1], middle[|middle| - 1];
      PanelHolds(t, front);
      PanelStep(Run(t, front).value, r);
      assert t.clientBuf + Received(front, t.mainFd) + (if r.from == t.mainFd then r.data else "") ==
             t.clientBuf + (Received(front, t.mainFd) + if r.from == t.mainFd then r.data else "");
    }
  }

  /** A whole visit to the panel: Ctrl-Q, any reads that do not leave it, be they from the relay,
      from the panel or keys, and Ctrl-Q again.  None of the relay's bytes is shown or lost in
      between, and at the end they are shown in the order in which they came; the descriptors
      are those from before, and the editor is what the keys made of it. */
  lemma PanelRoundTrip(t: Terminal, start: Read, middle: seq<Read>, stop: Read)
    requires Modes(t) && E.Valid(t.editor) && t.adminSocket.None?
    requires start.from == 0 && start.data == [CTRL_Q] && stop.from == 0 && stop.data == [CTRL_Q]
    requires Run(OpenPanel(t, start.socket), middle).Some?
    requires StaysOpen(OpenPanel(t, start.socket), middle)
    requires stop.answer >= |Received(middle, t.mainFd)|
    ensures Next(t, start) == Some(OpenPanel(t, start.socket))
    ensures var held := Received(middle, t.mainFd);
            var panel := OpenPanel(t, start.socket);
            var mid := Run(panel, middle).value;
            && MainShown(mid.shown) == MainShown(t.shown) && mid.lost == t.lost
            && mid.editor == E.Run(t.editor, Keys(panel, middle))
            && Next(mid, stop) ==
               Some(t.(shown := mid.shown + Marked(held, true), editor := mid.editor))
  {
    var panel := OpenPanel(t, start.socket);
    PanelHolds(panel, middle);
    ClientRunsEditor(panel, middle);
    PanelCloses(t, start.socket, Run(panel, middle).value, Received(middle, t.mainFd), stop);
  }

  lemma PanelCloses(t: Terminal, socket: int, mid: Terminal, held: string, stop: Read)
    requires Modes(t) && t.adminSocket.None? && E.Valid(mid.editor)
    requires Within(OpenPanel(t, socket), mid, held)
    requires stop.from == 0 && stop.data == [CTRL_Q] && stop.answer >= |held|
    ensures Next(mid, stop) == Some(t.(shown := mid.shown + Marked(held, true), editor := mid.editor))
  {
    assert held[..|held|] == held && "" + held == held;
    assert mid.shown + Marked("", true) == mid.shown;
  }

  /** The blank line is reachable: open the panel, type a space, press Enter. */
  lemma BlankLineHappens()
    ensures var typed := [Read(0, [CTRL_Q], 0, 7, false), Read(0, " ", 0, 0, false)];
            && Run(Begin(3, []), typed).Some?
            && Run(Begin(3, []), typed + [Read(0, [LF], 0, 0, false)]) == None
  {
    var open, space, enter :=
      Read(0, [CTRL_Q], 0, 7, false), Read(0, " ", 0, 0, false), Read(0, [LF], 0, 0, false);
    var t := Begin(3, []);
    var typed := [open, space];
    assert typed[..1] == [open] && [open][..0] == [];
    assert Run(t, [open]) == Some(OpenPanel(t, 7));
    assert E.Decode(" ") == E.Type(" ");
    var u := Run(t, typed).value;
    assert u.editor.line == " ";
    assert (typed + [enter])[..2] == typed;
    UndefinedIff(u, enter);
  }

  // ----- the code ---------------------------------------------------------------------

  class Client {
    const mainFd: int
    var fd: int
    var clientFd: int
    var adminSocket: Option<int>
    var clientBuf: string
    var cmdline: string
    var cursorPos: int
    var history: seq<string>
    var historyIdx: int
    ghost var shown: seq<Shown>
    ghost var lost: nat

    ghost function View(): Terminal
      reads this
    {
      Terminal(mainFd, fd, clientFd, adminSocket, clientBuf,
               E.Editor(cmdline, cursorPos, history, historyIdx), shown, lost)
    }

    ghost predicate Valid()
      reads this
    {
      E.Valid(View().editor)
    }

    constructor (socket: int, saved: seq<string>)
      ensures View() == Begin(socket, saved) && Valid()
    {
      mainFd, fd, clientFd := socket, socket, socket;
      adminSocket, clientBuf := None, "";
      cmdline, cursorPos := "", 0;
      history, historyIdx := saved, 0;
      shown, lost := [], 0;
    }

    method WriteRxbuf(content: string, from: int, answer: int)
      modifies this`shown, this`lost
      ensures View() == Show(old(View()), content, from == mainFd, answer)
    {
      ghost var n := Accepted(content, answer);
      shown := shown + Marked(content[..n], from == mainFd);
      lost := lost + if from == mainFd then |content| - n else 0;
    }

    method SwitchAdminConnection(connect: bool, socket: int, answer: int)
      modifies this
      ensures View() == if connect then OpenPanel(old(View()), socket) else ClosePanel(old(View()), answer)
    {
      if connect {
        if adminSocket.Some? {
          return;
        }
        var s := if socket > 2 && socket != mainFd then socket else -1;
        adminSocket := Some(s);
        if s != 0 {
          clientFd := fd;
          fd := s;
        }
      } else {
        if adminSocket.Some? {
          fd := clientFd;
          adminSocket := None;
          if clientBuf != "" {
            WriteRxbuf(clientBuf, mainFd, answer);
            clientBuf := "";
          }
        }
      }
    }

    /** `ok` is false if the C++ code is undefined from here on. */
    method HandleCmd(cmd: string, r: Read) returns (ok: bool)
      modifies this
      ensures ok <==> Command(old(View()), cmd, r).Some?
      ensures ok ==> View() == var t := Command(old(View()), cmd, r).value;
                               t.(editor := t.editor.(history := t.editor.history + [cmd]))
    {
      var args := Tokens(cmd);
      if args == [] {
        return false;
      }
      if !BuiltIn(args) && r.snippet {
        SwitchAdminConnection(false, r.socket, r.answer);
      }
      history := history + [cmd];
      ok := true;
    }

    method ProcessConsoleInput(r: Read) returns (ok: bool)
      requires Valid()
      modifies this
      ensures ok <==> Console(old(View()), r).Some?
      ensures ok ==> View() == Console(old(View()), r).value && Valid()
    {
      var content := r.data;
      var ignore := false;
      ok := true;
      if |content| == 3 {
        if content[0] == ESC && content[1] == '[' {
          assert content == [ESC, '[', content[2]];
          ignore := ArrowKey(content[2]);
        }
      } else if |content| == 1 {
        match content[0]
        case '\n' =>
          ok := SubmitLine(r);
          return;
        case '\U{03}' =>
          ignore := true;
          cmdline := "";
          cursorPos := 0;
        case '\U{7F}' =>
          ignore := true;
          Backspace();
        case _ =>
      }
      if !ignore {
        InsertText(content);
      }
    }

    method InsertText(content: string)
      requires Valid()
      modifies this`cmdline, this`cursorPos
      ensures View() == old(View()).(editor := E.Step(old(View()).editor, E.Type(content)))
    {
      cmdline := cmdline[..cursorPos] + content + cmdline[cursorPos..];
      cursorPos := cursorPos + |content|;
    }

    method SubmitLine(r: Read) returns (ok: bool)
      requires Valid() && r.data == [LF]
      modifies this
      ensures ok <==> Console(old(View()), r).Some?
      ensures ok ==> View() == Console(old(View()), r).value && Valid()
    {
      ok := true;
      if cmdline != "" {
        ok := HandleCmd(cmdline, r);
      }
      cmdline := "";
      cursorPos := 0;
      historyIdx := 0;
    }

    method Backspace()
      requires Valid()
      modifies this`cmdline, this`cursorPos
      ensures View() == old(View()).(editor := E.Step(old(View()).editor, E.Erase))
    {
      if cmdline != "" && cursorPos > 0 {
        cursorPos := cursorPos - 1;
        cmdline := cmdline[..cursorPos] + cmdline[cursorPos + 1..];
      }
    }

    /** The four arrow keys; any other letter after the escape is typed text. */
    method ArrowKey(key: char) returns (ignore: bool)
      requires Valid()
      modifies this`cmdline, this`cursorPos, this`historyIdx
      ensures ignore <==> 'A' <= key <= 'D'
      ensures View() == if ignore
                        then old(View()).(editor := E.Step(old(View()).editor, E.Decode([ESC, '[', key])))
                        else old(View())
    {
      ignore := true;
      match key
      case 'A' => RecallEntry(true);
      case 'B' => RecallEntry(false);
      case 'C' =>
        if cursorPos < |cmdline| {
          cursorPos := cursorPos + 1;
        }
      case 'D' =>
        if cursorPos > 0 {
          cursorPos := cursorPos - 1;
        }
      case _ => ignore := false;
    }

    method RecallEntry(up: bool)
      requires Valid()
      modifies this`cmdline, this`cursorPos, this`historyIdx
      ensures View() == old(View()).(editor := E.Step(old(View()).editor, if up then E.Up else E.Down))
    {
      var n := |history|;
      if history == [] {
        return;
      }
      cmdline := "";
      cursorPos := 0;
      if up {
        historyIdx := historyIdx + 1;
        if historyIdx > n {
          historyIdx := n;
        }
      } else {
        historyIdx := historyIdx - 1;
        if historyIdx < 0 {
          historyIdx := 0;
        }
      }
      if historyIdx > 0 {
        cmdline := history[n - historyIdx];
        cursorPos := |cmdline|;
      }
    }

    /** The read loop on one descriptor. */
    method InputDataHandler(from: int, batch: seq<Read>) returns (ok: bool)
      requires Valid() && forall r :: r in batch ==> r.from == from
      modifies this
      ensures ok <==> Run(old(View()), batch).Some?
      ensures ok ==> View() == Run(old(View()), batch).value && Valid()
    {
      ghost var start := View();
      for i := 0 to |batch|
        invariant Valid() && Run(start, batch[..i]) == Some(View())
      {
        var r := batch[i];
        RunNext(start, batch, i);
        ok := true;
        if from == 0 {
          if r.data == [CTRL_Q] {
            SwitchAdminConnection(adminSocket.None?, r.socket, r.answer);
          } else if adminSocket.Some? {
            ok := ProcessConsoleInput(r);
          }
        } else if from == clientFd && adminSocket.Some? {
          clientBuf := clientBuf + r.data;
        } else {
          WriteRxbuf(r.data, from, r.answer);
        }
        if !ok {
          UndefinedStays(start, batch, i + 1);
          return;
        }
      }
      assert batch[..|batch|] == batch;
      ok := true;
    }
  }

  lemma RunNext(t: Terminal, rs: seq<Read>, i: nat)
    requires E.Valid(t.editor) && i < |rs|
    ensures Run(t, rs[..i + 1]) ==
            match Run(t, rs[..i])
            case None => None
            case Some(u) => Next(u, rs[i])
  {
    assert rs[..i + 1][..i] == rs[..i];
  }

  lemma {:induction false} UndefinedStays(t: Terminal, rs: seq<Read>, n: nat)
    requires E.Valid(t.editor) && n <= |rs| && Run(t, rs[..n]).None?
    ensures Run(t, rs).None?
    decreases |rs|
  {
    if n < |rs| {
      assert rs[..|rs| - 1][..n] == rs[..n];
      UndefinedStays(t, rs[..|rs| - 1], n);
    } else {
      assert rs[..n] == rs;
    }
  }
}
