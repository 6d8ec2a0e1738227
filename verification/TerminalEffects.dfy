/** What the client does with each read, by the bytes themselves: the keys of the panel, the
    words that keep it open, and what appears on standard output. */
module TerminalEffects {
  import opened Chars
  import opened Options
  import opened Seqs
  import opened Terminals
  import E = LineEditors

  // ----- the keys ---------------------------------------------------------------------

  /** A chunk of key input while the panel is open, other than Ctrl-Q. */
  predicate PanelKey(t: Terminal, r: Read) {
    E.Valid(t.editor) && t.adminSocket.Some? && r.from == 0 && r.data != [CTRL_Q]
  }

  /** `ESC [ A` goes one entry back in the history and `ESC [ B` one forward, stopping at the
      oldest entry and at the new line; on an empty history they do nothing. */
  lemma UpAndDownKeys(t: Terminal, r: Read)
    requires PanelKey(t, r) && (r.data == [ESC, '[', 'A'] || r.data == [ESC, '[', 'B'])
    ensures Next(t, r).Some?
    ensures var e, u, n := t.editor, Next(t, r).value.editor, |t.editor.history|;
            && u.history == e.history
            && (n == 0 ==> u == e)
            && (n > 0 && r.data[2] == 'A' ==> u.idx == if e.idx < n then e.idx + 1 else n)
            && (n > 0 && r.data[2] == 'B' ==> u.idx == if e.idx > 0 then e.idx - 1 else 0)
            && (n > 0 ==> u.line == (if u.idx > 0 then e.history[n - u.idx] else "") && u.cursor == |u.line|)
  {
  }

  /** `ESC [ C` and `ESC [ D` move the cursor by one to the right and left within the line. */
  lemma LeftAndRightKeys(t: Terminal, r: Read)
    requires PanelKey(t, r) && (r.data == [ESC, '[', 'C'] || r.data == [ESC, '[', 'D'])
    ensures Next(t, r).Some?
    ensures var e, u := t.editor, Next(t, r).value.editor;
            u == e.(cursor :=
              if r.data[2] == 'C' then if e.cursor < |e.line| then e.cursor + 1 else |e.line|
              else if e.cursor > 0 then e.cursor - 1 else 0)
  {
  }

  /** Ctrl-C drops the line and backspace the character before the cursor; neither touches the
      history or the place in it. */
  lemma ControlKeys(t: Terminal, r: Read)
    requires PanelKey(t, r) && (r.data == ['\U{03}'] || r.data == ['\U{7F}'])
    ensures Next(t, r).Some?
    ensures var e, u := t.editor, Next(t, r).value.editor;
            && u.history == e.history && u.idx == e.idx
            && (r.data == ['\U{03}'] ==> u.line == "" && u.cursor == 0)
            && (r.data == ['\U{7F}'] && e.cursor == 0 ==> u == e)
            && (r.data == ['\U{7F}'] && e.cursor > 0 ==>
                  u.cursor == e.cursor - 1 && |u.line| == |e.line| - 1 &&
                  u.line[..u.cursor] == e.line[..u.cursor] && u.line[u.cursor..] == e.line[e.cursor..])
  {
  }

  /** LF starts a new line, and puts a line that is not empty at the end of the history. */
  lemma EnterKey(t: Terminal, r: Read)
    requires PanelKey(t, r) && r.data == [LF] && Next(t, r).Some?
    ensures var e, u := t.editor, Next(t, r).value.editor;
            && u.line == "" && u.cursor == 0 && u.idx == 0
            && u.history == e.history + if e.line != "" then [e.line] else []
  {
    assert t.editor.history + [] == t.editor.history;
  }

  /** Everything else is text and goes in at the cursor, an unknown escape sequence and a pasted
      chunk with LFs in it included. */
  lemma OtherKeys(t: Terminal, r: Read)
    requires PanelKey(t, r)
    requires r.data !in {[LF], ['\U{03}'], ['\U{7F}']}
    requires forall c :: c in {'A', 'B', 'C', 'D'} ==> r.data != [ESC, '[', c]
    ensures Next(t, r).Some?
    ensures var e, u := t.editor, Next(t, r).value.editor;
            && u.history == e.history && u.idx == e.idx && u.cursor == e.cursor + |r.data|
            && u.line == e.line[..e.cursor] + r.data + e.line[e.cursor..]
  {
    if |r.data| == 3 {
      assert r.data == [r.data[0], r.data[1], r.data[2]];
      assert r.data != [ESC, '[', 'A'] && r.data != [ESC, '[', 'B'];
      assert r.data != [ESC, '[', 'C'] && r.data != [ESC, '[', 'D'];
    }
  }

  // ----- words ------------------------------------------------------------------------

  predicate Blanks(s: string) {
    forall k :: 0 <= k < |s| ==> s[k] in {' ', '\t', '\n', '\U{0B}', '\U{0C}', '\r'}
  }

  predicate Word(s: string) {
    s != "" && forall k :: 0 <= k < |s| ==> s[k] !in {' ', '\t', '\n', '\U{0B}', '\U{0C}', '\r'}
  }

  lemma {:induction false} SkipBlanks(blanks: string, s: string)
    requires Blanks(blanks)
    ensures Tokens(blanks + s) == Tokens(s)
  {
    if blanks == "" {
      assert blanks + s == s;
    } else {
      assert (blanks + s)[1..] == blanks[1..] + s;
      SkipBlanks(blanks[1..], s);
    }
  }

  lemma {:induction false} WordEndsAt(word: string, rest: string)
    requires forall k :: 0 <= k < |word| ==> !IsSpace(word[k])
    requires rest == "" || IsSpace(rest[0])
    ensures WordEnd(word + rest) == |word|
  {
    if word == "" {
      assert word + rest == rest;
    } else {
      assert (word + rest)[1..] == word[1..] + rest;
      WordEndsAt(word[1..], rest);
    }
  }

  /** The words of a line: white space first does not count, and the first word goes up to the
      next white space or the end. */
  lemma FirstWord(blanks: string, word: string, rest: string)
    requires Blanks(blanks) && Word(word) && (rest == "" || Blanks(rest[..1]))
    ensures Tokens(blanks + word + rest) == [word] + Tokens(rest)
  {
    assert blanks + word + rest == blanks + (word + rest);
    SkipBlanks(blanks, word + rest);
    assert rest != "" ==> rest[..1][0] == rest[0];
    WordEndsAt(word, rest);
    assert (word + rest)[..|word|] == word && (word + rest)[|word|..] == rest;
  }

  // ----- the panel --------------------------------------------------------------------

  /** Commands that the client treats itself keep the panel open, whatever snippets exist. */
  predicate Local(words: seq<string>) {
    words != [] &&
    (words[0] in {"help", "history", "exit", "ls", "log"} || (words[0] == "cat" && |words| >= 2))
  }

  /** The panel opens and closes by Ctrl-Q, and closes by a submitted line whose first word is no
      command of the client but names a snippet; nothing else does either.  An open panel
      reads and writes the socket that was just made for it, or -1 if that failed. */
  lemma PanelExactly(t: Terminal, r: Read)
    requires Modes(t) && E.Valid(t.editor) && Next(t, r).Some?
    ensures var u := Next(t, r).value;
            if r.from == 0 && r.data == [CTRL_Q] then
              if t.adminSocket.None? then
                var socket := if r.socket > 2 && r.socket != t.mainFd then r.socket else -1;
                u.adminSocket == Some(socket) && u.fd == socket
              else u.adminSocket == None && u.fd == t.mainFd
            else if r.from == 0 && r.data == [LF] && t.adminSocket.Some? && t.editor.line != "" &&
                    !Local(Tokens(t.editor.line)) && r.snippet then
              u.adminSocket == None && u.fd == t.mainFd
            else u.adminSocket == t.adminSocket && u.fd == t.fd
  {
  }

  // ----- standard output --------------------------------------------------------------

  /** What a read causes to be written to standard output, and whether it is the relay's. */
  function Displays(t: Terminal, r: Read): (string, bool) {
    if Leaves(t, r) then (t.clientBuf, true)
    else if r.from == 0 || (r.from == t.mainFd && t.adminSocket.Some?) then ("", false)
    else (r.data, r.from == t.mainFd)
  }

  /** The part of a write that standard output accepts: a prefix. */
  function Prefix(content: string, answer: int): string {
    content[..Accepted(content, answer)]
  }

  /** Each read adds exactly the accepted prefix of that to what is shown, at the end. */
  lemma ShowsExactly(t: Terminal, r: Read)
    requires Modes(t) && E.Valid(t.editor) && Next(t, r).Some?
    ensures var (content, fromMain) := Displays(t, r);
            Next(t, r).value.shown == t.shown + Marked(Prefix(content, r.answer), fromMain)
  {
    assert t.shown + Marked("", true) == t.shown && t.shown + Marked("", false) == t.shown;
    assert Prefix("", r.answer) == "";
  }

  /** What the panel's socket, or any descriptor other than the keyboard and the relay, sent. */
  function Answered(rs: seq<Read>, mainFd: int): string {
    if rs == [] then ""
    else
      var r := rs[|rs| - 1];
      Answered(rs[..|rs| - 1], mainFd) + if r.from != 0 && r.from != mainFd then r.data else ""
  }

  /** The accepted prefixes of those reads. */
  function AnsweredShown(rs: seq<Read>, mainFd: int): string {
    if rs == [] then ""
    else
      var r := rs[|rs| - 1];
      AnsweredShown(rs[..|rs| - 1], mainFd) +
      if r.from != 0 && r.from != mainFd then Prefix(r.data, r.answer) else ""
  }

  function OthersShown(s: seq<Shown>): string {
    Bytes(Filter((x: Shown) => !x.fromMain, s))
  }

  lemma OthersConcat(a: seq<Shown>, b: seq<Shown>)
    ensures OthersShown(a + b) == OthersShown(a) + OthersShown(b)
  {
    FilterConcat((x: Shown) => !x.fromMain, a, b);
  }

  lemma OthersMarked(content: string, fromMain: bool)
    ensures OthersShown(Marked(content, fromMain)) == if fromMain then "" else content
  {
    if fromMain {
      FilterNone((x: Shown) => !x.fromMain, Marked(content, fromMain));
    } else {
      FilterAll((x: Shown) => !x.fromMain, Marked(content, fromMain));
    }
  }

  /** Every such write was accepted whole. */
  ghost predicate AnswersWhole(rs: seq<Read>, mainFd: int) {
    forall r :: r in rs && r.from != 0 && r.from != mainFd ==> r.answer >= |r.data| || r.data == ""
  }

  lemma {:induction false} PrefixesShorter(rs: seq<Read>, mainFd: int)
    ensures |AnsweredShown(rs, mainFd)| <= |Answered(rs, mainFd)|
    ensures AnsweredShown(rs, mainFd) == Answered(rs, mainFd) <==> AnswersWhole(rs, mainFd)
  {
    if rs != [] {
      var front, r := rs[..|rs| - 1], rs[|rs| - 1];
      PrefixesShorter(front, mainFd);
      assert forall x :: x in rs <==> x in front || x == r;
      if r.from != 0 && r.from != mainFd {
        SameEnds(AnsweredShown(front, mainFd), Prefix(r.data, r.answer), Answered(front, mainFd), r.data);
        assert |Prefix(r.data, r.answer)| == Accepted(r.data, r.answer);
        assert Prefix(r.data, r.answer) == r.data <==> r.answer >= |r.data| || r.data == "";
        assert AnswersWhole(rs, mainFd) <==>
            AnswersWhole(front, mainFd) && (r.answer >= |r.data| || r.data == "");
      } else {
        assert AnsweredShown(front, mainFd) + "" == AnsweredShown(front, mainFd);
        assert Answered(front, mainFd) + "" == Answered(front, mainFd);
        assert AnswersWhole(rs, mainFd) <==> AnswersWhole(front, mainFd);
      }
    }
  }

  lemma SameEnds(a: string, x: string, b: string, y: string)
    requires |a| <= |b| && |x| <= |y|
    ensures a + x == b + y <==> a == b && x == y
  {
    if a + x == b + y {
      assert |a + x| == |b + y|;
      assert a == (a + x)[..|a|] && b == (b + y)[..|b|];
      assert x == (a + x)[|a|..] && y == (b + y)[|b|..];
    }
  }

  lemma {:induction false} RunShows(mainFd: int, history: seq<string>, rs: seq<Read>)
    requires mainFd > 2 && Run(Begin(mainFd, history), rs).Some?
    ensures OthersShown(Run(Begin(mainFd, history), rs).value.shown) == AnsweredShown(rs, mainFd)
  {
    if rs != [] {
      var front, r := rs[..|rs| - 1], rs[|rs| - 1];
      var t := Run(Begin(mainFd, history), front).value;
      RunShows(mainFd, history, front);
      RunKeeps(mainFd, history, front);
      ShowsExactly(t, r);
      var (content, fromMain) := Displays(t, r);
      OthersConcat(t.shown, Marked(Prefix(content, r.answer), fromMain));
      OthersMarked(Prefix(content, r.answer), fromMain);
    }
  }

  /** The counterpart of `DiversionLosesNothing` for the panel: over every run, what is shown and
      is not the relay's is, in order, the accepted prefixes of all reads on the other
      descriptors; so it is all that was received there if and only if each of those writes
      was accepted whole. */
  lemma AnswersShown(mainFd: int, history: seq<string>, rs: seq<Read>)
    requires mainFd > 2 && Run(Begin(mainFd, history), rs).Some?
    ensures var shown := Run(Begin(mainFd, history), rs).value.shown;
            && OthersShown(shown) == AnsweredShown(rs, mainFd)
            && (OthersShown(shown) == Answered(rs, mainFd) <==> AnswersWhole(rs, mainFd))
  {
    RunShows(mainFd, history, rs);
    PrefixesShorter(rs, mainFd);
  }

  /** The relay's writes to standard output in a run, each with what is accepted of it. */
  function MainWrites(t: Terminal, rs: seq<Read>): string
    requires E.Valid(t.editor)
  {
    if rs == [] then ""
    else
      var front, r := rs[..|rs| - 1], rs[|rs| - 1];
      MainWrites(t, front) +
      match Run(t, front)
      case None => ""
      case Some(u) => if Displays(u, r).1 then Prefix(Displays(u, r).0, r.answer) else ""
  }

  /** With short writes too, the relay's bytes shown are the accepted prefixes, in order. */
  lemma {:induction false} MainShownExactly(mainFd: int, history: seq<string>, rs: seq<Read>)
    requires mainFd > 2 && Run(Begin(mainFd, history), rs).Some?
    ensures MainShown(Run(Begin(mainFd, history), rs).value.shown) == MainWrites(Begin(mainFd, history), rs)
  {
    if rs != [] {
      var front, r := rs[..|rs| - 1], rs[|rs| - 1];
      var t := Run(Begin(mainFd, history), front).value;
      MainShownExactly(mainFd, history, front);
      RunKeeps(mainFd, history, front);
      ShowsExactly(t, r);
      var (content, fromMain) := Displays(t, r);
      MainConcat(t.shown, Marked(Prefix(content, r.answer), fromMain));
      MainMarked(Prefix(content, r.answer), fromMain);
    }
  }
}
