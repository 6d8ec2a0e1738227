/** The line and history editor of the client's console, src/sockclient.cc, on values: what a
    chunk of key input means, what it does, and the two-stack editor that it refines. */
module LineEditors {
  import opened Chars
  import opened Seqs

  /** `cmdline_`, `cursor_pos_`, `history_`, `history_idx_`. */
  datatype Editor = Editor(line: string, cursor: int, history: seq<string>, idx: int)

  predicate Valid(e: Editor) {
    0 <= e.cursor <= |e.line| && 0 <= e.idx <= |e.history|
  }

  datatype Action = Up | Down | Right | Left | Enter | Abort | Erase | Type(text: string)

  /** One chunk read from the terminal: the switch of `process_console_input`. */
  function Decode(content: string): Action {
    if |content| == 3 && content[0] == ESC && content[1] == '[' && content[2] == 'A' then Up
    else if |content| == 3 && content[0] == ESC && content[1] == '[' && content[2] == 'B' then Down
    else if |content| == 3 && content[0] == ESC && content[1] == '[' && content[2] == 'C' then Right
    else if |content| == 3 && content[0] == ESC && content[1] == '[' && content[2] == 'D' then Left
    else if content == [LF] then Enter
    else if content == ['\U{03}'] then Abort
    else if content == ['\U{7F}'] then Erase
    else Type(content)
  }

  /** Go to a place in the history; 0 is the new line, `k` is the k-th entry from the end. */
  function Recall(e: Editor, idx: int): Editor
    requires 0 <= idx <= |e.history|
  {
    var line := if idx > 0 then e.history[|e.history| - idx] else "";
    Editor(line, |line|, e.history, idx)
  }

  function Step(e: Editor, a: Action): (r: Editor)
    requires Valid(e)
    ensures Valid(r)
  {
    match a
    case Up =>
      if e.history == [] then e
      else Recall(e, if e.idx + 1 > |e.history| then |e.history| else e.idx + 1)
    case Down =>
      if e.history == [] then e
      else Recall(e, if e.idx - 1 < 0 then 0 else e.idx - 1)
    case Right => if e.cursor < |e.line| then e.(cursor := e.cursor + 1) else e
    case Left => if e.cursor > 0 then e.(cursor := e.cursor - 1) else e
    case Enter =>
      Editor("", 0, if e.line != "" then e.history + [e.line] else e.history, 0)
    case Abort => e.(line := "", cursor := 0)
    case Erase =>
      if e.line != "" && e.cursor > 0 then
        e.(line := e.line[..e.cursor - 1] + e.line[e.cursor..], cursor := e.cursor - 1)
      else e
    case Type(text) =>
      e.(line := e.line[..e.cursor] + text + e.line[e.cursor..], cursor := e.cursor + |text|)
  }

  function Run(e: Editor, actions: seq<Action>): (r: Editor)
    requires Valid(e)
    ensures Valid(r)
  {
    if actions == [] then e
    else Step(Run(e, actions[..|actions| - 1]), actions[|actions| - 1])
  }

  lemma {:induction false} RunConcat(e: Editor, a: seq<Action>, b: seq<Action>)
    requires Valid(e)
    ensures Run(e, a + b) == Run(Run(e, a), b)
  {
    if b == [] {
      assert a + b == a;
    } else {
      assert (a + b)[..|a + b| - 1] == a + b[..|b| - 1];
      RunConcat(e, a, b[..|b| - 1]);
    }
  }

  /** The same action `k` times. */
  function Times(a: Action, k: nat): seq<Action> {
    if k == 0 then [] else Times(a, k - 1) + [a]
  }

  function Repeat(e: Editor, a: Action, k: nat): (r: Editor)
    requires Valid(e)
    ensures Valid(r)
  {
    if k == 0 then e else Step(Repeat(e, a, k - 1), a)
  }

  lemma {:induction false} RunTimes(e: Editor, a: Action, k: nat)
    requires Valid(e)
    ensures Run(e, Times(a, k)) == Repeat(e, a, k)
  {
    if k > 0 {
      RunTimes(e, a, k - 1);
      assert Times(a, k)[..|Times(a, k)| - 1] == Times(a, k - 1);
    }
  }

  lemma RunTwice(e: Editor, a: Action, k: nat, b: Action, j: nat)
    requires Valid(e)
    ensures Run(e, Times(a, k) + Times(b, j)) == Repeat(Repeat(e, a, k), b, j)
  {
    RunConcat(e, Times(a, k), Times(b, j));
    RunTimes(e, a, k);
    RunTimes(Repeat(e, a, k), b, j);
  }

  // ----- the two-stack editor ---------------------------------------------------------

  /** The text before the cursor and the text after it, each as a stack whose top, the last
      element, is next to the cursor. */
  datatype Zipper = Zipper(left: string, right: string, history: seq<string>, idx: nat)

  function Reverse(s: string): string {
    if s == "" then "" else [s[|s| - 1]] + Reverse(s[..|s| - 1])
  }

  function Push(stack: string, c: char): string { stack + [c] }

  function Pop(stack: string): string
    requires stack != ""
  {
    stack[..|stack| - 1]
  }

  function Top(stack: string): char
    requires stack != ""
  {
    stack[|stack| - 1]
  }

  function PushAll(stack: string, text: string): string
    decreases |text|
  {
    if text == "" then stack else PushAll(Push(stack, text[0]), text[1..])
  }

  function Fetch(z: Zipper, idx: nat): Zipper
    requires idx <= |z.history|
  {
    Zipper(if idx > 0 then PushAll("", z.history[|z.history| - idx]) else "", "", z.history, idx)
  }

  function ZipStep(z: Zipper, a: Action): (r: Zipper)
    requires z.idx <= |z.history|
    ensures r.idx <= |r.history|
  {
    match a
    case Up => if z.history == [] then z else Fetch(z, if z.idx < |z.history| then z.idx + 1 else z.idx)
    case Down => if z.history == [] then z else Fetch(z, if z.idx > 0 then z.idx - 1 else 0)
    case Right => if z.right == "" then z else z.(left := Push(z.left, Top(z.right)), right := Pop(z.right))
    case Left => if z.left == "" then z else z.(left := Pop(z.left), right := Push(z.right, Top(z.left)))
    case Enter =>
      var whole := z.left + Reverse(z.right);
      Zipper("", "", if whole == "" then z.history else z.history + [whole], 0)
    case Abort => z.(left := "", right := "")
    case Erase => if z.left == "" then z else z.(left := Pop(z.left))
    case Type(text) => z.(left := PushAll(z.left, text))
  }

  function ZipRun(z: Zipper, actions: seq<Action>): (r: Zipper)
    requires z.idx <= |z.history|
    ensures r.idx <= |r.history|
  {
    if actions == [] then z
    else ZipStep(ZipRun(z, actions[..|actions| - 1]), actions[|actions| - 1])
  }

  ghost predicate Represents(e: Editor, z: Zipper) {
    && e.line == z.left + Reverse(z.right) && e.cursor == |z.left|
    && e.history == z.history && e.idx == z.idx && z.idx <= |z.history|
  }

  lemma {:induction false} ReverseLength(s: string)
    ensures |Reverse(s)| == |s|
  {
    if s != "" {
      ReverseLength(s[..|s| - 1]);
    }
  }

  lemma {:induction false} PushAllAppends(stack: string, text: string)
    ensures PushAll(stack, text) == stack + text
    decreases |text|
  {
    if text != "" {
      PushAllAppends(Push(stack, text[0]), text[1..]);
      assert stack + [text[0]] + text[1..] == stack + text;
    }
  }

  /** What stands left and right of the cursor. */
  lemma Sides(e: Editor, z: Zipper)
    requires Represents(e, z)
    ensures Valid(e) && e.line[..e.cursor] == z.left && e.line[e.cursor..] == Reverse(z.right)
    ensures z.left == "" <==> e.cursor == 0
    ensures z.right == "" <==> e.cursor == |e.line|
  {
    ReverseLength(z.right);
  }

  lemma MoveRefines(e: Editor, z: Zipper, a: Action)
    requires Represents(e, z) && (a == Left || a == Right)
    ensures Valid(e) && Represents(Step(e, a), ZipStep(z, a))
  {
    Sides(e, z);
    if a == Left && z.left != "" {
      assert Push(z.right, Top(z.left))[..|z.right|] == z.right;
      assert Pop(z.left) + ([Top(z.left)] + Reverse(z.right)) == z.left + Reverse(z.right);
    }
    if a == Right && z.right != "" {
      assert Reverse(z.right) == [Top(z.right)] + Reverse(Pop(z.right));
      assert Push(z.left, Top(z.right)) + Reverse(Pop(z.right)) == z.left + Reverse(z.right);
    }
  }

  lemma EditRefines(e: Editor, z: Zipper, a: Action)
    requires Represents(e, z) && (a == Erase || a.Type?)
    ensures Valid(e) && Represents(Step(e, a), ZipStep(z, a))
  {
    Sides(e, z);
    if a.Type? {
      PushAllAppends(z.left, a.text);
    } else if z.left != "" {
      assert e.line[..e.cursor - 1] == Pop(z.left);
    }
  }

  lemma StepRefines(e: Editor, z: Zipper, a: Action)
    requires Represents(e, z)
    ensures Valid(e) && Represents(Step(e, a), ZipStep(z, a))
  {
    Sides(e, z);
    match a
    case Up => FetchRefines(e, z, if z.idx < |z.history| then z.idx + 1 else z.idx);
    case Down => FetchRefines(e, z, if z.idx > 0 then z.idx - 1 else 0);
    case Left => MoveRefines(e, z, a);
    case Right => MoveRefines(e, z, a);
    case Erase => EditRefines(e, z, a);
    case Type(_) => EditRefines(e, z, a);
    case Enter =>
    case Abort =>
  }

  lemma FetchRefines(e: Editor, z: Zipper, idx: nat)
    requires idx <= |z.history| && e.history == z.history
    ensures Represents(Recall(e, idx), Fetch(z, idx))
  {
    var left := Fetch(z, idx).left;
    assert left + "" == left;
    if idx > 0 {
      PushAllAppends("", z.history[|z.history| - idx]);
      assert "" + z.history[|z.history| - idx] == z.history[|z.history| - idx];
    }
  }

  lemma {:induction false} ReverseSplit(a: string, b: string)
    ensures Reverse(a + b) == Reverse(b) + Reverse(a)
  {
    if b == "" {
      assert a + b == a;
    } else {
      assert (a + b)[..|a + b| - 1] == a + b[..|b| - 1];
      ReverseSplit(a, b[..|b| - 1]);
    }
  }

  lemma {:induction false} ReverseTwice(s: string)
    ensures Reverse(Reverse(s)) == s
  {
    if s != "" {
      var front, c := s[..|s| - 1], s[|s| - 1];
      ReverseTwice(front);
      ReverseSplit([c], Reverse(front));
      assert Reverse([c]) == [c] + Reverse([c][..0]);
    }
  }

  /** Every state of the editor has a two-stack counterpart. */
  lemma ZipperExists(e: Editor)
    requires Valid(e)
    ensures Represents(e, Zipper(e.line[..e.cursor], Reverse(e.line[e.cursor..]), e.history, e.idx))
  {
    ReverseTwice(e.line[e.cursor..]);
  }

  /** The line editor refines the two-stack editor, over every sequence of actions; in
      particular the cursor and the history index always stay in range. */
  lemma {:induction false} EditorRefinesZipper(e: Editor, z: Zipper, actions: seq<Action>)
    requires Represents(e, z)
    ensures Valid(e) && Represents(Run(e, actions), ZipRun(z, actions))
  {
    ReverseLength(z.right);
    if actions != [] {
      var front := actions[..|actions| - 1];
      EditorRefinesZipper(e, z, front);
      StepRefines(Run(e, front), ZipRun(z, front), actions[|actions| - 1]);
    }
  }

  // ----- round trips ------------------------------------------------------------------

  function Typing(word: string): seq<Action> {
    seq(|word|, k requires 0 <= k < |word| => Decode([word[k]]))
  }

  /** A character that is typed rather than acted on. */
  predicate Ordinary(c: char) {
    c != LF && c != '\U{03}' && c != '\U{7F}'
  }

  lemma {:induction false} TypingInserts(e: Editor, word: string)
    requires Valid(e) && forall k :: 0 <= k < |word| ==> Ordinary(word[k])
    ensures Run(e, Typing(word)) == Step(e, Type(word))
  {
    if word == "" {
      assert e.line[..e.cursor] + "" + e.line[e.cursor..] == e.line;
    } else {
      var n := |word| - 1;
      TypingInserts(e, word[..n]);
      assert Typing(word)[..n] == Typing(word[..n]);
      assert Decode([word[n]]) == Type([word[n]]);
      var mid := Step(e, Type(word[..n]));
      assert mid.line[..mid.cursor] == e.line[..e.cursor] + word[..n];
      assert mid.line[mid.cursor..] == e.line[e.cursor..];
      assert word[..n] + [word[n]] == word;
      assert e.line[..e.cursor] + word[..n] + [word[n]] == e.line[..e.cursor] + word;
    }
  }

  lemma {:induction false} ErasingUndoes(e: Editor, word: string, k: nat)
    requires Valid(e) && k <= |word|
    ensures Repeat(Step(e, Type(word)), Erase, k) == Step(e, Type(word[..|word| - k]))
  {
    if k == 0 {
      assert word[..|word|] == word;
    } else {
      ErasingUndoes(e, word, k - 1);
      var w := word[..|word| - (k - 1)];
      EraseUndoesOne(e, w);
      assert w[..|w| - 1] == word[..|word| - k];
    }
  }

  lemma EraseUndoesOne(e: Editor, w: string)
    requires Valid(e) && w != ""
    ensures Step(Step(e, Type(w)), Erase) == Step(e, Type(w[..|w| - 1]))
  {
    var mid := Step(e, Type(w));
    assert mid.line[..mid.cursor - 1] == e.line[..e.cursor] + w[..|w| - 1];
    assert mid.line[mid.cursor..] == e.line[e.cursor..];
  }

  lemma TypeNothing(e: Editor)
    requires Valid(e)
    ensures Step(e, Type("")) == e
  {
    assert e.line[..e.cursor] + "" + e.line[e.cursor..] == e.line;
  }

  /** Typing a word of ordinary characters and then pressing backspace as many times gives back
      the whole state, from any state of the editor. */
  lemma TypeThenErase(e: Editor, word: string)
    requires Valid(e) && forall k :: 0 <= k < |word| ==> Ordinary(word[k])
    ensures Run(e, Typing(word) + Times(Erase, |word|)) == e
  {
    RunConcat(e, Typing(word), Times(Erase, |word|));
    RunTimes(Run(e, Typing(word)), Erase, |word|);
    TypingInserts(e, word);
    ErasingUndoes(e, word, |word|);
    assert word[..0] == "";
    TypeNothing(e);
  }

  lemma {:induction false} LeftMany(e: Editor, k: nat)
    requires Valid(e)
    ensures Repeat(e, Left, k) == e.(cursor := if k <= e.cursor then e.cursor - k else 0)
  {
    if k > 0 {
      LeftMany(e, k - 1);
    }
  }

  lemma {:induction false} RightMany(e: Editor, k: nat)
    requires Valid(e)
    ensures Repeat(e, Right, k) == e.(cursor := if e.cursor + k <= |e.line| then e.cursor + k else |e.line|)
  {
    if k > 0 {
      RightMany(e, k - 1);
    }
  }

  /** Moving left and then right as often gives the state back exactly when the left end was not
      in the way, or the cursor was at the right end. */
  lemma LeftThenRight(e: Editor, k: nat)
    requires Valid(e)
    ensures Run(e, Times(Left, k) + Times(Right, k)) == e <==> k <= e.cursor || e.cursor == |e.line|
  {
    RunTwice(e, Left, k, Right, k);
    LeftMany(e, k);
    RightMany(Repeat(e, Left, k), k);
  }

  // ----- history ----------------------------------------------------------------------

  /** The lines that a sequence of actions submits. */
  function Submitted(e: Editor, actions: seq<Action>): seq<string>
    requires Valid(e)
  {
    if actions == [] then []
    else
      var before := Run(e, actions[..|actions| - 1]);
      Submitted(e, actions[..|actions| - 1]) +
      if actions[|actions| - 1] == Enter && before.line != "" then [before.line] else []
  }

  /** History grows at the end, by exactly the non-empty submitted lines: neither recalling an
      entry nor editing a recalled one changes it. */
  lemma {:induction false} HistoryIsSubmitted(e: Editor, actions: seq<Action>)
    requires Valid(e)
    ensures Run(e, actions).history == e.history + Submitted(e, actions)
  {
    if actions != [] {
      HistoryIsSubmitted(e, actions[..|actions| - 1]);
    }
  }

  lemma {:induction false} UpMany(e: Editor, k: nat)
    requires Valid(e) && e.history != [] && k > 0
    ensures Repeat(e, Up, k) == Recall(e, if e.idx + k <= |e.history| then e.idx + k else |e.history|)
  {
    if k > 1 {
      UpMany(e, k - 1);
    } else {
      assert Repeat(e, Up, 0) == e;
    }
  }

  lemma {:induction false} DownMany(e: Editor, top: nat, j: nat)
    requires Valid(e) && 0 < top <= |e.history|
    ensures Repeat(Recall(e, top), Down, j) == Recall(e, if j <= top then top - j else 0)
  {
    if j > 0 {
      DownMany(e, top, j - 1);
    }
  }

  /** From the new line, `k` ups and then `j` downs show the entry `max(min(k, n) - j, 0)` places
      from the end, or the empty line at 0. */
  lemma Navigation(e: Editor, k: nat, j: nat) returns (r: Editor)
    requires Valid(e) && e.idx == 0 && e.history != [] && k > 0
    ensures r == Run(e, Times(Up, k) + Times(Down, j))
    ensures var top := if k <= |e.history| then k else |e.history|;
            r.idx == if j <= top then top - j else 0
    ensures 0 <= r.idx <= |e.history| && r.history == e.history && r.cursor == |r.line|
    ensures r.line == if r.idx > 0 then e.history[|e.history| - r.idx] else ""
  {
    RunTwice(e, Up, k, Down, j);
    r := UpsThenDowns(e, k, j);
  }

  lemma UpsThenDowns(e: Editor, k: nat, j: nat) returns (r: Editor)
    requires Valid(e) && e.idx == 0 && e.history != [] && k > 0
    ensures r == Repeat(Repeat(e, Up, k), Down, j)
    ensures var top := if k <= |e.history| then k else |e.history|;
            r.idx == if j <= top then top - j else 0
    ensures 0 <= r.idx <= |e.history| && r.history == e.history && r.cursor == |r.line|
    ensures r.line == if r.idx > 0 then e.history[|e.history| - r.idx] else ""
  {
    UpMany(e, k);
    DownMany(e, if k <= |e.history| then k else |e.history|, j);
    r := Repeat(Repeat(e, Up, k), Down, j);
  }

  predicate Navigates(a: Action) { a == Up || a == Down }

  /** The place in the history depends on the ups and downs alone: typing, erasing, moving and
      even Ctrl-C in between do not count, and only Enter starts again. */
  lemma {:induction false} EditingKeepsPlace(e: Editor, actions: seq<Action>)
    requires Valid(e) && Enter !in actions
    ensures Run(e, actions).idx == Run(e, Filter(Navigates, actions)).idx
    ensures Run(e, actions).history == e.history == Run(e, Filter(Navigates, actions)).history
  {
    if actions != [] {
      var front, a := actions[..|actions| - 1], actions[|actions| - 1];
      assert a in actions;
      EditingKeepsPlace(e, front);
      FilterSnoc(actions);
      PlaceStep(e, Filter(Navigates, front), Run(e, front), a);
    }
  }

  lemma PlaceStep(e: Editor, nav: seq<Action>, edited: Editor, a: Action)
    requires Valid(e) && Valid(edited) && a != Enter
    requires Run(e, nav).idx == edited.idx && Run(e, nav).history == edited.history
    ensures var r := Run(e, nav + if Navigates(a) then [a] else []);
            r.idx == Step(edited, a).idx && r.history == edited.history == Step(edited, a).history
  {
    StepPlace(edited, Run(e, nav), a);
    if Navigates(a) {
      RunConcat(e, nav, [a]);
      RunOne(Run(e, nav), a);
    } else {
      assert nav + [] == nav;
    }
  }

  lemma FilterSnoc(actions: seq<Action>)
    requires actions != []
    ensures var front, a := actions[..|actions| - 1], actions[|actions| - 1];
            Filter(Navigates, actions) ==
            Filter(Navigates, front) + if Navigates(a) then [a] else []
  {
    var front, a := actions[..|actions| - 1], actions[|actions| - 1];
    assert actions == front + [a];
    FilterConcat(Navigates, front, [a]);
    assert Filter(Navigates, front) + [] == Filter(Navigates, front);
  }

  lemma StepPlace(e: Editor, plain: Editor, a: Action)
    requires Valid(e) && Valid(plain) && e.idx == plain.idx && e.history == plain.history
    requires a != Enter
    ensures Step(e, a).history == e.history && (!Navigates(a) ==> Step(e, a).idx == e.idx)
    ensures Navigates(a) ==> Step(e, a).idx == Step(plain, a).idx && Step(plain, a).history == e.history
  {
  }

  lemma RunOne(e: Editor, a: Action)
    requires Valid(e)
    ensures Run(e, [a]) == Step(e, a) && Run(e, []) == e
  {
    assert [a][..0] == [];
  }
}
