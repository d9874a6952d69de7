/** The indentation layer of the lexer (pkg/grammar/lexer_impl.go): it turns changes of
    indentation into INDENT and DEDENT tokens, by way of a stack of indents and a queue. */
module IndentLexer {
  /** What the layer distinguishes; LineEnd stands for the newline and comment tokens that
      are returned as they are while a line is being started. */
  datatype Kind = LineEnd | SyslComment | Eof | Other

  /** A token of the generated lexer. Producing it may change the number of spaces counted
      and the newline flag, in any way. */
  datatype Raw = Raw(id: nat, kind: Kind, hidden: bool, effect: (nat, bool) -> (nat, bool))

  datatype Token = Plain(raw: Raw) | Indent | Dedent

  datatype State = State(queue: seq<Token>, level: seq<nat>, spaces: nat, newLine: bool)

  const Start := State([], [], 0, false)

  function PreviousIndent(level: seq<nat>): nat {
    if level == [] then 0 else level[|level| - 1]
  }

  /** The stack of indents: each deeper than the one below. */
  predicate Rising(level: seq<nat>) {
    (forall i | 0 <= i < |level| :: level[i] > 0) && forall i, j | 0 <= i < j < |level| :: level[i] < level[j]
  }

  datatype Adjusted = Adjusted(level: seq<nat>, tokens: seq<Token>)

  /** The loop that moves the stack to `n` spaces. */
  function Adjust(level: seq<nat>, n: nat): Adjusted {
    if n == PreviousIndent(level) then Adjusted(level, [])
    else if n > PreviousIndent(level) then Adjusted(level + [n], [Indent])
    else
      var r := Adjust(level[..|level| - 1], n);
      Adjusted(r.level, [Dedent] + r.tokens)
  }

  /** What one raw token does: it is returned at once, or queued behind the adjustment. */
  predicate Passes(newLine: bool, raw: Raw) {
    (newLine && raw.kind == LineEnd) || (!newLine && raw.hidden) || raw.kind == SyslComment || (!newLine && raw.kind != Eof)
  }

  /** The state when a raw token has been read; its tokens are at the end of the queue. */
  function Read(s: State, raw: Raw): State {
    var (spaces, newLine) := raw.effect(s.spaces, s.newLine);
    if Passes(newLine, raw) then
      var reset := !(newLine && raw.kind == LineEnd) && ((!newLine && raw.hidden) || raw.kind == SyslComment);
      State(s.queue + [Plain(raw)], s.level, if reset then 0 else spaces, newLine)
    else
      var n := if raw.kind == Eof then 0 else spaces;
      var r := Adjust(s.level, n);
      State(s.queue + (r.tokens + [Plain(raw)]), r.level, n, false)
  }

  // ---- what the stack becomes --------------------------------------------------

  /** The indents below `n`. */
  function Shallower(level: seq<nat>, n: nat): (r: seq<nat>)
    ensures |r| <= |level| && r == level[..|r|]
  {
    if level == [] || level[|level| - 1] < n then level else Shallower(level[..|level| - 1], n)
  }

  function Repeat(t: Token, n: nat): seq<Token> {
    if n == 0 then [] else [t] + Repeat(t, n - 1)
  }

  /** The stack keeps the indents below the new one, which goes on top unless it is 0. */
  lemma {:induction false} AdjustedLevel(level: seq<nat>, n: nat)
    requires Rising(level)
    ensures Adjust(level, n).level == if n > 0 then Shallower(level, n) + [n] else []
    ensures Rising(Adjust(level, n).level)
    decreases level
  {
    if n < PreviousIndent(level) {
      AdjustedLevel(level[..|level| - 1], n);
    } else if n == PreviousIndent(level) && level != [] {
      var init := level[..|level| - 1];
      assert init != [] ==> init[|init| - 1] < n;
      assert Shallower(level, n) == init && init + [n] == level;
    }
  }

  /** As many DEDENTs as indents are closed, then at most one INDENT: an indent between two
      of the stack closes the deeper ones and opens one of its own. */
  lemma {:induction false} AdjustedTokens(level: seq<nat>, n: nat)
    requires Rising(level)
    ensures var kept := Shallower(level, n + 1);
      Adjust(level, n).tokens == Repeat(Dedent, |level| - |kept|) + (if n == PreviousIndent(kept) then [] else [Indent])
    decreases level
  {
    var kept := Shallower(level, n + 1);
    if n < PreviousIndent(level) {
      var init := level[..|level| - 1];
      AdjustedTokens(init, n);
      assert kept == Shallower(init, n + 1);
      RepeatMore(Dedent, |init| - |kept|, if n == PreviousIndent(kept) then [] else [Indent]);
    } else {
      assert kept == level && Repeat(Dedent, |level| - |kept|) == [];
    }
  }

  lemma RepeatMore(t: Token, n: nat, tail: seq<Token>)
    ensures Repeat(t, n + 1) + tail == [t] + (Repeat(t, n) + tail)
  {
  }

  // ---- what every prefix of the output keeps -----------------------------------

  function Height(ts: seq<Token>): int {
    if ts == [] then 0
    else Height(ts[..|ts| - 1]) + (match ts[|ts| - 1] case Indent => 1 case Dedent => -1 case Plain(_) => 0)
  }

  function Erased(ts: seq<Token>): seq<Raw> {
    if ts == [] then []
    else Erased(ts[..|ts| - 1]) + (match ts[|ts| - 1] case Plain(raw) => [raw] case _ => [])
  }

  ghost predicate NeverBelow(ts: seq<Token>) {
    forall k | 0 <= k <= |ts| :: Height(ts[..k]) >= 0
  }

  lemma Snoc(ts: seq<Token>, t: Token)
    ensures Height(ts + [t]) == Height(ts) + (match t case Indent => 1 case Dedent => -1 case Plain(_) => 0)
    ensures Erased(ts + [t]) == Erased(ts) + (match t case Plain(raw) => [raw] case _ => [])
    ensures NeverBelow(ts) && Height(ts + [t]) >= 0 ==> NeverBelow(ts + [t])
  {
    var more := ts + [t];
    assert more[..|more| - 1] == ts;
    if NeverBelow(ts) && Height(more) >= 0 {
      forall k | 0 <= k <= |more| ensures Height(more[..k]) >= 0 {
        if k == |more| { assert more[..k] == more; } else { assert more[..k] == ts[..k]; }
      }
    }
  }

  /** `all` is everything output or queued: its raw tokens are those read, its height that
      of the stack, and no prefix closes more than it has opened. */
  ghost predicate Sound(all: seq<Token>, level: seq<nat>, read: seq<Raw>) {
    Erased(all) == read && Height(all) == |level| && NeverBelow(all) && Rising(level)
  }

  lemma IndentKeeps(all: seq<Token>, level: seq<nat>, read: seq<Raw>, n: nat)
    requires Sound(all, level, read) && n > PreviousIndent(level)
    ensures Sound(all + [Indent], level + [n], read)
  {
    Snoc(all, Indent);
    assert Erased(all) + [] == Erased(all);
  }

  lemma DedentKeeps(all: seq<Token>, level: seq<nat>, read: seq<Raw>)
    requires Sound(all, level, read) && level != []
    ensures Sound(all + [Dedent], level[..|level| - 1], read)
  {
    Snoc(all, Dedent);
    assert Erased(all) + [] == Erased(all);
  }

  lemma {:induction false} AdjustKeeps(all: seq<Token>, level: seq<nat>, read: seq<Raw>, n: nat)
    requires Sound(all, level, read)
    ensures Sound(all + Adjust(level, n).tokens, Adjust(level, n).level, read)
    decreases level
  {
    if n == PreviousIndent(level) {
      assert all + [] == all;
    } else if n > PreviousIndent(level) {
      IndentKeeps(all, level, read, n);
    } else {
      DedentKeeps(all, level, read);
      AdjustKeeps(all + [Dedent], level[..|level| - 1], read, n);
      var rest := Adjust(level[..|level| - 1], n).tokens;
      assert all + ([Dedent] + rest) == (all + [Dedent]) + rest;
    }
  }

  lemma PlainKeeps(all: seq<Token>, level: seq<nat>, read: seq<Raw>, raw: Raw)
    requires Sound(all, level, read)
    ensures Sound(all + [Plain(raw)], level, read + [raw])
  {
    Snoc(all, Plain(raw));
  }

  lemma LineKeeps(all: seq<Token>, level: seq<nat>, read: seq<Raw>, n: nat, raw: Raw)
    requires Sound(all, level, read)
    ensures var r := Adjust(level, n); Sound(all + (r.tokens + [Plain(raw)]), r.level, read + [raw])
    ensures n == 0 ==> Adjust(level, n).level == []
  {
    var r := Adjust(level, n);
    AdjustKeeps(all, level, read, n);
    AdjustedLevel(level, n);
    PlainKeeps(all + r.tokens, r.level, read, raw);
    assert all + (r.tokens + [Plain(raw)]) == (all + r.tokens) + [Plain(raw)];
  }

  lemma ReadKeeps(s: State, read: seq<Raw>, raw: Raw)
    requires Sound(s.queue, s.level, read)
    ensures Sound(Read(s, raw).queue, Read(s, raw).level, read + [raw])
    ensures raw.kind == Eof && !raw.hidden ==> Read(s, raw).level == []
  {
    var (spaces, newLine) := raw.effect(s.spaces, s.newLine);
    if Passes(newLine, raw) {
      PlainKeeps(s.queue, s.level, read, raw);
    } else {
      LineKeeps(s.queue, s.level, read, if raw.kind == Eof then 0 else spaces, raw);
    }
  }

  /** The state after reading all of `raws`, nothing having been taken off the queue. */
  function ReadAll(raws: seq<Raw>): State {
    if raws == [] then Start else Read(ReadAll(raws[..|raws| - 1]), raws[|raws| - 1])
  }

  lemma StartIsSound()
    ensures Sound([], [], [])
  {
    var none: seq<Token> := [];
    assert forall k | 0 <= k <= |none| :: none[..k] == [];
  }

  /** The whole output for a stream of raw tokens. At the end of the file everything is closed. */
  lemma {:induction false} StreamIsSound(raws: seq<Raw>)
    ensures Sound(ReadAll(raws).queue, ReadAll(raws).level, raws)
    ensures raws != [] && raws[|raws| - 1].kind == Eof && !raws[|raws| - 1].hidden ==> Height(ReadAll(raws).queue) == 0
    decreases |raws|
  {
    if raws == [] {
      StartIsSound();
    } else {
      var init, last := raws[..|raws| - 1], raws[|raws| - 1];
      StreamIsSound(init);
      ReadKeeps(ReadAll(init), init, last);
      assert init + [last] == raws;
    }
  }

  // ---- one raw token, said of what it leaves -----------------------------------

  /** The token starts a line, or ends the file outside of one: the stack is moved. */
  predicate MovesStack(newLine: bool, raw: Raw) {
    match raw.kind
    case LineEnd => false
    case SyslComment => false
    case Eof => newLine || !raw.hidden
    case Other => newLine
  }

  /** `d` indents deeper than `n` are closed, those that are left are not deeper, and `n` is
      opened unless it is one of them or the margin. */
  ghost predicate Moved(was: seq<nat>, now: seq<nat>, n: nat, tokens: seq<Token>, d: nat) {
    && d <= |was|
    && (forall i | 0 <= i < |was| - d :: was[i] <= n)
    && (forall i | |was| - d <= i < |was| :: was[i] > n)
    && now == was[..|was| - d] + (if n == 0 || n in was then [] else [n])
    && tokens == Repeat(Dedent, d) + (if n == 0 || n in was then [] else [Indent])
  }

  /** What reading `raw` in state `s` comes to. A token that starts a line moves the stack to the
      spaces counted when it is produced, the end of the file to none; INDENT and DEDENTs stand
      in front of it. Any other leaves the stack alone, and the count too, unless it is a
      comment of its own or white space within a line. */
  ghost predicate Follows(s: State, raw: Raw, t: State) {
    var (spaces, newLine) := raw.effect(s.spaces, s.newLine);
    if MovesStack(newLine, raw) then
      var n := if raw.kind == Eof then 0 else spaces;
      && t.spaces == n == PreviousIndent(t.level) && !t.newLine
      && exists tokens, d :: Moved(s.level, t.level, n, tokens, d) && t.queue == s.queue + tokens + [Plain(raw)]
    else
      && t.level == s.level && t.newLine == newLine && t.queue == s.queue + [Plain(raw)]
      && t.spaces == if raw.kind == SyslComment || (!newLine && raw.hidden) then 0 else spaces
  }

  lemma {:induction false} ShallowerIs(level: seq<nat>, n: nat)
    requires Rising(level)
    ensures var r := Shallower(level, n);
      (forall i | 0 <= i < |r| :: level[i] < n) && forall i | |r| <= i < |level| :: level[i] >= n
  {
    if level != [] && level[|level| - 1] >= n { ShallowerIs(level[..|level| - 1], n); }
  }

  /** The indents that are not deeper than `n` are those below it, and `n` itself if it is one. */
  lemma KeptAre(level: seq<nat>, n: nat)
    requires Rising(level)
    ensures Shallower(level, n + 1) == Shallower(level, n) + (if n in level then [n] else [])
    ensures n == 0 ==> Shallower(level, n + 1) == []
  {
    var below, kept := Shallower(level, n), Shallower(level, n + 1);
    ShallowerIs(level, n);
    ShallowerIs(level, n + 1);
    if n in level {
      var i :| 0 <= i < |level| && level[i] == n;
      assert |below| <= i < |kept|;
      assert n <= level[|below|] <= level[i] <= level[|kept| - 1] <= n;
      assert |below| == |kept| - 1;
      assert kept == below + [level[|below|]];
    } else {
      assert |below| < |level| ==> level[|below|] > n;
      assert |kept| < |level| ==> level[|kept|] > n;
      assert kept == below;
    }
    assert kept == [] || level[0] <= n;
  }

  /** What is on top of the indents below `n`. */
  lemma TopBelow(level: seq<nat>, n: nat)
    requires Rising(level)
    ensures PreviousIndent(Shallower(level, n)) < n || n == 0
    ensures PreviousIndent(Shallower(level, n) + [n]) == n
  {
    ShallowerIs(level, n);
  }

  lemma StackIsMoved(level: seq<nat>, n: nat)
    requires Rising(level)
    ensures var r := Adjust(level, n);
      Moved(level, r.level, n, r.tokens, |level| - |Shallower(level, n + 1)|) && PreviousIndent(r.level) == n
  {
    AdjustedLevel(level, n);
    AdjustedTokens(level, n);
    StackIsMovedTo(level, n, Adjust(level, n));
  }

  lemma StackIsMovedTo(level: seq<nat>, n: nat, r: Adjusted)
    requires Rising(level) && r.level == if n > 0 then Shallower(level, n) + [n] else []
    requires var kept := Shallower(level, n + 1);
      r.tokens == Repeat(Dedent, |level| - |kept|) + (if n == PreviousIndent(kept) then [] else [Indent])
    ensures Moved(level, r.level, n, r.tokens, |level| - |Shallower(level, n + 1)|) && PreviousIndent(r.level) == n
  {
    ShallowerIs(level, n + 1);
    KeptAre(level, n);
    TopBelow(level, n);
    MovedBy(level, n, Shallower(level, n), Shallower(level, n + 1), r);
  }

  lemma MovedBy(level: seq<nat>, n: nat, below: seq<nat>, kept: seq<nat>, r: Adjusted)
    requires |kept| <= |level| && kept == level[..|kept|]
    requires (forall i | 0 <= i < |kept| :: level[i] <= n) && forall i | |kept| <= i < |level| :: level[i] > n
    requires kept == below + (if n in level then [n] else []) && (n == 0 ==> kept == [])
    requires (PreviousIndent(below) < n || n == 0) && PreviousIndent(below + [n]) == n
    requires r.level == if n > 0 then below + [n] else []
    requires r.tokens == Repeat(Dedent, |level| - |kept|) + (if n == PreviousIndent(kept) then [] else [Indent])
    ensures Moved(level, r.level, n, r.tokens, |level| - |kept|) && PreviousIndent(r.level) == n
  {
    if n in level {
      assert kept == below + [n];
    } else {
      assert kept == below;
    }
  }

  lemma ReadFollows(s: State, raw: Raw)
    requires Rising(s.level)
    ensures Follows(s, raw, Read(s, raw))
  {
    var (spaces, newLine) := raw.effect(s.spaces, s.newLine);
    if MovesStack(newLine, raw) {
      var n := if raw.kind == Eof then 0 else spaces;
      var r := Adjust(s.level, n);
      StackIsMoved(s.level, n);
      LineFollows(s, raw, n, r, |s.level| - |Shallower(s.level, n + 1)|);
    }
  }

  lemma LineFollows(s: State, raw: Raw, n: nat, r: Adjusted, d: nat)
    requires var (spaces, newLine) := raw.effect(s.spaces, s.newLine); MovesStack(newLine, raw) && n == if raw.kind == Eof then 0 else spaces
    requires Moved(s.level, r.level, n, r.tokens, d) && PreviousIndent(r.level) == n
    ensures Follows(s, raw, State(s.queue + (r.tokens + [Plain(raw)]), r.level, n, false))
  {
    assert s.queue + (r.tokens + [Plain(raw)]) == s.queue + r.tokens + [Plain(raw)];
  }

  /** So it is at every token of every stream. */
  lemma {:induction false} StreamFollows(raws: seq<Raw>, i: nat)
    requires i < |raws|
    ensures Follows(ReadAll(raws[..i]), raws[i], ReadAll(raws[..i + 1]))
  {
    StreamIsSound(raws[..i]);
    ReadOne(raws, i, ReadAll(raws[..i]));
    ReadFollows(ReadAll(raws[..i]), raws[i]);
  }

  /** A line end, after which n spaces are counted, and a token that starts the next line: it is
      indented if there are any. */
  lemma FirstLine(end: Raw, first: Raw, n: nat)
    requires end.kind == LineEnd && end.effect(0, false) == (n, true)
    requires first.kind == Other && first.effect(n, true) == (n, true)
    ensures ReadAll([end, first]).queue == if n == 0 then [Plain(end), Plain(first)] else [Plain(end), Indent, Plain(first)]
    ensures ReadAll([end, first]).level == if n == 0 then [] else [n]
  {
    var raws := [end, first];
    assert raws[..0] == [] && raws[..1] == [end] && raws[..2] == raws;
    StreamFollows(raws, 0);
    assert ReadAll([end]) == State([Plain(end)], [], n, true);
    StreamFollows(raws, 1);
  }

  // ---- the lexer ---------------------------------------------------------------

  class Stack {
    var items: seq<nat>

    constructor ()
      ensures items == []
    {
      items := [];
    }

    method Push(o: nat)
      modifies this
      ensures items == old(items) + [o]
    {
      items := items + [o];
    }

    method Pop() returns (ret: nat)
      requires items != []
      modifies this
      ensures old(items) == items + [ret]
    {
      ret := items[|items| - 1];
      items := items[..|items| - 1];
    }
  }

  class Lexer {
    const input: seq<Raw>
    var pos: nat
    var prevToken: seq<Token>
    const level: Stack
    var spaces: nat
    var gotNewLine: bool
    ghost var out: seq<Token>

    constructor (input: seq<Raw>)
      ensures this.input == input && Valid() && pos == 0 && out == [] && fresh(level)
    {
      this.input, pos, prevToken, spaces, gotNewLine, out := input, 0, [], 0, false, [];
      level := new Stack();
    }

    function Now(): State
      reads this, level
    {
      State(prevToken, level.items, spaces, gotNewLine)
    }

    /** What has been output and what is queued are the output for the tokens read. */
    ghost predicate Valid()
      reads this, level
    {
      pos <= |input| && Now().(queue := out + prevToken) == ReadAll(input[..pos])
    }

    /** So the lexer is sound at all times, and done with when the end of the file is out. */
    lemma ValidIsSound()
      requires Valid()
      ensures Sound(out + prevToken, level.items, input[..pos]) && NeverBelow(out)
      ensures prevToken == [] && pos > 0 && input[pos - 1].kind == Eof && !input[pos - 1].hidden ==> Height(out) == 0 && Erased(out) == input[..pos]
    {
      StreamIsSound(input[..pos]);
      assert forall k | 0 <= k <= |out| :: (out + prevToken)[..k] == out[..k];
      assert prevToken == [] ==> out + prevToken == out;
    }

    method Poll() returns (t: Token)
      requires prevToken != []
      modifies this`prevToken, this`out
      ensures out == old(out) + [t] && old(prevToken) == [t] + prevToken
    {
      t := prevToken[0];
      prevToken := prevToken[1..];
      out := out + [t];
    }

    method Queue(t: Token)
      modifies this`prevToken
      ensures prevToken == old(prevToken) + [t]
    {
      prevToken := prevToken + [t];
    }

    /** The stack is moved to the spaces of the line. */
    method AdjustLevel()
      modifies this`prevToken, level
      ensures var r := Adjust(old(level.items), spaces);
        level.items == r.level && prevToken == old(prevToken) + r.tokens
    {
      while spaces != PreviousIndent(level.items)
        invariant var all, r := Adjust(old(level.items), spaces), Adjust(level.items, spaces);
          all.level == r.level && old(prevToken) + all.tokens == prevToken + r.tokens
        decreases if spaces == PreviousIndent(level.items) then 0 else if spaces > PreviousIndent(level.items) then 1 else |level.items| + 1
      {
        ghost var rest := Adjust(level.items, spaces).tokens;
        if spaces > PreviousIndent(level.items) {
          level.Push(spaces);
          Queue(Indent);
        } else {
          var _ := level.Pop();
          Queue(Dedent);
        }
        assert old(prevToken) + Adjust(old(level.items), spaces).tokens == prevToken + rest[1..];
      }
      assert prevToken + [] == prevToken;
    }

    /** BaseLexer.NextToken, whose actions change the spaces and the flag. */
    method NextRaw() returns (next: Raw)
      requires pos < |input|
      modifies this`pos, this`spaces, this`gotNewLine
      ensures pos == old(pos) + 1 && next == input[old(pos)]
      ensures (spaces, gotNewLine) == next.effect(old(spaces), old(gotNewLine))
    {
      next := input[pos];
      var (n, nl) := next.effect(spaces, gotNewLine);
      pos, spaces, gotNewLine := pos + 1, n, nl;
    }

    method GetNextToken() returns (t: Token)
      requires Valid() && (prevToken == [] ==> pos < |input|)
      modifies this, level
      ensures Valid() && out == old(out) + [t] && pos == old(pos) + (if old(prevToken) == [] then 1 else 0)
      ensures old(prevToken) != [] ==> old(prevToken) == [t] + prevToken && Now() == old(Now()).(queue := prevToken)
      ensures old(prevToken) == [] ==> Follows(old(Now()), input[old(pos)], Now().(queue := [t] + prevToken))
    {
      if |prevToken| > 0 {
        t := Poll();
        assert out + prevToken == old(out) + ([t] + prevToken);
        return;
      }
      ghost var before, done := Now(), out;
      StreamIsSound(input[..pos]);
      assert out + prevToken == out;
      t := NextFrom();
      StillTheOutput(input, pos - 1, done, before, Now().(queue := [t] + prevToken), t, prevToken);
    }

    /** With nothing queued the next raw token is read, and what comes first of it is output. */
    method NextFrom() returns (t: Token)
      requires prevToken == [] && pos < |input| && Rising(level.items)
      modifies this, level
      ensures out == old(out) + [t] && pos == old(pos) + 1
      ensures Now().(queue := [t] + prevToken) == Read(old(Now()), input[old(pos)])
      ensures Follows(old(Now()), input[old(pos)], Now().(queue := [t] + prevToken))
    {
      ghost var before := Now();
      var next := NextRaw();
      QueueRead(next, before.spaces, before.newLine);
      ghost var after := Now();
      t := Poll();
      assert Now().(queue := [t] + prevToken) == after;
    }

    /** The raw token is queued, behind the adjustment if a line starts. */
    method QueueRead(next: Raw, ghost n: nat, ghost newLine: bool)
      requires prevToken == [] && (spaces, gotNewLine) == next.effect(n, newLine)
      modifies this`prevToken, this`spaces, this`gotNewLine, level
      ensures Now() == Read(State([], old(level.items), n, newLine), next)
      ensures Rising(old(level.items)) ==> Follows(State([], old(level.items), n, newLine), next, Now())
    {
      if Rising(level.items) { ReadFollows(State([], level.items, n, newLine), next); }
      if gotNewLine && next.kind == LineEnd {
        Queue(Plain(next));
      } else if !gotNewLine && next.hidden {
        spaces := 0;
        Queue(Plain(next));
      } else if next.kind == SyslComment {
        spaces := 0;
        Queue(Plain(next));
      } else if next.kind != Eof && !gotNewLine {
        Queue(Plain(next));
      } else {
        if next.kind == Eof { spaces := 0; }
        AdjustLevel();
        gotNewLine := false;
        Queue(Plain(next));
      }
    }
  }

  /** What reading one more token queues comes behind what is output. */
  lemma StillTheOutput(input: seq<Raw>, pos: nat, out: seq<Token>, before: State, after: State, t: Token, rest: seq<Token>)
    requires pos < |input| && before.queue == [] && before.(queue := out) == ReadAll(input[..pos])
    requires after == Read(before, input[pos]) && after.queue == [t] + rest
    ensures after.(queue := (out + [t]) + rest) == ReadAll(input[..pos + 1])
  {
    ReadOne(input, pos, before.(queue := out));
    ReadOnto(out, before, input[pos]);
    QueuesJoin(out, after, t, rest);
  }

  lemma QueuesJoin(out: seq<Token>, s: State, t: Token, rest: seq<Token>)
    requires s.queue == [t] + rest
    ensures s.(queue := out + s.queue) == s.(queue := (out + [t]) + rest)
  {
    assert out + ([t] + rest) == (out + [t]) + rest;
  }

  /** Tokens output already stay in front. */
  lemma ReadOnto(out: seq<Token>, s: State, raw: Raw)
    requires s.queue == []
    ensures Read(s.(queue := out), raw) == Read(s, raw).(queue := out + Read(s, raw).queue)
  {
  }

  lemma ReadOne(input: seq<Raw>, pos: nat, s: State)
    requires pos < |input| && s == ReadAll(input[..pos])
    ensures ReadAll(input[..pos + 1]) == Read(s, input[pos])
  {
    assert input[..pos + 1][..pos] == input[..pos];
  }
}
