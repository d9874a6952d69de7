/** What every visit keeps: activations and deactivations balance, no more is active than
    there are closures still to be called, and every alias written has been declared. */
module SequenceBalance {
  import opened CallTree
  import opened SequenceDiagram

  function Change(t: Text, a: Alias): int {
    if t == Activate(a) then 1 else if t == Deactivate(a) then -1 else 0
  }

  /** How many more activate than deactivate lines there are for `a`. */
  function Net(lines: seq<Line>, a: Alias): int {
    if lines == [] then 0 else Net(lines[..|lines| - 1], a) + Change(lines[|lines| - 1].text, a)
  }

  ghost predicate NeverNegative(lines: seq<Line>) {
    forall k, a {:trigger Net(lines[..k], a)} | 0 <= k <= |lines| :: Net(lines[..k], a) >= 0
  }

  /** The counters are the balance of what was written, and no prefix of it deactivates more
      than it activates. */
  ghost predicate Balanced(s: State) {
    && (forall a {:trigger Net(s.lines, a)} :: Net(s.lines, a) == ActiveOf(s, a))
    && (forall a | a in s.active :: s.active[a] > 0)
    && NeverNegative(s.lines)
  }

  function Pending(shot: Shot, a: Alias): nat {
    if shot.Shot? && shot.live && shot.agent == a then 1 else 0
  }

  /** No agent is active more often than closures for it are still to be called: those of
      `open` further up, and the one at hand. */
  ghost predicate Under(open: multiset<Alias>, s: State, shot: Shot) {
    forall a {:trigger ActiveOf(s, a)} :: ActiveOf(s, a) <= open[a] + Pending(shot, a)
  }

  function AliasesIn(t: Text): set<Alias> {
    match t
    case Message(sender, agent) => AliasesOf(sender) + {agent}
    case Reply(sender, agent, _) => AliasesOf(sender) + {agent}
    case Step(agent, _) => {agent}
    case Note(agent, _) => {agent}
    case Activate(agent) => {agent}
    case Deactivate(agent) => {agent}
    case _ => {}
  }

  function AliasesOf(sender: Sender): set<Alias> {
    if sender.Outside? then {} else {sender.alias}
  }

  ghost predicate AllBelow(t: Text, n: nat) {
    forall a | a in AliasesIn(t) :: a < n
  }

  ghost predicate LinesBelow(lines: seq<Line>, n: nat) {
    forall i {:trigger lines[i]} | 0 <= i < |lines| :: AllBelow(lines[i].text, n)
  }

  /** Different participants have different aliases, numbered from 0. */
  ghost predicate Numbered(symbols: map<string, Alias>) {
    && (forall x | x in symbols :: symbols[x] < |symbols|)
    && (forall x, y | x in symbols && y in symbols && symbols[x] == symbols[y] :: x == y)
  }

  ghost predicate Declared(s: State, shot: Shot) {
    Numbered(s.symbols) && LinesBelow(s.lines, |s.symbols|) && (shot.Shot? ==> shot.agent < |s.symbols|)
  }

  ghost predicate Extends(s: State, t: State) {
    && |s.lines| <= |t.lines| && t.lines[..|s.lines|] == s.lines
    && |s.symbols| <= |t.symbols| && forall x | x in s.symbols :: x in t.symbols && t.symbols[x] == s.symbols[x]
  }

  ghost predicate SameShot(a: Shot, b: Shot) {
    a == b || (a.Shot? && a.live && b == Shot(a.agent, false))
  }

  /** From `s` to `t` nothing of this is lost. */
  ghost predicate Keeps(open: multiset<Alias>, s: State, shot: Shot, t: State, after: Shot) {
    && Extends(s, t) && SameShot(shot, after)
    && (Balanced(s) ==> Balanced(t))
    && (Declared(s, shot) ==> Declared(t, after))
    && (Under(open, s, shot) ==> Under(open, t, after))
  }

  /** The visitor's indent comes back too. */
  ghost predicate Returns(open: multiset<Alias>, s: State, shot: Shot, o: Out) {
    o.Done? ==> o.s.ind == s.ind && Keeps(open, s, shot, o.s, o.shot)
  }

  lemma KeepsTrans(open: multiset<Alias>, s: State, shot: Shot, t: State, mid: Shot, u: State, after: Shot)
    requires Keeps(open, s, shot, t, mid) && Keeps(open, t, mid, u, after)
    ensures Keeps(open, s, shot, u, after)
  {
    assert u.lines[..|s.lines|] == u.lines[..|t.lines|][..|s.lines|];
  }

  // ---- the writer --------------------------------------------------------------

  lemma LineAdded(s: State, line: Line)
    requires NeverNegative(s.lines)
    ensures forall a {:trigger Net(s.lines + [line], a)} :: Net(s.lines + [line], a) == Net(s.lines, a) + Change(line.text, a)
    ensures (forall a {:trigger Net(s.lines, a)} :: Net(s.lines, a) + Change(line.text, a) >= 0) ==> NeverNegative(s.lines + [line])
  {
    var more := s.lines + [line];
    assert more[..|more| - 1] == s.lines;
    if forall a {:trigger Net(s.lines, a)} :: Net(s.lines, a) + Change(line.text, a) >= 0 {
      forall k, a {:trigger Net(more[..k], a)} | 0 <= k <= |more| ensures Net(more[..k], a) >= 0 {
        if k == |more| { assert more[..k] == more; } else { assert more[..k] == s.lines[..k]; }
      }
    }
  }

  /** A line that is no activation changes no balance. */
  lemma PutKeeps(open: multiset<Alias>, s: State, shot: Shot, text: Text)
    requires !text.Activate? && !text.Deactivate? && (Declared(s, shot) ==> AllBelow(text, |s.symbols|))
    ensures Keeps(open, s, shot, Put(s, text), shot)
  {
    if Balanced(s) {
      assert forall a :: Change(text, a) == 0;
      assert s.lines[..|s.lines|] == s.lines;
      LineAdded(s, Line(s.ind, text));
    }
    assert forall a :: ActiveOf(Put(s, text), a) == ActiveOf(s, a);
  }

  lemma PutActivateBalances(s: State, a: Alias)
    requires Balanced(s)
    ensures Balanced(PutActivate(s, a))
  {
    LineAdded(s, Line(s.ind, Activate(a)));
  }

  lemma PutDeactivateBalances(s: State, a: Alias)
    requires Balanced(s)
    ensures Balanced(PutDeactivate(s, a))
  {
    assert Net(s.lines, a) == ActiveOf(s, a);
    LineAdded(s, Line(s.ind, Deactivate(a)));
  }

  lemma DeactivateCounts(s: State, a: Alias)
    ensures forall b :: ActiveOf(PutDeactivate(s, a), b) == if b == a && ActiveOf(s, a) > 0 then ActiveOf(s, a) - 1 else ActiveOf(s, b)
  {
  }

  /** Deactivating what is not active does nothing, so it can be done once too often. */
  lemma PutDeactivateKeeps(open: multiset<Alias>, s: State, shot: Shot, a: Alias)
    requires Declared(s, shot) ==> a < |s.symbols|
    ensures Keeps(open, s, shot, PutDeactivate(s, a), shot) && PutDeactivate(s, a).ind == s.ind
  {
    if Balanced(s) { PutDeactivateBalances(s, a); }
    DeactivateCounts(s, a);
  }

  /** A closure takes back what it allowed. */
  lemma FireKeeps(open: multiset<Alias>, s: State, shot: Shot)
    ensures Returns(open, s, shot, Fire(s, shot)) && Fire(s, shot).Done?
    ensures Under(open, s, shot) ==> Under(open, Fire(s, shot).s, NoShot)
  {
    if shot.Shot? && shot.live {
      if Balanced(s) { PutDeactivateBalances(s, shot.agent); }
      DeactivateCounts(s, shot.agent);
    }
  }

  lemma NamedKeeps(open: multiset<Alias>, s: State, shot: Shot, app: string)
    ensures Keeps(open, s, shot, Named(s, app), shot)
    ensures app in Named(s, app).symbols && AliasOf(Named(s, app), app) == AliasOf(s, app)
  {
    assert forall a :: ActiveOf(Named(s, app), a) == ActiveOf(s, a);
    if app !in s.symbols {
      OneMoreSymbol(s.symbols, app);
      if LinesBelow(s.lines, |s.symbols|) { StillBelow(s.lines, |s.symbols|, |s.symbols| + 1); }
    }
  }

  lemma OneMoreSymbol(symbols: map<string, Alias>, app: string)
    requires app !in symbols
    ensures var more := symbols[app := |symbols|];
      |more| == |symbols| + 1 && (Numbered(symbols) ==> Numbered(more))
  {
    var more := symbols[app := |symbols|];
    assert more.Keys == symbols.Keys + {app};
    assert |more| == |symbols| + 1;
  }

  lemma StillBelow(lines: seq<Line>, n: nat, m: nat)
    requires LinesBelow(lines, n) && n <= m
    ensures LinesBelow(lines, m)
  {
    forall i {:trigger lines[i]} | 0 <= i < |lines| ensures AllBelow(lines[i].text, m) { assert AllBelow(lines[i].text, n); }
  }

  /** Both participants are known by now. */
  predicate Known(s: State, v: Visit) {
    v.app in s.symbols && (v.from != [] ==> v.from[0] in s.symbols)
  }

  lemma IntroducedKeeps(open: multiset<Alias>, s: State, shot: Shot, v: Visit)
    ensures Keeps(open, s, shot, Introduced(s, v), shot) && Known(Introduced(s, v), v) && Introduced(s, v).ind == s.ind
  {
    if v.from == [] {
      NamedKeeps(open, s, shot, v.app);
    } else {
      NamedKeeps(open, s, shot, v.from[0]);
      var t := Named(s, v.from[0]);
      NamedKeeps(open, t, shot, v.app);
      KeepsTrans(open, s, shot, t, shot, Named(t, v.app), shot);
    }
  }
}
