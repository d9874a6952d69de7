/** Every run of the visitor keeps the balance of activations, whatever the call graph. */
module SequenceRuns {
  import opened CallTree
  import opened SequenceDiagram
  import opened SequenceBalance

  /** The caller's closure counted among those further up. */
  function Held(open: multiset<Alias>, shot: Shot): multiset<Alias> {
    if shot.Shot? && shot.live then open + multiset{shot.agent} else open
  }

  lemma HeldIs(open: multiset<Alias>, s: State, shot: Shot)
    ensures Under(open, s, shot) <==> Under(Held(open, shot), s, NoShot)
  {
    assert forall a :: Held(open, shot)[a] == open[a] + Pending(shot, a);
  }

  lemma KnownAliases(s: State, shot: Shot, v: Visit)
    requires Declared(s, shot) && Known(s, v)
    ensures AliasOf(s, v.app) < |s.symbols| && forall a | a in AliasesOf(SenderOf(s, v)) :: a < |s.symbols|
  {
  }

  lemma KnownLater(open: multiset<Alias>, s: State, shot: Shot, t: State, after: Shot, v: Visit)
    requires Keeps(open, s, shot, t, after) && Known(s, v)
    ensures Known(t, v) && AliasOf(t, v.app) == AliasOf(s, v.app)
  {
  }

  lemma ArriveKeeps(open: multiset<Alias>, d: Diagram, v: Visit, s: State, shot: Shot)
    requires HasEndpoint(d.m, v.app, v.ep) && Known(s, v)
    ensures Keeps(open, s, shot, Arrive(d, v, s), shot) && Arrive(d, v, s).ind == s.ind
  {
    if Declared(s, shot) { KnownAliases(s, shot, v); }
    PutKeeps(open, s, shot, Message(SenderOf(s, v), AliasOf(s, v.app)));
  }

  lemma MeetReturns(open: multiset<Alias>, d: Diagram, v: Visit, payload: string, s: State, shot: Shot)
    requires HasEndpoint(d.m, v.app, v.ep)
    ensures var o := EndCaller(v, payload, Arrive(d, v, Introduced(s, v)), shot);
      o.Done? && Returns(open, s, shot, o) && Known(o.s, v)
  {
    var s1 := Introduced(s, v);
    var s2 := Arrive(d, v, s1);
    var o := EndCaller(v, payload, s2, shot);
    IntroducedKeeps(open, s, shot, v);
    ArriveKeeps(open, d, v, s1, shot);
    FireKeeps(open, s2, shot);
    KeepsTrans(open, s, shot, s1, shot, s2, shot);
    if o.s != s2 || o.shot != shot { KeepsTrans(open, s, shot, s2, shot, o.s, o.shot); }
    KnownLater(open, s1, shot, o.s, o.shot, v);
  }

  /** What happens between an activation and its end may use one more of the agent. */
  lemma Wrapped(open: multiset<Alias>, a: Alias, s: State, shot: Shot, t: State)
    requires Declared(s, shot) ==> a < |s.symbols|
    requires Keeps(open + multiset{a}, PutActivate(s, a), shot, t, shot)
    ensures Keeps(open, s, shot, PutDeactivate(t, a), shot)
  {
    var s1 := PutActivate(s, a);
    if Balanced(s) { PutActivateBalances(s, a); PutDeactivateBalances(t, a); }
    WrappedUnder(open, a, s, shot, t);
    assert t.lines[..|s.lines|] == t.lines[..|s1.lines|][..|s.lines|];
    DeclaredActivate(s, shot, a);
    DeclaredDeactivate(t, shot, a);
  }

  lemma WrappedUnder(open: multiset<Alias>, a: Alias, s: State, shot: Shot, t: State)
    ensures Under(open, s, shot) ==> Under(open + multiset{a}, PutActivate(s, a), shot)
    ensures Under(open + multiset{a}, t, shot) ==> Under(open, PutDeactivate(t, a), shot)
  {
    ActivateCounts(s, a);
    DeactivateCounts(t, a);
  }

  lemma ActivateCounts(s: State, a: Alias)
    ensures forall b :: ActiveOf(PutActivate(s, a), b) == ActiveOf(s, b) + if b == a then 1 else 0
  {
  }

  lemma DeclaredActivate(s: State, shot: Shot, a: Alias)
    requires Declared(s, shot) ==> a < |s.symbols|
    ensures Declared(s, shot) ==> Declared(PutActivate(s, a), shot)
  {
  }

  lemma DeclaredDeactivate(s: State, shot: Shot, a: Alias)
    ensures Declared(s, shot) && a < |s.symbols| ==> Declared(PutDeactivate(s, a), shot)
  {
  }

  /** The note and the reply of an endpoint that is not expanded. */
  lemma RemarksKeep(open: multiset<Alias>, v: Visit, hidden: bool, payload: string, uptos: map<string, string>, s: State, shot: Shot)
    requires Known(s, v)
    ensures var agent, key := AliasOf(s, v.app), KeyOf(v.app, v.ep);
      var s1 := if key in uptos && uptos[key] != "" then Put(s, Note(agent, uptos[key])) else s;
      var s2 := if hidden then s1 else Put(s1, Reply(SenderOf(s1, v), agent, payload));
      Keeps(open, s, shot, s2, shot) && s2.ind == s.ind
  {
    var agent, key := AliasOf(s, v.app), KeyOf(v.app, v.ep);
    var s1 := if key in uptos && uptos[key] != "" then Put(s, Note(agent, uptos[key])) else s;
    if Declared(s, shot) { KnownAliases(s, shot, v); }
    if s1 != s { PutKeeps(open, s, shot, Note(agent, uptos[key])); }
    PutKeeps(open, s1, shot, Reply(SenderOf(s1, v), agent, payload));
    KeepsTrans(open, s, shot, s1, shot, Put(s1, Reply(SenderOf(s1, v), agent, payload)), shot);
  }

  lemma CutKeeps(open: multiset<Alias>, v: Visit, hidden: bool, payload: string, uptos: map<string, string>, s: State, shot: Shot)
    requires Known(s, v)
    ensures Returns(open, s, shot, Done(Cut(v, hidden, payload, uptos, s), shot))
  {
    var agent, key := AliasOf(s, v.app), KeyOf(v.app, v.ep);
    if Declared(s, shot) { KnownAliases(s, shot, v); }
    if payload == "" {
      if key in uptos { PutKeeps(open, s, shot, Note(agent, uptos[key])); }
    } else if key in uptos {
      CutAtUpto(open, v, hidden, payload, uptos, s, shot);
    } else {
      RemarksKeep(open, v, hidden, payload, uptos, s, shot);
      var s3 := if hidden then s else Put(s, Reply(SenderOf(s, v), agent, payload));
      PutDeactivateKeeps(open, s3, shot, agent);
      KeepsTrans(open, s, shot, s3, shot, PutDeactivate(s3, agent), shot);
    }
  }

  lemma CutAtUpto(open: multiset<Alias>, v: Visit, hidden: bool, payload: string, uptos: map<string, string>, s: State, shot: Shot)
    requires Known(s, v) && KeyOf(v.app, v.ep) in uptos && payload != ""
    requires Declared(s, shot) ==> AliasOf(s, v.app) < |s.symbols|
    ensures Returns(open, s, shot, Done(Cut(v, hidden, payload, uptos, s), shot))
  {
    var agent, key := AliasOf(s, v.app), KeyOf(v.app, v.ep);
    var s1 := PutActivate(s, agent);
    RemarksKeep(open + multiset{agent}, v, hidden, payload, uptos, s1, shot);
    var s2 := if uptos[key] != "" then Put(s1, Note(agent, uptos[key])) else s1;
    var s3 := if hidden then s2 else Put(s2, Reply(SenderOf(s2, v), agent, payload));
    Wrapped(open, agent, s, shot, s3);
  }

  /** A body run under its own activation, which is then ended unless it was already. */
  lemma BodyReturns(open: multiset<Alias>, app: App, agent: Alias, s: State, shot: Shot, t: State, own: Shot)
    requires Declared(s, shot) ==> agent < |s.symbols|
    requires var begun := Begin(app, s, agent); Keeps(Held(open, shot), begun.s, begun.shot, t, own)
    ensures Keeps(open, s, shot, Fire(t, own).s, shot)
  {
    var begun, up := Begin(app, s, agent), Held(open, shot);
    HeldIs(open, s, shot);
    FireKeeps(up, t, own);
    var u := Fire(t, own).s;
    HeldIs(open, u, shot);
    if Balanced(s) { PutActivateBalances(s, agent); }
    ActivateCounts(s, agent);
    assert Under(up, s, NoShot) ==> Under(up, begun.s, begun.shot);
    DeclaredActivate(s, shot, agent);
    assert u.lines[..|s.lines|] == u.lines[..|t.lines|][..|begun.s.lines|][..|s.lines|];
  }

  // ---- all runs ----------------------------------------------------------------

  lemma {:induction false} EndpointReturns(open: multiset<Alias>, d: Diagram, uptos: map<string, string>, v: Visit, visited: set<string>, s: State, shot: Shot)
    ensures Returns(open, s, shot, VisitEndpoint(d, uptos, v, visited, s, shot))
    decreases AllKeys(d.m) - visited, 0, 2
  {
    if HasEndpoint(d.m, v.app, v.ep) {
      var payload := d.format(ReturnPayload(d.m[v.app].eps[v.ep].stmts));
      var arrived := EndCaller(v, payload, Arrive(d, v, Introduced(s, v)), shot);
      MeetReturns(open, d, v, payload, s, shot);
      AnswerReturns(open, d, uptos, v, payload, visited, arrived.s, arrived.shot);
      var answer := Answer(d, uptos, v, payload, visited, arrived.s);
      if answer.Done? { KeepsTrans(open, s, shot, arrived.s, arrived.shot, answer.s, arrived.shot); }
    }
  }

  lemma {:induction false} AnswerReturns(open: multiset<Alias>, d: Diagram, uptos: map<string, string>, v: Visit, payload: string, visited: set<string>, s: State, shot: Shot)
    requires HasEndpoint(d.m, v.app, v.ep) && Known(s, v)
    ensures var o := Answer(d, uptos, v, payload, visited, s); o.Done? ==> Returns(open, s, shot, Done(o.s, shot))
    decreases AllKeys(d.m) - visited, 0, 1
  {
    var ep, key := d.m[v.app].eps[v.ep], KeyOf(v.app, v.ep);
    if ep.stmts != [] {
      if key in uptos || key in visited {
        CutKeeps(open, v, ep.hidden, payload, uptos, s, shot);
      } else {
        ExpandReturns(open, d, uptos, v, ep.stmts, visited, s, shot);
      }
    }
  }

  lemma {:induction false} ExpandReturns(open: multiset<Alias>, d: Diagram, uptos: map<string, string>, v: Visit, stmts: seq<Stmt>, visited: set<string>, s: State, shot: Shot)
    requires HasEndpoint(d.m, v.app, v.ep) && KeyOf(v.app, v.ep) !in visited && Known(s, v)
    ensures var o := Expand(d, uptos, v, stmts, visited, s); o.Done? ==> Returns(open, s, shot, Done(o.s, shot))
    decreases AllKeys(d.m) - visited, 0, 0
  {
    var key, agent := KeyOf(v.app, v.ep), AliasOf(s, v.app);
    var begun := Begin(d.m[v.app], s, agent);
    FewerLeft(d.m, v.app, v.ep, visited);
    StmtsReturn(Held(open, shot), d, uptos, v, stmts, true, visited + {key}, begun.s, begun.shot);
    var body := VisitStmts(d, uptos, v, stmts, true, visited + {key}, begun.s, begun.shot);
    if body.Done? {
      if Declared(s, shot) { KnownAliases(s, shot, v); }
      BodyReturns(open, d.m[v.app], agent, s, shot, body.s, body.shot);
      FireKeeps(open, body.s, body.shot);
    }
  }

  lemma {:induction false} StmtsReturn(open: multiset<Alias>, d: Diagram, uptos: map<string, string>, v: Visit, stmts: seq<Stmt>, lastParent: bool, visited: set<string>, s: State, shot: Shot)
    requires Known(s, v)
    ensures Returns(open, s, shot, VisitStmts(d, uptos, v, stmts, lastParent, visited, s, shot))
    decreases AllKeys(d.m) - visited, 1, stmts, 0
  {
    if stmts != [] {
      StmtReturns(open, d, uptos, v, stmts[0], lastParent && |stmts| == 1, visited, s, shot);
      var r := VisitStmt(d, uptos, v, stmts[0], lastParent && |stmts| == 1, visited, s, shot);
      if r.Done? {
        KnownLater(open, s, shot, r.s, r.shot, v);
        StmtsReturn(open, d, uptos, v, stmts[1..], lastParent, visited, r.s, r.shot);
        var o := VisitStmts(d, uptos, v, stmts[1..], lastParent, visited, r.s, r.shot);
        if o.Done? { KeepsTrans(open, s, shot, r.s, r.shot, o.s, o.shot); }
      }
    }
  }

  lemma EndReturns(open: multiset<Alias>, s: State, shot: Shot, o: Out)
    requires Returns(open, s, shot, o)
    ensures Returns(open, s, shot, PutEnd(o))
  {
    if o.Done? {
      PutKeeps(open, o.s, o.shot, End);
      KeepsTrans(open, s, shot, o.s, o.shot, Put(o.s, End), o.shot);
    }
  }

  lemma IndentReturns(open: multiset<Alias>, s: State, shot: Shot, o: Out)
    requires Returns(open, Indent(s), shot, o)
    ensures Returns(open, s, shot, Unindent(o)) && (o.Done? ==> Unindent(o).Done?)
  {
    assert forall a :: ActiveOf(Indent(s), a) == ActiveOf(s, a);
    if o.Done? {
      assert forall a :: ActiveOf(Unindent(o).s, a) == ActiveOf(o.s, a);
    }
  }

  lemma {:induction false} StmtReturns(open: multiset<Alias>, d: Diagram, uptos: map<string, string>, v: Visit, stmt: Stmt, last: bool, visited: set<string>, s: State, shot: Shot)
    requires Known(s, v)
    ensures Returns(open, s, shot, VisitStmt(d, uptos, v, stmt, last, visited, s, shot))
    decreases AllKeys(d.m) - visited, 1, stmt, 0
  {
    match stmt
    case Call(app, ep) =>
      EndpointReturns(open, d, uptos, Visit([v.app], app, ep, last), visited, Indent(s), shot);
      IndentReturns(open, s, shot, VisitEndpoint(d, uptos, Visit([v.app], app, ep, last), visited, Indent(s), shot));
    case Action(text) =>
      if Declared(s, shot) { KnownAliases(s, shot, v); }
      PutKeeps(open, s, shot, Step(AliasOf(s, v.app), text));
    case Ret(payload) =>
      IntroducedKeeps(open, s, shot, v);
      if Declared(s, shot) { KnownAliases(s, shot, v); }
      PutKeeps(open, s, shot, Reply(SenderOf(s, v), AliasOf(s, v.app), d.format(payload)));
    case Block(_, stmts) =>
      BlockReturns(open, d, uptos, v, stmts, last, Open(false), visited, s, shot);
      EndReturns(open, s, shot, VisitBlock(d, uptos, v, stmts, last, Open(false), visited, s, shot));
    case Alt(choices) =>
      ChoicesReturn(open, d, uptos, v, choices, last, Open(true), visited, s, shot);
      EndReturns(open, s, shot, VisitChoices(d, uptos, v, choices, last, Open(true), visited, s, shot));
  }

  lemma {:induction false} BlockReturns(open: multiset<Alias>, d: Diagram, uptos: map<string, string>, v: Visit, stmts: seq<Stmt>, last: bool, header: Text, visited: set<string>, s: State, shot: Shot)
    requires Known(s, v) && (header.Open? || header.Else?)
    ensures Returns(open, s, shot, VisitBlock(d, uptos, v, stmts, last, header, visited, s, shot))
    decreases AllKeys(d.m) - visited, 1, stmts, 1
  {
    var s1 := Put(s, header);
    PutKeeps(open, s, shot, header);
    StmtsReturn(open, d, uptos, v, stmts, last, visited, Indent(s1), shot);
    IndentReturns(open, s1, shot, VisitStmts(d, uptos, v, stmts, last, visited, Indent(s1), shot));
    var o := VisitBlock(d, uptos, v, stmts, last, header, visited, s, shot);
    if o.Done? { KeepsTrans(open, s, shot, s1, shot, o.s, o.shot); }
  }

  lemma {:induction false} ChoicesReturn(open: multiset<Alias>, d: Diagram, uptos: map<string, string>, v: Visit, choices: seq<Choice>, last: bool, header: Text, visited: set<string>, s: State, shot: Shot)
    requires Known(s, v) && (header.Open? || header.Else?)
    ensures Returns(open, s, shot, VisitChoices(d, uptos, v, choices, last, header, visited, s, shot))
    decreases AllKeys(d.m) - visited, 1, choices, 0
  {
    if choices != [] {
      BlockReturns(open, d, uptos, v, choices[0].stmts, last && |choices| == 1, header, visited, s, shot);
      var r := VisitBlock(d, uptos, v, choices[0].stmts, last && |choices| == 1, header, visited, s, shot);
      if r.Done? {
        KnownLater(open, s, shot, r.s, r.shot, v);
        ChoicesReturn(open, d, uptos, v, choices[1..], last, Else, visited, r.s, r.shot);
        var o := VisitChoices(d, uptos, v, choices[1..], last, Else, visited, r.s, r.shot);
        if o.Done? { KeepsTrans(open, s, shot, r.s, r.shot, o.s, o.shot); }
      }
    }
  }
}
