/** What holds of every diagram the visitor writes. */
module SequenceTheorems {
  import opened CallTree
  import opened SequenceDiagram
  import opened SequenceBalance
  import opened SequenceRuns
  import opened SequenceBlocks

  const Start := State([], 0, map[], map[])

  /** One endpoint visited from outside, with nothing cut short. */
  function Show(d: Diagram, app: string, ep: string): Out {
    VisitEndpoint(d, map[], Visit([], app, ep, false), {}, Start, NoShot)
  }

  // ---- an alt without choices writes a lone end --------------------------------

  function Excess(lines: seq<Line>): int {
    if lines == [] then 0 else Excess(lines[..|lines| - 1]) + Surplus(lines[|lines| - 1].text)
  }

  function Surplus(text: Text): int {
    if text.Open? then -1 else if text.End? then 1 else 0
  }

  lemma {:induction false} NestedExcess(lines: seq<Line>)
    requires Nest(lines).Nested?
    ensures Excess(lines) == -|Nest(lines).frames|
    decreases |lines|
  {
    if lines != [] { NestedExcess(lines[..|lines| - 1]); }
  }

  lemma PutExcess(s: State, text: Text)
    ensures Excess(Put(s, text).lines) == Excess(s.lines) + Surplus(text)
  {
    var lines := s.lines + [Line(s.ind, text)];
    assert lines[..|lines| - 1] == s.lines;
  }

  ghost predicate NoLess(s: State, o: Out, n: int) {
    o.Done? ==> Excess(o.s.lines) >= Excess(s.lines) + n
  }

  lemma DeactivateExcess(s: State, a: Alias)
    ensures Excess(PutDeactivate(s, a).lines) == Excess(s.lines)
  {
    PutExcess(s, Deactivate(a));
  }

  lemma FireExcess(s: State, shot: Shot)
    ensures Fire(s, shot).Done? && Excess(Fire(s, shot).s.lines) == Excess(s.lines)
  {
    if shot.Shot? { DeactivateExcess(s, shot.agent); }
  }

  lemma ActivateExcess(s: State, a: Alias)
    ensures Excess(PutActivate(s, a).lines) == Excess(s.lines)
  {
    PutExcess(s, Activate(a));
  }

  lemma RemarksExcess(s: State, note: bool, a: Text, reply: bool, b: Text)
    requires Surplus(a) == 0 && Surplus(b) == 0
    ensures var s1 := if note then Put(s, a) else s;
      Excess((if reply then Put(s1, b) else s1).lines) == Excess(s.lines)
  {
    var s1 := if note then Put(s, a) else s;
    PutExcess(s, a);
    PutExcess(s1, b);
  }

  lemma CutExcess(v: Visit, hidden: bool, payload: string, uptos: map<string, string>, s: State)
    ensures Excess(Cut(v, hidden, payload, uptos, s).lines) == Excess(s.lines)
  {
    var agent, key := AliasOf(s, v.app), KeyOf(v.app, v.ep);
    if payload == "" {
      if key in uptos { PutExcess(s, Note(agent, uptos[key])); }
    } else {
      ActivateExcess(s, agent);
      var s1 := if key in uptos then PutActivate(s, agent) else s;
      var s2 := if key in uptos && uptos[key] != "" then Put(s1, Note(agent, uptos[key])) else s1;
      var s3 := if hidden then s2 else Put(s2, Reply(SenderOf(s2, v), agent, payload));
      RemarksExcess(s1, key in uptos && uptos[key] != "", Note(agent, if key in uptos then uptos[key] else ""), !hidden, Reply(SenderOf(s2, v), agent, payload));
      DeactivateExcess(s3, agent);
    }
  }

  lemma ArriveExcess(d: Diagram, v: Visit, s: State)
    requires HasEndpoint(d.m, v.app, v.ep)
    ensures Excess(Arrive(d, v, s).lines) == Excess(s.lines)
  {
    PutExcess(s, Message(SenderOf(s, v), AliasOf(s, v.app)));
  }

  lemma MeetExcess(d: Diagram, v: Visit, payload: string, s: State, shot: Shot)
    requires HasEndpoint(d.m, v.app, v.ep)
    ensures Excess(EndCaller(v, payload, Arrive(d, v, Introduced(s, v)), shot).s.lines) == Excess(s.lines)
  {
    var s1 := Introduced(s, v);
    assert s1.lines == s.lines;
    ArriveExcess(d, v, s1);
    FireExcess(Arrive(d, v, s1), shot);
  }

  lemma {:induction false} EndpointExcess(d: Diagram, uptos: map<string, string>, v: Visit, visited: set<string>, s: State, shot: Shot)
    requires HasEndpoint(d.m, v.app, v.ep)
    ensures NoLess(s, VisitEndpoint(d, uptos, v, visited, s, shot), 0)
    ensures KeyOf(v.app, v.ep) !in uptos && KeyOf(v.app, v.ep) !in visited ==>
      NoLess(s, VisitEndpoint(d, uptos, v, visited, s, shot), EmptyAlts(d.m[v.app].eps[v.ep].stmts))
    decreases AllKeys(d.m) - visited, 0, 2
  {
    var payload := d.format(ReturnPayload(d.m[v.app].eps[v.ep].stmts));
    MeetExcess(d, v, payload, s, shot);
    var met := EndCaller(v, payload, Arrive(d, v, Introduced(s, v)), shot).s;
    AnswerExcess(d, uptos, v, payload, visited, met);
    var answer := Answer(d, uptos, v, payload, visited, met);
    SameExcess(s, met, answer, 0);
    if KeyOf(v.app, v.ep) !in uptos && KeyOf(v.app, v.ep) !in visited { SameExcess(s, met, answer, EmptyAlts(d.m[v.app].eps[v.ep].stmts)); }
  }

  lemma SameExcess(s: State, met: State, o: Out, n: int)
    requires Excess(met.lines) == Excess(s.lines) && NoLess(met, o, n)
    ensures NoLess(s, o, n)
  {
  }

  lemma {:induction false} AnswerExcess(d: Diagram, uptos: map<string, string>, v: Visit, payload: string, visited: set<string>, s: State)
    requires HasEndpoint(d.m, v.app, v.ep)
    ensures NoLess(s, Answer(d, uptos, v, payload, visited, s), 0)
    ensures KeyOf(v.app, v.ep) !in uptos && KeyOf(v.app, v.ep) !in visited ==>
      NoLess(s, Answer(d, uptos, v, payload, visited, s), EmptyAlts(d.m[v.app].eps[v.ep].stmts))
    decreases AllKeys(d.m) - visited, 0, 1
  {
    var ep := d.m[v.app].eps[v.ep];
    CutExcess(v, ep.hidden, payload, uptos, s);
    if KeyOf(v.app, v.ep) !in visited { ExpandExcess(d, uptos, v, ep.stmts, visited, s); }
  }

  lemma {:induction false} ExpandExcess(d: Diagram, uptos: map<string, string>, v: Visit, stmts: seq<Stmt>, visited: set<string>, s: State)
    requires HasEndpoint(d.m, v.app, v.ep) && KeyOf(v.app, v.ep) !in visited
    ensures NoLess(s, Expand(d, uptos, v, stmts, visited, s), EmptyAlts(stmts))
    decreases AllKeys(d.m) - visited, 0, 0
  {
    var key, agent := KeyOf(v.app, v.ep), AliasOf(s, v.app);
    var begun := Begin(d.m[v.app], s, agent);
    ActivateExcess(s, agent);
    FewerLeft(d.m, v.app, v.ep, visited);
    StmtsExcess(d, uptos, v, stmts, true, visited + {key}, begun.s, begun.shot);
    var body := VisitStmts(d, uptos, v, stmts, true, visited + {key}, begun.s, begun.shot);
    if body.Done? { FireExcess(body.s, body.shot); }
  }

  lemma {:induction false} StmtsExcess(d: Diagram, uptos: map<string, string>, v: Visit, stmts: seq<Stmt>, lastParent: bool, visited: set<string>, s: State, shot: Shot)
    ensures NoLess(s, VisitStmts(d, uptos, v, stmts, lastParent, visited, s, shot), EmptyAlts(stmts))
    decreases AllKeys(d.m) - visited, 1, stmts, 0
  {
    if stmts != [] {
      StmtExcess(d, uptos, v, stmts[0], lastParent && |stmts| == 1, visited, s, shot);
      var r := VisitStmt(d, uptos, v, stmts[0], lastParent && |stmts| == 1, visited, s, shot);
      if r.Done? { StmtsExcess(d, uptos, v, stmts[1..], lastParent, visited, r.s, r.shot); }
    }
  }

  lemma ActionExcess(v: Visit, text: string, s: State)
    ensures Excess(Put(Named(s, v.app), Step(AliasOf(s, v.app), text)).lines) == Excess(s.lines)
  {
    var s1 := Named(s, v.app);
    PutExcess(s1, Step(AliasOf(s, v.app), text));
    assert s1.lines == s.lines;
  }

  lemma ReturnExcess(v: Visit, payload: string, s: State)
    ensures var s1 := Introduced(s, v); Excess(Put(s1, Reply(SenderOf(s1, v), AliasOf(s1, v.app), payload)).lines) == Excess(s.lines)
  {
    var s1 := Introduced(s, v);
    PutExcess(s1, Reply(SenderOf(s1, v), AliasOf(s1, v.app), payload));
    assert s1.lines == s.lines;
  }

  lemma EndExcess(o: Out)
    ensures o.Done? ==> PutEnd(o).Done? && Excess(PutEnd(o).s.lines) == Excess(o.s.lines) + 1
  {
    if o.Done? { PutExcess(o.s, End); }
  }

  lemma {:induction false} StmtExcess(d: Diagram, uptos: map<string, string>, v: Visit, stmt: Stmt, last: bool, visited: set<string>, s: State, shot: Shot)
    ensures NoLess(s, VisitStmt(d, uptos, v, stmt, last, visited, s, shot), EmptyAltsOf(stmt))
    decreases AllKeys(d.m) - visited, 1, stmt, 0
  {
    match stmt
    case Call(app, ep) =>
      if HasEndpoint(d.m, app, ep) { EndpointExcess(d, uptos, Visit([v.app], app, ep, last), visited, Indent(s), shot); }
    case Action(text) => ActionExcess(v, text, s);
    case Ret(payload) => ReturnExcess(v, d.format(payload), s);
    case Block(_, stmts) =>
      BlockExcess(d, uptos, v, stmts, last, Open(false), visited, s, shot);
      EndExcess(VisitBlock(d, uptos, v, stmts, last, Open(false), visited, s, shot));
    case Alt(choices) =>
      ChoicesExcess(d, uptos, v, choices, last, Open(true), visited, s, shot);
      EndExcess(VisitChoices(d, uptos, v, choices, last, Open(true), visited, s, shot));
  }

  lemma {:induction false} BlockExcess(d: Diagram, uptos: map<string, string>, v: Visit, stmts: seq<Stmt>, last: bool, header: Text, visited: set<string>, s: State, shot: Shot)
    ensures NoLess(s, VisitBlock(d, uptos, v, stmts, last, header, visited, s, shot), EmptyAlts(stmts) + Surplus(header))
    decreases AllKeys(d.m) - visited, 1, stmts, 1
  {
    PutExcess(s, header);
    StmtsExcess(d, uptos, v, stmts, last, visited, Indent(Put(s, header)), shot);
  }

  lemma {:induction false} ChoicesExcess(d: Diagram, uptos: map<string, string>, v: Visit, choices: seq<Choice>, last: bool, header: Text, visited: set<string>, s: State, shot: Shot)
    ensures NoLess(s, VisitChoices(d, uptos, v, choices, last, header, visited, s, shot),
                   if choices == [] then 0 else EmptyAltsIn(choices) + Surplus(header))
    decreases AllKeys(d.m) - visited, 1, choices, 0
  {
    if choices != [] {
      BlockExcess(d, uptos, v, choices[0].stmts, last && |choices| == 1, header, visited, s, shot);
      var r := VisitBlock(d, uptos, v, choices[0].stmts, last && |choices| == 1, header, visited, s, shot);
      if r.Done? { ChoicesExcess(d, uptos, v, choices[1..], last, Else, visited, r.s, r.shot); }
    }
  }

  /** Each block is closed by exactly one end, at the indent of its header, in the diagrams
      of all endpoints, exactly when no alt in the module is without choices. */
  lemma BlocksCloseIff(d: Diagram)
    requires Resolvable(d.m)
    ensures (forall a, e | HasEndpoint(d.m, a, e) :: Show(d, a, e).Done? && Nest(Show(d, a, e).s.lines) == Nested([])) <==> NoEmptyAlts(d.m)
  {
    forall a, e | HasEndpoint(d.m, a, e)
      ensures Show(d, a, e).Done?
      ensures NoEmptyAlts(d.m) ==> Nest(Show(d, a, e).s.lines) == Nested([])
      ensures Nest(Show(d, a, e).s.lines) == Nested([]) ==> EmptyAlts(d.m[a].eps[e].stmts) == 0
    {
      EndpointSucceeds(d, map[], Visit([], a, e, false), {}, Start, NoShot);
      if NoEmptyAlts(d.m) { EndpointNests(d, map[], Visit([], a, e, false), {}, Start, NoShot, []); }
      EndpointExcess(d, map[], Visit([], a, e, false), {}, Start, NoShot);
      if Nest(Show(d, a, e).s.lines) == Nested([]) { NestedExcess(Show(d, a, e).s.lines); }
    }
  }

  /** All endpoints can be shown exactly when every call has a target. */
  lemma ShowsIff(d: Diagram)
    ensures (forall a, e | HasEndpoint(d.m, a, e) :: Show(d, a, e).Done?) <==> Resolvable(d.m)
  {
    if Resolvable(d.m) {
      forall a, e | HasEndpoint(d.m, a, e) ensures Show(d, a, e).Done? {
        EndpointSucceeds(d, map[], Visit([], a, e, false), {}, Start, NoShot);
      }
    } else {
      var a, e :| a in d.m && e in d.m[a].eps && !AllResolve(d.m, d.m[a].eps[e].stmts);
      UnresolvedShown(d, a, e);
      assert HasEndpoint(d.m, a, e);
    }
  }

  lemma UnresolvedShown(d: Diagram, a: string, e: string)
    requires HasEndpoint(d.m, a, e) && !AllResolve(d.m, d.m[a].eps[e].stmts)
    ensures Show(d, a, e) == Panic
  {
    var v := Visit([], a, e, false);
    var ep := d.m[a].eps[e];
    var arrived := EndCaller(v, d.format(ReturnPayload(ep.stmts)), Arrive(d, v, Introduced(Start, v)), NoShot);
    var begun := Begin(d.m[a], arrived.s, AliasOf(arrived.s, a));
    assert ep.stmts != [];
    UnresolvedPanics(d, map[], v, ep.stmts, true, {} + {KeyOf(a, e)}, begun.s, begun.shot);
    assert Expand(d, map[], v, ep.stmts, {}, arrived.s) == Panic;
    assert Answer(d, map[], v, d.format(ReturnPayload(ep.stmts)), {}, arrived.s) == Panic;
  }

  // ---- which activations end early ---------------------------------------------

  /** The last thing the statements of `app` do, looking into blocks and the last choice of an
      alt, is a call of another app that returns nothing. */
  predicate EndsInCall(d: Diagram, app: string, stmts: seq<Stmt>)
    decreases stmts, 1
  {
    stmts != [] && StmtEndsInCall(d, app, stmts[|stmts| - 1])
  }

  predicate StmtEndsInCall(d: Diagram, app: string, stmt: Stmt)
    decreases stmt, 0
  {
    match stmt
    case Call(target, ep) => target != app && HasEndpoint(d.m, target, ep) && d.format(ReturnPayload(d.m[target].eps[ep].stmts)) == ""
    case Block(_, inner) => EndsInCall(d, app, inner)
    case Alt(choices) => choices != [] && EndsInCall(d, app, choices[|choices| - 1].stmts)
    case _ => false
  }

  lemma CallEndsCallerIff(d: Diagram, uptos: map<string, string>, v: Visit, app: string, ep: string, last: bool, visited: set<string>, s: State, agent: Alias, live: bool)
    ensures var o := VisitStmt(d, uptos, v, Call(app, ep), last, visited, s, Shot(agent, live));
      o.Done? ==> o.shot == Shot(agent, live && !(last && StmtEndsInCall(d, v.app, Call(app, ep))))
  {
    var w := Visit([v.app], app, ep, last);
    assert w.from == [w.app] <==> app == v.app;
  }

  /** What the one-shot closure of an activation is after its statements. */
  ghost predicate ShotAfter(o: Out, agent: Alias, live: bool, ended: bool) {
    o.Done? ==> o.shot == Shot(agent, live && !ended)
  }

  /** The activation of an endpoint is ended early, by a call on its own, exactly when its
      statements end in a call of another app that returns nothing. */
  lemma {:induction false} EndsEarlyIff(d: Diagram, uptos: map<string, string>, v: Visit, stmts: seq<Stmt>, lastParent: bool, visited: set<string>, s: State, agent: Alias, live: bool)
    ensures ShotAfter(VisitStmts(d, uptos, v, stmts, lastParent, visited, s, Shot(agent, live)), agent, live, lastParent && EndsInCall(d, v.app, stmts))
    decreases stmts, 1
  {
    if stmts != [] {
      StmtEndsEarlyIff(d, uptos, v, stmts[0], lastParent && |stmts| == 1, visited, s, agent, live);
      var r := VisitStmt(d, uptos, v, stmts[0], lastParent && |stmts| == 1, visited, s, Shot(agent, live));
      if r.Done? { EndsEarlyIff(d, uptos, v, stmts[1..], lastParent, visited, r.s, agent, r.shot.live); }
    }
  }

  lemma {:induction false} StmtEndsEarlyIff(d: Diagram, uptos: map<string, string>, v: Visit, stmt: Stmt, last: bool, visited: set<string>, s: State, agent: Alias, live: bool)
    ensures ShotAfter(VisitStmt(d, uptos, v, stmt, last, visited, s, Shot(agent, live)), agent, live, last && StmtEndsInCall(d, v.app, stmt))
    decreases stmt, 0
  {
    match stmt
    case Call(app, ep) => CallEndsCallerIff(d, uptos, v, app, ep, last, visited, s, agent, live);
    case Block(_, stmts) => EndsEarlyIff(d, uptos, v, stmts, last, visited, Indent(Put(s, Open(false))), agent, live);
    case Alt(choices) => ChoicesEndEarlyIff(d, uptos, v, choices, last, Open(true), visited, s, agent, live);
    case _ =>
  }

  lemma {:induction false} ChoicesEndEarlyIff(d: Diagram, uptos: map<string, string>, v: Visit, choices: seq<Choice>, last: bool, header: Text, visited: set<string>, s: State, agent: Alias, live: bool)
    ensures ShotAfter(VisitChoices(d, uptos, v, choices, last, header, visited, s, Shot(agent, live)), agent, live,
                      last && choices != [] && EndsInCall(d, v.app, choices[|choices| - 1].stmts))
    decreases choices, 0
  {
    if choices != [] {
      EndsEarlyIff(d, uptos, v, choices[0].stmts, last && |choices| == 1, visited, Indent(Put(s, header)), agent, live);
      var r := VisitBlock(d, uptos, v, choices[0].stmts, last && |choices| == 1, header, visited, s, Shot(agent, live));
      if r.Done? { ChoicesEndEarlyIff(d, uptos, v, choices[1..], last, Else, visited, r.s, agent, r.shot.live); }
    }
  }

  // ---- collections of endpoints ------------------------------------------------

  lemma EntryReturns(d: Diagram, uptos: map<string, string>, e: Entry, s: State)
    requires HasEndpoint(d.m, e.app, e.ep)
    ensures Returns(multiset{}, s, NoShot, VisitEntry(d, uptos, e, s))
    ensures Resolvable(d.m) ==> VisitEntry(d, uptos, e, s).Done?
  {
    var s1, v := Put(s, Header(e.app, e.ep)), Visit([], e.app, e.ep, false);
    PutKeeps(multiset{}, s, NoShot, Header(e.app, e.ep));
    EndpointReturns(multiset{}, d, uptos, v, {}, s1, NoShot);
    if Resolvable(d.m) { EndpointSucceeds(d, uptos, v, {}, s1, NoShot); }
    var r := VisitEntry(d, uptos, e, s);
    if r.Done? { KeepsTrans(multiset{}, s, NoShot, s1, NoShot, r.s, r.shot); }
  }

  lemma EntryGoesOn(d: Diagram, uptos: map<string, string>, e: Entry, start: State, s: State)
    requires HasEndpoint(d.m, e.app, e.ep) && Returns(multiset{}, start, NoShot, Done(s, NoShot))
    ensures Returns(multiset{}, start, NoShot, WithoutShot(VisitEntry(d, uptos, e, s)))
  {
    EntryReturns(d, uptos, e, s);
    var o := VisitEntry(d, uptos, e, s);
    if o.Done? { KeepsTrans(multiset{}, start, NoShot, s, NoShot, o.s, NoShot); }
  }

  lemma VisitReturns(d: Diagram, all: seq<Entry>, uptos: map<string, string>, i: nat, start: State, s: State)
    requires i < |all| && Returns(multiset{}, start, NoShot, Done(s, NoShot))
    ensures Returns(multiset{}, start, NoShot, WithoutShot(VisitAt(d, all, uptos, i, s)))
  {
    if HasEndpoint(d.m, all[i].app, all[i].ep) { EntryGoesOn(d, MarksAfter(all, uptos, i + 1), all[i], start, s); }
  }

  ghost function ReturnsFrom(start: State): Out -> bool {
    (o: Out) => Returns(multiset{}, start, NoShot, o)
  }

  lemma StepReturns(d: Diagram, all: seq<Entry>, uptos: map<string, string>, i: nat, start: State, s: State)
    requires i < |all|
    ensures KeptAt(EntryStep(d, all, uptos), ReturnsFrom(start), i, s)
  {
    if ReturnsFrom(start)(Done(s, NoShot)) { VisitReturns(d, all, uptos, i, start, s); }
  }

  /** The first `n` endpoints, and so all of them. */
  lemma CollectionReturns(d: Diagram, all: seq<Entry>, uptos: map<string, string>, n: nat, s: State)
    requires n <= |all|
    ensures Returns(multiset{}, s, NoShot, Steps(EntryStep(d, all, uptos), n, s))
  {
    forall i: nat, t | i < n ensures KeptAt(EntryStep(d, all, uptos), ReturnsFrom(s), i, t) {
      StepReturns(d, all, uptos, i, s, t);
    }
    StepsKeep(EntryStep(d, all, uptos), ReturnsFrom(s), n, s);
  }

  function ExistAt(d: Diagram, all: seq<Entry>): nat -> bool {
    (i: nat) => i < |all| && HasEndpoint(d.m, all[i].app, all[i].ep)
  }

  lemma StepSucceeds(d: Diagram, all: seq<Entry>, uptos: map<string, string>, i: nat, s: State)
    requires Resolvable(d.m) && i < |all|
    ensures OkAt(EntryStep(d, all, uptos), ExistAt(d, all), i, s)
  {
    if HasEndpoint(d.m, all[i].app, all[i].ep) { EntryReturns(d, MarksAfter(all, uptos, i + 1), all[i], s); }
  }

  lemma CollectionSucceeds(d: Diagram, all: seq<Entry>, uptos: map<string, string>, s: State)
    requires Resolvable(d.m)
    ensures VisitCollection(d, all, uptos, s).Done? <==> forall e | e in all :: HasEndpoint(d.m, e.app, e.ep)
  {
    forall i: nat, t | i < |all| ensures OkAt(EntryStep(d, all, uptos), ExistAt(d, all), i, t) { StepSucceeds(d, all, uptos, i, t); }
    StepsSucceed(EntryStep(d, all, uptos), ExistAt(d, all), |all|, s);
    AllExist(d, all);
  }

  lemma AllExist(d: Diagram, all: seq<Entry>)
    ensures (forall i: nat | i < |all| :: ExistAt(d, all)(i)) <==> forall e | e in all :: HasEndpoint(d.m, e.app, e.ep)
  {
    if forall i: nat | i < |all| :: ExistAt(d, all)(i) {
      forall e | e in all ensures HasEndpoint(d.m, e.app, e.ep) {
        var i: nat :| i < |all| && all[i] == e;
        assert ExistAt(d, all)(i);
      }
    }
  }

  ghost function NestsAtEnd(): Out -> bool {
    (o: Out) => o.Done? ==> At(o.s, [])
  }

  lemma StepNests(d: Diagram, all: seq<Entry>, uptos: map<string, string>, i: nat, s: State)
    requires NoEmptyAlts(d.m) && i < |all|
    ensures KeptAt(EntryStep(d, all, uptos), NestsAtEnd(), i, s)
  {
    var e, marks := all[i], MarksAfter(all, uptos, i + 1);
    if At(s, []) && HasEndpoint(d.m, e.app, e.ep) {
      PlainNests(s, Header(e.app, e.ep), []);
      EndpointNests(d, marks, Visit([], e.app, e.ep, false), {}, Put(s, Header(e.app, e.ep)), NoShot, []);
    }
  }

  lemma CollectionNests(d: Diagram, all: seq<Entry>, uptos: map<string, string>, s: State)
    requires NoEmptyAlts(d.m) && At(s, [])
    ensures var o := VisitCollection(d, all, uptos, s); o.Done? ==> At(o.s, [])
  {
    forall i: nat, t | i < |all| ensures KeptAt(EntryStep(d, all, uptos), NestsAtEnd(), i, t) {
      StepNests(d, all, uptos, i, t);
    }
    StepsKeep(EntryStep(d, all, uptos), NestsAtEnd(), |all|, s);
  }

  /** Every diagram: on all its prefixes and for every agent no more deactivations than
      activations, as many at the end; nothing left active, the indent back at 0, every
      alias declared once; and blocks closed when no alt lacks choices. */
  lemma DiagramsAreSafe(d: Diagram, entries: seq<Entry>, uptos: map<string, string>)
    ensures var o := VisitCollection(d, entries, uptos, Start);
      && (o.Done? ==>
            && o.s.ind == 0 && o.s.active == map[]
            && NeverNegative(o.s.lines) && (forall a {:trigger Net(o.s.lines, a)} :: Net(o.s.lines, a) == 0)
            && Numbered(o.s.symbols) && LinesBelow(o.s.lines, |o.s.symbols|)
            && (NoEmptyAlts(d.m) ==> Nest(o.s.lines) == Nested([])))
      && (Resolvable(d.m) ==> (o.Done? <==> forall e | e in entries :: HasEndpoint(d.m, e.app, e.ep)))
  {
    var o := VisitCollection(d, entries, uptos, Start);
    CollectionReturns(d, entries, uptos, |entries|, Start);
    if Resolvable(d.m) { CollectionSucceeds(d, entries, uptos, Start); }
    if NoEmptyAlts(d.m) { CollectionNests(d, entries, uptos, Start); }
    StartIsFine();
    if o.Done? { NothingActive(o.s); }
  }

  lemma StartIsFine()
    ensures Balanced(Start) && Declared(Start, NoShot) && Under(multiset{}, Start, NoShot)
  {
    assert forall k | 0 <= k <= |Start.lines| :: Start.lines[..k] == [];
  }

  lemma NothingActive(s: State)
    requires Balanced(s) && Under(multiset{}, s, NoShot)
    ensures s.active == map[] && forall a {:trigger Net(s.lines, a)} :: Net(s.lines, a) == 0
  {
    forall a ensures a !in s.active { assert ActiveOf(s, a) <= 0; }
    forall a {:trigger Net(s.lines, a)} ensures Net(s.lines, a) == 0 { assert ActiveOf(s, a) <= 0; }
  }
}
