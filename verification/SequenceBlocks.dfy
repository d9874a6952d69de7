/** When a visit gets through, and how its lines nest. */
module SequenceBlocks {
  import opened CallTree
  import opened SequenceDiagram
  import opened SequenceBalance
  import opened SequenceRuns

  // ---- calls that resolve ------------------------------------------------------

  lemma CallsOfFirst(m: Module, stmts: seq<Stmt>)
    requires stmts != []
    ensures AllResolve(m, stmts) <==> (forall c | c in CallsOf(stmts[0]) :: Resolves(m, c)) && AllResolve(m, stmts[1..])
  {
    assert CallsIn(stmts) == CallsOf(stmts[0]) + CallsIn(stmts[1..]);
  }

  ghost predicate StmtResolves(m: Module, stmt: Stmt) {
    forall c | c in CallsOf(stmt) :: Resolves(m, c)
  }

  ghost predicate ChoicesResolve(m: Module, choices: seq<Choice>) {
    forall c | c in CallsInChoices(choices) :: Resolves(m, c)
  }

  lemma ChoicesOfFirst(m: Module, choices: seq<Choice>)
    requires choices != []
    ensures ChoicesResolve(m, choices) <==> AllResolve(m, choices[0].stmts) && ChoicesResolve(m, choices[1..])
  {
    assert CallsInChoices(choices) == CallsIn(choices[0].stmts) + CallsInChoices(choices[1..]);
  }

  /** When all calls resolve, every visit gets through, also along cycles of calls. */
  lemma {:induction false} EndpointSucceeds(d: Diagram, uptos: map<string, string>, v: Visit, visited: set<string>, s: State, shot: Shot)
    requires Resolvable(d.m) && HasEndpoint(d.m, v.app, v.ep)
    ensures VisitEndpoint(d, uptos, v, visited, s, shot).Done?
    decreases AllKeys(d.m) - visited, 0, 1
  {
    var ep := d.m[v.app].eps[v.ep];
    var payload := d.format(ReturnPayload(ep.stmts));
    var arrived := EndCaller(v, payload, Arrive(d, v, Introduced(s, v)), shot);
    MeetReturns(multiset{}, d, v, payload, s, shot);
    if KeyOf(v.app, v.ep) !in visited {
      assert AllResolve(d.m, ep.stmts);
      ExpandSucceeds(d, uptos, v, ep.stmts, visited, arrived.s);
    }
  }

  lemma {:induction false} ExpandSucceeds(d: Diagram, uptos: map<string, string>, v: Visit, stmts: seq<Stmt>, visited: set<string>, s: State)
    requires Resolvable(d.m) && HasEndpoint(d.m, v.app, v.ep) && KeyOf(v.app, v.ep) !in visited
    requires AllResolve(d.m, stmts) && Known(s, v)
    ensures Expand(d, uptos, v, stmts, visited, s).Done?
    decreases AllKeys(d.m) - visited, 0, 0
  {
    var key := KeyOf(v.app, v.ep);
    var begun := Begin(d.m[v.app], s, AliasOf(s, v.app));
    FewerLeft(d.m, v.app, v.ep, visited);
    StmtsSucceed(d, uptos, v, stmts, true, visited + {key}, begun.s, begun.shot);
    FireKeeps(multiset{}, VisitStmts(d, uptos, v, stmts, true, visited + {key}, begun.s, begun.shot).s, VisitStmts(d, uptos, v, stmts, true, visited + {key}, begun.s, begun.shot).shot);
  }

  lemma {:induction false} StmtsSucceed(d: Diagram, uptos: map<string, string>, v: Visit, stmts: seq<Stmt>, lastParent: bool, visited: set<string>, s: State, shot: Shot)
    requires Resolvable(d.m) && AllResolve(d.m, stmts) && Known(s, v)
    ensures VisitStmts(d, uptos, v, stmts, lastParent, visited, s, shot).Done?
    decreases AllKeys(d.m) - visited, 1, stmts, 0
  {
    if stmts != [] {
      CallsOfFirst(d.m, stmts);
      StmtSucceeds(d, uptos, v, stmts[0], lastParent && |stmts| == 1, visited, s, shot);
      StmtReturns(multiset{}, d, uptos, v, stmts[0], lastParent && |stmts| == 1, visited, s, shot);
      var r := VisitStmt(d, uptos, v, stmts[0], lastParent && |stmts| == 1, visited, s, shot);
      KnownLater(multiset{}, s, shot, r.s, r.shot, v);
      StmtsSucceed(d, uptos, v, stmts[1..], lastParent, visited, r.s, r.shot);
    }
  }

  lemma {:induction false} StmtSucceeds(d: Diagram, uptos: map<string, string>, v: Visit, stmt: Stmt, last: bool, visited: set<string>, s: State, shot: Shot)
    requires Resolvable(d.m) && StmtResolves(d.m, stmt) && Known(s, v)
    ensures VisitStmt(d, uptos, v, stmt, last, visited, s, shot).Done?
    decreases AllKeys(d.m) - visited, 1, stmt, 0
  {
    match stmt
    case Call(app, ep) =>
      assert Resolves(d.m, stmt);
      EndpointSucceeds(d, uptos, Visit([v.app], app, ep, last), visited, Indent(s), shot);
      EndpointReturns(multiset{}, d, uptos, Visit([v.app], app, ep, last), visited, Indent(s), shot);
    case Block(_, stmts) => BlockSucceeds(d, uptos, v, stmts, last, Open(false), visited, s, shot);
    case Alt(choices) => ChoicesSucceed(d, uptos, v, choices, last, Open(true), visited, s, shot);
    case _ =>
  }

  lemma {:induction false} BlockSucceeds(d: Diagram, uptos: map<string, string>, v: Visit, stmts: seq<Stmt>, last: bool, header: Text, visited: set<string>, s: State, shot: Shot)
    requires Resolvable(d.m) && AllResolve(d.m, stmts) && Known(s, v)
    ensures VisitBlock(d, uptos, v, stmts, last, header, visited, s, shot).Done?
    decreases AllKeys(d.m) - visited, 1, stmts, 1
  {
    var s1 := Indent(Put(s, header));
    StmtsSucceed(d, uptos, v, stmts, last, visited, s1, shot);
    StmtsReturn(multiset{}, d, uptos, v, stmts, last, visited, s1, shot);
  }

  lemma {:induction false} ChoicesSucceed(d: Diagram, uptos: map<string, string>, v: Visit, choices: seq<Choice>, last: bool, header: Text, visited: set<string>, s: State, shot: Shot)
    requires Resolvable(d.m) && ChoicesResolve(d.m, choices) && Known(s, v) && (header.Open? || header.Else?)
    ensures VisitChoices(d, uptos, v, choices, last, header, visited, s, shot).Done?
    decreases AllKeys(d.m) - visited, 1, choices, 0
  {
    if choices != [] {
      ChoicesOfFirst(d.m, choices);
      BlockSucceeds(d, uptos, v, choices[0].stmts, last && |choices| == 1, header, visited, s, shot);
      BlockReturns(multiset{}, d, uptos, v, choices[0].stmts, last && |choices| == 1, header, visited, s, shot);
      var r := VisitBlock(d, uptos, v, choices[0].stmts, last && |choices| == 1, header, visited, s, shot);
      KnownLater(multiset{}, s, shot, r.s, r.shot, v);
      ChoicesSucceed(d, uptos, v, choices[1..], last, Else, visited, r.s, r.shot);
    }
  }

  /** A call without a target, however deep in the statements, is always met. */
  lemma {:induction false} UnresolvedPanics(d: Diagram, uptos: map<string, string>, v: Visit, stmts: seq<Stmt>, lastParent: bool, visited: set<string>, s: State, shot: Shot)
    requires !AllResolve(d.m, stmts)
    ensures VisitStmts(d, uptos, v, stmts, lastParent, visited, s, shot) == Panic
    decreases stmts
  {
    OnlyCalls(stmts);
    CallsOfFirst(d.m, stmts);
    if StmtResolves(d.m, stmts[0]) {
      var r := VisitStmt(d, uptos, v, stmts[0], lastParent && |stmts| == 1, visited, s, shot);
      if r.Done? { UnresolvedPanics(d, uptos, v, stmts[1..], lastParent, visited, r.s, r.shot); }
    } else {
      UnresolvedStmtPanics(d, uptos, v, stmts[0], lastParent && |stmts| == 1, visited, s, shot);
    }
  }

  lemma {:induction false} UnresolvedStmtPanics(d: Diagram, uptos: map<string, string>, v: Visit, stmt: Stmt, last: bool, visited: set<string>, s: State, shot: Shot)
    requires !StmtResolves(d.m, stmt)
    ensures VisitStmt(d, uptos, v, stmt, last, visited, s, shot) == Panic
    decreases stmt
  {
    match stmt
    case Call(app, ep) => assert !HasEndpoint(d.m, app, ep);
    case Block(_, stmts) => UnresolvedPanics(d, uptos, v, stmts, last, visited, Indent(Put(s, Open(false))), shot);
    case Alt(choices) => UnresolvedChoicePanics(d, uptos, v, choices, last, Open(true), visited, s, shot);
    case _ =>
  }

  lemma {:induction false} UnresolvedChoicePanics(d: Diagram, uptos: map<string, string>, v: Visit, choices: seq<Choice>, last: bool, header: Text, visited: set<string>, s: State, shot: Shot)
    requires !ChoicesResolve(d.m, choices)
    ensures VisitChoices(d, uptos, v, choices, last, header, visited, s, shot) == Panic
    decreases choices
  {
    ChoicesOfFirst(d.m, choices);
    if AllResolve(d.m, choices[0].stmts) {
      var r := VisitBlock(d, uptos, v, choices[0].stmts, last && |choices| == 1, header, visited, s, shot);
      if r.Done? { UnresolvedChoicePanics(d, uptos, v, choices[1..], last, Else, visited, r.s, r.shot); }
    } else {
      UnresolvedPanics(d, uptos, v, choices[0].stmts, last && |choices| == 1, visited, Indent(Put(s, header)), shot);
    }
  }

  // ---- how lines nest ----------------------------------------------------------

  /** A block that is open: the indent of its header, and whether it is an alt. */
  datatype Frame = Frame(ind: nat, alt: bool)

  datatype Nesting = Broken | Nested(frames: seq<Frame>)

  predicate Inside(frames: seq<Frame>, ind: nat) {
    frames == [] || frames[|frames| - 1].ind < ind
  }

  /** Lines of a block are indented deeper than its header; else and end stand where their
      header does, and else only in an alt. */
  function NestLine(frames: seq<Frame>, line: Line): Nesting {
    match line.text
    case Open(alt) => if Inside(frames, line.ind) then Nested(frames + [Frame(line.ind, alt)]) else Broken
    case Else => if frames != [] && frames[|frames| - 1] == Frame(line.ind, true) then Nested(frames) else Broken
    case End => if frames != [] && frames[|frames| - 1].ind == line.ind then Nested(frames[..|frames| - 1]) else Broken
    case _ => if Inside(frames, line.ind) then Nested(frames) else Broken
  }

  /** The blocks still open after the lines. */
  function Nest(lines: seq<Line>): Nesting {
    if lines == [] then Nested([])
    else
      var before := Nest(lines[..|lines| - 1]);
      if before.Broken? then Broken else NestLine(before.frames, lines[|lines| - 1])
  }

  ghost predicate At(s: State, frames: seq<Frame>) {
    Nest(s.lines) == Nested(frames) && Inside(frames, s.ind)
  }

  lemma PutNests(s: State, text: Text)
    ensures Nest(Put(s, text).lines) == if Nest(s.lines).Broken? then Broken else NestLine(Nest(s.lines).frames, Line(s.ind, text))
  {
    var lines := s.lines + [Line(s.ind, text)];
    assert lines[..|lines| - 1] == s.lines;
  }

  predicate Plain(text: Text) {
    !text.Open? && !text.Else? && !text.End?
  }

  lemma PlainNests(s: State, text: Text, frames: seq<Frame>)
    requires At(s, frames) && Plain(text)
    ensures At(Put(s, text), frames)
  {
    PutNests(s, text);
  }

  lemma FireNests(s: State, shot: Shot, frames: seq<Frame>)
    requires At(s, frames)
    ensures At(Fire(s, shot).s, frames)
  {
    if shot.Shot? { DeactivateNests(s, shot.agent, frames); }
  }

  lemma DeactivateNests(s: State, a: Alias, frames: seq<Frame>)
    requires At(s, frames)
    ensures At(PutDeactivate(s, a), frames)
  {
    PlainNests(s, Deactivate(a), frames);
  }

  lemma ActivateNests(s: State, a: Alias, frames: seq<Frame>)
    requires At(s, frames)
    ensures At(PutActivate(s, a), frames)
  {
    PlainNests(s, Activate(a), frames);
  }

  lemma CutNests(v: Visit, hidden: bool, payload: string, uptos: map<string, string>, s: State, frames: seq<Frame>)
    requires At(s, frames)
    ensures At(Cut(v, hidden, payload, uptos, s), frames)
  {
    var agent, key := AliasOf(s, v.app), KeyOf(v.app, v.ep);
    if payload == "" {
      if key in uptos { PlainNests(s, Note(agent, uptos[key]), frames); }
    } else {
      var s1 := if key in uptos then PutActivate(s, agent) else s;
      ActivateNests(s, agent, frames);
      var s2 := if key in uptos && uptos[key] != "" then Put(s1, Note(agent, uptos[key])) else s1;
      if s2 != s1 { PlainNests(s1, Note(agent, uptos[key]), frames); }
      PlainNests(s2, Reply(SenderOf(s2, v), agent, payload), frames);
      DeactivateNests(if hidden then s2 else Put(s2, Reply(SenderOf(s2, v), agent, payload)), agent, frames);
    }
  }

  lemma MeetNests(d: Diagram, v: Visit, payload: string, s: State, shot: Shot, frames: seq<Frame>)
    requires HasEndpoint(d.m, v.app, v.ep) && At(s, frames)
    ensures At(EndCaller(v, payload, Arrive(d, v, Introduced(s, v)), shot).s, frames)
  {
    var s1 := Introduced(s, v);
    PlainNests(s1, Message(SenderOf(s1, v), AliasOf(s1, v.app)), frames);
    FireNests(Arrive(d, v, s1), shot, frames);
  }

  // ---- alts without choices ----------------------------------------------------

  function EmptyAlts(stmts: seq<Stmt>): nat {
    if stmts == [] then 0 else EmptyAltsOf(stmts[0]) + EmptyAlts(stmts[1..])
  }

  function EmptyAltsOf(stmt: Stmt): nat {
    match stmt
    case Block(_, stmts) => EmptyAlts(stmts)
    case Alt(choices) => if choices == [] then 1 else EmptyAltsIn(choices)
    case _ => 0
  }

  function EmptyAltsIn(choices: seq<Choice>): nat {
    if choices == [] then 0 else EmptyAlts(choices[0].stmts) + EmptyAltsIn(choices[1..])
  }

  predicate NoEmptyAlts(m: Module) {
    forall a, e | a in m && e in m[a].eps :: EmptyAlts(m[a].eps[e].stmts) == 0
  }

  // ---- without them, every visit keeps the nesting -----------------------------

  lemma {:induction false} EndpointNests(d: Diagram, uptos: map<string, string>, v: Visit, visited: set<string>, s: State, shot: Shot, frames: seq<Frame>)
    requires NoEmptyAlts(d.m) && At(s, frames)
    ensures var o := VisitEndpoint(d, uptos, v, visited, s, shot); o.Done? ==> At(o.s, frames)
    decreases AllKeys(d.m) - visited, 0, 2
  {
    if HasEndpoint(d.m, v.app, v.ep) {
      var payload := d.format(ReturnPayload(d.m[v.app].eps[v.ep].stmts));
      MeetNests(d, v, payload, s, shot, frames);
      MeetReturns(multiset{}, d, v, payload, s, shot);
      AnswerNests(d, uptos, v, payload, visited, EndCaller(v, payload, Arrive(d, v, Introduced(s, v)), shot).s, frames);
    }
  }

  lemma {:induction false} AnswerNests(d: Diagram, uptos: map<string, string>, v: Visit, payload: string, visited: set<string>, s: State, frames: seq<Frame>)
    requires NoEmptyAlts(d.m) && HasEndpoint(d.m, v.app, v.ep) && Known(s, v) && At(s, frames)
    ensures var o := Answer(d, uptos, v, payload, visited, s); o.Done? ==> At(o.s, frames)
    decreases AllKeys(d.m) - visited, 0, 1
  {
    var ep := d.m[v.app].eps[v.ep];
    CutNests(v, ep.hidden, payload, uptos, s, frames);
    if KeyOf(v.app, v.ep) !in visited { ExpandNests(d, uptos, v, ep.stmts, visited, s, frames); }
  }

  lemma {:induction false} ExpandNests(d: Diagram, uptos: map<string, string>, v: Visit, stmts: seq<Stmt>, visited: set<string>, s: State, frames: seq<Frame>)
    requires NoEmptyAlts(d.m) && HasEndpoint(d.m, v.app, v.ep) && KeyOf(v.app, v.ep) !in visited
    requires EmptyAlts(stmts) == 0 && At(s, frames) && Known(s, v)
    ensures var o := Expand(d, uptos, v, stmts, visited, s); o.Done? ==> At(o.s, frames)
    decreases AllKeys(d.m) - visited, 0, 0
  {
    var key := KeyOf(v.app, v.ep);
    var begun := Begin(d.m[v.app], s, AliasOf(s, v.app));
    ActivateNests(s, AliasOf(s, v.app), frames);
    FewerLeft(d.m, v.app, v.ep, visited);
    StmtsNest(d, uptos, v, stmts, true, visited + {key}, begun.s, begun.shot, frames);
    var body := VisitStmts(d, uptos, v, stmts, true, visited + {key}, begun.s, begun.shot);
    if body.Done? { FireNests(body.s, body.shot, frames); }
  }

  lemma {:induction false} StmtsNest(d: Diagram, uptos: map<string, string>, v: Visit, stmts: seq<Stmt>, lastParent: bool, visited: set<string>, s: State, shot: Shot, frames: seq<Frame>)
    requires NoEmptyAlts(d.m) && EmptyAlts(stmts) == 0 && At(s, frames) && Known(s, v)
    ensures var o := VisitStmts(d, uptos, v, stmts, lastParent, visited, s, shot); o.Done? ==> At(o.s, frames)
    decreases AllKeys(d.m) - visited, 1, stmts, 0
  {
    if stmts != [] {
      StmtNests(d, uptos, v, stmts[0], lastParent && |stmts| == 1, visited, s, shot, frames);
      StmtReturns(multiset{}, d, uptos, v, stmts[0], lastParent && |stmts| == 1, visited, s, shot);
      var r := VisitStmt(d, uptos, v, stmts[0], lastParent && |stmts| == 1, visited, s, shot);
      if r.Done? {
        KnownLater(multiset{}, s, shot, r.s, r.shot, v);
        StmtsNest(d, uptos, v, stmts[1..], lastParent, visited, r.s, r.shot, frames);
      }
    }
  }

  lemma EndNests(s: State, shot: Shot, o: Out, frames: seq<Frame>, alt: bool)
    requires Inside(frames, s.ind) && Returns(multiset{}, s, shot, o)
    requires o.Done? ==> Nest(o.s.lines) == Nested(frames + [Frame(s.ind, alt)])
    ensures o.Done? ==> At(PutEnd(o).s, frames)
  {
    if o.Done? {
      PutNests(o.s, End);
      var inner := frames + [Frame(s.ind, alt)];
      assert inner[..|inner| - 1] == frames;
    }
  }

  lemma {:induction false} StmtNests(d: Diagram, uptos: map<string, string>, v: Visit, stmt: Stmt, last: bool, visited: set<string>, s: State, shot: Shot, frames: seq<Frame>)
    requires NoEmptyAlts(d.m) && EmptyAltsOf(stmt) == 0 && At(s, frames) && Known(s, v)
    ensures var o := VisitStmt(d, uptos, v, stmt, last, visited, s, shot); o.Done? ==> At(o.s, frames)
    decreases AllKeys(d.m) - visited, 1, stmt, 0
  {
    match stmt
    case Call(app, ep) =>
      EndpointNests(d, uptos, Visit([v.app], app, ep, last), visited, Indent(s), shot, frames);
      EndpointReturns(multiset{}, d, uptos, Visit([v.app], app, ep, last), visited, Indent(s), shot);
    case Action(text) => PlainNests(s, Step(AliasOf(s, v.app), text), frames);
    case Ret(payload) =>
      PlainNests(Introduced(s, v), Reply(SenderOf(Introduced(s, v), v), AliasOf(Introduced(s, v), v.app), d.format(payload)), frames);
    case Block(_, stmts) =>
      PutNests(s, Open(false));
      BlockNests(d, uptos, v, stmts, last, Open(false), visited, s, shot, frames, false);
      BlockReturns(multiset{}, d, uptos, v, stmts, last, Open(false), visited, s, shot);
      EndNests(s, shot, VisitBlock(d, uptos, v, stmts, last, Open(false), visited, s, shot), frames, false);
    case Alt(choices) =>
      PutNests(s, Open(true));
      ChoicesNest(d, uptos, v, choices, last, Open(true), visited, s, shot, frames);
      ChoicesReturn(multiset{}, d, uptos, v, choices, last, Open(true), visited, s, shot);
      EndNests(s, shot, VisitChoices(d, uptos, v, choices, last, Open(true), visited, s, shot), frames, true);
  }

  lemma {:induction false} BlockNests(d: Diagram, uptos: map<string, string>, v: Visit, stmts: seq<Stmt>, last: bool, header: Text, visited: set<string>, s: State, shot: Shot, frames: seq<Frame>, alt: bool)
    requires NoEmptyAlts(d.m) && EmptyAlts(stmts) == 0 && Known(s, v)
    requires Nest(Put(s, header).lines) == Nested(frames + [Frame(s.ind, alt)])
    ensures var o := VisitBlock(d, uptos, v, stmts, last, header, visited, s, shot);
      o.Done? ==> Nest(o.s.lines) == Nested(frames + [Frame(s.ind, alt)])
    decreases AllKeys(d.m) - visited, 1, stmts, 1
  {
    StmtsNest(d, uptos, v, stmts, last, visited, Indent(Put(s, header)), shot, frames + [Frame(s.ind, alt)]);
  }

  /** An alt has been opened at `ind` inside of `frames`, and no block is open in it. */
  ghost predicate AltOpen(s: State, frames: seq<Frame>, ind: nat) {
    Nest(s.lines) == Nested(frames + [Frame(ind, true)])
  }

  lemma {:induction false} ChoicesNest(d: Diagram, uptos: map<string, string>, v: Visit, choices: seq<Choice>, last: bool, header: Text, visited: set<string>, s: State, shot: Shot, frames: seq<Frame>)
    requires NoEmptyAlts(d.m) && EmptyAltsIn(choices) == 0 && Known(s, v) && choices != [] && (header.Open? || header.Else?)
    requires AltOpen(Put(s, header), frames, s.ind)
    ensures var o := VisitChoices(d, uptos, v, choices, last, header, visited, s, shot); o.Done? ==> AltOpen(o.s, frames, s.ind)
    decreases AllKeys(d.m) - visited, 1, choices, 1
  {
    var r := VisitBlock(d, uptos, v, choices[0].stmts, last && |choices| == 1, header, visited, s, shot);
    FirstChoiceNests(d, uptos, v, choices, last, header, visited, s, shot, frames);
    if r.Done? && |choices| > 1 {
      ChoicesNest(d, uptos, v, choices[1..], last, Else, visited, r.s, r.shot, frames);
    }
  }

  lemma {:induction false} FirstChoiceNests(d: Diagram, uptos: map<string, string>, v: Visit, choices: seq<Choice>, last: bool, header: Text, visited: set<string>, s: State, shot: Shot, frames: seq<Frame>)
    requires NoEmptyAlts(d.m) && EmptyAltsIn(choices) == 0 && Known(s, v) && choices != [] && (header.Open? || header.Else?)
    requires AltOpen(Put(s, header), frames, s.ind)
    ensures EmptyAltsIn(choices[1..]) == 0
    ensures var r := VisitBlock(d, uptos, v, choices[0].stmts, last && |choices| == 1, header, visited, s, shot);
      r.Done? ==> Known(r.s, v) && r.s.ind == s.ind && AltOpen(r.s, frames, s.ind) && AltOpen(Put(r.s, Else), frames, s.ind)
    decreases AllKeys(d.m) - visited, 1, choices, 0
  {
    var r := VisitBlock(d, uptos, v, choices[0].stmts, last && |choices| == 1, header, visited, s, shot);
    BlockNests(d, uptos, v, choices[0].stmts, last && |choices| == 1, header, visited, s, shot, frames, true);
    if r.Done? {
      BlockEnds(d, uptos, v, choices[0].stmts, last && |choices| == 1, header, visited, s, shot);
      ElseNests(r.s, frames);
    }
  }

  lemma ElseNests(s: State, frames: seq<Frame>)
    requires AltOpen(s, frames, s.ind)
    ensures AltOpen(Put(s, Else), frames, s.ind)
  {
    PutNests(s, Else);
  }

  lemma BlockEnds(d: Diagram, uptos: map<string, string>, v: Visit, stmts: seq<Stmt>, last: bool, header: Text, visited: set<string>, s: State, shot: Shot)
    requires Known(s, v) && (header.Open? || header.Else?)
    ensures var r := VisitBlock(d, uptos, v, stmts, last, header, visited, s, shot); r.Done? ==> Known(r.s, v) && r.s.ind == s.ind
  {
    BlockReturns(multiset{}, d, uptos, v, stmts, last, header, visited, s, shot);
    var r := VisitBlock(d, uptos, v, stmts, last, header, visited, s, shot);
    if r.Done? { KnownLater(multiset{}, s, shot, r.s, r.shot, v); }
  }
}
