/** The calls a sequence diagram draws: each one that is come to, as an arrow from its caller to
    its target, along every route of calls that is not cut short. */
module SequenceCalls {
  import opened CallTree
  import opened SequenceDiagram
  import opened SequenceBalance
  import opened SequenceRuns
  import opened SequenceBlocks
  import opened SequenceTheorems
  import opened SequenceMessages
  import opened SequenceVisitor

  // ---- the arrow of one call ---------------------------------------------------

  /** The target is drawn when it is called from another endpoint. */
  predicate Visible(m: Module, app: string, ep: string) {
    HasEndpoint(m, app, ep) && !m[app].cron && !m[app].eps[ep].hidden
  }

  lemma ExtendsTrans(s: State, t: State, u: State)
    requires Extends(s, t) && Extends(t, u)
    ensures Extends(s, u)
  {
    assert u.lines[..|s.lines|] == u.lines[..|t.lines|][..|s.lines|];
  }

  /** The message of a visit, in terms of the aliases the participants have. */
  function Arrow(symbols: map<string, Alias>, from: string, app: string): Text
    requires from in symbols && app in symbols
  {
    Message(From(symbols[from]), symbols[app])
  }

  /** `t` has the message as the next line. */
  ghost predicate DrawnNext(v: Visit, s: State, t: State) {
    && |v.from| == 1 && Extends(s, t) && v.from[0] in t.symbols && v.app in t.symbols && |s.lines| < |t.lines|
    && t.lines[|s.lines|] == Line(s.ind, Arrow(t.symbols, v.from[0], v.app))
    && (v.from[0] !in s.symbols ==> t.symbols[v.from[0]] == |s.symbols|)
    && (v.from[0] in s.symbols && v.app !in s.symbols ==> t.symbols[v.app] == |s.symbols|)
  }

  lemma MessageIsFirst(d: Diagram, v: Visit, s: State)
    requires Visible(d.m, v.app, v.ep) && |v.from| == 1
    ensures DrawnNext(v, s, Arrive(d, v, Introduced(s, v)))
  {
    var s1 := Introduced(s, v);
    IntroducedKeeps(multiset{}, s, NoShot, v);
    assert s1.lines == s.lines && s1.ind == s.ind;
    assert Arrive(d, v, s1) == Put(s1, Arrow(s1.symbols, v.from[0], v.app));
  }

  lemma FirstStays(d: Diagram, v: Visit, s: State, t: State, u: State)
    requires DrawnNext(v, s, t) && Extends(t, u) && Extends(s, u)
    ensures DrawnNext(v, s, u)
  {
    assert u.lines[|s.lines|] == u.lines[..|t.lines|][|s.lines|];
  }

  lemma AnswerExtends(d: Diagram, uptos: map<string, string>, v: Visit, payload: string, visited: set<string>, s: State)
    requires HasEndpoint(d.m, v.app, v.ep) && Known(s, v)
    ensures var o := Answer(d, uptos, v, payload, visited, s); o.Done? ==> Extends(s, o.s)
  {
    AnswerReturns(multiset{}, d, uptos, v, payload, visited, s, NoShot);
  }

  lemma MeetDraws(d: Diagram, v: Visit, payload: string, s: State, shot: Shot)
    requires Visible(d.m, v.app, v.ep) && |v.from| == 1
    ensures var o := EndCaller(v, payload, Arrive(d, v, Introduced(s, v)), shot);
      o.Done? && Known(o.s, v) && DrawnNext(v, s, o.s)
  {
    var met := Arrive(d, v, Introduced(s, v));
    MessageIsFirst(d, v, s);
    FireKeeps(multiset{}, met, shot);
    MeetReturns(multiset{}, d, v, payload, s, shot);
    FirstStays(d, v, s, met, EndCaller(v, payload, met, shot).s);
  }

  /** The first line a visit writes is its message, and the two participants have aliases then,
      numbered in this order if they are new. */
  lemma VisitDrawsMessage(d: Diagram, uptos: map<string, string>, v: Visit, visited: set<string>, s: State, shot: Shot)
    requires Visible(d.m, v.app, v.ep) && |v.from| == 1
    ensures var o := VisitEndpoint(d, uptos, v, visited, s, shot); o.Done? ==> DrawnNext(v, s, o.s)
  {
    var payload := d.format(ReturnPayload(d.m[v.app].eps[v.ep].stmts));
    var arrived := EndCaller(v, payload, Arrive(d, v, Introduced(s, v)), shot);
    MeetDraws(d, v, payload, s, shot);
    AnswerExtends(d, uptos, v, payload, visited, arrived.s);
    var answer := Answer(d, uptos, v, payload, visited, arrived.s);
    if answer.Done? {
      ExtendsTrans(s, arrived.s, answer.s);
      FirstStays(d, v, s, arrived.s, answer.s);
    }
  }

  /** A call first adds the arrow from the caller to its target, one indent deeper. */
  lemma CallDrawsMessage(d: Diagram, uptos: map<string, string>, v: Visit, app: string, ep: string, last: bool, visited: set<string>, s: State, shot: Shot)
    requires Visible(d.m, app, ep)
    ensures var o := VisitStmt(d, uptos, v, Call(app, ep), last, visited, s, shot);
      o.Done? ==>
        && v.app in o.s.symbols && app in o.s.symbols && |s.lines| < |o.s.lines| && o.s.lines[..|s.lines|] == s.lines
        && o.s.lines[|s.lines|] == Line(s.ind + 1, Message(From(o.s.symbols[v.app]), o.s.symbols[app]))
        && (v.app !in s.symbols ==> o.s.symbols[v.app] == |s.symbols|)
        && (v.app in s.symbols && app !in s.symbols ==> o.s.symbols[app] == |s.symbols|)
  {
    VisitDrawsMessage(d, uptos, Visit([v.app], app, ep, last), visited, Indent(s), shot);
  }

  /** A return adds the one arrow back from the endpoint to its caller. */
  lemma ReturnDrawsReply(d: Diagram, uptos: map<string, string>, v: Visit, payload: string, last: bool, visited: set<string>, s: State, shot: Shot)
    ensures var o := VisitStmt(d, uptos, v, Ret(payload), last, visited, s, shot);
      && o.Done? && o.shot == shot && v.app in o.s.symbols && (v.from != [] ==> v.from[0] in o.s.symbols)
      && o.s.lines == s.lines + [Line(s.ind, Reply(if v.from == [] then Outside else From(o.s.symbols[v.from[0]]), o.s.symbols[v.app], d.format(payload)))]
  {
    IntroducedKeeps(multiset{}, s, shot, v);
  }

  /** An action adds the one line of its text, and three dots add none. */
  lemma ActionDrawsStep(d: Diagram, uptos: map<string, string>, v: Visit, text: string, last: bool, visited: set<string>, s: State, shot: Shot)
    ensures var o := VisitStmt(d, uptos, v, Action(text), last, visited, s, shot);
      && o.Done? && o.shot == shot
      && if text == "..." then o.s == s
         else v.app in o.s.symbols && o.s.lines == s.lines + [Line(s.ind, Step(o.s.symbols[v.app], text))]
  {
  }

  /** A block starts with its header, that of an alt if it is one, and ends with an end, both at
      the indent of the statement. */
  lemma BlockIsFramed(d: Diagram, uptos: map<string, string>, v: Visit, stmt: Stmt, last: bool, visited: set<string>, s: State, shot: Shot)
    requires stmt.Block? || (stmt.Alt? && stmt.choices != [])
    requires Known(s, v)
    ensures var o := VisitStmt(d, uptos, v, stmt, last, visited, s, shot);
      o.Done? ==>
        && |s.lines| + 2 <= |o.s.lines| && o.s.lines[..|s.lines|] == s.lines && o.s.ind == s.ind
        && o.s.lines[|s.lines|] == Line(s.ind, Open(stmt.Alt?))
        && o.s.lines[|o.s.lines| - 1] == Line(s.ind, End)
  {
    if stmt.Block? {
      HeaderIsFirst(d, uptos, v, stmt.stmts, last, Open(false), visited, s, shot);
      EndIsLast(s, Open(false), VisitBlock(d, uptos, v, stmt.stmts, last, Open(false), visited, s, shot));
    } else {
      ChoicesAreHeaded(d, uptos, v, stmt.choices, last, Open(true), visited, s, shot);
      EndIsLast(s, Open(true), VisitChoices(d, uptos, v, stmt.choices, last, Open(true), visited, s, shot));
    }
  }

  /** The run wrote the header first and left the indent. */
  ghost predicate Headed(s: State, header: Text, o: Out) {
    o.Done? ==> Extends(s, o.s) && o.s.ind == s.ind && |s.lines| < |o.s.lines| && o.s.lines[|s.lines|] == Line(s.ind, header)
  }

  lemma EndIsLast(s: State, header: Text, o: Out)
    requires Headed(s, header, o)
    ensures var t := PutEnd(o);
      t.Done? ==>
        && |s.lines| + 2 <= |t.s.lines| && t.s.lines[..|s.lines|] == s.lines && t.s.ind == s.ind
        && t.s.lines[|s.lines|] == Line(s.ind, header) && t.s.lines[|t.s.lines| - 1] == Line(s.ind, End)
  {
  }

  lemma HeadedStays(s: State, header: Text, t: State, u: State)
    requires Headed(s, header, Done(t, NoShot)) && Extends(t, u) && u.ind == t.ind
    ensures Headed(s, header, Done(u, NoShot))
  {
    ExtendsTrans(s, t, u);
    assert u.lines[|s.lines|] == u.lines[..|t.lines|][|s.lines|];
  }

  lemma ChoicesAreHeaded(d: Diagram, uptos: map<string, string>, v: Visit, choices: seq<Choice>, last: bool, header: Text, visited: set<string>, s: State, shot: Shot)
    requires choices != [] && Known(s, v) && (header.Open? || header.Else?)
    ensures Headed(s, header, VisitChoices(d, uptos, v, choices, last, header, visited, s, shot))
  {
    var only := last && |choices| == 1;
    var r := VisitBlock(d, uptos, v, choices[0].stmts, only, header, visited, s, shot);
    HeaderIsFirst(d, uptos, v, choices[0].stmts, only, header, visited, s, shot);
    if r.Done? {
      BlockReturns(multiset{}, d, uptos, v, choices[0].stmts, only, header, visited, s, shot);
      KnownLater(multiset{}, s, shot, r.s, r.shot, v);
      ChoicesReturn(multiset{}, d, uptos, v, choices[1..], last, Else, visited, r.s, r.shot);
      var o := VisitChoices(d, uptos, v, choices[1..], last, Else, visited, r.s, r.shot);
      if o.Done? { HeadedStays(s, header, r.s, o.s); }
    }
  }

  lemma HeaderIsFirst(d: Diagram, uptos: map<string, string>, v: Visit, stmts: seq<Stmt>, last: bool, header: Text, visited: set<string>, s: State, shot: Shot)
    requires Known(s, v) && (header.Open? || header.Else?)
    ensures Headed(s, header, VisitBlock(d, uptos, v, stmts, last, header, visited, s, shot))
  {
    var inner := Indent(Put(s, header));
    StmtsReturn(multiset{}, d, uptos, v, stmts, last, visited, inner, shot);
    var o := VisitBlock(d, uptos, v, stmts, last, header, visited, s, shot);
    if o.Done? {
      ExtendsTrans(s, inner, o.s);
      assert o.s.lines[|s.lines|] == o.s.lines[..|inner.lines|][|s.lines|];
    }
  }

  // ---- activations and replies -------------------------------------------------

  /** An endpoint that is expanded starts with the activation of its application, unless that is a
      human or a cron job, which nothing of the kind is written for before the first statement. */
  lemma ExpandedIsActivated(d: Diagram, uptos: map<string, string>, v: Visit, visited: set<string>, s: State)
    requires HasEndpoint(d.m, v.app, v.ep) && KeyOf(v.app, v.ep) !in visited && Known(s, v)
    ensures var stmts, within := d.m[v.app].eps[v.ep].stmts, visited + {KeyOf(v.app, v.ep)};
      var o := Expand(d, uptos, v, stmts, visited, s);
      o.Done? ==> if d.m[v.app].human || d.m[v.app].cron
        then o.s == VisitStmts(d, uptos, v, stmts, true, within, s, Shot(s.symbols[v.app], false)).s
        else |s.lines| < |o.s.lines| && o.s.lines[|s.lines|] == Line(s.ind, Activate(s.symbols[v.app]))
  {
    var stmts, within := d.m[v.app].eps[v.ep].stmts, visited + {KeyOf(v.app, v.ep)};
    var begun := Begin(d.m[v.app], s, AliasOf(s, v.app));
    var body := VisitStmts(d, uptos, v, stmts, true, within, begun.s, begun.shot);
    StmtsReturn(multiset{}, d, uptos, v, stmts, true, within, begun.s, begun.shot);
    var o := Expand(d, uptos, v, stmts, visited, s);
    if o.Done? {
      FireKeeps(multiset{}, body.s, body.shot);
      ExtendsTrans(begun.s, body.s, o.s);
      if !d.m[v.app].human && !d.m[v.app].cron {
        assert o.s.lines[|s.lines|] == o.s.lines[..|begun.s.lines|][|s.lines|];
      }
    }
  }

  /** An endpoint that is being visited already is not entered again: it replies at once, if it
      returns something, and one of its activations ends. */
  lemma VisitedIsAnswered(v: Visit, hidden: bool, payload: string, uptos: map<string, string>, s: State)
    requires KeyOf(v.app, v.ep) !in uptos && Known(s, v)
    ensures var t, agent := Cut(v, hidden, payload, uptos, s), s.symbols[v.app];
      var reply := Line(s.ind, Reply(if v.from == [] then Outside else From(s.symbols[v.from[0]]), agent, payload));
      && (payload == "" ==> t == s)
      && (payload != "" ==>
            && t.lines == s.lines + (if hidden then [] else [reply]) + (if ActiveOf(s, agent) == 0 then [] else [Line(s.ind, Deactivate(agent))])
            && ActiveOf(t, agent) == (if ActiveOf(s, agent) == 0 then 0 else ActiveOf(s, agent) - 1))
  {
    if payload != "" {
      var s1 := if hidden then s else Put(s, Reply(SenderOf(s, v), AliasOf(s, v.app), payload));
      DeactivateCounts(s1, AliasOf(s, v.app));
    }
  }

  /** The return statements in the order they are written, at any depth. */
  function ReturnsIn(stmts: seq<Stmt>): seq<string> {
    if stmts == [] then []
    else
      (match stmts[0]
       case Ret(payload) => [payload]
       case Block(_, inner) => ReturnsIn(inner)
       case Alt(choices) => ReturnsInChoices(choices)
       case _ => [])
      + ReturnsIn(stmts[1..])
  }

  function ReturnsInChoices(choices: seq<Choice>): seq<string> {
    if choices == [] then [] else ReturnsIn(choices[0].stmts) + ReturnsInChoices(choices[1..])
  }

  /** An endpoint returns what the first of them does, if none is empty. */
  lemma {:induction false} PayloadIsFirstReturn(stmts: seq<Stmt>)
    requires "" !in ReturnsIn(stmts)
    ensures ReturnPayload(stmts) == if ReturnsIn(stmts) == [] then "" else ReturnsIn(stmts)[0]
  {
    if stmts != [] {
      PayloadIsFirstReturn(stmts[1..]);
      match stmts[0]
      case Block(_, inner) => PayloadIsFirstReturn(inner);
      case Alt(choices) => ChoicePayloadIsFirstReturn(choices);
      case _ =>
    }
  }

  lemma {:induction false} ChoicePayloadIsFirstReturn(choices: seq<Choice>)
    requires "" !in ReturnsInChoices(choices)
    ensures ChoicePayload(choices) == if ReturnsInChoices(choices) == [] then "" else ReturnsInChoices(choices)[0]
  {
    if choices != [] {
      PayloadIsFirstReturn(choices[0].stmts);
      ChoicePayloadIsFirstReturn(choices[1..]);
    }
  }

  // ---- every call that is come to ----------------------------------------------

  /** The run `o` from `s1` is part of a run that ends in `t`. */
  ghost predicate PartOf(o: Out, t: State) {
    o.Done? && Extends(o.s, t)
  }

  function Called(d: Diagram, uptos: map<string, string>, from: string, c: Stmt, last: bool, visited: set<string>, s: State, shot: Shot): Out
    requires c.Call?
  {
    VisitEndpoint(d, uptos, Visit([from], c.app, c.ep, last), visited, s, shot)
  }

  lemma PartOfMore(o: Out, t: State, u: State)
    requires PartOf(o, t) && Extends(t, u)
    ensures PartOf(o, u)
  {
    ExtendsTrans(o.s, t, u);
  }

  lemma SameLines(o: Out, t: State, u: State)
    requires PartOf(o, t) && t.lines == u.lines && t.symbols == u.symbols
    ensures PartOf(o, u)
  {
  }

  /** Every call that is written in a list of statements is visited when these are, on behalf of
      the application they belong to. */
  lemma {:induction false} CallIsVisited(d: Diagram, uptos: map<string, string>, v: Visit, stmts: seq<Stmt>, lastParent: bool, visited: set<string>, s: State, shot: Shot, c: Stmt)
    returns (last1: bool, s1: State, shot1: Shot)
    requires c.Call? && Occurs(c, stmts) && Known(s, v) && VisitStmts(d, uptos, v, stmts, lastParent, visited, s, shot).Done?
    ensures PartOf(Called(d, uptos, v.app, c, last1, visited, s1, shot1), VisitStmts(d, uptos, v, stmts, lastParent, visited, s, shot).s)
    decreases stmts, 0
  {
    var last := lastParent && |stmts| == 1;
    var r := VisitStmt(d, uptos, v, stmts[0], last, visited, s, shot);
    StmtReturns(multiset{}, d, uptos, v, stmts[0], last, visited, s, shot);
    KnownLater(multiset{}, s, shot, r.s, r.shot, v);
    OccursFirst(c, stmts);
    if stmts[0] == c || OccursInside(c, stmts[0]) {
      last1, s1, shot1 := CallInStmt(d, uptos, v, stmts[0], last, visited, s, shot, c);
      StmtsReturn(multiset{}, d, uptos, v, stmts[1..], lastParent, visited, r.s, r.shot);
      PartOfMore(Called(d, uptos, v.app, c, last1, visited, s1, shot1), r.s, VisitStmts(d, uptos, v, stmts[1..], lastParent, visited, r.s, r.shot).s);
    } else {
      last1, s1, shot1 := CallIsVisited(d, uptos, v, stmts[1..], lastParent, visited, r.s, r.shot, c);
    }
  }

  lemma {:induction false} CallInStmt(d: Diagram, uptos: map<string, string>, v: Visit, stmt: Stmt, last: bool, visited: set<string>, s: State, shot: Shot, c: Stmt)
    returns (last1: bool, s1: State, shot1: Shot)
    requires c.Call? && (stmt == c || OccursInside(c, stmt)) && Known(s, v) && VisitStmt(d, uptos, v, stmt, last, visited, s, shot).Done?
    ensures PartOf(Called(d, uptos, v.app, c, last1, visited, s1, shot1), VisitStmt(d, uptos, v, stmt, last, visited, s, shot).s)
    decreases stmt, 0
  {
    var t := VisitStmt(d, uptos, v, stmt, last, visited, s, shot).s;
    if stmt == c {
      last1, s1, shot1 := last, Indent(s), shot;
      var o := Called(d, uptos, v.app, c, last1, visited, s1, shot1);
      assert o.s.lines == t.lines && o.s.symbols == t.symbols;
    } else if stmt.Block? {
      var o := VisitBlock(d, uptos, v, stmt.stmts, last, Open(false), visited, s, shot);
      last1, s1, shot1 := CallInBlock(d, uptos, v, stmt.stmts, last, Open(false), visited, s, shot, c);
      assert t == Put(o.s, End);
      PartOfMore(Called(d, uptos, v.app, c, last1, visited, s1, shot1), o.s, t);
    } else {
      var o := VisitChoices(d, uptos, v, stmt.choices, last, Open(true), visited, s, shot);
      last1, s1, shot1 := CallInChoices(d, uptos, v, stmt.choices, last, Open(true), visited, s, shot, c);
      assert t == Put(o.s, End);
      PartOfMore(Called(d, uptos, v.app, c, last1, visited, s1, shot1), o.s, t);
    }
  }

  lemma {:induction false} CallInBlock(d: Diagram, uptos: map<string, string>, v: Visit, stmts: seq<Stmt>, last: bool, header: Text, visited: set<string>, s: State, shot: Shot, c: Stmt)
    returns (last1: bool, s1: State, shot1: Shot)
    requires c.Call? && Occurs(c, stmts) && Known(s, v) && VisitBlock(d, uptos, v, stmts, last, header, visited, s, shot).Done?
    ensures PartOf(Called(d, uptos, v.app, c, last1, visited, s1, shot1), VisitBlock(d, uptos, v, stmts, last, header, visited, s, shot).s)
    decreases stmts, 1
  {
    var inner := Indent(Put(s, header));
    last1, s1, shot1 := CallIsVisited(d, uptos, v, stmts, last, visited, inner, shot, c);
    SameLines(Called(d, uptos, v.app, c, last1, visited, s1, shot1), VisitStmts(d, uptos, v, stmts, last, visited, inner, shot).s,
      VisitBlock(d, uptos, v, stmts, last, header, visited, s, shot).s);
  }

  lemma {:induction false} CallInChoices(d: Diagram, uptos: map<string, string>, v: Visit, choices: seq<Choice>, last: bool, header: Text, visited: set<string>, s: State, shot: Shot, c: Stmt)
    returns (last1: bool, s1: State, shot1: Shot)
    requires c.Call? && (exists i :: 0 <= i < |choices| && Occurs(c, choices[i].stmts)) && Known(s, v) && (header.Open? || header.Else?)
    requires VisitChoices(d, uptos, v, choices, last, header, visited, s, shot).Done?
    ensures PartOf(Called(d, uptos, v.app, c, last1, visited, s1, shot1), VisitChoices(d, uptos, v, choices, last, header, visited, s, shot).s)
    decreases choices, 0
  {
    var only := last && |choices| == 1;
    var r := VisitBlock(d, uptos, v, choices[0].stmts, only, header, visited, s, shot);
    BlockReturns(multiset{}, d, uptos, v, choices[0].stmts, only, header, visited, s, shot);
    KnownLater(multiset{}, s, shot, r.s, r.shot, v);
    if Occurs(c, choices[0].stmts) {
      last1, s1, shot1 := CallInBlock(d, uptos, v, choices[0].stmts, only, header, visited, s, shot, c);
      ChoicesReturn(multiset{}, d, uptos, v, choices[1..], last, Else, visited, r.s, r.shot);
      PartOfMore(Called(d, uptos, v.app, c, last1, visited, s1, shot1), r.s, VisitChoices(d, uptos, v, choices[1..], last, Else, visited, r.s, r.shot).s);
    } else {
      var i :| 0 <= i < |choices| && Occurs(c, choices[i].stmts);
      assert choices[i] == choices[1..][i - 1];
      last1, s1, shot1 := CallInChoices(d, uptos, v, choices[1..], last, Else, visited, r.s, r.shot, c);
    }
  }

  // ---- along routes of calls ---------------------------------------------------

  datatype Place = Place(app: string, ep: string)

  /** Endpoints, each of which calls the next. */
  ghost predicate IsRoute(m: Module, p: seq<Place>) {
    && p != [] && (forall i | 0 <= i < |p| :: HasEndpoint(m, p[i].app, p[i].ep))
    && forall i | 0 <= i < |p| - 1 :: Occurs(Call(p[i + 1].app, p[i + 1].ep), m[p[i].app].eps[p[i].ep].stmts)
  }

  /** No endpoint of the route is cut short: none is marked or being visited, or is there twice. */
  ghost predicate Unmarked(p: seq<Place>, marks: set<string>) {
    && (forall i | 0 <= i < |p| :: KeyOf(p[i].app, p[i].ep) !in marks)
    && forall i, j | 0 <= i < j < |p| :: KeyOf(p[i].app, p[i].ep) != KeyOf(p[j].app, p[j].ep)
  }

  ghost predicate ArrowDrawn(s: State, from: string, app: string) {
    from in s.symbols && app in s.symbols && exists i :: 0 <= i < |s.lines| && s.lines[i].text == Message(From(s.symbols[from]), s.symbols[app])
  }

  lemma ArrowStays(s: State, t: State, from: string, app: string)
    requires ArrowDrawn(s, from, app) && Extends(s, t)
    ensures ArrowDrawn(t, from, app)
  {
    var i :| 0 <= i < |s.lines| && s.lines[i].text == Message(From(s.symbols[from]), s.symbols[app]);
    assert t.lines[i] == t.lines[..|s.lines|][i] == s.lines[i];
  }

  /** What the visit of an endpoint that is not cut comes to is what its statements come to. */
  lemma ExpandedRun(d: Diagram, uptos: map<string, string>, v: Visit, visited: set<string>, s: State, shot: Shot) returns (begun: State, own: Shot)
    requires HasEndpoint(d.m, v.app, v.ep) && KeyOf(v.app, v.ep) !in uptos && KeyOf(v.app, v.ep) !in visited
    requires d.m[v.app].eps[v.ep].stmts != [] && VisitEndpoint(d, uptos, v, visited, s, shot).Done?
    ensures Known(begun, v)
    ensures PartOf(VisitStmts(d, uptos, v, d.m[v.app].eps[v.ep].stmts, true, visited + {KeyOf(v.app, v.ep)}, begun, own),
                   VisitEndpoint(d, uptos, v, visited, s, shot).s)
  {
    var stmts := d.m[v.app].eps[v.ep].stmts;
    var payload := d.format(ReturnPayload(stmts));
    var arrived := EndCaller(v, payload, Arrive(d, v, Introduced(s, v)), shot);
    MeetReturns(multiset{}, d, v, payload, s, shot);
    var b := Begin(d.m[v.app], arrived.s, AliasOf(arrived.s, v.app));
    begun, own := b.s, b.shot;
    var body := VisitStmts(d, uptos, v, stmts, true, visited + {KeyOf(v.app, v.ep)}, begun, own);
    assert Expand(d, uptos, v, stmts, visited, arrived.s) == if body.Panic? then Panic else Fire(body.s, body.shot);
    FireKeeps(multiset{}, body.s, body.shot);
  }

  /** Every visible call of the endpoint at the end of the route is drawn. */
  lemma {:induction false} RouteIsDrawn(d: Diagram, uptos: map<string, string>, v: Visit, visited: set<string>, s: State, shot: Shot, p: seq<Place>, c: Stmt)
    requires IsRoute(d.m, p) && p[0] == Place(v.app, v.ep) && Unmarked(p, uptos.Keys + visited)
    requires c.Call? && Occurs(c, d.m[p[|p| - 1].app].eps[p[|p| - 1].ep].stmts) && Visible(d.m, c.app, c.ep)
    requires VisitEndpoint(d, uptos, v, visited, s, shot).Done?
    ensures ArrowDrawn(VisitEndpoint(d, uptos, v, visited, s, shot).s, p[|p| - 1].app, c.app)
    decreases |p|
  {
    var stmts, within := d.m[v.app].eps[v.ep].stmts, visited + {KeyOf(v.app, v.ep)};
    var t := VisitEndpoint(d, uptos, v, visited, s, shot).s;
    var next := if |p| == 1 then c else Call(p[1].app, p[1].ep);
    assert Occurs(next, stmts);
    var begun, own := ExpandedRun(d, uptos, v, visited, s, shot);
    var body := VisitStmts(d, uptos, v, stmts, true, within, begun, own);
    var last1, s1, shot1 := CallIsVisited(d, uptos, v, stmts, true, within, begun, own, next);
    var o := Called(d, uptos, v.app, next, last1, within, s1, shot1);
    PartOfMore(o, body.s, t);
    if |p| == 1 {
      VisitDrawsMessage(d, uptos, Visit([v.app], c.app, c.ep, last1), within, s1, shot1);
      assert o.s.lines[|s1.lines|].text == Message(From(o.s.symbols[v.app]), o.s.symbols[c.app]);
    } else {
      RestOfRoute(d.m, p, uptos.Keys, visited);
      RouteIsDrawn(d, uptos, Visit([v.app], next.app, next.ep, last1), within, s1, shot1, p[1..], c);
    }
    ArrowStays(o.s, t, p[|p| - 1].app, c.app);
  }

  lemma RestOfRoute(m: Module, p: seq<Place>, marks: set<string>, visited: set<string>)
    requires IsRoute(m, p) && |p| > 1 && Unmarked(p, marks + visited)
    ensures IsRoute(m, p[1..]) && Unmarked(p[1..], marks + (visited + {KeyOf(p[0].app, p[0].ep)})) && p[1..][|p| - 2] == p[|p| - 1]
  {
    var q := p[1..];
    forall i | 0 <= i < |q| ensures q[i] == p[i + 1] && HasEndpoint(m, q[i].app, q[i].ep) {}
  }

  // ---- whole diagrams ----------------------------------------------------------

  /** The collection as far as its first `n` entries. */
  function UpTo(d: Diagram, all: seq<Entry>, uptos: map<string, string>, n: nat): Out {
    Steps(EntryStep(d, all, uptos), n, Start)
  }

  lemma UpToNext(d: Diagram, all: seq<Entry>, uptos: map<string, string>, n: nat)
    ensures UpTo(d, all, uptos, n + 1) == if UpTo(d, all, uptos, n).Panic? then Panic else WithoutShot(VisitAt(d, all, uptos, n, UpTo(d, all, uptos, n).s))
  {
    if UpTo(d, all, uptos, n).Done? { OneMoreVisit(d, all, uptos, n, Start); }
  }

  lemma OneStepExtends(d: Diagram, all: seq<Entry>, uptos: map<string, string>, n: nat)
    requires n < |all| && UpTo(d, all, uptos, n + 1).Done?
    ensures PartOf(UpTo(d, all, uptos, n), UpTo(d, all, uptos, n + 1).s)
  {
    UpToNext(d, all, uptos, n);
    VisitExtends(d, all, uptos, n, UpTo(d, all, uptos, n).s);
  }

  lemma {:induction false} StepsExtend(d: Diagram, all: seq<Entry>, uptos: map<string, string>, i: nat, n: nat)
    requires i <= n <= |all| && UpTo(d, all, uptos, n).Done?
    ensures PartOf(UpTo(d, all, uptos, i), UpTo(d, all, uptos, n).s)
    decreases n
  {
    if i < n {
      OneStepExtends(d, all, uptos, n - 1);
      StepsExtend(d, all, uptos, i, n - 1);
      PartOfMore(UpTo(d, all, uptos, i), UpTo(d, all, uptos, n - 1).s, UpTo(d, all, uptos, n).s);
    }
  }

  lemma VisitExtends(d: Diagram, all: seq<Entry>, uptos: map<string, string>, i: nat, s: State)
    requires i < |all| && VisitAt(d, all, uptos, i, s).Done?
    ensures Extends(s, VisitAt(d, all, uptos, i, s).s)
  {
    EntryReturns(d, MarksAfter(all, uptos, i + 1), all[i], s);
  }

  /** The call is come to from the i-th entry, along the route. */
  ghost predicate ComesTo(d: Diagram, all: seq<Entry>, uptos: map<string, string>, i: nat, p: seq<Place>, c: Stmt) {
    && i < |all| && IsRoute(d.m, p) && p[0] == Place(all[i].app, all[i].ep) && Unmarked(p, MarksAfter(all, uptos, i + 1).Keys)
    && c.Call? && Occurs(c, d.m[p[|p| - 1].app].eps[p[|p| - 1].ep].stmts) && Visible(d.m, c.app, c.ep)
  }

  /** In the diagram of a collection: every visible call that is come to from an entry, on a route
      none of whose endpoints is marked by then, is an arrow from its caller to its target. */
  lemma CallsAreDrawn(d: Diagram, all: seq<Entry>, uptos: map<string, string>, i: nat, p: seq<Place>, c: Stmt)
    requires ComesTo(d, all, uptos, i, p, c) && VisitCollection(d, all, uptos, Start).Done?
    ensures ArrowDrawn(VisitCollection(d, all, uptos, Start).s, p[|p| - 1].app, c.app)
  {
    var e, marks := all[i], MarksAfter(all, uptos, i + 1);
    StepsExtend(d, all, uptos, i, |all|);
    StepsExtend(d, all, uptos, i + 1, |all|);
    var s := UpTo(d, all, uptos, i).s;
    UpToNext(d, all, uptos, i);
    var after := VisitEntry(d, marks, e, s);
    assert marks.Keys + {} == marks.Keys;
    RouteIsDrawn(d, marks, Visit([], e.app, e.ep, false), {}, Put(s, Header(e.app, e.ep)), NoShot, p, c);
    ArrowStays(after.s, VisitCollection(d, all, uptos, Start).s, p[|p| - 1].app, c.app);
  }

  ghost function ToldFrom(d: Diagram): Out -> bool {
    (o: Out) => o.Done? ==> AllTold(d, o.s)
  }

  lemma StepTells(d: Diagram, all: seq<Entry>, uptos: map<string, string>, i: nat, s: State)
    requires i < |all|
    ensures KeptAt(EntryStep(d, all, uptos), ToldFrom(d), i, s)
  {
    var e := all[i];
    if AllTold(d, s) && HasEndpoint(d.m, e.app, e.ep) {
      PutTold(d, s, Header(e.app, e.ep));
      EndpointTold(d, MarksAfter(all, uptos, i + 1), Visit([], e.app, e.ep, false), {}, Put(s, Header(e.app, e.ep)), NoShot);
    }
  }

  /** Every arrow of every diagram is a call or a return the module has: it goes between two
      applications of which an endpoint of the first calls an endpoint of the second, and back
      with what that returns. */
  lemma ArrowsAreCalls(d: Diagram, all: seq<Entry>, uptos: map<string, string>)
    ensures var o := VisitCollection(d, all, uptos, Start); o.Done? ==> AllTold(d, o.s)
  {
    forall i: nat, t | i < |all| ensures KeptAt(EntryStep(d, all, uptos), ToldFrom(d), i, t) { StepTells(d, all, uptos, i, t); }
    StepsKeep(EntryStep(d, all, uptos), ToldFrom(d), |all|, Start);
  }

  /** The visitor object and its writer: what DiagramsAreSafe says, and that the arrows are those
      of the module's calls. */
  method DrawCollection(d: Diagram, entries: seq<Entry>, uptos: map<string, string>) returns (v: Visitor, ok: bool)
    ensures v.d == d && (Resolvable(d.m) ==> (ok <==> forall e | e in entries :: HasEndpoint(d.m, e.app, e.ep)))
    ensures ok ==>
      && v.w.ind == 0 && v.w.active == map[]
      && NeverNegative(v.w.body) && (forall a {:trigger Net(v.w.body, a)} :: Net(v.w.body, a) == 0)
      && Numbered(v.symbols) && LinesBelow(v.w.body, |v.symbols|)
      && (NoEmptyAlts(d.m) ==> Nest(v.w.body) == Nested([]))
    ensures ok ==> forall k {:trigger v.w.body[k]} | 0 <= k < |v.w.body| :: Told(d, v.symbols, v.w.body[k].text)
    ensures ok ==> forall i: nat, p: seq<Place>, c: Stmt | ComesTo(d, entries, uptos, i, p, c) :: ArrowDrawn(v.Now(), p[|p| - 1].app, c.app)
  {
    v := new Visitor(d);
    assert v.Now() == Start;
    ok := v.VisitEndpointCollection(entries, uptos);
    DiagramsAreSafe(d, entries, uptos);
    if ok {
      ArrowsAreCalls(d, entries, uptos);
      forall i: nat, p: seq<Place>, c: Stmt | ComesTo(d, entries, uptos, i, p, c) ensures ArrowDrawn(v.Now(), p[|p| - 1].app, c.app) {
        CallsAreDrawn(d, entries, uptos, i, p, c);
      }
    }
  }
}
