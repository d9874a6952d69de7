/** Who sends what to whom in a sequence diagram, said of the module alone: every arrow of
    every diagram is a call or a return the module has, and every call that is come to is drawn. */
module SequenceMessages {
  import opened CallTree
  import opened SequenceDiagram
  import opened SequenceBalance
  import opened SequenceRuns

  predicate IsAlias(symbols: map<string, Alias>, app: string, a: Alias) {
    app in symbols && symbols[app] == a
  }

  /** Some endpoint of `from` calls the endpoint `ep` of `app`. */
  ghost predicate CallsEndpoint(m: Module, from: string, app: string, ep: string) {
    exists e :: HasEndpoint(m, from, e) && Occurs(Call(app, ep), m[from].eps[e].stmts)
  }

  /** The arrow comes from outside, or from an application that calls the endpoint. */
  ghost predicate SentBy(m: Module, symbols: map<string, Alias>, sender: Sender, app: string, ep: string) {
    sender.Outside? || exists from :: IsAlias(symbols, from, sender.alias) && CallsEndpoint(m, from, app, ep)
  }

  /** The endpoint returns what is printed like this, or nothing, and that is what is printed. */
  ghost predicate RepliesWith(d: Diagram, stmts: seq<Stmt>, payload: string) {
    exists p :: payload == d.format(p) && (p == "" || Occurs(Ret(p), stmts))
  }

  ghost predicate IsMessage(m: Module, symbols: map<string, Alias>, sender: Sender, agent: Alias, app: string, ep: string) {
    && IsAlias(symbols, app, agent) && HasEndpoint(m, app, ep) && SentBy(m, symbols, sender, app, ep)
    && !m[app].cron && !m[app].eps[ep].hidden && !(m[app].human && sender.Outside?)
  }

  ghost predicate IsReply(d: Diagram, symbols: map<string, Alias>, sender: Sender, agent: Alias, payload: string, app: string, ep: string) {
    && IsAlias(symbols, app, agent) && HasEndpoint(d.m, app, ep) && SentBy(d.m, symbols, sender, app, ep)
    && RepliesWith(d, d.m[app].eps[ep].stmts, payload)
  }

  ghost predicate IsStep(m: Module, symbols: map<string, Alias>, agent: Alias, text: string, app: string, ep: string) {
    IsAlias(symbols, app, agent) && HasEndpoint(m, app, ep) && Occurs(Action(text), m[app].eps[ep].stmts)
  }

  /** The module has what the line says. */
  ghost predicate Told(d: Diagram, symbols: map<string, Alias>, text: Text) {
    match text
    case Message(sender, agent) => exists app, ep :: IsMessage(d.m, symbols, sender, agent, app, ep)
    case Reply(sender, agent, payload) => exists app, ep :: IsReply(d, symbols, sender, agent, payload, app, ep)
    case Step(agent, t) => exists app, ep :: IsStep(d.m, symbols, agent, t, app, ep)
    case Activate(agent) => exists app :: IsAlias(symbols, app, agent)
    case Note(agent, _) => exists app :: IsAlias(symbols, app, agent)
    case _ => true
  }

  ghost predicate AllTold(d: Diagram, s: State) {
    forall i {:trigger s.lines[i]} | 0 <= i < |s.lines| :: Told(d, s.symbols, s.lines[i].text)
  }

  ghost predicate StaysTold(d: Diagram, s: State, o: Out) {
    o.Done? && AllTold(d, s) ==> AllTold(d, o.s)
  }

  // ---- one line ----------------------------------------------------------------

  lemma PutTold(d: Diagram, s: State, text: Text)
    requires AllTold(d, s) && Told(d, s.symbols, text)
    ensures AllTold(d, Put(s, text))
  {
  }

  predicate SymbolsGrow(a: map<string, Alias>, b: map<string, Alias>) {
    forall x | x in a :: x in b && b[x] == a[x]
  }

  lemma ToldLater(d: Diagram, a: map<string, Alias>, b: map<string, Alias>, text: Text)
    requires SymbolsGrow(a, b) && Told(d, a, text)
    ensures Told(d, b, text)
  {
    match text
    case Message(sender, agent) =>
      var app, ep :| IsMessage(d.m, a, sender, agent, app, ep);
      assert IsMessage(d.m, b, sender, agent, app, ep);
    case Reply(sender, agent, payload) =>
      var app, ep :| IsReply(d, a, sender, agent, payload, app, ep);
      assert IsReply(d, b, sender, agent, payload, app, ep);
    case Step(agent, t) =>
      var app, ep :| IsStep(d.m, a, agent, t, app, ep);
      assert IsStep(d.m, b, agent, t, app, ep);
    case Activate(agent) =>
      var app :| IsAlias(a, app, agent);
      assert IsAlias(b, app, agent);
    case Note(agent, _) =>
      var app :| IsAlias(a, app, agent);
      assert IsAlias(b, app, agent);
    case _ =>
  }

  lemma GrownTold(d: Diagram, s: State, t: State)
    requires AllTold(d, s) && s.lines == t.lines && SymbolsGrow(s.symbols, t.symbols)
    ensures AllTold(d, t)
  {
    forall i {:trigger t.lines[i]} | 0 <= i < |t.lines| ensures Told(d, t.symbols, t.lines[i].text) {
      ToldLater(d, s.symbols, t.symbols, s.lines[i].text);
    }
  }

  lemma DeactivateTold(d: Diagram, s: State, a: Alias)
    ensures StaysTold(d, s, Done(PutDeactivate(s, a), NoShot))
  {
    if AllTold(d, s) { PutTold(d, s, Deactivate(a)); }
  }

  lemma FireTold(d: Diagram, s: State, shot: Shot)
    ensures StaysTold(d, s, Fire(s, shot))
  {
    if shot.Shot? { DeactivateTold(d, s, shot.agent); }
  }

  lemma ActivateTold(d: Diagram, s: State, app: string)
    requires app in s.symbols
    ensures StaysTold(d, s, Done(PutActivate(s, AliasOf(s, app)), NoShot))
  {
    if AllTold(d, s) {
      assert IsAlias(s.symbols, app, AliasOf(s, app));
      PutTold(d, s, Activate(AliasOf(s, app)));
    }
  }

  // ---- what a visit writes itself ----------------------------------------------

  /** The visit is from outside, or of a call some endpoint of the caller has. */
  ghost predicate IsCalled(m: Module, v: Visit) {
    v.from == [] || CallsEndpoint(m, v.from[0], v.app, v.ep)
  }

  lemma SenderCalls(m: Module, v: Visit, s: State)
    requires IsCalled(m, v) && Known(s, v)
    ensures SentBy(m, s.symbols, SenderOf(s, v), v.app, v.ep) && IsAlias(s.symbols, v.app, AliasOf(s, v.app))
  {
    if v.from != [] { assert IsAlias(s.symbols, v.from[0], AliasOf(s, v.from[0])); }
  }

  lemma ArriveTold(d: Diagram, v: Visit, s: State)
    requires HasEndpoint(d.m, v.app, v.ep) && IsCalled(d.m, v) && Known(s, v) && AllTold(d, s)
    ensures AllTold(d, Arrive(d, v, s)) && Arrive(d, v, s).symbols == s.symbols
  {
    SenderCalls(d.m, v, s);
    if Arrive(d, v, s) != s {
      assert IsMessage(d.m, s.symbols, SenderOf(s, v), AliasOf(s, v.app), v.app, v.ep);
      PutTold(d, s, Message(SenderOf(s, v), AliasOf(s, v.app)));
    }
  }

  lemma IntroducedGrows(s: State, v: Visit)
    ensures SymbolsGrow(s.symbols, Introduced(s, v).symbols) && Introduced(s, v).lines == s.lines && Known(Introduced(s, v), v)
  {
  }

  lemma MeetTold(d: Diagram, v: Visit, payload: string, s: State, shot: Shot)
    requires HasEndpoint(d.m, v.app, v.ep) && IsCalled(d.m, v)
    ensures var o := EndCaller(v, payload, Arrive(d, v, Introduced(s, v)), shot);
      o.Done? && StaysTold(d, s, o) && Known(o.s, v)
  {
    var s1 := Introduced(s, v);
    IntroducedGrows(s, v);
    FireTold(d, Arrive(d, v, s1), shot);
    if AllTold(d, s) {
      GrownTold(d, s, s1);
      ArriveTold(d, v, s1);
    }
  }

  /** The first return is one of those that are written, if there is one. */
  lemma {:induction false} PayloadIsWritten(stmts: seq<Stmt>)
    ensures ReturnPayload(stmts) == "" || Occurs(Ret(ReturnPayload(stmts)), stmts)
  {
    if stmts != [] {
      PayloadIsWritten(stmts[1..]);
      match stmts[0]
      case Block(_, inner) => PayloadIsWritten(inner);
      case Alt(choices) => ChoicePayloadIsWritten(choices);
      case _ =>
      OccursFirst(Ret(ReturnPayload(stmts)), stmts);
    }
  }

  lemma {:induction false} ChoicePayloadIsWritten(choices: seq<Choice>)
    ensures ChoicePayload(choices) == "" || exists i :: 0 <= i < |choices| && Occurs(Ret(ChoicePayload(choices)), choices[i].stmts)
  {
    if choices != [] {
      PayloadIsWritten(choices[0].stmts);
      ChoicePayloadIsWritten(choices[1..]);
      forall i | 0 < i < |choices| ensures choices[i] == choices[1..][i - 1] {}
    }
  }

  lemma ReplyTold(d: Diagram, v: Visit, s: State, p: string)
    requires HasEndpoint(d.m, v.app, v.ep) && IsCalled(d.m, v) && Known(s, v) && (p == "" || Occurs(Ret(p), d.m[v.app].eps[v.ep].stmts))
    ensures Told(d, s.symbols, Reply(SenderOf(s, v), AliasOf(s, v.app), d.format(p)))
  {
    SenderCalls(d.m, v, s);
    assert RepliesWith(d, d.m[v.app].eps[v.ep].stmts, d.format(p));
    assert IsReply(d, s.symbols, SenderOf(s, v), AliasOf(s, v.app), d.format(p), v.app, v.ep);
  }

  lemma NotedTold(d: Diagram, v: Visit, payload: string, uptos: map<string, string>, s: State)
    requires Known(s, v) && AllTold(d, s)
    ensures AllTold(d, Noted(v, payload, uptos, s)) && Noted(v, payload, uptos, s).symbols == s.symbols
  {
    var agent, key := AliasOf(s, v.app), KeyOf(v.app, v.ep);
    assert IsAlias(s.symbols, v.app, agent);
    if key in uptos {
      ActivateTold(d, s, v.app);
      PutTold(d, s, Note(agent, uptos[key]));
      PutTold(d, PutActivate(s, agent), Note(agent, uptos[key]));
    }
  }

  lemma CutTold(d: Diagram, v: Visit, uptos: map<string, string>, s: State)
    requires HasEndpoint(d.m, v.app, v.ep) && IsCalled(d.m, v) && Known(s, v)
    ensures var ep := d.m[v.app].eps[v.ep];
      StaysTold(d, s, Done(Cut(v, ep.hidden, d.format(ReturnPayload(ep.stmts)), uptos, s), NoShot))
  {
    var ep := d.m[v.app].eps[v.ep];
    var payload := d.format(ReturnPayload(ep.stmts));
    if AllTold(d, s) {
      var s1 := Noted(v, payload, uptos, s);
      NotedTold(d, v, payload, uptos, s);
      PayloadIsWritten(ep.stmts);
      ReplyTold(d, v, s1, ReturnPayload(ep.stmts));
      var s2 := if ep.hidden then s1 else Put(s1, Reply(SenderOf(s1, v), AliasOf(s1, v.app), payload));
      if !ep.hidden { PutTold(d, s1, Reply(SenderOf(s1, v), AliasOf(s1, v.app), payload)); }
      DeactivateTold(d, s2, AliasOf(s, v.app));
    }
  }

  // ---- all runs ----------------------------------------------------------------

  /** The statements are some of those of the endpoint visited. */
  ghost predicate Belongs(m: Module, v: Visit, stmts: seq<Stmt>) {
    HasEndpoint(m, v.app, v.ep) && forall c {:trigger Occurs(c, stmts)} | Occurs(c, stmts) :: Occurs(c, m[v.app].eps[v.ep].stmts)
  }

  lemma FirstBelongs(m: Module, v: Visit, stmts: seq<Stmt>)
    requires stmts != [] && Belongs(m, v, stmts)
    ensures Occurs(stmts[0], m[v.app].eps[v.ep].stmts) && Belongs(m, v, stmts[1..])
    ensures forall c | OccursInside(c, stmts[0]) :: Occurs(c, m[v.app].eps[v.ep].stmts)
  {
    OccursFirst(stmts[0], stmts);
    assert Occurs(stmts[0], stmts);
    forall c ensures Occurs(c, stmts) <==> stmts[0] == c || OccursInside(c, stmts[0]) || Occurs(c, stmts[1..]) { OccursFirst(c, stmts); }
  }

  /** What the statement is, and what is in it, is written in the endpoint. */
  ghost predicate BelongsTo(m: Module, v: Visit, stmt: Stmt) {
    && HasEndpoint(m, v.app, v.ep) && Occurs(stmt, m[v.app].eps[v.ep].stmts)
    && forall c {:trigger OccursInside(c, stmt)} | OccursInside(c, stmt) :: Occurs(c, m[v.app].eps[v.ep].stmts)
  }

  ghost predicate ChoicesBelong(m: Module, v: Visit, choices: seq<Choice>) {
    forall i {:trigger choices[i]} | 0 <= i < |choices| :: Belongs(m, v, choices[i].stmts)
  }

  lemma {:induction false} EndpointTold(d: Diagram, uptos: map<string, string>, v: Visit, visited: set<string>, s: State, shot: Shot)
    requires IsCalled(d.m, v)
    ensures StaysTold(d, s, VisitEndpoint(d, uptos, v, visited, s, shot))
    decreases AllKeys(d.m) - visited, 0, 2
  {
    if HasEndpoint(d.m, v.app, v.ep) {
      var payload := d.format(ReturnPayload(d.m[v.app].eps[v.ep].stmts));
      var arrived := EndCaller(v, payload, Arrive(d, v, Introduced(s, v)), shot);
      MeetTold(d, v, payload, s, shot);
      AnswerTold(d, uptos, v, visited, arrived.s);
    }
  }

  lemma {:induction false} AnswerTold(d: Diagram, uptos: map<string, string>, v: Visit, visited: set<string>, s: State)
    requires HasEndpoint(d.m, v.app, v.ep) && IsCalled(d.m, v) && Known(s, v)
    ensures StaysTold(d, s, Answer(d, uptos, v, d.format(ReturnPayload(d.m[v.app].eps[v.ep].stmts)), visited, s))
    decreases AllKeys(d.m) - visited, 0, 1
  {
    CutTold(d, v, uptos, s);
    if KeyOf(v.app, v.ep) !in visited { ExpandTold(d, uptos, v, d.m[v.app].eps[v.ep].stmts, visited, s); }
  }

  lemma {:induction false} ExpandTold(d: Diagram, uptos: map<string, string>, v: Visit, stmts: seq<Stmt>, visited: set<string>, s: State)
    requires HasEndpoint(d.m, v.app, v.ep) && KeyOf(v.app, v.ep) !in visited && IsCalled(d.m, v) && Known(s, v)
    requires stmts == d.m[v.app].eps[v.ep].stmts
    ensures StaysTold(d, s, Expand(d, uptos, v, stmts, visited, s))
    decreases AllKeys(d.m) - visited, 0, 0
  {
    var key := KeyOf(v.app, v.ep);
    var begun := Begin(d.m[v.app], s, AliasOf(s, v.app));
    ActivateTold(d, s, v.app);
    FewerLeft(d.m, v.app, v.ep, visited);
    StmtsTold(d, uptos, v, stmts, true, visited + {key}, begun.s, begun.shot);
    var body := VisitStmts(d, uptos, v, stmts, true, visited + {key}, begun.s, begun.shot);
    if body.Done? { FireTold(d, body.s, body.shot); }
  }

  lemma {:induction false} StmtsTold(d: Diagram, uptos: map<string, string>, v: Visit, stmts: seq<Stmt>, lastParent: bool, visited: set<string>, s: State, shot: Shot)
    requires Belongs(d.m, v, stmts) && IsCalled(d.m, v) && Known(s, v)
    ensures StaysTold(d, s, VisitStmts(d, uptos, v, stmts, lastParent, visited, s, shot))
    decreases AllKeys(d.m) - visited, 1, stmts, 0
  {
    if stmts != [] {
      FirstBelongs(d.m, v, stmts);
      StmtTold(d, uptos, v, stmts[0], lastParent && |stmts| == 1, visited, s, shot);
      var r := VisitStmt(d, uptos, v, stmts[0], lastParent && |stmts| == 1, visited, s, shot);
      if r.Done? {
        StmtReturns(multiset{}, d, uptos, v, stmts[0], lastParent && |stmts| == 1, visited, s, shot);
        KnownLater(multiset{}, s, shot, r.s, r.shot, v);
        StmtsTold(d, uptos, v, stmts[1..], lastParent, visited, r.s, r.shot);
      }
    }
  }

  lemma IndentTold(d: Diagram, s: State, o: Out)
    requires StaysTold(d, Indent(s), o)
    ensures StaysTold(d, s, Unindent(o))
  {
    if AllTold(d, s) { GrownTold(d, s, Indent(s)); }
    if o.Done? && o.s.ind > 0 && AllTold(d, o.s) { GrownTold(d, o.s, Unindent(o).s); }
  }

  lemma EndTold(d: Diagram, s: State, o: Out)
    requires StaysTold(d, s, o)
    ensures StaysTold(d, s, PutEnd(o))
  {
    if o.Done? && AllTold(d, o.s) { PutTold(d, o.s, End); }
  }

  lemma StepTold(d: Diagram, v: Visit, text: string, s: State)
    requires HasEndpoint(d.m, v.app, v.ep) && Occurs(Action(text), d.m[v.app].eps[v.ep].stmts)
    ensures StaysTold(d, s, Done(Put(Named(s, v.app), Step(AliasOf(s, v.app), text)), NoShot))
  {
    var s1 := Named(s, v.app);
    if AllTold(d, s) {
      GrownTold(d, s, s1);
      assert IsStep(d.m, s1.symbols, AliasOf(s, v.app), text, v.app, v.ep);
      PutTold(d, s1, Step(AliasOf(s, v.app), text));
    }
  }

  lemma ReturnTold(d: Diagram, v: Visit, payload: string, s: State)
    requires HasEndpoint(d.m, v.app, v.ep) && IsCalled(d.m, v) && Occurs(Ret(payload), d.m[v.app].eps[v.ep].stmts)
    ensures var s1 := Introduced(s, v);
      StaysTold(d, s, Done(Put(s1, Reply(SenderOf(s1, v), AliasOf(s1, v.app), d.format(payload))), NoShot))
  {
    var s1 := Introduced(s, v);
    IntroducedGrows(s, v);
    if AllTold(d, s) {
      GrownTold(d, s, s1);
      ReplyTold(d, v, s1, payload);
      PutTold(d, s1, Reply(SenderOf(s1, v), AliasOf(s1, v.app), d.format(payload)));
    }
  }

  lemma {:induction false} StmtTold(d: Diagram, uptos: map<string, string>, v: Visit, stmt: Stmt, last: bool, visited: set<string>, s: State, shot: Shot)
    requires BelongsTo(d.m, v, stmt) && IsCalled(d.m, v) && Known(s, v)
    ensures StaysTold(d, s, VisitStmt(d, uptos, v, stmt, last, visited, s, shot))
    decreases AllKeys(d.m) - visited, 1, stmt, 0
  {
    match stmt
    case Call(app, ep) =>
      assert CallsEndpoint(d.m, v.app, app, ep);
      EndpointTold(d, uptos, Visit([v.app], app, ep, last), visited, Indent(s), shot);
      IndentTold(d, s, VisitEndpoint(d, uptos, Visit([v.app], app, ep, last), visited, Indent(s), shot));
    case Action(text) => StepTold(d, v, text, s);
    case Ret(payload) => ReturnTold(d, v, payload, s);
    case Block(_, stmts) =>
      assert forall c :: OccursInside(c, stmt) <==> Occurs(c, stmts);
      BlockTold(d, uptos, v, stmts, last, Open(false), visited, s, shot);
      EndTold(d, s, VisitBlock(d, uptos, v, stmts, last, Open(false), visited, s, shot));
    case Alt(choices) =>
      ChoicesOfAltBelong(d.m, v, stmt);
      ChoicesTold(d, uptos, v, choices, last, Open(true), visited, s, shot);
      EndTold(d, s, VisitChoices(d, uptos, v, choices, last, Open(true), visited, s, shot));
  }

  lemma ChoicesOfAltBelong(m: Module, v: Visit, stmt: Stmt)
    requires stmt.Alt? && BelongsTo(m, v, stmt)
    ensures ChoicesBelong(m, v, stmt.choices)
  {
    forall i {:trigger stmt.choices[i]} | 0 <= i < |stmt.choices| ensures Belongs(m, v, stmt.choices[i].stmts) {
      forall c {:trigger Occurs(c, stmt.choices[i].stmts)} | Occurs(c, stmt.choices[i].stmts) ensures Occurs(c, m[v.app].eps[v.ep].stmts) {
        assert OccursInside(c, stmt);
      }
    }
  }

  lemma {:induction false} BlockTold(d: Diagram, uptos: map<string, string>, v: Visit, stmts: seq<Stmt>, last: bool, header: Text, visited: set<string>, s: State, shot: Shot)
    requires Belongs(d.m, v, stmts) && IsCalled(d.m, v) && Known(s, v) && (header.Open? || header.Else?)
    ensures StaysTold(d, s, VisitBlock(d, uptos, v, stmts, last, header, visited, s, shot))
    decreases AllKeys(d.m) - visited, 1, stmts, 1
  {
    var s1 := Put(s, header);
    if AllTold(d, s) { PutTold(d, s, header); }
    StmtsTold(d, uptos, v, stmts, last, visited, Indent(s1), shot);
    IndentTold(d, s1, VisitStmts(d, uptos, v, stmts, last, visited, Indent(s1), shot));
  }

  lemma {:induction false} ChoicesTold(d: Diagram, uptos: map<string, string>, v: Visit, choices: seq<Choice>, last: bool, header: Text, visited: set<string>, s: State, shot: Shot)
    requires ChoicesBelong(d.m, v, choices) && IsCalled(d.m, v) && Known(s, v) && (header.Open? || header.Else?)
    ensures StaysTold(d, s, VisitChoices(d, uptos, v, choices, last, header, visited, s, shot))
    decreases AllKeys(d.m) - visited, 1, choices, 0
  {
    if choices != [] {
      assert Belongs(d.m, v, choices[0].stmts);
      forall i {:trigger choices[1..][i]} | 0 <= i < |choices[1..]| ensures Belongs(d.m, v, choices[1..][i].stmts) { assert choices[1..][i] == choices[i + 1]; }
      BlockTold(d, uptos, v, choices[0].stmts, last && |choices| == 1, header, visited, s, shot);
      var r := VisitBlock(d, uptos, v, choices[0].stmts, last && |choices| == 1, header, visited, s, shot);
      if r.Done? {
        BlockReturns(multiset{}, d, uptos, v, choices[0].stmts, last && |choices| == 1, header, visited, s, shot);
        KnownLater(multiset{}, s, shot, r.s, r.shot, v);
        ChoicesTold(d, uptos, v, choices[1..], last, Else, visited, r.s, r.shot);
      }
    }
  }
}
