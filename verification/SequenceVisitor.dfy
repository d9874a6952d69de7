/** The visitor and its writer as objects (pkg/cmdutils/visitor.go, writer.go): they write
    what SequenceDiagram says, and leave the map of endpoints in progress as they found it. */
module SequenceVisitor {
  import opened CallTree
  import opened SequenceDiagram

  class Writer {
    var body: seq<Line>
    var ind: nat
    var active: map<Alias, nat>

    constructor ()
      ensures body == [] && ind == 0 && active == map[]
    {
      body, ind, active := [], 0, map[];
    }

    method WriteLine(text: Text)
      modifies this`body
      ensures body == old(body) + [Line(ind, text)]
    {
      body := body + [Line(ind, text)];
    }

    method Indent()
      modifies this`ind
      ensures ind == old(ind) + 1
    {
      ind := ind + 1;
    }

    /** False is the panic of going too far. */
    method Unindent() returns (ok: bool)
      modifies this`ind
      ensures ok == (old(ind) > 0) && ind == (if ok then old(ind) - 1 else old(ind))
    {
      ok := ind > 0;
      if ok { ind := ind - 1; }
    }

    method Activate(agent: Alias)
      modifies this`body, this`active
      ensures active == old(active)[agent := 1 + if agent in old(active) then old(active)[agent] else 0]
      ensures body == old(body) + [Line(ind, SequenceDiagram.Activate(agent))]
    {
      active := active[agent := 1 + if agent in active then active[agent] else 0];
      WriteLine(SequenceDiagram.Activate(agent));
    }

    method Deactivate(agent: Alias)
      modifies this`body, this`active
      ensures var was := State(old(body), ind, old(active), map[]);
        body == PutDeactivate(was, agent).lines && active == PutDeactivate(was, agent).active
    {
      if agent !in active || active[agent] == 0 { return; }
      active := active[agent := active[agent] - 1];
      WriteLine(SequenceDiagram.Deactivate(agent));
      if active[agent] == 0 {
        active := active - {agent};
      }
    }
  }

  /** The closure an activation returns: it deactivates the agent the first time it is called. */
  class Activation {
    const w: Writer
    const agent: Alias
    var live: bool

    constructor (w: Writer, agent: Alias, suppressed: bool)
      modifies w`body, w`active
      ensures this.w == w && this.agent == agent && live == !suppressed
      ensures suppressed ==> w.body == old(w.body) && w.active == old(w.active)
      ensures !suppressed ==>
        && w.active == old(w.active)[agent := 1 + if agent in old(w.active) then old(w.active)[agent] else 0]
        && w.body == old(w.body) + [Line(w.ind, SequenceDiagram.Activate(agent))]
    {
      this.w, this.agent, live := w, agent, !suppressed;
      new;
      if !suppressed { w.Activate(agent); }
    }

    method Call()
      modifies this, w`body, w`active
      ensures var was := State(old(w.body), w.ind, old(w.active), map[]);
        var o := Fire(was, Shot(agent, old(live)));
        w.body == o.s.lines && w.active == o.s.active && live == o.shot.live
    {
      if live {
        live := false;
        w.Deactivate(agent);
      }
    }
  }

  function ShotOf(a: Activation?): Shot
    reads a
  {
    if a == null then NoShot else Shot(a.agent, a.live)
  }

  lemma Entered(m: Module, v: Visit, visited: map<string, int>)
    requires HasEndpoint(m, v.app, v.ep) && KeyOf(v.app, v.ep) !in visited
    ensures var after := visited[KeyOf(v.app, v.ep) := 1];
      after.Keys == visited.Keys + {KeyOf(v.app, v.ep)}
      && AllKeys(m) - after.Keys == AllKeys(m) - visited.Keys - {KeyOf(v.app, v.ep)} && KeyOf(v.app, v.ep) in AllKeys(m) - visited.Keys
  {
    var after := visited[KeyOf(v.app, v.ep) := 1];
    assert after.Keys == visited.Keys + {KeyOf(v.app, v.ep)};
  }

  lemma PutAndTaken(visited: map<string, int>, key: string)
    requires key !in visited
    ensures visited[key := 1] - {key} == visited
  {
  }

  class Visitor {
    const d: Diagram
    const w: Writer
    var visited: map<string, int>
    var symbols: map<string, Alias>

    constructor (d: Diagram)
      ensures this.d == d && visited == map[] && symbols == map[] && fresh(w)
      ensures w.body == [] && w.ind == 0 && w.active == map[]
    {
      this.d, visited, symbols := d, map[], map[];
      w := new Writer();
    }

    function Now(): State
      reads this, w
    {
      State(w.body, w.ind, w.active, symbols)
    }

    /** The endpoints that are not being visited: what every expansion lowers. */
    ghost function Unvisited(): set<string>
      reads this`visited
    {
      AllKeys(d.m) - visited.Keys
    }

    method UniqueVarForAppName(appName: string) returns (alias: Alias)
      modifies this`symbols
      ensures Now() == Named(old(Now()), appName) && alias == AliasOf(old(Now()), appName)
    {
      if appName in symbols { return symbols[appName]; }
      alias := |symbols|;
      symbols := symbols[appName := alias];
    }

    method Write(text: Text)
      modifies w`body
      ensures Now() == Put(old(Now()), text)
    {
      w.WriteLine(text);
    }

    method SenderAlias(v: Visit) returns (sender: Sender)
      modifies this`symbols
      ensures Now() == (if v.from == [] then old(Now()) else Named(old(Now()), v.from[0])) && sender == SenderOf(old(Now()), v)
    {
      if v.from == [] { return Outside; }
      var alias := UniqueVarForAppName(v.from[0]);
      sender := From(alias);
    }

    method Introduce(v: Visit) returns (sender: Sender, agent: Alias)
      modifies this`symbols
      ensures Now() == Introduced(old(Now()), v) && sender == SenderOf(Now(), v) && agent == AliasOf(Now(), v.app)
    {
      sender := SenderAlias(v);
      agent := UniqueVarForAppName(v.app);
    }

    /** The message; `sender` and `agent` are named by now. */
    method WriteMessage(v: Visit, sender: Sender, agent: Alias)
      requires HasEndpoint(d.m, v.app, v.ep) && sender == SenderOf(Now(), v) && agent == AliasOf(Now(), v.app)
      modifies w`body
      ensures Now() == Arrive(d, v, old(Now()))
    {
      var app := d.m[v.app];
      if !((app.human && v.from == []) || app.cron) {
        if !app.eps[v.ep].hidden { Write(Message(sender, agent)); }
      }
    }

    /** The deactivation a visit is handed: of its caller, if the call is the last statement. */
    method DeactivateCaller(v: Visit, payload: string, caller: Activation?)
      requires caller != null ==> caller.w == w
      modifies caller, w`body, w`active
      ensures var o := EndCaller(v, payload, old(Now()), old(ShotOf(caller)));
        Now() == o.s && ShotOf(caller) == o.shot
    {
      var isCallingSelf := v.from == [v.app];
      if !isCallingSelf && payload == "" && caller != null {
        if v.last { CallClosure(caller); }
      }
    }

    method WriteNote(v: Visit, agent: Alias, payload: string, uptos: map<string, string>)
      requires agent == AliasOf(Now(), v.app)
      modifies w`body, w`active
      ensures Now() == Noted(v, payload, uptos, old(Now()))
    {
      var key := KeyOf(v.app, v.ep);
      if key in uptos {
        if payload != "" {
          w.Activate(agent);
          if uptos[key] != "" { Write(Note(agent, uptos[key])); }
        } else {
          Write(Note(agent, uptos[key]));
        }
      }
    }

    method WriteCut(v: Visit, sender: Sender, agent: Alias, hidden: bool, payload: string, uptos: map<string, string>)
      requires sender == SenderOf(Now(), v) && agent == AliasOf(Now(), v.app)
      modifies w`body, w`active
      ensures Now() == Cut(v, hidden, payload, uptos, old(Now()))
    {
      WriteNote(v, agent, payload, uptos);
      if payload != "" {
        if !hidden { Write(Reply(sender, agent, payload)); }
        w.Deactivate(agent);
      }
    }

    method VisitEndpoint(ghost free: set<string>, uptos: map<string, string>, v: Visit, caller: Activation?) returns (ok: bool)
      requires Unvisited() == free
      requires caller != null ==> caller.w == w
      modifies this, w, caller
      ensures var o := SequenceDiagram.VisitEndpoint(d, uptos, v, old(visited).Keys, old(Now()), old(ShotOf(caller)));
        ok == o.Done? && (ok ==> Now() == o.s && ShotOf(caller) == o.shot && visited == old(visited))
      decreases free, 0, 3
    {
      var sender, agent := Introduce(v);
      if !HasEndpoint(d.m, v.app, v.ep) { return false; }
      ok := Respond(free, uptos, v, sender, agent, caller);
    }

    /** The visit once its participants are named. */
    method Respond(ghost free: set<string>, uptos: map<string, string>, v: Visit, sender: Sender, agent: Alias, caller: Activation?) returns (ok: bool)
      requires Unvisited() == free
      requires HasEndpoint(d.m, v.app, v.ep) && sender == SenderOf(Now(), v) && agent == AliasOf(Now(), v.app)
      requires caller != null ==> caller.w == w
      modifies this, w, caller
      ensures var payload := d.format(ReturnPayload(d.m[v.app].eps[v.ep].stmts));
        var arrived := EndCaller(v, payload, Arrive(d, v, old(Now())), old(ShotOf(caller)));
        var o := SequenceDiagram.Answer(d, uptos, v, payload, old(visited).Keys, arrived.s);
        ok == o.Done? && (ok ==> Now() == o.s && ShotOf(caller) == arrived.shot && visited == old(visited))
      decreases free, 0, 2
    {
      var payload := d.format(ReturnPayload(d.m[v.app].eps[v.ep].stmts));
      Arrived(v, sender, agent, payload, caller);
      ok := Answer(free, uptos, v, sender, agent, payload);
    }

    method Arrived(v: Visit, sender: Sender, agent: Alias, payload: string, caller: Activation?)
      requires HasEndpoint(d.m, v.app, v.ep) && sender == SenderOf(Now(), v) && agent == AliasOf(Now(), v.app)
      requires caller != null ==> caller.w == w
      modifies caller, w`body, w`active
      ensures var o := EndCaller(v, payload, Arrive(d, v, old(Now())), old(ShotOf(caller))); Now() == o.s && ShotOf(caller) == o.shot
      ensures sender == SenderOf(Now(), v) && agent == AliasOf(Now(), v.app)
    {
      WriteMessage(v, sender, agent);
      DeactivateCaller(v, payload, caller);
    }

    /** What follows the message: nothing, a cut, or the endpoint's own statements. */
    method Answer(ghost free: set<string>, uptos: map<string, string>, v: Visit, sender: Sender, agent: Alias, payload: string) returns (ok: bool)
      requires Unvisited() == free
      requires HasEndpoint(d.m, v.app, v.ep) && sender == SenderOf(Now(), v) && agent == AliasOf(Now(), v.app)
      modifies this, w
      ensures var o := SequenceDiagram.Answer(d, uptos, v, payload, old(visited).Keys, old(Now()));
        ok == o.Done? && (ok ==> Now() == o.s && visited == old(visited))
      decreases free, 0, 1
    {
      var endpoint := d.m[v.app].eps[v.ep];
      ok := true;
      if endpoint.stmts != [] {
        var visiting := KeyOf(v.app, v.ep);
        if visiting in uptos || visiting in visited {
          WriteCut(v, sender, agent, endpoint.hidden, payload, uptos);
        } else {
          ok := ExpandEndpoint(free, uptos, v, agent, endpoint.stmts);
        }
      }
    }

    method BeginActivation(v: Visit, agent: Alias) returns (activation: Activation)
      requires HasEndpoint(d.m, v.app, v.ep)
      modifies w`body, w`active
      ensures fresh(activation) && activation.w == w
      ensures var o := Begin(d.m[v.app], old(Now()), agent); Now() == o.s && ShotOf(activation) == o.shot
    {
      var app := d.m[v.app];
      activation := new Activation(w, agent, app.human || app.cron);
    }

    method ExpandEndpoint(ghost free: set<string>, uptos: map<string, string>, v: Visit, agent: Alias, stmts: seq<Stmt>) returns (ok: bool)
      requires Unvisited() == free
      requires HasEndpoint(d.m, v.app, v.ep) && KeyOf(v.app, v.ep) !in visited && agent == AliasOf(Now(), v.app)
      modifies this, w
      ensures var o := Expand(d, uptos, v, stmts, old(visited).Keys, old(Now()));
        ok == o.Done? && (ok ==> Now() == o.s && visited == old(visited))
      decreases free, 0, 0
    {
      var activation := BeginActivation(v, agent);
      Enter(v);
      ghost var inside := visited;
      ok := RunBody(free - {KeyOf(v.app, v.ep)}, uptos, v, stmts, activation);
      assert ok ==> visited == inside;
      if ok { Leave(KeyOf(v.app, v.ep)); }
    }

    method RunBody(ghost free: set<string>, uptos: map<string, string>, v: Visit, stmts: seq<Stmt>, activation: Activation) returns (ok: bool)
      requires Unvisited() == free
      requires activation.w == w
      modifies this, w, activation
      ensures var o := SequenceDiagram.VisitStmts(d, uptos, v, stmts, true, old(visited).Keys, old(Now()), old(ShotOf(activation)));
        ok == o.Done? && (ok ==> Now() == Fire(o.s, o.shot).s && visited == old(visited))
      decreases free, 2
    {
      ok := VisitStmts(free, uptos, v, stmts, true, activation);
      if ok { CallClosure(activation); }
    }

    method CallClosure(activation: Activation)
      requires activation.w == w
      modifies activation, w`body, w`active
      ensures var o := Fire(old(Now()), old(ShotOf(activation))); Now() == o.s && ShotOf(activation) == o.shot
    {
      activation.Call();
    }

    method Enter(v: Visit)
      requires HasEndpoint(d.m, v.app, v.ep) && KeyOf(v.app, v.ep) !in visited
      modifies this`visited
      ensures visited.Keys == old(visited).Keys + {KeyOf(v.app, v.ep)} && visited[KeyOf(v.app, v.ep)] == 1
      ensures visited - {KeyOf(v.app, v.ep)} == old(visited)
      ensures Unvisited() == old(Unvisited()) - {KeyOf(v.app, v.ep)} && KeyOf(v.app, v.ep) in old(Unvisited())
    {
      var visiting := KeyOf(v.app, v.ep);
      Entered(d.m, v, visited);
      PutAndTaken(visited, visiting);
      visited := visited[visiting := 1];
    }

    method Leave(visiting: string)
      requires visiting in visited && visited[visiting] > 0
      modifies this`visited
      ensures visited == if old(visited)[visiting] == 1 then old(visited) - {visiting} else old(visited)[visiting := old(visited)[visiting] - 1]
    {
      visited := visited[visiting := visited[visiting] - 1];
      if visited[visiting] == 0 { visited := visited - {visiting}; }
    }

    method VisitStmts(ghost free: set<string>, uptos: map<string, string>, v: Visit, stmts: seq<Stmt>, isLastParentStmt: bool, activation: Activation) returns (ok: bool)
      requires Unvisited() == free
      requires activation.w == w
      modifies this, w, activation
      ensures var o := SequenceDiagram.VisitStmts(d, uptos, v, stmts, isLastParentStmt, old(visited).Keys, old(Now()), old(ShotOf(activation)));
        ok == o.Done? && (ok ==> Now() == o.s && ShotOf(activation) == o.shot && visited == old(visited))
      decreases free, 1, stmts, 0
    {
      ok := true;
      ghost var all := SequenceDiagram.VisitStmts(d, uptos, v, stmts, isLastParentStmt, visited.Keys, Now(), ShotOf(activation));
      for i := 0 to |stmts|
        invariant visited == old(visited)
        invariant all == SequenceDiagram.VisitStmts(d, uptos, v, stmts[i..], isLastParentStmt, visited.Keys, Now(), ShotOf(activation))
      {
        assert stmts[i..][0] == stmts[i] && stmts[i..][1..] == stmts[i + 1..];
        ok := VisitStmt(free, uptos, v, stmts[i], isLastParentStmt && i == |stmts| - 1, activation);
        if !ok { return; }
      }
    }

    method VisitStmt(ghost free: set<string>, uptos: map<string, string>, v: Visit, stmt: Stmt, isLastStmt: bool, activation: Activation) returns (ok: bool)
      requires Unvisited() == free
      requires activation.w == w
      modifies this, w, activation
      ensures var o := SequenceDiagram.VisitStmt(d, uptos, v, stmt, isLastStmt, old(visited).Keys, old(Now()), old(ShotOf(activation)));
        ok == o.Done? && (ok ==> Now() == o.s && ShotOf(activation) == o.shot && visited == old(visited))
      decreases free, 1, stmt, 0
    {
      match stmt
      case Call(app, ep) =>
        ok := VisitCall(free, uptos, v, app, ep, isLastStmt, activation);
      case Action(text) =>
        VisitAction(v, text);
        ok := true;
      case Block(_, stmts) =>
        ok := VisitBlock(free, uptos, v, stmts, isLastStmt, Open(false), activation);
        if !ok { return; }
        Write(End);
      case Alt(choices) =>
        ok := VisitAlt(free, uptos, v, choices, isLastStmt, activation);
      case Ret(payload) =>
        VisitRet(v, payload);
        ok := true;
    }

    method VisitCall(ghost free: set<string>, uptos: map<string, string>, v: Visit, app: string, ep: string, isLastStmt: bool, activation: Activation) returns (ok: bool)
      requires Unvisited() == free
      requires activation.w == w
      modifies this, w, activation
      ensures var o := Unindent(SequenceDiagram.VisitEndpoint(d, uptos, Visit([v.app], app, ep, isLastStmt), old(visited).Keys, Indent(old(Now())), old(ShotOf(activation))));
        ok == o.Done? && (ok ==> Now() == o.s && ShotOf(activation) == o.shot && visited == old(visited))
      decreases free, 0, 4
    {
      w.Indent();
      assert Now() == Indent(old(Now())) && ShotOf(activation) == old(ShotOf(activation));
      ok := VisitEndpoint(free, uptos, Visit([v.app], app, ep, isLastStmt), activation);
      if !ok { return; }
      ok := UnindentWriter(ShotOf(activation));
    }

    method VisitAction(v: Visit, text: string)
      modifies this`symbols, w`body
      ensures Now() == if text == "..." then old(Now()) else Put(Named(old(Now()), v.app), Step(AliasOf(old(Now()), v.app), text))
    {
      if text != "..." {
        var agent := UniqueVarForAppName(v.app);
        Write(Step(agent, text));
      }
    }

    method VisitRet(v: Visit, payload: string)
      modifies this`symbols, w`body
      ensures var s1 := Introduced(old(Now()), v); Now() == Put(s1, Reply(SenderOf(s1, v), AliasOf(s1, v.app), d.format(payload)))
    {
      var sender, agent := Introduce(v);
      Write(Reply(sender, agent, d.format(payload)));
    }

    method VisitBlock(ghost free: set<string>, uptos: map<string, string>, v: Visit, stmts: seq<Stmt>, isLastStmt: bool, header: Text, activation: Activation) returns (ok: bool)
      requires Unvisited() == free
      requires activation.w == w
      modifies this, w, activation
      ensures var o := SequenceDiagram.VisitBlock(d, uptos, v, stmts, isLastStmt, header, old(visited).Keys, old(Now()), old(ShotOf(activation)));
        ok == o.Done? && (ok ==> Now() == o.s && ShotOf(activation) == o.shot && visited == old(visited))
      decreases free, 1, stmts, 1
    {
      Write(header);
      w.Indent();
      ok := VisitStmts(free, uptos, v, stmts, isLastStmt, activation);
      if !ok { return; }
      ok := UnindentWriter(ShotOf(activation));
    }

    method UnindentWriter(ghost shot: Shot) returns (ok: bool)
      modifies w`ind
      ensures var o := Unindent(Done(old(Now()), shot)); ok == o.Done? && (ok ==> Now() == o.s)
    {
      ok := w.Unindent();
    }

    method VisitAlt(ghost free: set<string>, uptos: map<string, string>, v: Visit, choices: seq<Choice>, lastStmt: bool, activation: Activation) returns (ok: bool)
      requires Unvisited() == free
      requires activation.w == w
      modifies this, w, activation
      ensures var o := PutEnd(VisitChoices(d, uptos, v, choices, lastStmt, Open(true), old(visited).Keys, old(Now()), old(ShotOf(activation))));
        ok == o.Done? && (ok ==> Now() == o.s && ShotOf(activation) == o.shot && visited == old(visited))
      decreases free, 1, choices, 0
    {
      ok := true;
      var prefix := Open(true);
      ghost var all := VisitChoices(d, uptos, v, choices, lastStmt, prefix, visited.Keys, Now(), ShotOf(activation));
      for j := 0 to |choices|
        invariant visited == old(visited)
        invariant all == VisitChoices(d, uptos, v, choices[j..], lastStmt, prefix, visited.Keys, Now(), ShotOf(activation))
      {
        assert choices[j..][0] == choices[j] && choices[j..][1..] == choices[j + 1..];
        ok := VisitBlock(free, uptos, v, choices[j].stmts, lastStmt && j == |choices| - 1, prefix, activation);
        if !ok { return; }
        prefix := Else;
      }
      Write(End);
    }

    /** Each endpoint of a collection in turn, the others marked as shown below. */
    method VisitEndpointCollection(entries: seq<Entry>, uptos: map<string, string>) returns (ok: bool)
      modifies this, w
      ensures var o := VisitCollection(d, entries, uptos, old(Now())); ok == o.Done? && (ok ==> Now() == o.s)
    {
      ok := true;
      var blackboxes := uptos;
      ghost var start := Now();
      for i := 0 to |entries|
        invariant blackboxes == MarksAfter(entries, uptos, i) && Visited(d, entries, uptos, i, start, Now())
      {
        ok, blackboxes := VisitNext(entries, uptos, i, blackboxes, start);
        if !ok { return; }
      }
    }

    /** The i-th one; `uptos` and `start` are those the collection began with. */
    method VisitNext(entries: seq<Entry>, ghost uptos: map<string, string>, i: nat, blackboxes: map<string, string>, ghost start: State)
      returns (ok: bool, marked: map<string, string>)
      requires i < |entries| && blackboxes == MarksAfter(entries, uptos, i) && Visited(d, entries, uptos, i, start, Now())
      modifies this, w
      ensures marked == MarksAfter(entries, uptos, i + 1)
      ensures if ok then Visited(d, entries, uptos, i + 1, start, Now()) else VisitCollection(d, entries, uptos, start).Panic?
    {
      ghost var before := Now();
      marked := WithOthers(blackboxes, entries, entries[i]);
      ghost var o;
      ok, o := VisitNth(entries, uptos, i, marked);
      NextVisited(d, entries, uptos, i, start, before, o);
    }

    method VisitNth(entries: seq<Entry>, ghost uptos: map<string, string>, i: nat, marked: map<string, string>) returns (ok: bool, ghost o: Out)
      requires i < |entries| && marked == MarksAfter(entries, uptos, i + 1)
      modifies this, w
      ensures o == VisitAt(d, entries, uptos, i, old(Now())) && ok == o.Done? && (ok ==> Now() == o.s)
    {
      o := VisitAt(d, entries, uptos, i, Now());
      ok := VisitEntry(entries[i], marked);
    }

    method VisitEntry(e: Entry, uptos: map<string, string>) returns (ok: bool)
      modifies this, w
      ensures var o := if HasEndpoint(d.m, e.app, e.ep) then SequenceDiagram.VisitEntry(d, uptos, e, old(Now())) else Panic;
        ok == o.Done? && (ok ==> Now() == o.s)
    {
      if !HasEndpoint(d.m, e.app, e.ep) { return false; }
      Write(Header(e.app, e.ep));
      visited := map[];
      assert visited.Keys == {};
      ok := VisitEndpoint(Unvisited(), uptos, Visit([], e.app, e.ep, false), null);
    }
  }
}
