/** Sequence diagrams: what one run of the visitor writes (pkg/cmdutils/visitor.go, writer.go).
    The one-shot closure with which a call may deactivate its caller early is the state of
    the caller's activation, handed down the call and back. */
module SequenceDiagram {
  import opened CallTree

  /** Aliases count the participants in the order they are first named. */
  type Alias = nat

  datatype Text =
    | Header(app: string, ep: string)
    | Message(sender: Sender, agent: Alias)
    | Reply(sender: Sender, agent: Alias, payload: string)
    | Step(agent: Alias, text: string)
    | Note(agent: Alias, comment: string)
    | Activate(agent: Alias)
    | Deactivate(agent: Alias)
    | Open(alt: bool)
    | Else
    | End

  datatype Sender = Outside | From(alias: Alias)

  /** A line and the indent it is written at. */
  datatype Line = Line(ind: nat, text: Text)

  datatype State = State(lines: seq<Line>, ind: nat, active: map<Alias, nat>, symbols: map<string, Alias>)

  /** An activation that is to be ended once, if it has not been already. */
  datatype Shot = NoShot | Shot(agent: Alias, live: bool)

  datatype Out = Panic | Done(s: State, shot: Shot)

  /** `format` is how a return payload is printed. */
  datatype Diagram = Diagram(m: Module, format: string -> string)

  /** What is visited: an endpoint, who calls it, and whether by the caller's last statement. */
  datatype Visit = Visit(from: seq<string>, app: string, ep: string, last: bool)

  // ---- the writer --------------------------------------------------------------

  function Put(s: State, text: Text): State {
    s.(lines := s.lines + [Line(s.ind, text)])
  }

  function ActiveOf(s: State, a: Alias): nat {
    if a in s.active then s.active[a] else 0
  }

  function PutActivate(s: State, a: Alias): State {
    Put(s.(active := s.active[a := ActiveOf(s, a) + 1]), Activate(a))
  }

  /** Nothing to deactivate is no error. */
  function PutDeactivate(s: State, a: Alias): State {
    if ActiveOf(s, a) == 0 then s
    else if s.active[a] == 1 then Put(s.(active := s.active - {a}), Deactivate(a))
    else Put(s.(active := s.active[a := s.active[a] - 1]), Deactivate(a))
  }

  function Fire(s: State, shot: Shot): Out {
    if shot.Shot? && shot.live then Done(PutDeactivate(s, shot.agent), Shot(shot.agent, false)) else Done(s, shot)
  }

  function Indent(s: State): State {
    s.(ind := s.ind + 1)
  }

  function Unindent(o: Out): Out {
    if o.Panic? || o.s.ind == 0 then Panic else Done(o.s.(ind := o.s.ind - 1), o.shot)
  }

  function Named(s: State, app: string): State {
    if app in s.symbols then s else s.(symbols := s.symbols[app := |s.symbols|])
  }

  function AliasOf(s: State, app: string): Alias {
    if app in s.symbols then s.symbols[app] else |s.symbols|
  }

  function PutEnd(o: Out): Out {
    if o.Panic? then Panic else Done(Put(o.s, End), o.shot)
  }

  // ---- the visitor -------------------------------------------------------------

  function KeyOf(app: string, ep: string): string {
    app + " <- " + ep
  }

  function AllKeys(m: Module): set<string> {
    set a, e | a in m && e in m[a].eps :: KeyOf(a, e)
  }

  /** The payload of the first return statement, looking into blocks. */
  function ReturnPayload(stmts: seq<Stmt>): string {
    if stmts == [] then ""
    else
      var rest := stmts[1..];
      match stmts[0]
      case Ret(payload) => payload
      case Call(_, _) => ReturnPayload(rest)
      case Action(_) => ReturnPayload(rest)
      case Block(_, inner) => var p := ReturnPayload(inner); if p != "" then p else ReturnPayload(rest)
      case Alt(choices) => var p := ChoicePayload(choices); if p != "" then p else ReturnPayload(rest)
  }

  function ChoicePayload(choices: seq<Choice>): string {
    if choices == [] then ""
    else
      var p := ReturnPayload(choices[0].stmts);
      if p != "" then p else ChoicePayload(choices[1..])
  }

  /** The participants of a message, named in the order sender, agent. */
  function Introduced(s: State, v: Visit): State {
    Named(if v.from == [] then s else Named(s, v.from[0]), v.app)
  }

  function SenderOf(s: State, v: Visit): Sender {
    if v.from == [] then Outside else From(AliasOf(s, v.from[0]))
  }

  /** The message itself; none to a hidden endpoint, a cron job, or a human from outside. */
  function Arrive(d: Diagram, v: Visit, s: State): State
    requires HasEndpoint(d.m, v.app, v.ep)
  {
    var app := d.m[v.app];
    if (app.human && v.from == []) || app.cron || app.eps[v.ep].hidden then s
    else Put(s, Message(SenderOf(s, v), AliasOf(s, v.app)))
  }

  /** A call that is its caller's last statement and returns nothing ends the caller's activation. */
  function EndCaller(v: Visit, payload: string, s: State, shot: Shot): Out {
    if v.from != [v.app] && payload == "" && v.last then Fire(s, shot) else Done(s, shot)
  }

  /** The note on a marked endpoint, in an activation if the endpoint returns something. */
  function Noted(v: Visit, payload: string, uptos: map<string, string>, s: State): State {
    var agent, key := AliasOf(s, v.app), KeyOf(v.app, v.ep);
    if key !in uptos then s
    else if payload == "" then Put(s, Note(agent, uptos[key]))
    else
      var s1 := PutActivate(s, agent);
      if uptos[key] == "" then s1 else Put(s1, Note(agent, uptos[key]))
  }

  /** An endpoint that is not expanded: it is to be shown elsewhere, or is being visited. */
  function Cut(v: Visit, hidden: bool, payload: string, uptos: map<string, string>, s: State): State {
    var s1, agent := Noted(v, payload, uptos, s), AliasOf(s, v.app);
    if payload == "" then s1
    else PutDeactivate(if hidden then s1 else Put(s1, Reply(SenderOf(s1, v), agent, payload)), agent)
  }

  /** The activation an expanded endpoint starts with; humans and cron jobs have none. */
  function Begin(app: App, s: State, agent: Alias): Out {
    if app.human || app.cron then Done(s, Shot(agent, false)) else Done(PutActivate(s, agent), Shot(agent, true))
  }

  function VisitEndpoint(d: Diagram, uptos: map<string, string>, v: Visit, visited: set<string>, s: State, shot: Shot): Out
    decreases AllKeys(d.m) - visited, 0, 2
  {
    if !HasEndpoint(d.m, v.app, v.ep) then Panic
    else
      var payload := d.format(ReturnPayload(d.m[v.app].eps[v.ep].stmts));
      var arrived := EndCaller(v, payload, Arrive(d, v, Introduced(s, v)), shot);
      if arrived.Panic? then Panic
      else
        var answer := Answer(d, uptos, v, payload, visited, arrived.s);
        if answer.Panic? then Panic else Done(answer.s, arrived.shot)
  }

  /** What follows the message: nothing, a cut, or the endpoint's own statements. */
  function Answer(d: Diagram, uptos: map<string, string>, v: Visit, payload: string, visited: set<string>, s: State): Out
    requires HasEndpoint(d.m, v.app, v.ep)
    decreases AllKeys(d.m) - visited, 0, 1
  {
    var ep, key := d.m[v.app].eps[v.ep], KeyOf(v.app, v.ep);
    if ep.stmts == [] then Done(s, NoShot)
    else if key in uptos || key in visited then Done(Cut(v, ep.hidden, payload, uptos, s), NoShot)
    else Expand(d, uptos, v, ep.stmts, visited, s)
  }

  /** The endpoint's own statements, under an activation of its own. */
  function Expand(d: Diagram, uptos: map<string, string>, v: Visit, stmts: seq<Stmt>, visited: set<string>, s: State): Out
    requires HasEndpoint(d.m, v.app, v.ep) && KeyOf(v.app, v.ep) !in visited
    decreases AllKeys(d.m) - visited, 0, 0
  {
    var key := KeyOf(v.app, v.ep);
    var begun := Begin(d.m[v.app], s, AliasOf(s, v.app));
    FewerLeft(d.m, v.app, v.ep, visited);
    var body := VisitStmts(d, uptos, v, stmts, true, visited + {key}, begun.s, begun.shot);
    if body.Panic? then Panic else Fire(body.s, body.shot)
  }

  lemma FewerLeft(m: Module, app: string, ep: string, visited: set<string>)
    requires HasEndpoint(m, app, ep) && KeyOf(app, ep) !in visited
    ensures AllKeys(m) - (visited + {KeyOf(app, ep)}) < AllKeys(m) - visited
  {
    assert KeyOf(app, ep) in AllKeys(m) - visited;
  }

  function VisitStmts(d: Diagram, uptos: map<string, string>, v: Visit, stmts: seq<Stmt>, lastParent: bool, visited: set<string>, s: State, shot: Shot): Out
    decreases AllKeys(d.m) - visited, 1, stmts, 0
  {
    if stmts == [] then Done(s, shot)
    else
      var r := VisitStmt(d, uptos, v, stmts[0], lastParent && |stmts| == 1, visited, s, shot);
      if r.Panic? then Panic else VisitStmts(d, uptos, v, stmts[1..], lastParent, visited, r.s, r.shot)
  }

  function VisitStmt(d: Diagram, uptos: map<string, string>, v: Visit, stmt: Stmt, last: bool, visited: set<string>, s: State, shot: Shot): Out
    decreases AllKeys(d.m) - visited, 1, stmt, 0
  {
    match stmt
    case Call(app, ep) => Unindent(VisitEndpoint(d, uptos, Visit([v.app], app, ep, last), visited, Indent(s), shot))
    case Action(text) => Done(if text == "..." then s else Put(Named(s, v.app), Step(AliasOf(s, v.app), text)), shot)
    case Block(_, stmts) => PutEnd(VisitBlock(d, uptos, v, stmts, last, Open(false), visited, s, shot))
    case Alt(choices) => PutEnd(VisitChoices(d, uptos, v, choices, last, Open(true), visited, s, shot))
    case Ret(payload) =>
      var s1 := Introduced(s, v);
      Done(Put(s1, Reply(SenderOf(s1, v), AliasOf(s1, v.app), d.format(payload))), shot)
  }

  function VisitBlock(d: Diagram, uptos: map<string, string>, v: Visit, stmts: seq<Stmt>, last: bool, header: Text, visited: set<string>, s: State, shot: Shot): Out
    decreases AllKeys(d.m) - visited, 1, stmts, 1
  {
    Unindent(VisitStmts(d, uptos, v, stmts, last, visited, Indent(Put(s, header)), shot))
  }

  /** The first choice is headed alt, the others else. */
  function VisitChoices(d: Diagram, uptos: map<string, string>, v: Visit, choices: seq<Choice>, last: bool, header: Text, visited: set<string>, s: State, shot: Shot): Out
    decreases AllKeys(d.m) - visited, 1, choices, 0
  {
    if choices == [] then Done(s, shot)
    else
      var r := VisitBlock(d, uptos, v, choices[0].stmts, last && |choices| == 1, header, visited, s, shot);
      if r.Panic? then Panic else VisitChoices(d, uptos, v, choices[1..], last, Else, visited, r.s, r.shot)
  }

  // ---- collections of endpoints ------------------------------------------------

  datatype Entry = Entry(app: string, ep: string, upto: string)

  function EntryKey(e: Entry): string {
    KeyOf(e.app, e.ep)
  }

  /** The other endpoints of the collection are cut where they are met. */
  function Others(all: seq<Entry>, e: Entry): set<string> {
    (set x | x in all :: EntryKey(x)) + {e.upto} - {EntryKey(e)}
  }

  function WithOthers(uptos: map<string, string>, all: seq<Entry>, e: Entry): map<string, string> {
    uptos + map k | k in Others(all, e) :: "see below"
  }

  /** The marks once `n` endpoints have been visited: they are never taken back. */
  function MarksAfter(all: seq<Entry>, uptos: map<string, string>, n: nat): map<string, string>
    requires n <= |all|
  {
    if n == 0 then uptos else WithOthers(MarksAfter(all, uptos, n - 1), all, all[n - 1])
  }

  /** One endpoint, under its header. */
  function VisitEntry(d: Diagram, uptos: map<string, string>, e: Entry, s: State): Out {
    VisitEndpoint(d, uptos, Visit([], e.app, e.ep, false), {}, Put(s, Header(e.app, e.ep)), NoShot)
  }

  /** The i-th endpoint, under its marks and those of the endpoints before it. */
  function VisitAt(d: Diagram, all: seq<Entry>, uptos: map<string, string>, i: nat, s: State): Out {
    if i < |all| && HasEndpoint(d.m, all[i].app, all[i].ep) then VisitEntry(d, MarksAfter(all, uptos, i + 1), all[i], s) else Panic
  }

  function EntryStep(d: Diagram, all: seq<Entry>, uptos: map<string, string>): (nat, State) -> Out {
    (i: nat, s: State) => VisitAt(d, all, uptos, i, s)
  }

  /** The first `n` steps one after the other, as far as none panics. */
  function Steps(step: (nat, State) -> Out, n: nat, s: State): Out {
    if n == 0 then Done(s, NoShot)
    else
      var before := Steps(step, n - 1, s);
      if before.Panic? then Panic else WithoutShot(step(n - 1, before.s))
  }

  function WithoutShot(o: Out): Out {
    if o.Panic? then Panic else Done(o.s, NoShot)
  }

  /** visitEndpointCollection. */
  function VisitCollection(d: Diagram, all: seq<Entry>, uptos: map<string, string>, s: State): Out {
    Steps(EntryStep(d, all, uptos), |all|, s)
  }

  lemma OneMoreVisit(d: Diagram, all: seq<Entry>, uptos: map<string, string>, n: nat, start: State)
    requires Steps(EntryStep(d, all, uptos), n, start).Done?
    ensures Steps(EntryStep(d, all, uptos), n + 1, start) == WithoutShot(VisitAt(d, all, uptos, n, Steps(EntryStep(d, all, uptos), n, start).s))
  {
  }

  lemma {:induction false} PanicsStay(step: (nat, State) -> Out, n: nat, m: nat, s: State)
    requires n <= m && Steps(step, n, s).Panic?
    ensures Steps(step, m, s).Panic?
    decreases m
  {
    if n < m { PanicsStay(step, n, m - 1, s); }
  }

  /** The first `n` endpoints have been visited, and `now` is the state. */
  ghost predicate Visited(d: Diagram, all: seq<Entry>, uptos: map<string, string>, n: nat, start: State, now: State) {
    Steps(EntryStep(d, all, uptos), n, start) == Done(now, NoShot)
  }

  lemma NextVisited(d: Diagram, all: seq<Entry>, uptos: map<string, string>, n: nat, start: State, now: State, o: Out)
    requires Visited(d, all, uptos, n, start, now) && n < |all| && o == VisitAt(d, all, uptos, n, now)
    ensures if o.Done? then Visited(d, all, uptos, n + 1, start, o.s) else VisitCollection(d, all, uptos, start).Panic?
  {
    OneMoreVisit(d, all, uptos, n, start);
    if o.Panic? { PanicsStay(EntryStep(d, all, uptos), n + 1, |all|, start); }
  }

  ghost predicate KeptAt(step: (nat, State) -> Out, good: Out -> bool, i: nat, t: State) {
    good(Done(t, NoShot)) ==> good(WithoutShot(step(i, t)))
  }

  /** What every step keeps holds at the end. */
  lemma {:induction false} StepsKeep(step: (nat, State) -> Out, good: Out -> bool, n: nat, s: State)
    requires good(Done(s, NoShot)) && good(Panic)
    requires forall i: nat, t {:trigger KeptAt(step, good, i, t)} :: i < n ==> KeptAt(step, good, i, t)
    ensures good(Steps(step, n, s))
    decreases n
  {
    if n > 0 {
      StepsKeep(step, good, n - 1, s);
      var before := Steps(step, n - 1, s);
      if before.Done? { assert KeptAt(step, good, n - 1, before.s); }
    }
  }

  ghost predicate OkAt(step: (nat, State) -> Out, ok: nat -> bool, i: nat, t: State) {
    step(i, t).Done? <==> ok(i)
  }

  /** If each step gets through or not whatever came before, they all do when each does. */
  lemma {:induction false} StepsSucceed(step: (nat, State) -> Out, ok: nat -> bool, n: nat, s: State)
    requires forall i: nat, t {:trigger OkAt(step, ok, i, t)} :: i < n ==> OkAt(step, ok, i, t)
    ensures Steps(step, n, s).Done? <==> forall i: nat | i < n :: ok(i)
    decreases n
  {
    if n > 0 {
      StepsSucceed(step, ok, n - 1, s);
      var before := Steps(step, n - 1, s);
      if before.Done? { assert OkAt(step, ok, n - 1, before.s); }
    }
  }
}
