/** Applications, their endpoints and the statement trees of endpoints, as the sequence and
    integration diagrams read them. */
module CallTree {
  datatype BlockKind = Opt | Loop | Group

  datatype Stmt =
    | Call(app: string, ep: string)
    | Action(text: string)
    | Block(kind: BlockKind, stmts: seq<Stmt>)
    | Alt(choices: seq<Choice>)
    | Ret(payload: string)

  datatype Choice = Choice(cond: string, stmts: seq<Stmt>)

  datatype Endpoint = Endpoint(stmts: seq<Stmt>, hidden: bool)

  datatype App = App(human: bool, cron: bool, eps: map<string, Endpoint>)

  type Module = map<string, App>

  predicate HasEndpoint(m: Module, app: string, ep: string) {
    app in m && ep in m[app].eps
  }

  /** The calls of a statement list in the order they are written, at any depth. */
  function CallsIn(stmts: seq<Stmt>): seq<Stmt> {
    if stmts == [] then [] else CallsOf(stmts[0]) + CallsIn(stmts[1..])
  }

  function CallsOf(s: Stmt): seq<Stmt> {
    match s
    case Call(_, _) => [s]
    case Action(_) => []
    case Ret(_) => []
    case Block(_, stmts) => CallsIn(stmts)
    case Alt(choices) => CallsInChoices(choices)
  }

  function CallsInChoices(choices: seq<Choice>): seq<Stmt> {
    if choices == [] then [] else CallsIn(choices[0].stmts) + CallsInChoices(choices[1..])
  }

  lemma {:induction false} OnlyCalls(stmts: seq<Stmt>)
    ensures forall c | c in CallsIn(stmts) :: c.Call?
  {
    if stmts != [] {
      OnlyCallsOf(stmts[0]);
      OnlyCalls(stmts[1..]);
    }
  }

  lemma {:induction false} OnlyCallsOf(s: Stmt)
    ensures forall c | c in CallsOf(s) :: c.Call?
  {
    match s
    case Block(_, stmts) => OnlyCalls(stmts);
    case Alt(choices) => OnlyCallsInChoices(choices);
    case _ =>
  }

  lemma {:induction false} OnlyCallsInChoices(choices: seq<Choice>)
    ensures forall c | c in CallsInChoices(choices) :: c.Call?
  {
    if choices != [] {
      OnlyCalls(choices[0].stmts);
      OnlyCallsInChoices(choices[1..]);
    }
  }

  /** `c` is written somewhere in the list, at any depth. */
  predicate Occurs(c: Stmt, stmts: seq<Stmt>) {
    exists i :: 0 <= i < |stmts| && (stmts[i] == c || OccursInside(c, stmts[i]))
  }

  predicate OccursInside(c: Stmt, s: Stmt) {
    (s.Block? && Occurs(c, s.stmts)) || (s.Alt? && exists i :: 0 <= i < |s.choices| && Occurs(c, s.choices[i].stmts))
  }

  lemma OccursFirst(c: Stmt, stmts: seq<Stmt>)
    requires stmts != []
    ensures Occurs(c, stmts) <==> stmts[0] == c || OccursInside(c, stmts[0]) || Occurs(c, stmts[1..])
  {
    forall i | 0 < i < |stmts| ensures stmts[i] == stmts[1..][i - 1] {}
  }

  /** The calls collected are those that are written. */
  lemma {:induction false} CallsAreThoseWritten(c: Stmt, stmts: seq<Stmt>)
    requires c.Call?
    ensures c in CallsIn(stmts) <==> Occurs(c, stmts)
  {
    if stmts != [] {
      OccursFirst(c, stmts);
      CallsOfAreThoseWritten(c, stmts[0]);
      CallsAreThoseWritten(c, stmts[1..]);
    }
  }

  lemma {:induction false} CallsOfAreThoseWritten(c: Stmt, s: Stmt)
    requires c.Call?
    ensures c in CallsOf(s) <==> s == c || OccursInside(c, s)
  {
    match s
    case Block(_, stmts) => CallsAreThoseWritten(c, stmts);
    case Alt(choices) => CallsInChoicesAreThoseWritten(c, choices);
    case _ =>
  }

  lemma {:induction false} CallsInChoicesAreThoseWritten(c: Stmt, choices: seq<Choice>)
    requires c.Call?
    ensures c in CallsInChoices(choices) <==> exists i :: 0 <= i < |choices| && Occurs(c, choices[i].stmts)
  {
    if choices != [] {
      CallsAreThoseWritten(c, choices[0].stmts);
      CallsInChoicesAreThoseWritten(c, choices[1..]);
      forall i | 0 < i < |choices| ensures choices[i] == choices[1..][i - 1] {}
    }
  }

  /** And they come in the order they are written: list by list, and a block like its statements. */
  lemma {:induction false} CallsInOrder(a: seq<Stmt>, b: seq<Stmt>)
    ensures CallsIn(a + b) == CallsIn(a) + CallsIn(b)
  {
    if a == [] {
      assert a + b == b;
    } else {
      assert (a + b)[0] == a[0] && (a + b)[1..] == a[1..] + b;
      CallsInOrder(a[1..], b);
    }
  }

  predicate Resolves(m: Module, c: Stmt) {
    c.Call? && HasEndpoint(m, c.app, c.ep)
  }

  /** Every call of every endpoint has a target. */
  predicate Resolvable(m: Module) {
    forall a, e | a in m && e in m[a].eps :: AllResolve(m, m[a].eps[e].stmts)
  }

  predicate AllResolve(m: Module, stmts: seq<Stmt>) {
    forall c | c in CallsIn(stmts) :: Resolves(m, c)
  }
}
