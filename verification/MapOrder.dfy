/** An expression that is not well scoped can show the order in which the runtime yields the
    keys of a map (pkg/eval/exprOp.go, exprEval.go). */
module MapOrder {
  import opened Ordering
  import opened Values
  import opened Evaluator
  import opened EvaluatorTheorems

  /** False for the first entry it is asked about, and true from then on. */
  const NotFirst: Expr := IfElse(Name("a"), Literal(Bool(true)), LeakyTransform)

  function AllButFirst(m: map<string, Value>): Expr {
    Binary(Where, "k", Literal(Map(m)), NotFirst)
  }

  /** After the transform its let is bound, and nothing else is changed. */
  lemma LeakRuns(app: App, fuel: nat, st: State)
    requires RESULT !in st.vars && "." !in st.vars && "x" !in st.vars
    ensures Eval(app, fuel, st, LeakyTransform) == Run(Ok(Map(map[])), Bind(st, "a", Bool(true)))
  {
    var stmts := [Let("a", Literal(Bool(true)))];
    var inner := Bind(st, "x", Str("s"));
    var bound := Bind(inner, "a", Bool(true));
    assert stmts[1..] == [];
    assert EvStmts(app, fuel, bound, [], map[]) == Run(Ok(Map(map[])), bound);
    assert Eval(app, fuel, inner, Literal(Bool(true))) == Run(Ok(Bool(true)), inner);
    assert EvStmts(app, fuel, inner, stmts, map[]) == Run(Ok(Map(map[])), bound);
    assert Unbind(bound, "x") == Bind(st, "a", Bool(true));
    assert EvApply(app, fuel, st, Str("s"), "x", stmts, ReturnsOther) == Run(Ok(Map(map[])), Unbind(bound, "x"));
    assert Eval(app, fuel, st, Literal(Str("s"))) == Run(Ok(Str("s")), st);
    assert Ev(app, fuel, st, Transform(Literal(Str("s")), "x", stmts, ReturnsOther)) == Run(Ok(Map(map[])), Unbind(bound, "x"));
  }

  lemma FirstIsFalse(app: App, fuel: nat, st: State)
    requires RESULT !in st.vars && "." !in st.vars && "x" !in st.vars && "a" !in st.vars
    ensures Eval(app, fuel, st, NotFirst) == Run(Ok(Map(map[])), Bind(st, "a", Bool(true)))
  {
    LeakRuns(app, fuel, st);
    assert EvName(st, "a") == Run(Ok(Nil), st);
    assert Eval(app, fuel, st, Name("a")) == Run(Ok(Nil), st);
    assert Ev(app, fuel, st, NotFirst) == Eval(app, fuel, st, LeakyTransform);
  }

  lemma LaterIsTrue(app: App, fuel: nat, st: State)
    requires "a" in st.vars && st.vars["a"] == Bool(true)
    ensures Eval(app, fuel, st, NotFirst) == Run(Ok(Bool(true)), st)
  {
    assert Eval(app, fuel, st, Name("a")) == Run(Ok(Bool(true)), st);
    assert Eval(app, fuel, st, Literal(Bool(true))) == Run(Ok(Bool(true)), st);
    assert Ev(app, fuel, st, NotFirst) == Eval(app, fuel, st, Literal(Bool(true)));
  }

  /** What is kept of two entries is the one the runtime yields second. */
  lemma SecondIsKept(app: App, fuel: nat, tick: nat, m: map<string, Value>, p: string, q: string)
    requires m.Keys == {p, q} && p != q && Enumerate(app, tick, m.Keys) == [p, q]
    ensures Ev(app, fuel, State(map[], tick), AllButFirst(m)).out == Ok(Map(map[q := m[q]]))
  {
    var st, next := State(map[], tick), State(map[], tick + 1);
    PassesRun(app, fuel, next, m, p, q);
    assert Eval(app, fuel, st, Literal(Map(m))) == Run(Ok(Map(m)), st);
    assert EvOver(app, fuel, st, Where, "k", Map(m), NotFirst) == EvWhereMap(app, fuel, next, "k", NotFirst, m, [p, q], map[]);
    assert AllButFirst(m) == Binary(Where, "k", Literal(Map(m)), NotFirst);
  }

  lemma PassesRun(app: App, fuel: nat, st: State, m: map<string, Value>, p: string, q: string)
    requires p in m && q in m && st.vars == map[]
    ensures EvWhereMap(app, fuel, st, "k", NotFirst, m, [p, q], map[]).out == Ok(Map(map[q := m[q]]))
  {
    var st1 := Bind(st, "k", Pair(p, m[p]));
    FirstIsFalse(app, fuel, st1);
    var st2 := Bind(st1, "a", Bool(true));
    var st3 := Bind(st2, "k", Pair(q, m[q]));
    LaterIsTrue(app, fuel, st3);
    assert [p, q][1..] == [q] && [q][1..] == [];
    var none: map<string, Value> := map[];
    assert none[q := m[q]] == map[q := m[q]];
    assert EvWhereMap(app, fuel, st3, "k", NotFirst, m, [], map[q := m[q]]) == Run(Ok(Map(map[q := m[q]])), st3);
    assert EvWhereMap(app, fuel, st2, "k", NotFirst, m, [q], map[]) == EvWhereMap(app, fuel, st3, "k", NotFirst, m, [], map[q := m[q]]);
    assert EvWhereMap(app, fuel, st, "k", NotFirst, m, [p, q], map[]) == EvWhereMap(app, fuel, st2, "k", NotFirst, m, [q], map[]);
  }

  lemma IsEnumerated(app: App, tick: nat, keys: set<string>, p: string, q: string)
    requires keys == {p, q} && p != q && app.order(tick, keys) == [p, q]
    ensures Enumerate(app, tick, keys) == [p, q]
  {
    assert |keys| == 2;
    assert (set k | k in [p, q]) == keys;
  }

  /** A runtime that yields these keys in this order. */
  function Yielding(prog: Program, keys: seq<string>): App {
    App(prog, (t, ks) => keys)
  }

  /** Two runtimes that differ only in the order of the keys give different values. */
  lemma MapOrderShows(prog: Program, fuel: nat, tick: nat)
    ensures var e, st := AllButFirst(map["u" := Null, "v" := Null]), State(map[], tick);
      && Ev(Yielding(prog, ["u", "v"]), fuel, st, e).out == Ok(Map(map["v" := Null]))
      && Ev(Yielding(prog, ["v", "u"]), fuel, st, e).out == Ok(Map(map["u" := Null]))
  {
    var m: map<string, Value> := map["u" := Null, "v" := Null];
    assert "u" != "v" && m.Keys == {"u", "v"} && m.Keys == {"v", "u"};
    IsEnumerated(Yielding(prog, ["u", "v"]), tick, m.Keys, "u", "v");
    IsEnumerated(Yielding(prog, ["v", "u"]), tick, m.Keys, "v", "u");
    SecondIsKept(Yielding(prog, ["u", "v"]), fuel, tick, m, "u", "v");
    SecondIsKept(Yielding(prog, ["v", "u"]), fuel, tick, m, "v", "u");
  }
}
