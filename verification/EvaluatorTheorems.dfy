/** The evaluator's main results, put together from ScopingProofs and ScopeFrame. */
module EvaluatorTheorems {
  import opened Ordering
  import opened Values
  import opened Evaluator
  import opened EvaluatorMachine
  import opened Lexical
  import opened ScopingProofs
  import opened ScopeFrame

  /** Expressions without transforms and calls: the only binders are those of `where` and `flatten`. */
  predicate Plain(e: Expr) {
    match e
    case NilExpr => true
    case UnknownExpr => true
    case Literal(_) => true
    case Name(_) => true
    case GetAttr(arg, _) => Plain(arg)
    case IfElse(cond, ifTrue, ifFalse) => Plain(cond) && Plain(ifTrue) && Plain(ifFalse)
    case ListOf(es) => AllPlain(es)
    case SetOf(es) => AllPlain(es)
    case Unary(_, arg) => Plain(arg)
    case Binary(_, _, lhs, rhs) => Plain(lhs) && Plain(rhs)
    case Call(_, _) => false
    case Transform(_, _, _, _) => false
  }

  predicate AllPlain(es: seq<Expr>) {
    es == [] || (Plain(es[0]) && AllPlain(es[1..]))
  }

  lemma {:induction false} PlainIsWellScoped(e: Expr, clean: bool)
    requires Plain(e)
    ensures WellScoped(e, clean, false) && Writes(e) <= {HasResult} && HasResult !in Reads(e) && Touched(e) == {}
    decreases e
  {
    match e
    case GetAttr(arg, _) => PlainIsWellScoped(arg, clean);
    case IfElse(cond, ifTrue, ifFalse) =>
      PlainIsWellScoped(cond, clean);
      PlainIsWellScoped(ifTrue, clean);
      PlainIsWellScoped(ifFalse, clean);
    case ListOf(es) => AllPlainIsWellScoped(es, clean);
    case SetOf(es) => AllPlainIsWellScoped(es, clean);
    case Unary(_, arg) => PlainIsWellScoped(arg, clean);
    case Binary(op, x, lhs, rhs) =>
      PlainIsWellScoped(lhs, clean);
      PlainIsWellScoped(rhs, if Scoped(op) then clean && x != RESULT else clean);
    case _ =>
  }

  lemma {:induction false} AllPlainIsWellScoped(es: seq<Expr>, clean: bool)
    requires AllPlain(es)
    ensures AllWellScoped(es, clean, false) && WritesAll(es) <= {HasResult} && HasResult !in ReadsAll(es) && TouchedAll(es) == {}
    decreases es
  {
    if es != [] {
      PlainIsWellScoped(es[0], clean);
      AllPlainIsWellScoped(es[1..], clean);
    }
  }

  /** On every plain expression, in every scope, the evaluator gives the lexical value and
      leaves the scope as it was, except that looking up an absent "__$" adds it, empty. */
  lemma PlainExpressionsAreLexical(app: App, fuel: nat, st: State, e: Expr)
    requires Plain(e)
    ensures Matches(Ev(app, fuel, st, e).out, Lex(app.prog, fuel, st.vars, e))
    ensures Returned(Ev(app, fuel, st, e).out) ==>
      var after := Ev(app, fuel, st, e).st.vars;
      if HasResult !in Writes(e) then after == st.vars
      else after == st.vars || (RESULT !in st.vars && after == st.vars[RESULT := Str("")])
  {
    PlainIsWellScoped(e, false);
    EvRefines(app, fuel, st, st.vars, e, false, false);
    if Returned(Ev(app, fuel, st, e).out) {
      EvKeeps(app, fuel, st, e);
      var after := Ev(app, fuel, st, e).st.vars;
      KeptEverywhere(st.vars, after);
      if HasResult !in Writes(e) { assert AgreeKey(st.vars, after, HasResult); }
    }
  }

  /** The same of the evaluator's method, which updates the scope object it is handed. */
  method EvaluatePlain(ee: ExprEval, scope: Scope, e: Expr, fuel: nat) returns (out: Outcome)
    requires Plain(e)
    modifies ee, scope
    ensures Matches(out, Lex(ee.app.prog, fuel, old(scope.vars), e)) && ee.exprStack == old(ee.exprStack)
    ensures Returned(out) ==>
      if HasResult !in Writes(e) then scope.vars == old(scope.vars)
      else scope.vars == old(scope.vars) || (RESULT !in old(scope.vars) && scope.vars == old(scope.vars)[RESULT := Str("")])
  {
    ghost var before := ee.Now(scope);
    out := ee.EvalExpr(scope, e, fuel);
    PlainExpressionsAreLexical(ee.app, fuel, before, e);
    assert Run(out, ee.Now(scope)) == Ev(ee.app, fuel, before, e);
  }

  lemma KeptEverywhere(a: Vars, b: Vars)
    requires Kept(a, b, {})
    ensures b == a || (RESULT !in a && b == a[RESULT := Str("")])
  {
    assert forall x :: KeptAt(a, b, x);
    var c := if SameAt(a, b, RESULT) then a else a[RESULT := Str("")];
    forall x ensures SameAt(b, c, x) {
      assert KeptAt(a, b, x);
    }
    assert b.Keys == c.Keys by {
      forall x ensures x in b <==> x in c { assert SameAt(b, c, x); }
    }
    assert b == c by {
      forall x | x in b ensures b[x] == c[x] { assert SameAt(b, c, x); }
    }
    assert KeptAt(a, b, RESULT);
  }

  /** Looking "__$" up is the one way a plain expression changes the scope. */
  lemma AskingForTheResultAddsIt(app: App, fuel: nat, tick: nat)
    ensures Plain(Name(RESULT))
    ensures Ev(app, fuel, State(map[], tick), Name(RESULT)).st.vars == map[RESULT := Str("")]
  {
  }

  /** Well-scoped expressions, with transforms and view calls, have their lexical value. */
  lemma WellScopedExpressionsAreLexical(app: App, fuel: nat, st: State, e: Expr)
    requires AppWellScoped(app.prog) && WellScoped(e, RESULT !in st.vars, true)
    ensures Matches(Ev(app, fuel, st, e).out, Lex(app.prog, fuel, st.vars, e))
    ensures Returned(Ev(app, fuel, st, e).out) ==>
      forall x | x != RESULT && Var(x) !in Writes(e) :: SameAt(st.vars, Ev(app, fuel, st, e).st.vars, x)
  {
    EvRefines(app, fuel, st, st.vars, e, RESULT !in st.vars, true);
    if Returned(Ev(app, fuel, st, e).out) {
      var after := Ev(app, fuel, st, e).st.vars;
      forall x | x != RESULT && Var(x) !in Writes(e) ensures SameAt(st.vars, after, x) {
        assert AgreeKey(st.vars, after, Var(x));
      }
    }
  }

  /** The order in which the runtime yields map keys cannot be seen in a value. */
  lemma MapOrderIsUnobservable(app: App, other: App, fuel: nat, st: State, tick: nat, e: Expr)
    requires app.prog == other.prog && AppWellScoped(app.prog) && WellScoped(e, RESULT !in st.vars, true)
    ensures Matches(Ev(app, fuel, st, e).out, Ev(other, fuel, st.(tick := tick), e).out)
  {
    WellScopedExpressionsAreLexical(app, fuel, st, e);
    WellScopedExpressionsAreLexical(other, fuel, st.(tick := tick), e);
  }

  /** A transform that binds `a`, next to a use of `a` outside it. */
  const LeakyTransform: Expr := Transform(Literal(Str("s")), "x", [Let("a", Literal(Bool(true)))], ReturnsOther)
  const LeakyPair: Expr := ListOf([LeakyTransform, Name("a")])

  /** Without the condition the two semantics differ: the let is still bound after its transform. */
  lemma LetsLeak(app: App, fuel: nat, tick: nat)
    ensures !WellScoped(LeakyPair, true, false)
    ensures Ev(app, fuel, State(map[], tick), LeakyPair).out == Ok(List([Map(map[]), Bool(true)]))
    ensures Lex(app.prog, fuel, map[], LeakyPair) == Ok(List([Map(map[]), Nil]))
  {
    LetsLeakOut(app, fuel, tick);
    LetsStayIn(app.prog, fuel);
    var es := [LeakyTransform, Name("a")];
    assert es[1..] == [Name("a")];
    var stmts := [Let("a", Literal(Bool(true)))];
    assert stmts[1..] == [];
    assert Var("a") in Writes(LeakyTransform);
    assert Var("a") in ReadsAll(es[1..]);
  }

  lemma LetsLeakOut(app: App, fuel: nat, tick: nat)
    ensures Ev(app, fuel, State(map[], tick), LeakyPair).out == Ok(List([Map(map[]), Bool(true)]))
  {
    var st := State(map[], tick);
    var stmts := [Let("a", Literal(Bool(true)))];
    var bound := Bind(Bind(st, "x", Str("s")), "a", Bool(true));
    assert stmts[1..] == [];
    assert EvStmts(app, fuel, bound, [], map[]) == Run(Ok(Map(map[])), bound);
    assert Eval(app, fuel, Bind(st, "x", Str("s")), Literal(Bool(true))) == Run(Ok(Bool(true)), Bind(st, "x", Str("s")));
    assert EvStmts(app, fuel, Bind(st, "x", Str("s")), stmts, map[]) == Run(Ok(Map(map[])), bound);
    var after := Unbind(bound, "x");
    assert EvApply(app, fuel, st, Str("s"), "x", stmts, ReturnsOther) == Run(Ok(Map(map[])), after);
    assert Eval(app, fuel, st, Literal(Str("s"))) == Run(Ok(Str("s")), st);
    assert Ev(app, fuel, st, Transform(Literal(Str("s")), "x", stmts, ReturnsOther)) == Run(Ok(Map(map[])), after);
    assert Eval(app, fuel, st, LeakyTransform) == Run(Ok(Map(map[])), after);
    var es := [LeakyTransform, Name("a")];
    assert es[1..] == [Name("a")] && es[1..][1..] == [];
    var m: Value := Map(map[]);
    assert Eval(app, fuel, after, Name("a")) == Run(Ok(Bool(true)), after);
    assert [Name("a")][1..] == [] && [m] + [Bool(true)] == [m, Bool(true)];
    assert EvAll(app, fuel, after, [], [m, Bool(true)]) == Run(Ok(List([m, Bool(true)])), after);
    assert EvAll(app, fuel, after, [Name("a")], [m]) == Run(Ok(List([m, Bool(true)])), after);
    assert EvAll(app, fuel, st, es, []) == EvAll(app, fuel, after, es[1..], [] + [m]);
    assert [] + [m] == [m];
    assert Ev(app, fuel, st, ListOf(es)) == EvAll(app, fuel, st, es, []);
  }

  lemma LetsStayIn(prog: Program, fuel: nat)
    ensures Lex(prog, fuel, map[], LeakyPair) == Ok(List([Map(map[]), Nil]))
  {
    var stmts := [Let("a", Literal(Bool(true)))];
    assert stmts[1..] == [];
    var inside: Vars := map["x" := Str("s"), "a" := Bool(true)];
    assert LexStmts(prog, fuel, inside, [], map[]) == Ok(Map(map[]));
    assert LexValue(prog, fuel, map["x" := Str("s")], Literal(Bool(true))) == Ok(Bool(true));
    assert map["x" := Str("s")]["a" := Bool(true)] == inside;
    assert LexStmts(prog, fuel, map["x" := Str("s")], stmts, map[]) == Ok(Map(map[]));
    assert LexValue(prog, fuel, map[], Literal(Str("s"))) == Ok(Str("s"));
    assert map[]["x" := Str("s")] == map["x" := Str("s")];
    assert LexApply(prog, fuel, map[], Str("s"), "x", stmts, ReturnsOther) == Ok(Map(map[]));
    assert Lex(prog, fuel, map[], Transform(Literal(Str("s")), "x", stmts, ReturnsOther)) == Ok(Map(map[]));
    assert LexValue(prog, fuel, map[], LeakyTransform) == Ok(Map(map[]));
    var es := [LeakyTransform, Name("a")];
    assert es[1..] == [Name("a")] && es[1..][1..] == [];
    assert LexValue(prog, fuel, map[], Name("a")) == Ok(Nil);
    assert [Name("a")][1..] == [] && LexAll(prog, fuel, map[], []) == Ok(List([]));
    var none: seq<Value> := [];
    assert [Nil] + none == [Nil];
    assert LexAll(prog, fuel, map[], [Name("a")]) == Ok(List([Nil]));
    var m: Value := Map(map[]);
    assert [m] + [Nil] == [m, Nil];
    assert LexAll(prog, fuel, map[], es) == Ok(List([m, Nil]));
    assert Lex(prog, fuel, map[], ListOf(es)) == LexAll(prog, fuel, map[], es);
  }
}
