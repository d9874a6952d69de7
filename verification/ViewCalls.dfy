/** Calls of views (pkg/eval/exprEval.go): each argument is evaluated in the caller's scope, in
    order, and is the value of the parameter at its own position, in a scope that holds
    nothing else. Nothing here says how that scope is built. */
module ViewCalls {
  import opened Values
  import opened Evaluator
  import opened Lexical
  import opened ScopingProofs
  import opened OperatorLaws

  /** The arguments give `vals`, one after the other, in the caller's scope as the ones before leave it. */
  ghost predicate RunArguments(app: App, fuel: nat, sts: seq<State>, args: seq<Expr>, vals: seq<Value>) {
    && |sts| == |args| + 1 && |vals| == |args|
    && forall i | 0 <= i < |args| :: Eval(app, fuel, sts[i], args[i]) == Run(Ok(vals[i]), sts[i + 1])
  }

  lemma {:induction false} ArgumentsInOrder(app: App, fuel: nat, sts: seq<State>, args: seq<Expr>, vals: seq<Value>, acc: seq<Value>)
    requires RunArguments(app, fuel, sts, args, vals)
    ensures EvAll(app, fuel, sts[0], args, acc) == Run(Ok(List(acc + vals)), sts[|args|])
    decreases |args|
  {
    if args == [] {
      assert acc + vals == acc;
    } else {
      assert Eval(app, fuel, sts[0], args[0]) == Run(Ok(vals[0]), sts[1]);
      assert forall i | 0 <= i < |args| - 1 :: args[1..][i] == args[i + 1];
      ArgumentsInOrder(app, fuel, sts[1..], args[1..], vals[1..], acc + [vals[0]]);
      assert (acc + [vals[0]]) + vals[1..] == acc + vals;
    }
  }

  /** A call of a view runs its body in the scope that maps each parameter to the value of the
      argument at its position, and leaves the caller's scope as the arguments left it. */
  lemma CallBindsByPosition(app: App, fuel: nat, sts: seq<State>, f: string, args: seq<Expr>, vals: seq<Value>, scope: Vars)
    requires fuel > 0 && f in app.prog.views && |app.prog.views[f].params| == |args|
    requires RunArguments(app, fuel, sts, args, vals) && BindsByPosition(scope, app.prog.views[f].params, vals)
    ensures var body := Eval(app, fuel - 1, State(scope, sts[|args|].tick), ViewBody(app.prog.views[f]));
      EvCall(app, fuel, sts[0], f, args) == Run(body.out, State(sts[|args|].vars, body.st.tick))
  {
    ArgumentsInOrder(app, fuel, sts, args, vals, []);
    assert [] + vals == vals;
    ParamsBind(app.prog.views[f].params, vals);
    OneScope(scope, ParamScope(app.prog.views[f].params, vals), app.prog.views[f].params, vals);
  }

  /** Any other function is the library's, called with the values of the arguments in order; what
      it does not return is a panic. */
  lemma LibraryIsCalled(app: App, fuel: nat, sts: seq<State>, f: string, args: seq<Expr>, vals: seq<Value>)
    requires f !in app.prog.views && (f == "" || f[0] != '.') && RunArguments(app, fuel, sts, args, vals)
    ensures var r := app.prog.goFunc(f, vals);
      EvCall(app, fuel, sts[0], f, args) == Run(if r.Ok? then r else Panic, sts[|args|])
  {
    ArgumentsInOrder(app, fuel, sts, args, vals, []);
    assert [] + vals == vals;
  }

  ghost predicate ArgumentValues(prog: Program, fuel: nat, env: Vars, args: seq<Expr>, vals: seq<Value>) {
    |vals| == |args| && forall i | 0 <= i < |args| :: LexValue(prog, fuel, env, args[i]) == Ok(vals[i])
  }

  lemma {:induction false} ListOfValues(prog: Program, fuel: nat, env: Vars, args: seq<Expr>, vals: seq<Value>)
    requires ArgumentValues(prog, fuel, env, args, vals)
    ensures LexAll(prog, fuel, env, args) == Ok(List(vals))
  {
    if args != [] {
      assert forall i | 0 <= i < |args| - 1 :: args[1..][i] == args[i + 1];
      ListOfValues(prog, fuel, env, args[1..], vals[1..]);
      assert LexValue(prog, fuel, env, args[0]) == Ok(vals[0]);
      assert [vals[0]] + vals[1..] == vals;
    }
  }

  /** In lexical scoping: the value of a call is that of the body in the scope of its arguments. */
  lemma CallIsItsBody(prog: Program, fuel: nat, env: Vars, f: string, args: seq<Expr>, vals: seq<Value>, scope: Vars)
    requires fuel > 0 && f in prog.views && |prog.views[f].params| == |args|
    requires ArgumentValues(prog, fuel, env, args, vals) && BindsByPosition(scope, prog.views[f].params, vals)
    ensures Lex(prog, fuel, env, Call(f, args)) == LexValue(prog, fuel - 1, scope, ViewBody(prog.views[f]))
  {
    ListOfValues(prog, fuel, env, args, vals);
    ParamsBind(prog.views[f].params, vals);
    OneScope(scope, ParamScope(prog.views[f].params, vals), prog.views[f].params, vals);
    assert Lex(prog, fuel, env, Call(f, args)) == LexCall(prog, fuel, env, f, args);
  }

  /** So it is of the evaluator, whatever scope the call finds. */
  lemma CallHasTheValueOfItsBody(app: App, fuel: nat, st: State, f: string, args: seq<Expr>, vals: seq<Value>, scope: Vars)
    requires AppWellScoped(app.prog) && WellScoped(Call(f, args), RESULT !in st.vars, true)
    requires fuel > 0 && f in app.prog.views && |app.prog.views[f].params| == |args|
    requires ArgumentValues(app.prog, fuel, st.vars, args, vals) && BindsByPosition(scope, app.prog.views[f].params, vals)
    ensures Matches(Ev(app, fuel, st, Call(f, args)).out, LexValue(app.prog, fuel - 1, scope, ViewBody(app.prog.views[f])))
  {
    EvRefines(app, fuel, st, st.vars, Call(f, args), RESULT !in st.vars, true);
    CallIsItsBody(app.prog, fuel, st.vars, f, args, vals, scope);
  }

  /** A view of two parameters that subtracts the second from the first. */
  const Difference: View := View(["a", "b"], ReturnsOther, Binary(Sub, "", Name("a"), Name("b")))

  /** Called with the numbers a and b it gives a - b, in every program that has it: 2 for 5 and 3. */
  lemma DifferenceSubtracts(app: App, fuel: nat, st: State, f: string, a: Int64, b: Int64)
    requires fuel > 0 && f in app.prog.views && app.prog.views[f] == Difference
    ensures var r := Ev(app, fuel, st, Call(f, [Literal(Int(a)), Literal(Int(b))]));
      IsNumber(r.out, a - b) && r.st == st && (a == 5 && b == 3 ==> r.out == Ok(Int(2)))
  {
    DifferenceRuns(app, fuel, st, f, a, b);
    SumsAreModular(app.prog.lib, a, b);
    if a == 5 && b == 3 { NumbersAreExact(ApplyDefault(app.prog.lib, Sub, Int(a), Int(b)), 2); }
  }

  lemma DifferenceRuns(app: App, fuel: nat, st: State, f: string, a: Int64, b: Int64)
    requires fuel > 0 && f in app.prog.views && app.prog.views[f] == Difference
    ensures Ev(app, fuel, st, Call(f, [Literal(Int(a)), Literal(Int(b))])) == Run(ApplyDefault(app.prog.lib, Sub, Int(a), Int(b)), st)
  {
    var args, vals := [Literal(Int(a)), Literal(Int(b))], [Int(a), Int(b)];
    var scope: Vars := map["a" := Int(a), "b" := Int(b)];
    DifferenceBinds(scope, a, b);
    LiteralsRun(app, fuel, st, a, b);
    CallBindsByPosition(app, fuel, [st, st, st], f, args, vals, scope);
    BodySubtracts(app, fuel - 1, State(scope, st.tick), a, b);
    CallIsEvaluated(app, fuel, st, f, args);
  }

  lemma DifferenceBinds(scope: Vars, a: Int64, b: Int64)
    requires scope == map["a" := Int(a), "b" := Int(b)]
    ensures BindsByPosition(scope, Difference.params, [Int(a), Int(b)])
  {
    var params := ["a", "b"];
    assert params[1..] == ["b"] && params[2..] == [];
  }

  lemma CallIsEvaluated(app: App, fuel: nat, st: State, f: string, args: seq<Expr>)
    ensures Ev(app, fuel, st, Call(f, args)) == EvCall(app, fuel, st, f, args)
  {
  }

  lemma OneLiteralRuns(app: App, fuel: nat, st: State, v: Value)
    ensures RunArguments(app, fuel, [st, st], [Literal(v)], [v])
  {
  }

  lemma LiteralsRun(app: App, fuel: nat, st: State, a: Int64, b: Int64)
    ensures RunArguments(app, fuel, [st, st, st], [Literal(Int(a)), Literal(Int(b))], [Int(a), Int(b)])
  {
  }

  lemma BodySubtracts(app: App, fuel: nat, st: State, a: Int64, b: Int64)
    requires st.vars == map["a" := Int(a), "b" := Int(b)]
    ensures Eval(app, fuel, st, ViewBody(Difference)) == Run(ApplyDefault(app.prog.lib, Sub, Int(a), Int(b)), st)
  {
    BoundName(app, fuel, st, "a");
    BoundName(app, fuel, st, "b");
    OperatorRuns(app, fuel, st, Sub, Name("a"), Name("b"), Int(a), Int(b));
    SumsAreModular(app.prog.lib, a, b);
  }

  lemma BoundName(app: App, fuel: nat, st: State, x: string)
    requires x in st.vars
    ensures Eval(app, fuel, st, Name(x)) == Run(Ok(st.vars[x]), st)
  {
  }

  /** An operator whose operands leave the scope alone is applied to their values, in their order. */
  lemma OperatorRuns(app: App, fuel: nat, st: State, op: BinOp, lhs: Expr, rhs: Expr, l: Value, r: Value)
    requires op != OtherBin && op != Where && op != Flatten
    requires Eval(app, fuel, st, lhs) == Run(Ok(l), st) && Eval(app, fuel, st, rhs) == Run(Ok(r), st)
    ensures Eval(app, fuel, st, Binary(op, "", lhs, rhs)) == Settle(Run(ApplyDefault(app.prog.lib, op, l, r), st))
  {
  }
}
