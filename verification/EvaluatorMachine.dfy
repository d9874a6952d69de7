/** The evaluator's methods: a scope object shared by reference and updated in place,
    and the stack of expressions being evaluated. Each method is proved to give the
    outcome, the scope and the iteration count its function in Evaluator gives, and to
    leave the expression stack as it found it. */
module EvaluatorMachine {
  import opened Ordering
  import opened Values
  import opened Evaluator

  class Scope {
    var vars: Vars

    constructor (vars: Vars)
      ensures this.vars == vars
    {
      this.vars := vars;
    }
  }

  datatype Frame = Frame(e: Expr, args: Scope)

  /** What EvalTransform and EvalOverScope give, in terms of what they call. */
  function TransformGives(app: App, fuel: nat, st: State, arg: Expr, x: string, stmts: seq<Stmt>, ty: RetType): Run {
    if arg == Name(".") then Run(Ok(Nil), st)
    else
      var a := Eval(app, fuel, st, arg);
      if !a.out.Ok? then a
      else
        var r := EvApply(app, fuel, a.st, a.out.v, x, stmts, ty);
        Run(r.out, RestoreDot(r.st, a.st.vars))
  }

  function OverScopeGives(app: App, fuel: nat, st: State, op: BinOp, x: string, lhs: Expr, rhs: Expr): Run
    requires op == Where || op == Flatten
  {
    var l := Eval(app, fuel, st, lhs);
    if !l.out.Ok? then l
    else
      var r := EvOver(app, fuel, l.st, op, x, l.out.v, rhs);
      if r.out.Ok? then Run(r.out, Restore(r.st, x, l.st.vars)) else r
  }

  function WhereEntriesGive(app: App, fuel: nat, st: State, x: string, entries: map<string, Value>, rhs: Expr): Run {
    EvWhereMap(app, fuel, st.(tick := st.tick + 1), x, rhs, entries, Enumerate(app, st.tick, entries.Keys), map[])
  }

  function WhereItemsGive(app: App, fuel: nat, st: State, x: string, v: Value, rhs: Expr): Run
    requires v.List? || v.Set?
  {
    var r := EvWhere(app, fuel, st, x, rhs, v.items, []);
    if r.out.Ok? then Run(Ok(Like(v, GetItems(r.out.v))), r.st) else r
  }

  lemma WhereGives(app: App, fuel: nat, st: State, x: string, v: Value, rhs: Expr)
    ensures EvOver(app, fuel, st, Where, x, v, rhs) ==
      if !WhereSupported(v) then Run(Panic, st)
      else if v.Map? then WhereEntriesGive(app, fuel, st, x, v.entries, rhs)
      else WhereItemsGive(app, fuel, st, x, v, rhs)
  {
  }

  /** What CallView leaves is what EvCall gives. */
  lemma BodyIsRun(app: App, fuel: nat, st: State, f: string, args: seq<Expr>, r: Run)
    requires f in app.prog.views && |app.prog.views[f].params| == |args|
    requires var a := EvAll(app, fuel, st, args, []);
      if !a.out.Ok? then r == a
      else if fuel == 0 then r == Run(OutOfFuel, a.st)
      else |GetItems(a.out.v)| == |args| && RunsBody(app, fuel, a.st, app.prog.views[f], GetItems(a.out.v), r)
    ensures r == EvCall(app, fuel, st, f, args)
  {
    var a := EvAll(app, fuel, st, args, []);
    if a.out.Ok? && fuel > 0 {
      OneBody(app, fuel, a.st, app.prog.views[f], GetItems(a.out.v), r);
    }
  }

  lemma IsRun(app: App, fuel: nat, st: State, view: View, vals: seq<Value>, scope: Vars, out: Outcome, tick: nat)
    requires fuel > 0 && |view.params| == |vals| && BindsByPosition(scope, view.params, vals)
    requires var c := Eval(app, fuel - 1, State(scope, st.tick), ViewBody(view)); out == c.out && tick == c.st.tick
    ensures RunsBody(app, fuel, st, view, vals, Run(out, State(st.vars, tick)))
  {
  }

  /** There is one such run: the one in the scope ParamScope builds. */
  lemma OneBody(app: App, fuel: nat, st: State, view: View, vals: seq<Value>, r: Run)
    requires fuel > 0 && |view.params| == |vals|
    ensures RunsBody(app, fuel, st, view, vals, r) <==>
      r == var c := Eval(app, fuel - 1, State(ParamScope(view.params, vals), st.tick), ViewBody(view));
           Run(c.out, State(st.vars, c.st.tick))
  {
    var scope := ParamScope(view.params, vals);
    ParamsBind(view.params, vals);
    forall s: Vars | BindsByPosition(s, view.params, vals) ensures s == scope {
      OneScope(s, scope, view.params, vals);
    }
  }

  class ExprEval {
    const app: App
    var exprStack: seq<Frame>
    var tick: nat

    constructor (app: App)
      ensures this.app == app && exprStack == [] && tick == 0
    {
      this.app, exprStack, tick := app, [], 0;
    }

    ghost function Now(scope: Scope): State
      reads this, scope
    {
      State(scope.vars, tick)
    }

    method EvalExpr(scope: Scope, e: Expr, fuel: nat) returns (out: Outcome)
      modifies this, scope
      ensures Run(out, Now(scope)) == Ev(app, fuel, old(Now(scope)), e)
      ensures exprStack == old(exprStack)
      decreases fuel, e, 1, 0
    {
      exprStack := exprStack + [Frame(e, scope)];
      match e {
        case NilExpr => out := Panic;
        case UnknownExpr => out := Unhandled;
        case Literal(v) => out := Ok(v);
        case Name(x) => out := EvalName(scope, x);
        case GetAttr(arg, attr) =>
          out := EvalValue(scope, arg, fuel);
          if out.Ok? { out := GetAttribute(out.v, attr); }
        case IfElse(cond, ifTrue, ifFalse) =>
          out := EvalValue(scope, cond, fuel);
          if out.Ok? {
            if GetB(out.v) {
              out := EvalValue(scope, ifTrue, fuel);
            } else {
              out := EvalValue(scope, ifFalse, fuel);
            }
          }
        case ListOf(es) => out := EvalAll(scope, es, fuel);
        case SetOf(es) =>
          out := EvalAll(scope, es, fuel);
          if out.Ok? { out := Ok(Set(GetItems(out.v))); }
        case Unary(op, arg) =>
          out := EvalExpr(scope, arg, fuel);
          if out.Ok? { out := ApplyUnary(app.prog.lib, op, out.v); }
        case Binary(op, x, lhs, rhs) =>
          if op == OtherBin {
            out := Panic;
          } else if op == Where || op == Flatten {
            out := EvalOverScope(scope, op, x, lhs, rhs, fuel);
          } else {
            out := EvalValue(scope, lhs, fuel);
            if out.Ok? {
              var l := out.v;
              out := EvalValue(scope, rhs, fuel);
              if out.Ok? { out := ApplyDefault(app.prog.lib, op, l, out.v); }
            }
          }
        case Call(f, args) => out := EvalCall(scope, f, args, fuel);
        case Transform(arg, x, stmts, ty) => out := EvalTransform(scope, arg, x, stmts, ty, fuel);
      }
      exprStack := exprStack[..|exprStack| - 1];
    }

    /** Eval: the error return is dropped and the value is nil. */
    method EvalValue(scope: Scope, e: Expr, fuel: nat) returns (out: Outcome)
      modifies this, scope
      ensures Run(out, Now(scope)) == Eval(app, fuel, old(Now(scope)), e)
      ensures exprStack == old(exprStack)
      decreases fuel, e, 2, 0
    {
      out := EvalExpr(scope, e, fuel);
      if out.Unhandled? { out := Ok(Nil); }
    }

    method EvalName(scope: Scope, x: string) returns (out: Outcome)
      modifies scope
      ensures Run(out, Now(scope)) == EvName(old(Now(scope)), x)
    {
      if x in scope.vars {
        return Ok(scope.vars[x]);
      }
      if x == RESULT {
        scope.vars := scope.vars[x := Str("")];
        return Ok(Str(""));
      }
      return if x == LOG then Ok(Str("")) else Ok(Nil);
    }

    method EvalAll(scope: Scope, es: seq<Expr>, fuel: nat) returns (out: Outcome)
      modifies this, scope
      ensures Run(out, Now(scope)) == EvAll(app, fuel, old(Now(scope)), es, [])
      ensures exprStack == old(exprStack)
      decreases fuel, es, 0, 0
    {
      var acc := [];
      for i := 0 to |es|
        invariant EvAll(app, fuel, Now(scope), es[i..], acc) == EvAll(app, fuel, old(Now(scope)), es, [])
        invariant exprStack == old(exprStack)
      {
        out := EvalValue(scope, es[i], fuel);
        if !out.Ok? { return; }
        acc := acc + [out.v];
        assert es[i..][1..] == es[i + 1..];
      }
      out := Ok(List(acc));
    }

    /** The arguments are evaluated in the caller's scope and bound to the parameters, one by one. */
    method BindArguments(scope: Scope, callScope: Scope, params: seq<string>, args: seq<Expr>, fuel: nat) returns (out: Outcome)
      requires |params| == |args| && scope != callScope && callScope.vars == map[]
      modifies this, scope, callScope
      ensures Run(out, Now(scope)) == EvAll(app, fuel, old(Now(scope)), args, [])
      ensures out.Ok? ==> |GetItems(out.v)| == |args| && BindsByPosition(callScope.vars, params, GetItems(out.v))
      ensures exprStack == old(exprStack)
      decreases fuel, args, 0, 0
    {
      var acc := [];
      for i := 0 to |args|
        invariant |acc| == i && BindsByPosition(callScope.vars, params[..i], acc)
        invariant EvAll(app, fuel, Now(scope), args[i..], acc) == EvAll(app, fuel, old(Now(scope)), args, [])
        invariant exprStack == old(exprStack)
      {
        out := EvalValue(scope, args[i], fuel);
        if !out.Ok? { return; }
        BindsNext(callScope.vars, params, acc, out.v);
        callScope.vars := callScope.vars[params[i] := out.v];
        acc := acc + [out.v];
        assert args[i..][1..] == args[i + 1..];
      }
      assert params[..|args|] == params;
      out := Ok(List(acc));
    }

    /** The values bound, by position, and the body run in that scope; the caller's is left out of it. */
    method CallView(scope: Scope, view: View, args: seq<Expr>, fuel: nat) returns (out: Outcome)
      requires |view.params| == |args|
      modifies this, scope
      ensures var r := EvAll(app, fuel, old(Now(scope)), args, []);
        if !r.out.Ok? then Run(out, Now(scope)) == r
        else if fuel == 0 then Run(out, Now(scope)) == Run(OutOfFuel, r.st)
        else |GetItems(r.out.v)| == |args| && RunsBody(app, fuel, r.st, view, GetItems(r.out.v), Run(out, Now(scope)))
      ensures exprStack == old(exprStack)
      decreases fuel, args, 1, 0
    {
      var callScope := new Scope(map[]);
      out := BindArguments(scope, callScope, view.params, args, fuel);
      if !out.Ok? { return; }
      if fuel == 0 {
        return OutOfFuel;
      }
      out := RunView(scope, callScope, view, args, GetItems(out.v), fuel);
    }

    /** The body of the view in its own scope; the caller's stays as it is. */
    method RunView(scope: Scope, callScope: Scope, view: View, ghost args: seq<Expr>, ghost vals: seq<Value>, fuel: nat) returns (out: Outcome)
      requires scope != callScope && fuel > 0 && |view.params| == |vals| && BindsByPosition(callScope.vars, view.params, vals)
      modifies this, callScope
      ensures RunsBody(app, fuel, old(Now(scope)), view, vals, Run(out, Now(scope)))
      ensures exprStack == old(exprStack)
      decreases fuel, args, 0, 1
    {
      ghost var bound, before := callScope.vars, Now(scope);
      out := EvalValue(callScope, ViewBody(view), fuel - 1);
      IsRun(app, fuel, before, view, vals, bound, out, tick);
    }

    method EvalCall(scope: Scope, f: string, args: seq<Expr>, fuel: nat) returns (out: Outcome)
      modifies this, scope
      ensures Run(out, Now(scope)) == EvCall(app, fuel, old(Now(scope)), f, args)
      ensures exprStack == old(exprStack)
      decreases fuel, args, 2, 0
    {
      if f in app.prog.views {
        var view := app.prog.views[f];
        if |view.params| != |args| {
          return Ok(Nil);
        }
        out := CallView(scope, view, args, fuel);
        BodyIsRun(app, fuel, old(Now(scope)), f, args, Run(out, Now(scope)));
      } else if f != "" && f[0] == '.' {
        if f != ".count" || args == [] {
          return Panic;
        }
        out := EvalValue(scope, args[0], fuel);
        if out.Ok? { out := CountOf(out.v); }
      } else {
        out := EvalAll(scope, args, fuel);
        if out.Ok? { out := GoCall(app.prog, f, GetItems(out.v)); }
      }
    }

    /** LHSOverRHSStrategy: the scope variable is saved, rebound for each item, and put back. */
    method EvalOverScope(scope: Scope, op: BinOp, x: string, lhs: Expr, rhs: Expr, fuel: nat) returns (out: Outcome)
      requires op == Where || op == Flatten
      modifies this, scope
      ensures Run(out, Now(scope)) == OverScopeGives(app, fuel, old(Now(scope)), op, x, lhs, rhs)
      ensures exprStack == old(exprStack)
      decreases fuel, Binary(op, x, lhs, rhs), 0, 0
    {
      out := EvalValue(scope, lhs, fuel);
      if !out.Ok? { return; }
      var hasScopeVar := x in scope.vars;
      var saved := if hasScopeVar then scope.vars[x] else Nil;
      ghost var before := scope.vars;
      out := EvalOver(scope, op, x, out.v, rhs, fuel);
      if !out.Ok? { return; }
      PutBack(scope, x, hasScopeVar, saved, before);
    }

    /** The scope variable is as it was in `before`. */
    method PutBack(scope: Scope, x: string, hasScopeVar: bool, saved: Value, ghost before: Vars)
      requires hasScopeVar == (x in before) && (hasScopeVar ==> saved == before[x])
      modifies scope
      ensures Now(scope) == Restore(old(Now(scope)), x, before)
    {
      scope.vars := scope.vars - {x};
      if hasScopeVar {
        scope.vars := scope.vars[x := saved];
      }
    }

    method EvalOver(scope: Scope, op: BinOp, x: string, v: Value, rhs: Expr, fuel: nat) returns (out: Outcome)
      requires op == Where || op == Flatten
      modifies this, scope
      ensures Run(out, Now(scope)) == EvOver(app, fuel, old(Now(scope)), op, x, v, rhs)
      ensures exprStack == old(exprStack)
      decreases fuel, rhs, 7, 0
    {
      if op == Where {
        out := EvalOverWhere(scope, x, v, rhs, fuel);
      } else {
        if !FlattenSupported(v) { return Panic; }
        out := EvalFlatten(scope, x, rhs, v, fuel);
        if out.Ok? { out := Ok(Like(v, GetItems(out.v))); }
      }
    }

    method EvalOverWhere(scope: Scope, x: string, v: Value, rhs: Expr, fuel: nat) returns (out: Outcome)
      modifies this, scope
      ensures Run(out, Now(scope)) == EvOver(app, fuel, old(Now(scope)), Where, x, v, rhs)
      ensures exprStack == old(exprStack)
      decreases fuel, rhs, 6, 0
    {
      WhereGives(app, fuel, Now(scope), x, v, rhs);
      if !WhereSupported(v) {
        out := Panic;
      } else if v.Map? {
        out := EvalWhereEntries(scope, x, v.entries, rhs, fuel);
      } else {
        out := EvalWhereItems(scope, x, v, rhs, fuel);
      }
    }

    method EvalWhereEntries(scope: Scope, x: string, entries: map<string, Value>, rhs: Expr, fuel: nat) returns (out: Outcome)
      modifies this, scope
      ensures Run(out, Now(scope)) == WhereEntriesGive(app, fuel, old(Now(scope)), x, entries, rhs)
      ensures exprStack == old(exprStack)
      decreases fuel, rhs, 5, 0
    {
      var keys := Enumerate(app, tick, entries.Keys);
      tick := tick + 1;
      out := EvalWhereMap(scope, x, rhs, entries, keys, fuel);
    }

    method EvalWhereItems(scope: Scope, x: string, v: Value, rhs: Expr, fuel: nat) returns (out: Outcome)
      requires v.List? || v.Set?
      modifies this, scope
      ensures Run(out, Now(scope)) == WhereItemsGive(app, fuel, old(Now(scope)), x, v, rhs)
      ensures exprStack == old(exprStack)
      decreases fuel, rhs, 5, 0
    {
      out := EvalWhere(scope, x, rhs, v.items, fuel);
      if out.Ok? { out := Ok(Like(v, GetItems(out.v))); }
    }

    method EvalWhere(scope: Scope, x: string, rhs: Expr, items: seq<Value>, fuel: nat) returns (out: Outcome)
      modifies this, scope
      ensures Run(out, Now(scope)) == EvWhere(app, fuel, old(Now(scope)), x, rhs, items, [])
      ensures exprStack == old(exprStack)
      decreases fuel, rhs, 3, |items|
    {
      var acc := [];
      for i := 0 to |items|
        invariant EvWhere(app, fuel, Now(scope), x, rhs, items[i..], acc) == EvWhere(app, fuel, old(Now(scope)), x, rhs, items, [])
        invariant exprStack == old(exprStack)
      {
        scope.vars := scope.vars[x := items[i]];
        out := EvalValue(scope, rhs, fuel);
        if !out.Ok? { return; }
        if GetB(out.v) { acc := acc + [items[i]]; }
        assert items[i..][1..] == items[i + 1..];
      }
      out := Ok(List(acc));
    }

    method EvalWhereMap(scope: Scope, x: string, rhs: Expr, m: map<string, Value>, keys: seq<string>, fuel: nat) returns (out: Outcome)
      requires forall k :: k in keys ==> k in m
      modifies this, scope
      ensures Run(out, Now(scope)) == EvWhereMap(app, fuel, old(Now(scope)), x, rhs, m, keys, map[])
      ensures exprStack == old(exprStack)
      decreases fuel, rhs, 3, |keys|
    {
      var acc := map[];
      for i := 0 to |keys|
        invariant EvWhereMap(app, fuel, Now(scope), x, rhs, m, keys[i..], acc) == EvWhereMap(app, fuel, old(Now(scope)), x, rhs, m, keys, map[])
        invariant exprStack == old(exprStack)
      {
        var k := keys[i];
        scope.vars := scope.vars[x := Pair(k, m[k])];
        out := EvalValue(scope, rhs, fuel);
        if !out.Ok? { return; }
        if GetB(out.v) { acc := acc[k := m[k]]; }
        assert keys[i..][1..] == keys[i + 1..];
      }
      out := Ok(Map(acc));
    }

    /** The six flatten functions: the outer loop over the collection, the inner one over each item. */
    method EvalFlatten(scope: Scope, x: string, rhs: Expr, outer: Value, fuel: nat) returns (out: Outcome)
      requires FlattenSupported(outer)
      modifies this, scope
      ensures Run(out, Now(scope)) == EvFlatten(app, fuel, old(Now(scope)), x, rhs, outer, outer.items, [])
      ensures exprStack == old(exprStack)
      decreases fuel, rhs, 5, 0
    {
      var acc := [];
      var items := outer.items;
      for i := 0 to |items|
        invariant EvFlatten(app, fuel, Now(scope), x, rhs, outer, items[i..], acc) == EvFlatten(app, fuel, old(Now(scope)), x, rhs, outer, items, [])
        invariant exprStack == old(exprStack)
      {
        var inner := Inner(outer, items[i]);
        if inner.None? { return Panic; }
        out := EvalInner(scope, x, rhs, outer, inner.items, acc, fuel);
        if !out.Ok? { return; }
        acc := GetItems(out.v);
        assert items[i..][1..] == items[i + 1..];
      }
      out := Ok(List(acc));
    }

    method EvalInner(scope: Scope, x: string, rhs: Expr, outer: Value, items: seq<Value>, soFar: seq<Value>, fuel: nat)
      returns (out: Outcome)
      requires FlattenSupported(outer)
      modifies this, scope
      ensures Run(out, Now(scope)) == EvInner(app, fuel, old(Now(scope)), x, rhs, outer, items, soFar)
      ensures exprStack == old(exprStack)
      decreases fuel, rhs, 4, |items|
    {
      var acc := soFar;
      for i := 0 to |items|
        invariant EvInner(app, fuel, Now(scope), x, rhs, outer, items[i..], acc) == EvInner(app, fuel, old(Now(scope)), x, rhs, outer, items, soFar)
        invariant exprStack == old(exprStack)
      {
        scope.vars := scope.vars[x := items[i]];
        out := EvalValue(scope, rhs, fuel);
        if !out.Ok? { return; }
        var more := Spliced(outer, out.v);
        if more.None? { return Panic; }
        acc := acc + more.items;
        assert items[i..][1..] == items[i + 1..];
      }
      out := Ok(List(acc));
    }

    method EvalTransform(scope: Scope, arg: Expr, x: string, stmts: seq<Stmt>, ty: RetType, fuel: nat) returns (out: Outcome)
      modifies this, scope
      ensures Run(out, Now(scope)) == TransformGives(app, fuel, old(Now(scope)), arg, x, stmts, ty)
      ensures exprStack == old(exprStack)
      decreases fuel, Transform(arg, x, stmts, ty), 0, 0
    {
      if arg == Name(".") { return Ok(Nil); }
      out := EvalValue(scope, arg, fuel);
      if !out.Ok? { return; }
      var hasDot := "." in scope.vars;
      var dotValue := if hasDot then scope.vars["."] else Nil;
      out := Apply(scope, out.v, x, stmts, ty, fuel);
      if hasDot {
        scope.vars := scope.vars["." := dotValue];
      }
    }

    method Apply(scope: Scope, v: Value, x: string, stmts: seq<Stmt>, ty: RetType, fuel: nat) returns (out: Outcome)
      modifies this, scope
      ensures Run(out, Now(scope)) == EvApply(app, fuel, old(Now(scope)), v, x, stmts, ty)
      ensures exprStack == old(exprStack)
      decreases fuel, stmts, 2, 0
    {
      if v.Nil? { return Panic; }
      if v.List? || v.Set? {
        if ty == Untyped { return Panic; }
        out := EvalEach(scope, x, stmts, v.items, ty == ReturnsSet, fuel);
        if !out.Ok? { return; }
        out := Ok(Collected(ty, GetItems(out.v)));
      } else if v.Map? && x != "." {
        out := EvalEach(scope, x, stmts, SortedPairs(v.entries), false, fuel);
        if !out.Ok? { return; }
        out := Ok(Collected(ty, GetItems(out.v)));
      } else {
        scope.vars := scope.vars[x := v];
        out := EvalStmts(scope, stmts, fuel);
        if !out.Ok? { return; }
      }
      scope.vars := scope.vars - {x};
    }

    method EvalEach(scope: Scope, x: string, stmts: seq<Stmt>, items: seq<Value>, dedup: bool, fuel: nat) returns (out: Outcome)
      modifies this, scope
      ensures Run(out, Now(scope)) == EvEach(app, fuel, old(Now(scope)), x, stmts, items, dedup, [])
      ensures exprStack == old(exprStack)
      decreases fuel, stmts, 1, |items|
    {
      var acc := [];
      for i := 0 to |items|
        invariant EvEach(app, fuel, Now(scope), x, stmts, items[i..], dedup, acc) == EvEach(app, fuel, old(Now(scope)), x, stmts, items, dedup, [])
        invariant exprStack == old(exprStack)
      {
        scope.vars := scope.vars[x := items[i]];
        out := EvalStmts(scope, stmts, fuel);
        if !out.Ok? { return; }
        acc := Append(dedup, acc, out.v);
        assert items[i..][1..] == items[i + 1..];
      }
      out := Ok(List(acc));
    }

    method EvalStmts(scope: Scope, stmts: seq<Stmt>, fuel: nat) returns (out: Outcome)
      modifies this, scope
      ensures Run(out, Now(scope)) == EvStmts(app, fuel, old(Now(scope)), stmts, map[])
      ensures exprStack == old(exprStack)
      decreases fuel, stmts, 0, 0
    {
      var result := map[];
      for i := 0 to |stmts|
        invariant EvStmts(app, fuel, Now(scope), stmts[i..], result) == EvStmts(app, fuel, old(Now(scope)), stmts, map[])
        invariant exprStack == old(exprStack)
      {
        assert stmts[i..][1..] == stmts[i + 1..];
        match stmts[i] {
          case Let(n, e) =>
            out := EvalValue(scope, e, fuel);
            if !out.Ok? { return; }
            if n != LOG { scope.vars := scope.vars[n := out.v]; }
          case Assign(n, e) =>
            out := EvalValue(scope, e, fuel);
            if !out.Ok? { return; }
            result := result[n := out.v];
          case Inject =>
        }
      }
      if RESULT in scope.vars {
        out := Ok(scope.vars[RESULT]);
        scope.vars := scope.vars - {RESULT};
      } else {
        out := Ok(Map(result));
      }
    }
  }
}
