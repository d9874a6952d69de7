/** The transform evaluator (pkg/eval/exprEval.go, binexprEval.go, exprOp.go) as it runs:
    one mutable scope is threaded through every sub-expression, and `where`, `flatten`
    and transforms bind, delete and restore their scope variable in it by hand.

    The functions spell out the scope each step leaves behind; class ExprEval holds the
    methods themselves, each proved to compute exactly what its function says. */
module Evaluator {
  import opened Ordering
  import opened Values

  /** The name a text template accumulates its output in, and the name it logs through. */
  const RESULT := "__$"
  const LOG := "__$Log"

  datatype RetType = Untyped | ReturnsSet | ReturnsOther

  datatype Expr =
    | NilExpr // a child that was never filled in, such as a missing final else
    | UnknownExpr // a kind the evaluator has no case for
    | Literal(v: Value)
    | Name(x: string)
    | GetAttr(arg: Expr, attr: string)
    | IfElse(cond: Expr, ifTrue: Expr, ifFalse: Expr)
    | ListOf(es: seq<Expr>)
    | SetOf(es: seq<Expr>)
    | Unary(uop: UnOp, arg: Expr)
    | Binary(op: BinOp, scopeVar: string, lhs: Expr, rhs: Expr)
    | Call(func: string, args: seq<Expr>)
    | Transform(arg: Expr, scopeVar: string, stmts: seq<Stmt>, ty: RetType)

  datatype Stmt = Let(name: string, e: Expr) | Assign(name: string, e: Expr) | Inject

  datatype View = View(params: seq<string>, ret: RetType, body: Expr)

  /** The views of the application; `goFunc` stands for the reflective Go functions. */
  datatype Program = Program(views: map<string, View>, goFunc: (string, seq<Value>) -> Outcome, lib: Library)

  /** `order` is the order in which the runtime yields the keys of a map on its n-th
      iteration over one. */
  datatype App = App(prog: Program, order: (nat, set<string>) -> seq<string>)

  type Vars = map<string, Value>

  /** The caller's scope, and how many map iterations have run so far. */
  datatype State = State(vars: Vars, tick: nat)

  datatype Run = Run(out: Outcome, st: State)

  /** Every listing of a set of keys is some order the runtime may pick. */
  function Enumerate(app: App, tick: nat, keys: set<string>): (r: seq<string>)
    ensures Distinct(r) && forall k :: k in r <==> k in keys
  {
    ListingOf(app.order(tick, keys), keys)
  }

  function Bind(st: State, x: string, v: Value): State {
    st.(vars := st.vars[x := v])
  }

  function Unbind(st: State, x: string): State {
    st.(vars := st.vars - {x})
  }

  /** Give `x` back the value, or the absence, it had in `saved`. */
  function Restore(st: State, x: string, saved: Vars): State {
    if x in saved then Bind(st, x, saved[x]) else Unbind(st, x)
  }

  /** The "." of the enclosing transform is put back only if there was one. */
  function RestoreDot(st: State, saved: Vars): State {
    if "." in saved then Bind(st, ".", saved["."]) else st
  }

  /** The error of an unknown expression is dropped by every caller but the unary operators. */
  function Settle(r: Run): Run {
    if r.out.Unhandled? then Run(Ok(Nil), r.st) else r
  }

  function EvName(st: State, x: string): Run {
    if x in st.vars then Run(Ok(st.vars[x]), st)
    else if x == RESULT then Run(Ok(Str("")), Bind(st, x, Str("")))
    else if x == LOG then Run(Ok(Str("")), st)
    else Run(Ok(Nil), st)
  }

  function Ev(app: App, fuel: nat, st: State, e: Expr): Run
    decreases fuel, e, 0, 0
  {
    match e
    case NilExpr => Run(Panic, st)
    case UnknownExpr => Run(Unhandled, st)
    case Literal(v) => Run(Ok(v), st)
    case Name(x) => EvName(st, x)
    case GetAttr(arg, attr) =>
      var r := Eval(app, fuel, st, arg);
      if r.out.Ok? then Run(GetAttribute(r.out.v, attr), r.st) else r
    case IfElse(cond, ifTrue, ifFalse) =>
      var r := Eval(app, fuel, st, cond);
      if !r.out.Ok? then r
      else Eval(app, fuel, r.st, if GetB(r.out.v) then ifTrue else ifFalse)
    case ListOf(es) => EvAll(app, fuel, st, es, [])
    case SetOf(es) =>
      var r := EvAll(app, fuel, st, es, []);
      if r.out.Ok? then Run(Ok(Set(GetItems(r.out.v))), r.st) else r
    case Unary(op, arg) =>
      var r := Ev(app, fuel, st, arg);
      if r.out.Ok? then Run(ApplyUnary(app.prog.lib, op, r.out.v), r.st) else r
    case Binary(op, x, lhs, rhs) =>
      if op == OtherBin then Run(Panic, st)
      else
        var l := Eval(app, fuel, st, lhs);
        if !l.out.Ok? then l
        else if op == Where || op == Flatten then
          var r := EvOver(app, fuel, l.st, op, x, l.out.v, rhs);
          if r.out.Ok? then Run(r.out, Restore(r.st, x, l.st.vars)) else r
        else
          var r := Eval(app, fuel, l.st, rhs);
          if r.out.Ok? then Run(ApplyDefault(app.prog.lib, op, l.out.v, r.out.v), r.st) else r
    case Call(f, args) => EvCall(app, fuel, st, f, args)
    case Transform(arg, x, stmts, ty) =>
      if arg == Name(".") then Run(Ok(Nil), st)
      else
        var a := Eval(app, fuel, st, arg);
        if !a.out.Ok? then a
        else
          var r := EvApply(app, fuel, a.st, a.out.v, x, stmts, ty);
          Run(r.out, RestoreDot(r.st, a.st.vars))
  }

  function Eval(app: App, fuel: nat, st: State, e: Expr): Run
    decreases fuel, e, 1, 0
  {
    Settle(Ev(app, fuel, st, e))
  }

  function GetItems(v: Value): seq<Value> {
    if v.List? || v.Set? then v.items else []
  }

  /** Evaluate in order; the values come back as a list after those in `acc`. */
  function EvAll(app: App, fuel: nat, st: State, es: seq<Expr>, acc: seq<Value>): Run
    decreases fuel, es, 0, 0
  {
    if es == [] then Run(Ok(List(acc)), st)
    else
      var r := Eval(app, fuel, st, es[0]);
      if r.out.Ok? then EvAll(app, fuel, r.st, es[1..], acc + [r.out.v]) else r
  }

  function EvCall(app: App, fuel: nat, st: State, f: string, args: seq<Expr>): Run
    decreases fuel, args, 1, 0
  {
    if f in app.prog.views then
      var view := app.prog.views[f];
      if |view.params| != |args| then Run(Ok(Nil), st)
      else
        var r := EvAll(app, fuel, st, args, []);
        if !r.out.Ok? then r
        else if fuel == 0 then Run(OutOfFuel, r.st)
        else
          var c := Eval(app, fuel - 1, State(ParamScope(view.params, GetItems(r.out.v)), r.st.tick), ViewBody(view));
          Run(c.out, State(r.st.vars, c.st.tick))
    else if f != "" && f[0] == '.' then
      if f != ".count" || args == [] then Run(Panic, st)
      else
        var r := Eval(app, fuel, st, args[0]);
        if r.out.Ok? then Run(CountOf(r.out.v), r.st) else r
    else
      var r := EvAll(app, fuel, st, args, []);
      if r.out.Ok? then Run(GoCall(app.prog, f, GetItems(r.out.v)), r.st) else r
  }

  function GoCall(prog: Program, f: string, args: seq<Value>): Outcome {
    var r := prog.goFunc(f, args);
    if r.Ok? then r else Panic
  }

  /** A view's expression takes the view's return type when it has none of its own. */
  function ViewBody(view: View): Expr {
    if view.body.Transform? && view.body.ty == Untyped then view.body.(ty := view.ret) else view.body
  }

  /** The fresh scope of a call; of parameters with the same name the last wins. */
  function ParamScope(params: seq<string>, args: seq<Value>): Vars {
    if params == [] || args == [] then map[]
    else
      var n := (if |params| < |args| then |params| else |args|) - 1;
      ParamScope(params[..n], args[..n])[params[n] := args[n]]
  }

  /** The same said of the positions: the names bound are those of the parameters, and each
      holds the argument at its own place unless a later parameter has the same name. */
  ghost predicate BindsByPosition(scope: Vars, params: seq<string>, args: seq<Value>)
    requires |params| == |args|
  {
    && (forall x :: x in scope <==> x in params)
    && forall i | 0 <= i < |params| && params[i] !in params[i + 1..] :: scope[params[i]] == args[i]
  }

  lemma BindsNext(scope: Vars, params: seq<string>, args: seq<Value>, v: Value)
    requires |args| < |params| && BindsByPosition(scope, params[..|args|], args)
    ensures BindsByPosition(scope[params[|args|] := v], params[..|args| + 1], args + [v])
  {
    var n := |args|;
    var more := params[..n + 1];
    assert more == params[..n] + [params[n]];
    forall i | 0 <= i < n && more[i] !in more[i + 1..]
      ensures params[..n][i] !in params[..n][i + 1..] && more[i] != params[n] {
      assert more[i + 1..] == params[..n][i + 1..] + [params[n]];
    }
  }

  lemma {:induction false} ParamsBind(params: seq<string>, args: seq<Value>)
    requires |params| == |args|
    ensures BindsByPosition(ParamScope(params, args), params, args)
  {
    if params != [] {
      var n := |params| - 1;
      ParamsBind(params[..n], args[..n]);
      BindsLast(ParamScope(params[..n], args[..n]), params, args);
    }
  }

  lemma BindsLast(scope: Vars, params: seq<string>, args: seq<Value>)
    requires |params| == |args| > 0 && BindsByPosition(scope, params[..|params| - 1], args[..|params| - 1])
    ensures BindsByPosition(scope[params[|params| - 1] := args[|params| - 1]], params, args)
  {
    var n := |params| - 1;
    BindsNext(scope, params, args[..n], args[n]);
    assert params[..n + 1] == params && args[..n] + [args[n]] == args;
  }

  /** There is one scope of the kind. */
  lemma {:induction false} OneScope(a: Vars, b: Vars, params: seq<string>, args: seq<Value>)
    requires |params| == |args| && BindsByPosition(a, params, args) && BindsByPosition(b, params, args)
    ensures a == b
  {
    forall x | x in params ensures a[x] == b[x] {
      var i := LastIndex(params, x);
      assert params[i] !in params[i + 1..];
    }
    assert a.Keys == b.Keys;
  }

  lemma {:induction false} LastIndex(xs: seq<string>, x: string) returns (i: nat)
    requires x in xs
    ensures i < |xs| && xs[i] == x && x !in xs[i + 1..]
  {
    i := |xs| - 1;
    while xs[i] != x
      invariant i < |xs| && x in xs[..i + 1] && x !in xs[i + 1..]
      decreases i
    {
      assert xs[..i + 1] == xs[..i] + [xs[i]] && xs[i..] == [xs[i]] + xs[i + 1..];
      i := i - 1;
    }
  }

  /** `r` is what the body of the view gives, in a scope of its own that binds the parameters
      to the values `vals` by position; the caller's scope is that of `st`. */
  ghost predicate RunsBody(app: App, fuel: nat, st: State, view: View, vals: seq<Value>, r: Run)
    requires fuel > 0 && |view.params| == |vals|
  {
    exists scope: Vars | BindsByPosition(scope, view.params, vals) ::
      var c := Eval(app, fuel - 1, State(scope, st.tick), ViewBody(view));
      r == Run(c.out, State(st.vars, c.st.tick))
  }

  // ---- where and flatten -------------------------------------------------------

  function EvOver(app: App, fuel: nat, st: State, op: BinOp, x: string, v: Value, rhs: Expr): Run
    decreases fuel, rhs, 5, 0
  {
    if op == Where then
      if !WhereSupported(v) then Run(Panic, st)
      else if v.Map? then
        EvWhereMap(app, fuel, st.(tick := st.tick + 1), x, rhs, v.entries, Enumerate(app, st.tick, v.entries.Keys), map[])
      else
        var r := EvWhere(app, fuel, st, x, rhs, v.items, []);
        if r.out.Ok? then Run(Ok(Like(v, GetItems(r.out.v))), r.st) else r
    else
      if !FlattenSupported(v) then Run(Panic, st)
      else
        var r := EvFlatten(app, fuel, st, x, rhs, v, v.items, []);
        if r.out.Ok? then Run(Ok(Like(v, GetItems(r.out.v))), r.st) else r
  }

  /** A collection of the same kind as `v`. */
  function Like(v: Value, items: seq<Value>): Value {
    if v.Set? then Set(items) else List(items)
  }

  function EvWhere(app: App, fuel: nat, st: State, x: string, rhs: Expr, items: seq<Value>, acc: seq<Value>): Run
    decreases fuel, rhs, 2, |items|
  {
    if items == [] then Run(Ok(List(acc)), st)
    else
      var r := Eval(app, fuel, Bind(st, x, items[0]), rhs);
      if !r.out.Ok? then r
      else EvWhere(app, fuel, r.st, x, rhs, items[1..], if GetB(r.out.v) then acc + [items[0]] else acc)
  }

  function EvWhereMap(app: App, fuel: nat, st: State, x: string, rhs: Expr, m: map<string, Value>,
                      keys: seq<string>, acc: map<string, Value>): Run
    requires forall k :: k in keys ==> k in m
    decreases fuel, rhs, 2, |keys|
  {
    if keys == [] then Run(Ok(Map(acc)), st)
    else
      var k := keys[0];
      var r := Eval(app, fuel, Bind(st, x, Pair(k, m[k])), rhs);
      if !r.out.Ok? then r
      else EvWhereMap(app, fuel, r.st, x, rhs, m, keys[1..], if GetB(r.out.v) then acc[k := m[k]] else acc)
  }

  function EvFlatten(app: App, fuel: nat, st: State, x: string, rhs: Expr, outer: Value, items: seq<Value>, acc: seq<Value>): Run
    requires FlattenSupported(outer)
    decreases fuel, rhs, 4, |items|
  {
    if items == [] then Run(Ok(List(acc)), st)
    else
      match Inner(outer, items[0])
      case None => Run(Panic, st)
      case Some(inner) =>
        var r := EvInner(app, fuel, st, x, rhs, outer, inner, acc);
        if r.out.Ok? then EvFlatten(app, fuel, r.st, x, rhs, outer, items[1..], GetItems(r.out.v)) else r
  }

  function EvInner(app: App, fuel: nat, st: State, x: string, rhs: Expr, outer: Value, items: seq<Value>, acc: seq<Value>): Run
    requires FlattenSupported(outer)
    decreases fuel, rhs, 3, |items|
  {
    if items == [] then Run(Ok(List(acc)), st)
    else
      var r := Eval(app, fuel, Bind(st, x, items[0]), rhs);
      if !r.out.Ok? then r
      else
        match Spliced(outer, r.out.v)
        case None => Run(Panic, r.st)
        case Some(more) => EvInner(app, fuel, r.st, x, rhs, outer, items[1..], acc + more)
  }

  // ---- transforms --------------------------------------------------------------

  function EvApply(app: App, fuel: nat, st: State, v: Value, x: string, stmts: seq<Stmt>, ty: RetType): Run
    decreases fuel, stmts, 2, 0
  {
    if v.Nil? then Run(Panic, st)
    else if v.List? || v.Set? then
      if ty == Untyped then Run(Panic, st)
      else
        var r := EvEach(app, fuel, st, x, stmts, v.items, ty == ReturnsSet, []);
        if r.out.Ok? then Run(Ok(Collected(ty, GetItems(r.out.v))), Unbind(r.st, x)) else r
    else if v.Map? && x != "." then
      var r := EvEach(app, fuel, st, x, stmts, SortedPairs(v.entries), false, []);
      if r.out.Ok? then Run(Ok(Collected(ty, GetItems(r.out.v))), Unbind(r.st, x)) else r
    else
      var r := EvStmts(app, fuel, Bind(st, x, v), stmts, map[]);
      if r.out.Ok? then Run(r.out, Unbind(r.st, x)) else r
  }

  function Collected(ty: RetType, items: seq<Value>): Value {
    if ty == ReturnsSet then Set(items) else List(items)
  }

  /** setAppender drops a value already collected; listAppender keeps all. */
  function Append(dedup: bool, acc: seq<Value>, v: Value): seq<Value> {
    if dedup && v in acc then acc else acc + [v]
  }

  function EvEach(app: App, fuel: nat, st: State, x: string, stmts: seq<Stmt>, items: seq<Value>, dedup: bool, acc: seq<Value>): Run
    decreases fuel, stmts, 1, |items|
  {
    if items == [] then Run(Ok(List(acc)), st)
    else
      var r := EvStmts(app, fuel, Bind(st, x, items[0]), stmts, map[]);
      if r.out.Ok? then EvEach(app, fuel, r.st, x, stmts, items[1..], dedup, Append(dedup, acc, r.out.v)) else r
  }

  /** A let stays in the scope; a template's text, if there is one, is the result and leaves it. */
  function EvStmts(app: App, fuel: nat, st: State, stmts: seq<Stmt>, acc: map<string, Value>): Run
    decreases fuel, stmts, 0, 0
  {
    if stmts == [] then
      if RESULT in st.vars then Run(Ok(st.vars[RESULT]), Unbind(st, RESULT))
      else Run(Ok(Map(acc)), st)
    else
      match stmts[0]
      case Let(n, e) =>
        var r := Eval(app, fuel, st, e);
        if !r.out.Ok? then r
        else EvStmts(app, fuel, if n == LOG then r.st else Bind(r.st, n, r.out.v), stmts[1..], acc)
      case Assign(n, e) =>
        var r := Eval(app, fuel, st, e);
        if !r.out.Ok? then r
        else EvStmts(app, fuel, r.st, stmts[1..], acc[n := r.out.v])
      case Inject => EvStmts(app, fuel, st, stmts[1..], acc)
  }
}
