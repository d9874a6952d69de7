/** What evaluation can leave changed in the scope, for every expression: well scoped or
    not, with transforms, and whatever the views it calls do. */
module ScopeFrame {
  import opened Ordering
  import opened Values
  import opened Evaluator
  import opened Lexical

  /** The names of lets, and of transform scope variables other than ".". The implied
      template result is taken out of the scope by every transform. */
  function Touched(e: Expr): set<string> {
    match e
    case NilExpr => {}
    case UnknownExpr => {}
    case Literal(_) => {}
    case Name(_) => {}
    case GetAttr(arg, _) => Touched(arg)
    case IfElse(cond, ifTrue, ifFalse) => Touched(cond) + Touched(ifTrue) + Touched(ifFalse)
    case ListOf(es) => TouchedAll(es)
    case SetOf(es) => TouchedAll(es)
    case Unary(_, arg) => Touched(arg)
    case Binary(op, x, lhs, rhs) => Touched(lhs) + (if Scoped(op) then Touched(rhs) - {x} else Touched(rhs))
    case Call(_, args) => TouchedAll(args)
    case Transform(arg, x, stmts, _) =>
      Touched(arg) + {RESULT} + (if x == "." then TouchedStmts(stmts) - {"."} else TouchedStmts(stmts) + {x})
  }

  function TouchedAll(es: seq<Expr>): set<string> {
    if es == [] then {} else Touched(es[0]) + TouchedAll(es[1..])
  }

  function TouchedStmts(stmts: seq<Stmt>): set<string> {
    if stmts == [] then {}
    else
      match stmts[0]
      case Let(n, e) => Touched(e) + (if n == LOG then {} else {n}) + TouchedStmts(stmts[1..])
      case Assign(_, e) => Touched(e) + TouchedStmts(stmts[1..])
      case Inject => TouchedStmts(stmts[1..])
  }

  /** Looking "__$" up while it is absent adds it to the scope as the empty text. */
  predicate Asked(a: Vars, b: Vars, x: string) {
    x == RESULT && x !in a && x in b && b[x] == Str("")
  }

  predicate KeptAt(a: Vars, b: Vars, x: string) {
    SameAt(a, b, x) || Asked(a, b, x)
  }

  ghost predicate Kept(a: Vars, b: Vars, touched: set<string>) {
    forall x {:trigger KeptAt(a, b, x)} | x !in touched :: KeptAt(a, b, x)
  }

  lemma KeptTwice(a: Vars, b: Vars, c: Vars, s: set<string>, t: set<string>, all: set<string>)
    requires Kept(a, b, s) && Kept(b, c, t) && s <= all && t <= all
    ensures Kept(a, c, all)
  {
    forall x | x !in all ensures KeptAt(a, c, x) {
      assert KeptAt(a, b, x) && KeptAt(b, c, x);
    }
  }

  lemma KeptAfterBind(st: State, x: string, v: Value, c: Vars, t: set<string>)
    requires Kept(Bind(st, x, v).vars, c, t)
    ensures Kept(st.vars, c, t + {x})
  {
    forall y | y !in t + {x} ensures KeptAt(st.vars, c, y) {
      assert KeptAt(Bind(st, x, v).vars, c, y);
    }
  }

  lemma {:induction false} EvKeeps(app: App, fuel: nat, st: State, e: Expr)
    requires Ev(app, fuel, st, e).out.Ok? || Ev(app, fuel, st, e).out.Unhandled?
    ensures Kept(st.vars, Ev(app, fuel, st, e).st.vars, Touched(e))
    decreases fuel, e, 1, 0
  {
    match e
    case NilExpr =>
    case UnknownExpr =>
    case Literal(_) =>
    case Name(x) =>
    case GetAttr(arg, _) => EvalKeeps(app, fuel, st, arg);
    case IfElse(cond, ifTrue, ifFalse) =>
      EvalKeeps(app, fuel, st, cond);
      var c := Eval(app, fuel, st, cond);
      var next := if GetB(c.out.v) then ifTrue else ifFalse;
      EvalKeeps(app, fuel, c.st, next);
      KeptTwice(st.vars, c.st.vars, Eval(app, fuel, c.st, next).st.vars, Touched(cond), Touched(next), Touched(e));
    case ListOf(es) => AllKeep(app, fuel, st, es, []);
    case SetOf(es) => AllKeep(app, fuel, st, es, []);
    case Unary(_, arg) => EvKeeps(app, fuel, st, arg);
    case Binary(op, x, lhs, rhs) => BinaryKeeps(app, fuel, st, op, x, lhs, rhs);
    case Call(f, args) => CallKeeps(app, fuel, st, f, args);
    case Transform(arg, x, stmts, ty) =>
      if arg != Name(".") {
        EvalKeeps(app, fuel, st, arg);
        var a := Eval(app, fuel, st, arg);
        var r := EvApply(app, fuel, a.st, a.out.v, x, stmts, ty);
        ApplyKeeps(app, fuel, a.st, a.out.v, x, stmts, ty);
        var after := RestoreDot(r.st, a.st.vars).vars;
        var t := Touched(e);
        forall y | y !in t ensures KeptAt(a.st.vars, after, y) {
          if y != "." || x != "." { assert KeptAt(a.st.vars, r.st.vars, y); }
        }
        KeptTwice(st.vars, a.st.vars, after, Touched(arg), t, t);
      }
  }

  lemma {:induction false} EvalKeeps(app: App, fuel: nat, st: State, e: Expr)
    requires Eval(app, fuel, st, e).out.Ok?
    ensures Kept(st.vars, Eval(app, fuel, st, e).st.vars, Touched(e))
    decreases fuel, e, 2, 0
  {
    EvKeeps(app, fuel, st, e);
  }

  lemma {:induction false} AllKeep(app: App, fuel: nat, st: State, es: seq<Expr>, acc: seq<Value>)
    ensures var r := EvAll(app, fuel, st, es, acc);
      !r.out.Unhandled? && (r.out.Ok? ==> Kept(st.vars, r.st.vars, TouchedAll(es)))
    decreases fuel, es, 0, 0
  {
    if es != [] {
      var r := Eval(app, fuel, st, es[0]);
      if r.out.Ok? {
        EvalKeeps(app, fuel, st, es[0]);
        AllKeep(app, fuel, r.st, es[1..], acc + [r.out.v]);
        var rest := EvAll(app, fuel, r.st, es[1..], acc + [r.out.v]);
        if rest.out.Ok? { KeptTwice(st.vars, r.st.vars, rest.st.vars, Touched(es[0]), TouchedAll(es[1..]), TouchedAll(es)); }
      }
    }
  }

  /** The callee's scope is its own: only evaluating the arguments can touch the caller's. */
  lemma {:induction false} CallKeeps(app: App, fuel: nat, st: State, f: string, args: seq<Expr>)
    requires EvCall(app, fuel, st, f, args).out.Ok? || EvCall(app, fuel, st, f, args).out.Unhandled?
    ensures Kept(st.vars, EvCall(app, fuel, st, f, args).st.vars, TouchedAll(args))
    decreases fuel, args, 1, 0
  {
    if f in app.prog.views {
      if |app.prog.views[f].params| == |args| { AllKeep(app, fuel, st, args, []); }
    } else if f != "" && f[0] == '.' {
      EvalKeeps(app, fuel, st, args[0]);
    } else {
      AllKeep(app, fuel, st, args, []);
    }
  }

  lemma {:induction false} BinaryKeeps(app: App, fuel: nat, st: State, op: BinOp, x: string, lhs: Expr, rhs: Expr)
    requires Ev(app, fuel, st, Binary(op, x, lhs, rhs)).out.Ok? || Ev(app, fuel, st, Binary(op, x, lhs, rhs)).out.Unhandled?
    ensures Kept(st.vars, Ev(app, fuel, st, Binary(op, x, lhs, rhs)).st.vars, Touched(Binary(op, x, lhs, rhs)))
    decreases fuel, Binary(op, x, lhs, rhs), 0, 0
  {
    var t := Touched(Binary(op, x, lhs, rhs));
    EvalKeeps(app, fuel, st, lhs);
    var l := Eval(app, fuel, st, lhs);
    if Scoped(op) {
      var r := EvOver(app, fuel, l.st, op, x, l.out.v, rhs);
      OverKeeps(app, fuel, l.st, op, x, l.out.v, rhs);
      var after := Restore(r.st, x, l.st.vars).vars;
      forall y | y !in Touched(rhs) - {x} ensures KeptAt(l.st.vars, after, y) {
        if y != x { assert KeptAt(l.st.vars, r.st.vars, y); }
      }
      KeptTwice(st.vars, l.st.vars, after, Touched(lhs), Touched(rhs) - {x}, t);
    } else {
      EvalKeeps(app, fuel, l.st, rhs);
      KeptTwice(st.vars, l.st.vars, Eval(app, fuel, l.st, rhs).st.vars, Touched(lhs), Touched(rhs), t);
    }
  }

  lemma {:induction false} OverKeeps(app: App, fuel: nat, st: State, op: BinOp, x: string, v: Value, rhs: Expr)
    requires Scoped(op) && !EvOver(app, fuel, st, op, x, v, rhs).out.Panic? && !EvOver(app, fuel, st, op, x, v, rhs).out.OutOfFuel?
    ensures EvOver(app, fuel, st, op, x, v, rhs).out.Ok?
    ensures Kept(st.vars, EvOver(app, fuel, st, op, x, v, rhs).st.vars, Touched(rhs) + {x})
    decreases fuel, rhs, 6, 0
  {
    if op == Flatten {
      FlattenKeeps(app, fuel, st, x, rhs, v, v.items, []);
    } else if v.Map? {
      WhereMapKeeps(app, fuel, st.(tick := st.tick + 1), x, rhs, v.entries, Enumerate(app, st.tick, v.entries.Keys), map[]);
    } else {
      WhereKeeps(app, fuel, st, x, rhs, v.items, []);
    }
  }

  lemma {:induction false} PassKeeps(app: App, fuel: nat, st: State, x: string, v: Value, rhs: Expr)
    requires Eval(app, fuel, Bind(st, x, v), rhs).out.Ok?
    ensures Kept(st.vars, Eval(app, fuel, Bind(st, x, v), rhs).st.vars, Touched(rhs) + {x})
    decreases fuel, rhs, 3, 0
  {
    EvalKeeps(app, fuel, Bind(st, x, v), rhs);
    KeptAfterBind(st, x, v, Eval(app, fuel, Bind(st, x, v), rhs).st.vars, Touched(rhs));
  }

  lemma {:induction false} WhereKeeps(app: App, fuel: nat, st: State, x: string, rhs: Expr, items: seq<Value>, acc: seq<Value>)
    ensures var r := EvWhere(app, fuel, st, x, rhs, items, acc);
      !r.out.Unhandled? && (r.out.Ok? ==> Kept(st.vars, r.st.vars, Touched(rhs) + {x}))
    decreases fuel, rhs, 4, |items|
  {
    if items != [] {
      var r := Eval(app, fuel, Bind(st, x, items[0]), rhs);
      if r.out.Ok? {
        PassKeeps(app, fuel, st, x, items[0], rhs);
        var acc' := if GetB(r.out.v) then acc + [items[0]] else acc;
        WhereKeeps(app, fuel, r.st, x, rhs, items[1..], acc');
        var rest := EvWhere(app, fuel, r.st, x, rhs, items[1..], acc');
        var t := Touched(rhs) + {x};
        if rest.out.Ok? { KeptTwice(st.vars, r.st.vars, rest.st.vars, t, t, t); }
      }
    }
  }

  lemma {:induction false} WhereMapKeeps(app: App, fuel: nat, st: State, x: string, rhs: Expr, m: map<string, Value>,
                                         keys: seq<string>, acc: map<string, Value>)
    requires forall k :: k in keys ==> k in m
    ensures var r := EvWhereMap(app, fuel, st, x, rhs, m, keys, acc);
      !r.out.Unhandled? && (r.out.Ok? ==> Kept(st.vars, r.st.vars, Touched(rhs) + {x}))
    decreases fuel, rhs, 4, |keys|
  {
    if keys != [] {
      var k := keys[0];
      var r := Eval(app, fuel, Bind(st, x, Pair(k, m[k])), rhs);
      if r.out.Ok? {
        PassKeeps(app, fuel, st, x, Pair(k, m[k]), rhs);
        var acc' := if GetB(r.out.v) then acc[k := m[k]] else acc;
        WhereMapKeeps(app, fuel, r.st, x, rhs, m, keys[1..], acc');
        var rest := EvWhereMap(app, fuel, r.st, x, rhs, m, keys[1..], acc');
        var t := Touched(rhs) + {x};
        if rest.out.Ok? { KeptTwice(st.vars, r.st.vars, rest.st.vars, t, t, t); }
      }
    }
  }

  lemma {:induction false} InnerKeeps(app: App, fuel: nat, st: State, x: string, rhs: Expr, outer: Value, items: seq<Value>, acc: seq<Value>)
    requires FlattenSupported(outer)
    ensures var r := EvInner(app, fuel, st, x, rhs, outer, items, acc);
      !r.out.Unhandled? && (r.out.Ok? ==> Kept(st.vars, r.st.vars, Touched(rhs) + {x}))
    decreases fuel, rhs, 4, |items|
  {
    if items != [] {
      var r := Eval(app, fuel, Bind(st, x, items[0]), rhs);
      if r.out.Ok? && Spliced(outer, r.out.v).Some? {
        PassKeeps(app, fuel, st, x, items[0], rhs);
        var acc' := acc + Spliced(outer, r.out.v).items;
        InnerKeeps(app, fuel, r.st, x, rhs, outer, items[1..], acc');
        var rest := EvInner(app, fuel, r.st, x, rhs, outer, items[1..], acc');
        var t := Touched(rhs) + {x};
        if rest.out.Ok? { KeptTwice(st.vars, r.st.vars, rest.st.vars, t, t, t); }
      }
    }
  }

  lemma {:induction false} FlattenKeeps(app: App, fuel: nat, st: State, x: string, rhs: Expr, outer: Value, items: seq<Value>, acc: seq<Value>)
    requires FlattenSupported(outer)
    ensures var r := EvFlatten(app, fuel, st, x, rhs, outer, items, acc);
      !r.out.Unhandled? && (r.out.Ok? ==> Kept(st.vars, r.st.vars, Touched(rhs) + {x}))
    decreases fuel, rhs, 5, |items|
  {
    if items != [] && Inner(outer, items[0]).Some? {
      InnerKeeps(app, fuel, st, x, rhs, outer, Inner(outer, items[0]).items, acc);
      var r := EvInner(app, fuel, st, x, rhs, outer, Inner(outer, items[0]).items, acc);
      if r.out.Ok? {
        FlattenKeeps(app, fuel, r.st, x, rhs, outer, items[1..], GetItems(r.out.v));
        var rest := EvFlatten(app, fuel, r.st, x, rhs, outer, items[1..], GetItems(r.out.v));
        var t := Touched(rhs) + {x};
        if rest.out.Ok? { KeptTwice(st.vars, r.st.vars, rest.st.vars, t, t, t); }
      }
    }
  }

  lemma UnbindKept(a: Vars, st: State, x: string, t: set<string>)
    requires Kept(a, st.vars, t) && x in t
    ensures Kept(a, Unbind(st, x).vars, t)
  {
    forall y | y !in t ensures KeptAt(a, Unbind(st, x).vars, y) {
      assert KeptAt(a, st.vars, y);
    }
  }

  /** A transform's binder is gone when it is done; so is the template result. */
  lemma {:induction false} ApplyKeeps(app: App, fuel: nat, st: State, v: Value, x: string, stmts: seq<Stmt>, ty: RetType)
    requires EvApply(app, fuel, st, v, x, stmts, ty).out.Ok? || EvApply(app, fuel, st, v, x, stmts, ty).out.Unhandled?
    ensures var r := EvApply(app, fuel, st, v, x, stmts, ty);
      Kept(st.vars, r.st.vars, TouchedStmts(stmts) + {x, RESULT}) && x !in r.st.vars
    decreases fuel, stmts, 3, 0
  {
    var t := TouchedStmts(stmts) + {x, RESULT};
    if v.List? || v.Set? {
      EachKeeps(app, fuel, st, x, stmts, v.items, ty == ReturnsSet, []);
      UnbindKept(st.vars, EvEach(app, fuel, st, x, stmts, v.items, ty == ReturnsSet, []).st, x, t);
    } else if v.Map? && x != "." {
      EachKeeps(app, fuel, st, x, stmts, SortedPairs(v.entries), false, []);
      UnbindKept(st.vars, EvEach(app, fuel, st, x, stmts, SortedPairs(v.entries), false, []).st, x, t);
    } else {
      var before := EvStmts(app, fuel, Bind(st, x, v), stmts, map[]);
      StmtsKeep(app, fuel, Bind(st, x, v), stmts, map[]);
      KeptAfterBind(st, x, v, before.st.vars, TouchedStmts(stmts) + {RESULT});
      assert TouchedStmts(stmts) + {RESULT} + {x} == t;
      UnbindKept(st.vars, before.st, x, t);
    }
  }

  lemma {:induction false} EachKeeps(app: App, fuel: nat, st: State, x: string, stmts: seq<Stmt>, items: seq<Value>, dedup: bool, acc: seq<Value>)
    ensures var r := EvEach(app, fuel, st, x, stmts, items, dedup, acc);
      !r.out.Unhandled? && (r.out.Ok? ==> Kept(st.vars, r.st.vars, TouchedStmts(stmts) + {x, RESULT}))
    decreases fuel, stmts, 2, |items|
  {
    if items != [] {
      StmtsKeep(app, fuel, Bind(st, x, items[0]), stmts, map[]);
      var r := EvStmts(app, fuel, Bind(st, x, items[0]), stmts, map[]);
      if r.out.Ok? {
        KeptAfterBind(st, x, items[0], r.st.vars, TouchedStmts(stmts) + {RESULT});
        var acc' := Append(dedup, acc, r.out.v);
        EachKeeps(app, fuel, r.st, x, stmts, items[1..], dedup, acc');
        var rest := EvEach(app, fuel, r.st, x, stmts, items[1..], dedup, acc');
        var t := TouchedStmts(stmts) + {x, RESULT};
        if rest.out.Ok? { KeptTwice(st.vars, r.st.vars, rest.st.vars, TouchedStmts(stmts) + {RESULT} + {x}, t, t); }
      }
    }
  }

  lemma {:induction false} StmtsKeep(app: App, fuel: nat, st: State, stmts: seq<Stmt>, acc: map<string, Value>)
    ensures var r := EvStmts(app, fuel, st, stmts, acc);
      !r.out.Unhandled? && (r.out.Ok? ==> Kept(st.vars, r.st.vars, TouchedStmts(stmts) + {RESULT}) && RESULT !in r.st.vars)
    decreases fuel, stmts, 0, 0
  {
    if stmts != [] {
      var t := TouchedStmts(stmts) + {RESULT};
      match stmts[0]
      case Inject => StmtsKeep(app, fuel, st, stmts[1..], acc);
      case Assign(n, e) =>
        var r := Eval(app, fuel, st, e);
        if r.out.Ok? {
          EvalKeeps(app, fuel, st, e);
          StmtsKeep(app, fuel, r.st, stmts[1..], acc[n := r.out.v]);
          var rest := EvStmts(app, fuel, r.st, stmts[1..], acc[n := r.out.v]);
          if rest.out.Ok? { KeptTwice(st.vars, r.st.vars, rest.st.vars, Touched(e), TouchedStmts(stmts[1..]) + {RESULT}, t); }
        }
      case Let(n, e) =>
        var r := Eval(app, fuel, st, e);
        if r.out.Ok? {
          EvalKeeps(app, fuel, st, e);
          var next := if n == LOG then r.st else Bind(r.st, n, r.out.v);
          assert Kept(r.st.vars, next.vars, if n == LOG then {} else {n});
          KeptTwice(st.vars, r.st.vars, next.vars, Touched(e), if n == LOG then {} else {n}, t);
          StmtsKeep(app, fuel, next, stmts[1..], acc);
          var rest := EvStmts(app, fuel, next, stmts[1..], acc);
          if rest.out.Ok? { KeptTwice(st.vars, next.vars, rest.st.vars, t, TouchedStmts(stmts[1..]) + {RESULT}, t); }
        }
    }
  }
}
