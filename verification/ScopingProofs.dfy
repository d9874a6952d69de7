/** The evaluator implements lexical scoping on well-scoped expressions. */
module ScopingProofs {
  import opened Ordering
  import opened Values
  import opened Evaluator
  import opened Lexical

  // The two sides of the comparisons, under names of their own so that a lemma is about one step.

  function OverRun(app: App, fuel: nat, st: State, op: BinOp, x: string, v: Value, rhs: Expr): Run { EvOver(app, fuel, st, op, x, v, rhs) }

  function WhereOut(prog: Program, fuel: nat, env: Vars, x: string, v: Value, rhs: Expr): Outcome { LexWhere(prog, fuel, env, x, v, rhs) }

  function FlattenOut(prog: Program, fuel: nat, env: Vars, x: string, v: Value, rhs: Expr): Outcome { LexFlatten(prog, fuel, env, x, v, rhs) }

  function WhereRun(app: App, fuel: nat, st: State, x: string, rhs: Expr, items: seq<Value>, acc: seq<Value>): Run {
    EvWhere(app, fuel, st, x, rhs, items, acc)
  }

  function WhereMapRun(app: App, fuel: nat, st: State, x: string, rhs: Expr, m: map<string, Value>, keys: seq<string>, acc: map<string, Value>): Run
    requires forall k :: k in keys ==> k in m
  {
    EvWhereMap(app, fuel, st, x, rhs, m, keys, acc)
  }

  function OnOut(prog: Program, fuel: nat, env: Vars, x: string, rhs: Expr, items: seq<Value>): Outcome { LexOn(prog, fuel, env, x, rhs, items) }

  function InnerRun(app: App, fuel: nat, st: State, x: string, rhs: Expr, outer: Value, items: seq<Value>, acc: seq<Value>): Run
    requires FlattenSupported(outer)
  {
    EvInner(app, fuel, st, x, rhs, outer, items, acc)
  }

  function AllRun(app: App, fuel: nat, st: State, es: seq<Expr>, acc: seq<Value>): Run { EvAll(app, fuel, st, es, acc) }

  function AllOut(prog: Program, fuel: nat, env: Vars, es: seq<Expr>): Outcome { LexAll(prog, fuel, env, es) }

  function StmtsRun(app: App, fuel: nat, st: State, stmts: seq<Stmt>, acc: map<string, Value>): Run { EvStmts(app, fuel, st, stmts, acc) }

  function StmtsOut(prog: Program, fuel: nat, env: Vars, stmts: seq<Stmt>, acc: map<string, Value>): Outcome { LexStmts(prog, fuel, env, stmts, acc) }

  /** Same value, or both fail; an unknown expression kind is told apart from a failure. */
  predicate Matches(r: Outcome, o: Outcome) {
    && (r.Ok? <==> o.Ok?)
    && (r.Unhandled? <==> o.Unhandled?)
    && (o.Ok? ==> r == o)
  }

  predicate Returned(r: Outcome) { r.Ok? || r.Unhandled? }

  ghost predicate Ready(st: State, env: Vars, ks: set<Key>, clean: bool) {
    Agree(st.vars, env, ks) && (clean ==> RESULT !in env)
  }

  lemma Plus(a: seq<Value>, b: seq<Value>, c: seq<Value>)
    ensures (a + b) + c == a + (b + c) && a + [] == a && [] + a == a
  {
  }

  lemma AgreeAfter(a: Vars, a': Vars, b: Vars, ks: set<Key>, ws: set<Key>)
    requires Agree(a, b, ks) && SameOutside(a, a', ws) && ws !! ks
    ensures Agree(a', b, ks)
  {
    forall k | k in ks ensures AgreeKey(a', b, k) {
      assert AgreeKey(a, b, k) && AgreeKey(a, a', k);
    }
  }

  lemma SameTwice(a: Vars, b: Vars, c: Vars, ws: set<Key>, ws': set<Key>)
    requires SameOutside(a, b, ws) && SameOutside(b, c, ws')
    ensures SameOutside(a, c, ws + ws')
  {
    forall k: Key | k !in ws + ws' ensures AgreeKey(a, c, k) {
      assert AgreeKey(a, b, k) && AgreeKey(b, c, k);
    }
  }

  lemma Chain(a: Vars, b: Vars, c: Vars, ws: set<Key>)
    requires SameOutside(a, b, ws) && SameOutside(b, c, ws)
    ensures SameOutside(a, c, ws)
  {
    forall k: Key | k !in ws ensures AgreeKey(a, c, k) {
      assert AgreeKey(a, b, k) && AgreeKey(b, c, k);
    }
  }

  lemma UnbindKeeps(a: Vars, st: State, x: string, ws: set<Key>)
    requires SameOutside(a, st.vars, ws) && Var(x) in ws && x != RESULT
    ensures SameOutside(a, Unbind(st, x).vars, ws)
  {
    forall k: Key | k !in ws ensures AgreeKey(a, Unbind(st, x).vars, k) {
      assert AgreeKey(a, st.vars, k);
    }
  }

  lemma BindBoth(a: Vars, b: Vars, ks: set<Key>, x: string, v: Value)
    requires Agree(a, b, ks - Binds(x))
    ensures Agree(a[x := v], b[x := v], ks)
  {
    forall k | k in ks ensures AgreeKey(a[x := v], b[x := v], k) {
      if k !in Binds(x) { assert AgreeKey(a, b, k); }
    }
  }

  lemma BindOnly(a: Vars, x: string, v: Value)
    ensures SameOutside(a, a[x := v], Binds(x))
  {
  }

  /** Restoring the scope variable undoes its binding and nothing else. */
  lemma RestoreKeeps(a: Vars, st: State, x: string, ws: set<Key>)
    requires SameOutside(a, st.vars, ws + Binds(x))
    ensures SameOutside(a, Restore(st, x, a).vars, ws - Binds(x))
  {
    var b := Restore(st, x, a).vars;
    forall k: Key | k !in ws - Binds(x) ensures AgreeKey(a, b, k) {
      if k !in Binds(x) { assert AgreeKey(a, st.vars, k); }
    }
  }

  lemma {:induction false} EvRefines(app: App, fuel: nat, st: State, env: Vars, e: Expr, clean: bool, calls: bool)
    requires WellScoped(e, clean, calls) && (calls ==> AppWellScoped(app.prog))
    requires Ready(st, env, Reads(e), clean)
    ensures Matches(Ev(app, fuel, st, e).out, Lex(app.prog, fuel, env, e))
    ensures Returned(Ev(app, fuel, st, e).out) ==> SameOutside(st.vars, Ev(app, fuel, st, e).st.vars, Writes(e))
    decreases fuel, e, 1, 0
  {
    match e
    case NilExpr =>
    case UnknownExpr =>
    case Literal(_) =>
    case Name(x) => assert AgreeKey(st.vars, env, Var(x));
    case GetAttr(arg, _) => ValueRefines(app, fuel, st, env, arg, clean, calls);
    case IfElse(cond, ifTrue, ifFalse) => IfElseRefines(app, fuel, st, env, cond, ifTrue, ifFalse, clean, calls);
    case ListOf(es) =>
      AllRefine(app, fuel, st, env, es, [], clean, calls);
    case SetOf(es) =>
      AllRefine(app, fuel, st, env, es, [], clean, calls);
    case Unary(_, arg) => EvRefines(app, fuel, st, env, arg, clean, calls);
    case Binary(op, x, lhs, rhs) =>
      if op != OtherBin {
        BinaryRefines(app, fuel, st, env, op, x, lhs, rhs, clean, calls);
      }
    case Call(f, args) => CallRefines(app, fuel, st, env, f, args, clean);
    case Transform(arg, x, stmts, ty) =>
      if arg != Name(".") {
        TransformRefines(app, fuel, st, env, arg, x, stmts, ty, calls);
      }
  }

  lemma {:induction false} IfElseRefines(app: App, fuel: nat, st: State, env: Vars, cond: Expr, ifTrue: Expr, ifFalse: Expr, clean: bool, calls: bool)
    requires WellScoped(IfElse(cond, ifTrue, ifFalse), clean, calls) && (calls ==> AppWellScoped(app.prog))
    requires Ready(st, env, Reads(IfElse(cond, ifTrue, ifFalse)), clean)
    ensures var e := IfElse(cond, ifTrue, ifFalse);
      && Matches(Ev(app, fuel, st, e).out, Lex(app.prog, fuel, env, e))
      && (Returned(Ev(app, fuel, st, e).out) ==> SameOutside(st.vars, Ev(app, fuel, st, e).st.vars, Writes(e)))
    decreases fuel, IfElse(cond, ifTrue, ifFalse), 0, 0
  {
    ValueRefines(app, fuel, st, env, cond, clean, calls);
    var c := Eval(app, fuel, st, cond);
    if c.out.Ok? {
      var next := if GetB(c.out.v) then ifTrue else ifFalse;
      AgreeAfter(st.vars, c.st.vars, env, Reads(next), Writes(cond));
      ValueRefines(app, fuel, c.st, env, next, clean, calls);
      if Eval(app, fuel, c.st, next).out.Ok? {
        SameTwice(st.vars, c.st.vars, Eval(app, fuel, c.st, next).st.vars, Writes(cond), Writes(next));
      }
    }
  }

  lemma {:induction false} ValueRefines(app: App, fuel: nat, st: State, env: Vars, e: Expr, clean: bool, calls: bool)
    requires WellScoped(e, clean, calls) && (calls ==> AppWellScoped(app.prog))
    requires Ready(st, env, Reads(e), clean)
    ensures Matches(Eval(app, fuel, st, e).out, LexValue(app.prog, fuel, env, e))
    ensures Eval(app, fuel, st, e).out.Ok? ==> SameOutside(st.vars, Eval(app, fuel, st, e).st.vars, Writes(e))
    decreases fuel, e, 2, 0
  {
    EvRefines(app, fuel, st, env, e, clean, calls);
  }

  /** The values in order on both sides, those of `r` after the ones it was handed. */
  ghost predicate SameAll(st: State, r: Run, o: Outcome, acc: seq<Value>, ws: set<Key>) {
    && (r.out.Ok? <==> o.Ok?) && !r.out.Unhandled? && !o.Unhandled?
    && (o.Ok? ==> o.v.List? && r.out == Ok(List(acc + o.v.items)) && SameOutside(st.vars, r.st.vars, ws))
    && (o.Ok? && acc == [] ==> r.out == o)
  }

  lemma AllGoesOn(st: State, r: Run, rest: Run, acc: seq<Value>, o: Outcome, ws: set<Key>, ws': set<Key>)
    requires r.out.Ok? && SameOutside(st.vars, r.st.vars, ws) && SameAll(r.st, rest, o, acc + [r.out.v], ws')
    ensures SameAll(st, rest, if o.Ok? then Ok(List([r.out.v] + GetItems(o.v))) else o, acc, ws + ws')
  {
    if o.Ok? {
      SameTwice(st.vars, r.st.vars, rest.st.vars, ws, ws');
      Plus(acc, [r.out.v], o.v.items);
      Plus([r.out.v] + o.v.items, [], []);
    }
  }

  lemma {:induction false} AllRefine(app: App, fuel: nat, st: State, env: Vars, es: seq<Expr>, acc: seq<Value>, clean: bool, calls: bool)
    requires AllWellScoped(es, clean, calls) && (calls ==> AppWellScoped(app.prog))
    requires Ready(st, env, ReadsAll(es), clean)
    ensures SameAll(st, AllRun(app, fuel, st, es, acc), AllOut(app.prog, fuel, env, es), acc, WritesAll(es))
    decreases fuel, es, 0, 0
  {
    if es == [] {
      Plus(acc, [], []);
    } else {
      ValueRefines(app, fuel, st, env, es[0], clean, calls);
      var r := Eval(app, fuel, st, es[0]);
      if r.out.Ok? {
        AgreeAfter(st.vars, r.st.vars, env, ReadsAll(es[1..]), Writes(es[0]));
        AllRefine(app, fuel, r.st, env, es[1..], acc + [r.out.v], clean, calls);
        AllGoesOn(st, r, AllRun(app, fuel, r.st, es[1..], acc + [r.out.v]), acc, AllOut(app.prog, fuel, env, es[1..]),
          Writes(es[0]), WritesAll(es[1..]));
      }
    }
  }

  lemma {:induction false} ParamsOnly(params: seq<string>, args: seq<Value>)
    ensures forall x | x in ParamScope(params, args) :: x in params
  {
    if params != [] && args != [] {
      var n := (if |params| < |args| then |params| else |args|) - 1;
      ParamsOnly(params[..n], args[..n]);
    }
  }

  lemma {:induction false} CallRefines(app: App, fuel: nat, st: State, env: Vars, f: string, args: seq<Expr>, clean: bool)
    requires AllWellScoped(args, clean, true) && AppWellScoped(app.prog)
    requires Ready(st, env, ReadsAll(args), clean)
    ensures Matches(EvCall(app, fuel, st, f, args).out, LexCall(app.prog, fuel, env, f, args))
    ensures Returned(EvCall(app, fuel, st, f, args).out) ==>
      SameOutside(st.vars, EvCall(app, fuel, st, f, args).st.vars, WritesAll(args))
    decreases fuel, args, 1, 0
  {
    if f in app.prog.views {
      var view := app.prog.views[f];
      if |view.params| == |args| {
        AllRefine(app, fuel, st, env, args, [], clean, true);
        var r := EvAll(app, fuel, st, args, []);
        if r.out.Ok? && fuel > 0 {
          var callee := ParamScope(view.params, GetItems(r.out.v));
          ParamsOnly(view.params, GetItems(r.out.v));
          ValueRefines(app, fuel - 1, State(callee, r.st.tick), callee, ViewBody(view), RESULT !in view.params, true);
        }
      }
    } else if f != "" && f[0] == '.' {
      if f == ".count" && args != [] {
        ValueRefines(app, fuel, st, env, args[0], clean, true);
      }
    } else {
      AllRefine(app, fuel, st, env, args, [], clean, true);
    }
  }

  lemma {:induction false} BinaryRefines(app: App, fuel: nat, st: State, env: Vars, op: BinOp, x: string, lhs: Expr, rhs: Expr, clean: bool, calls: bool)
    requires op != OtherBin && WellScoped(Binary(op, x, lhs, rhs), clean, calls) && (calls ==> AppWellScoped(app.prog))
    requires Ready(st, env, Reads(Binary(op, x, lhs, rhs)), clean)
    ensures var e := Binary(op, x, lhs, rhs);
      && Matches(Ev(app, fuel, st, e).out, Lex(app.prog, fuel, env, e))
      && (Returned(Ev(app, fuel, st, e).out) ==> SameOutside(st.vars, Ev(app, fuel, st, e).st.vars, Writes(e)))
    decreases fuel, Binary(op, x, lhs, rhs), 0, 0
  {
    ValueRefines(app, fuel, st, env, lhs, clean, calls);
    var l := Eval(app, fuel, st, lhs);
    if l.out.Ok? {
      if Scoped(op) {
        AgreeAfter(st.vars, l.st.vars, env, Reads(rhs) - Binds(x), Writes(lhs));
        OverRefines(app, fuel, l.st, env, op, x, l.out.v, rhs, clean, calls);
        var r := EvOver(app, fuel, l.st, op, x, l.out.v, rhs);
        if r.out.Ok? {
          RestoreKeeps(l.st.vars, r.st, x, Writes(rhs));
          SameTwice(st.vars, l.st.vars, Restore(r.st, x, l.st.vars).vars, Writes(lhs), Writes(rhs) - Binds(x));
        }
      } else {
        AgreeAfter(st.vars, l.st.vars, env, Reads(rhs), Writes(lhs));
        ValueRefines(app, fuel, l.st, env, rhs, clean, calls);
        if Eval(app, fuel, l.st, rhs).out.Ok? {
          SameTwice(st.vars, l.st.vars, Eval(app, fuel, l.st, rhs).st.vars, Writes(lhs), Writes(rhs));
        }
      }
    }
  }

  /** A loop body may run again: what it changes it does not read, apart from its own variable. */
  ghost predicate Body(app: App, env: Vars, x: string, rhs: Expr, clean: bool, calls: bool) {
    && WellScoped(rhs, clean && x != RESULT, calls) && (calls ==> AppWellScoped(app.prog))
    && Writes(rhs) !! (Reads(rhs) - Binds(x)) && (clean ==> RESULT !in env)
  }

  lemma {:induction false} OverRefines(app: App, fuel: nat, st: State, env: Vars, op: BinOp, x: string, v: Value, rhs: Expr, clean: bool, calls: bool)
    requires Scoped(op) && Body(app, env, x, rhs, clean, calls)
    requires Agree(st.vars, env, Reads(rhs) - Binds(x))
    ensures SameResult(st, OverRun(app, fuel, st, op, x, v, rhs),
                       if op == Where then WhereOut(app.prog, fuel, env, x, v, rhs) else FlattenOut(app.prog, fuel, env, x, v, rhs), Writes(rhs) + Binds(x))
    decreases fuel, rhs, 8, 0
  {
    if op == Flatten {
      if FlattenSupported(v) { FlattenCase(app, fuel, st, env, x, v, rhs, clean, calls); }
    } else if v.Map? {
      WhereMapCase(app, fuel, st, env, x, v.entries, rhs, clean, calls);
    } else {
      WhereListCase(app, fuel, st, env, x, v, rhs, clean, calls);
    }
  }

  lemma {:induction false} WhereMapCase(app: App, fuel: nat, st: State, env: Vars, x: string, m: map<string, Value>, rhs: Expr, clean: bool, calls: bool)
    requires Body(app, env, x, rhs, clean, calls)
    requires Agree(st.vars, env, Reads(rhs) - Binds(x))
    ensures SameResult(st, OverRun(app, fuel, st, Where, x, Map(m), rhs), WhereOut(app.prog, fuel, env, x, Map(m), rhs), Writes(rhs) + Binds(x))
    decreases fuel, rhs, 7, 0
  {
    MapWhereIs(app, fuel, st, x, m, rhs);
    WhereMapAgrees(app, fuel, st.(tick := st.tick + 1), env, x, m, Enumerate(app, st.tick, m.Keys), rhs, clean, calls);
  }

  lemma MapWhereIs(app: App, fuel: nat, st: State, x: string, m: map<string, Value>, rhs: Expr)
    ensures OverRun(app, fuel, st, Where, x, Map(m), rhs)
      == WhereMapRun(app, fuel, st.(tick := st.tick + 1), x, rhs, m, Enumerate(app, st.tick, m.Keys), map[])
  {
  }

  /** One case of the two sides of an operator with a scope variable. */
  ghost predicate SameResult(st: State, r: Run, o: Outcome, ws: set<Key>) {
    && (r.out.Ok? <==> o.Ok?) && !r.out.Unhandled? && !o.Unhandled?
    && (o.Ok? ==> r.out == o && SameOutside(st.vars, r.st.vars, ws))
  }

  lemma ListWhereIs(app: App, fuel: nat, st: State, env: Vars, x: string, v: Value, rhs: Expr)
    requires !v.Map? && WhereSupported(v)
    ensures var r := EvWhere(app, fuel, st, x, rhs, v.items, []);
      OverRun(app, fuel, st, Where, x, v, rhs) == if r.out.Ok? then Run(Ok(Like(v, GetItems(r.out.v))), r.st) else r
    ensures var flags := LexOn(app.prog, fuel, env, x, rhs, v.items);
      WhereOut(app.prog, fuel, env, x, v, rhs) == if flags.Ok? then Ok(Like(v, Keep(v.items, GetItems(flags.v)))) else flags
  {
  }

  lemma {:induction false} WhereListCase(app: App, fuel: nat, st: State, env: Vars, x: string, v: Value, rhs: Expr, clean: bool, calls: bool)
    requires !v.Map? && Body(app, env, x, rhs, clean, calls)
    requires Agree(st.vars, env, Reads(rhs) - Binds(x))
    ensures SameResult(st, OverRun(app, fuel, st, Where, x, v, rhs), WhereOut(app.prog, fuel, env, x, v, rhs), Writes(rhs) + Binds(x))
    decreases fuel, rhs, 7, 0
  {
    if WhereSupported(v) {
      ListWhereIs(app, fuel, st, env, x, v, rhs);
      WhereRefines(app, fuel, st, env, x, rhs, v.items, [], clean, calls);
      var o := LexOn(app.prog, fuel, env, x, rhs, v.items);
      if o.Ok? { Plus(Keep(v.items, GetItems(o.v)), [], []); }
    }
  }

  lemma FlattenIs(app: App, fuel: nat, st: State, x: string, v: Value, rhs: Expr)
    requires FlattenSupported(v)
    ensures var r := FlattenRun(app, fuel, st, x, rhs, v, v.items, []);
      OverRun(app, fuel, st, Flatten, x, v, rhs) == if r.out.Ok? then Run(Ok(Like(v, GetItems(r.out.v))), r.st) else r
  {
  }

  lemma LexFlattenIs(prog: Program, fuel: nat, env: Vars, x: string, v: Value, rhs: Expr)
    requires FlattenSupported(v)
    ensures var o, s := FlattenOut(prog, fuel, env, x, v, rhs), SpreadJoined(prog, fuel, env, x, rhs, v, v.items);
      !o.Unhandled? && (o.Ok? <==> s.Some?) && (s.Some? ==> o == Ok(Like(v, s.items)))
  {
    var j := Join(v, v.items);
    if j.Some? { LexOnNeverUnhandled(prog, fuel, env, x, rhs, j.items); }
  }

  lemma {:induction false} FlattenCase(app: App, fuel: nat, st: State, env: Vars, x: string, v: Value, rhs: Expr, clean: bool, calls: bool)
    requires FlattenSupported(v) && Body(app, env, x, rhs, clean, calls)
    requires Agree(st.vars, env, Reads(rhs) - Binds(x))
    ensures SameResult(st, OverRun(app, fuel, st, Flatten, x, v, rhs), FlattenOut(app.prog, fuel, env, x, v, rhs), Writes(rhs) + Binds(x))
    decreases fuel, rhs, 7, 0
  {
    FlattenRefines(app, fuel, st, env, x, rhs, v, v.items, [], clean, calls);
    FlattenIs(app, fuel, st, x, v, rhs);
    LexFlattenIs(app.prog, fuel, env, x, v, rhs);
    var s := SpreadJoined(app.prog, fuel, env, x, rhs, v, v.items);
    if s.Some? { Plus(s.items, [], []); }
  }

  /** What `rhs` gives the pair of a key. */
  function FlagAt(prog: Program, fuel: nat, env: Vars, x: string, m: map<string, Value>, rhs: Expr, k: string): Outcome
    requires k in m
  {
    LexAt(prog, fuel, env, x, rhs, Pair(k, m[k]))
  }

  /** `ok` are the keys for whose pairs `rhs` has a value, `held` those for whose it is true. */
  ghost predicate Flags(prog: Program, fuel: nat, env: Vars, x: string, m: map<string, Value>, rhs: Expr, ok: set<string>, held: set<string>) {
    forall k {:trigger FlagAt(prog, fuel, env, x, m, rhs, k)} | k in m ::
      (k in ok <==> FlagAt(prog, fuel, env, x, m, rhs, k).Ok?) && (k in held <==> Holds(FlagAt(prog, fuel, env, x, m, rhs, k)))
  }

  lemma FlagSets(prog: Program, fuel: nat, env: Vars, x: string, m: map<string, Value>, rhs: Expr) returns (ok: set<string>, held: set<string>)
    ensures Flags(prog, fuel, env, x, m, rhs, ok, held) && held <= m.Keys
  {
    ok := set k | k in m && FlagAt(prog, fuel, env, x, m, rhs, k).Ok?;
    held := set k | k in m && Holds(FlagAt(prog, fuel, env, x, m, rhs, k));
  }

  /** The entries of `m` whose keys are held, if every key has a flag. */
  ghost predicate Filtered(o: Outcome, m: map<string, Value>, ok: set<string>, held: set<string>) {
    && (o.Ok? <==> forall k | k in m :: k in ok)
    && !o.Unhandled?
    && (o.Ok? ==>
          && o.v.Map?
          && (forall k :: k in o.v.entries <==> k in held)
          && (forall k | k in o.v.entries :: k in m && o.v.entries[k] == m[k]))
  }

  lemma {:induction false} LexWhereOnMap(prog: Program, fuel: nat, env: Vars, x: string, m: map<string, Value>, rhs: Expr, ok: set<string>, held: set<string>)
    requires Flags(prog, fuel, env, x, m, rhs, ok, held) && held <= m.Keys
    ensures Filtered(WhereOut(prog, fuel, env, x, Map(m), rhs), m, ok, held)
  {
    assert forall k | k in m :: FlagAt(prog, fuel, env, x, m, rhs, k) == LexAt(prog, fuel, env, x, rhs, Pair(k, m[k]));
  }

  lemma PickedIsFiltered(st: State, r: Run, o: Outcome, m: map<string, Value>, keys: seq<string>, ok: set<string>, held: set<string>, ws: set<Key>)
    requires Picked(st, r, m, keys, map[], ok, held, ws) && Filtered(o, m, ok, held) && held <= m.Keys
    requires forall k :: k in keys <==> k in m
    ensures SameResult(st, r, o, ws)
  {
    if o.Ok? { MapsAgree(r.out, o, m, held); }
  }

  /** Whatever order the runtime yields the keys in, the outcome is the filtered map. */
  lemma {:induction false} WhereMapAgrees(app: App, fuel: nat, st: State, env: Vars, x: string, m: map<string, Value>,
                                          keys: seq<string>, rhs: Expr, clean: bool, calls: bool)
    requires Body(app, env, x, rhs, clean, calls)
    requires Agree(st.vars, env, Reads(rhs) - Binds(x))
    requires forall k :: k in keys <==> k in m
    ensures SameResult(st, WhereMapRun(app, fuel, st, x, rhs, m, keys, map[]), WhereOut(app.prog, fuel, env, x, Map(m), rhs),
                       Writes(rhs) + Binds(x))
    decreases fuel, rhs, 6, 0
  {
    var ok, held := FlagSets(app.prog, fuel, env, x, m, rhs);
    WhereMapRefines(app, fuel, st, env, x, rhs, m, keys, map[], ok, held, clean, calls);
    LexWhereOnMap(app.prog, fuel, env, x, m, rhs, ok, held);
    PickedIsFiltered(st, WhereMapRun(app, fuel, st, x, rhs, m, keys, map[]), WhereOut(app.prog, fuel, env, x, Map(m), rhs), m, keys, ok, held,
      Writes(rhs) + Binds(x));
  }

  lemma MapsAgree(a: Outcome, b: Outcome, m: map<string, Value>, ks: set<string>)
    requires a.Ok? && a.v.Map? && b.Ok? && b.v.Map?
    requires forall k :: k in a.v.entries <==> k in ks
    requires forall k :: k in b.v.entries <==> k in ks
    requires forall k | k in ks :: k in m && a.v.entries[k] == m[k] && b.v.entries[k] == m[k]
    ensures a == b
  {
    assert a.v.entries == b.v.entries;
  }

  /** One pass of a loop body: same value on both sides, and ready for the next pass. */
  lemma {:induction false} PassRefines(app: App, fuel: nat, st: State, env: Vars, x: string, v: Value, rhs: Expr, clean: bool, calls: bool)
    requires Body(app, env, x, rhs, clean, calls)
    requires Agree(st.vars, env, Reads(rhs) - Binds(x))
    ensures var r, o := Eval(app, fuel, Bind(st, x, v), rhs), LexAt(app.prog, fuel, env, x, rhs, v);
      && Matches(r.out, o)
      && (r.out.Ok? ==>
            && SameOutside(st.vars, r.st.vars, Writes(rhs) + Binds(x))
            && Agree(r.st.vars, env, Reads(rhs) - Binds(x)))
    decreases fuel, rhs, 3, 0
  {
    BindBoth(st.vars, env, Reads(rhs), x, v);
    ValueRefines(app, fuel, Bind(st, x, v), env[x := v], rhs, clean && x != RESULT, calls);
    var r := Eval(app, fuel, Bind(st, x, v), rhs);
    if r.out.Ok? {
      BindOnly(st.vars, x, v);
      SameTwice(st.vars, Bind(st, x, v).vars, r.st.vars, Binds(x), Writes(rhs));
      assert Binds(x) + Writes(rhs) == Writes(rhs) + Binds(x);
      AgreeAfter(st.vars, r.st.vars, env, Reads(rhs) - Binds(x), Writes(rhs) + Binds(x));
    }
  }

  lemma KeepCons(items: seq<Value>, f: Value, fs: seq<Value>)
    requires items != []
    ensures Keep(items, [f] + fs) == (if GetB(f) then [items[0]] else []) + Keep(items[1..], fs)
  {
    assert ([f] + fs)[1..] == fs;
  }

  /** The items whose flags on the one side are true are those kept on the other. */
  ghost predicate SameKept(st: State, r: Run, o: Outcome, items: seq<Value>, acc: seq<Value>, ws: set<Key>) {
    && (r.out.Ok? <==> o.Ok?) && !r.out.Unhandled? && !o.Unhandled?
    && (o.Ok? ==> r.out == Ok(List(acc + Keep(items, GetItems(o.v)))) && SameOutside(st.vars, r.st.vars, ws))
  }

  lemma WhereGoesOn(st: State, r: Run, rest: Run, items: seq<Value>, acc: seq<Value>, o: Outcome, ws: set<Key>)
    requires items != [] && r.out.Ok? && SameOutside(st.vars, r.st.vars, ws)
    requires SameKept(r.st, rest, o, items[1..], if GetB(r.out.v) then acc + [items[0]] else acc, ws)
    ensures SameKept(st, rest, if o.Ok? then Ok(List([r.out.v] + GetItems(o.v))) else o, items, acc, ws)
  {
    if o.Ok? {
      Chain(st.vars, r.st.vars, rest.st.vars, ws);
      KeepCons(items, r.out.v, GetItems(o.v));
      Plus(acc, [items[0]], Keep(items[1..], GetItems(o.v)));
      Plus(Keep(items[1..], GetItems(o.v)), [], []);
    }
  }

  lemma {:induction false} WhereRefines(app: App, fuel: nat, st: State, env: Vars, x: string, rhs: Expr, items: seq<Value>, acc: seq<Value>, clean: bool, calls: bool)
    requires Body(app, env, x, rhs, clean, calls)
    requires Agree(st.vars, env, Reads(rhs) - Binds(x))
    ensures SameKept(st, WhereRun(app, fuel, st, x, rhs, items, acc), OnOut(app.prog, fuel, env, x, rhs, items), items, acc, Writes(rhs) + Binds(x))
    decreases fuel, rhs, 4, |items|
  {
    if items == [] {
      Plus(acc, [], []);
    } else {
      PassRefines(app, fuel, st, env, x, items[0], rhs, clean, calls);
      var r := Eval(app, fuel, Bind(st, x, items[0]), rhs);
      if r.out.Ok? {
        var acc' := if GetB(r.out.v) then acc + [items[0]] else acc;
        WhereRefines(app, fuel, r.st, env, x, rhs, items[1..], acc', clean, calls);
        WhereGoesOn(st, r, WhereRun(app, fuel, r.st, x, rhs, items[1..], acc'), items, acc,
          OnOut(app.prog, fuel, env, x, rhs, items[1..]), Writes(rhs) + Binds(x));
      }
    }
  }

  /** The entries picked from `m` by then: those in `acc`, and of `keys` the held ones. */
  ghost predicate Picked(st: State, r: Run, m: map<string, Value>, keys: seq<string>, acc: map<string, Value>,
                         ok: set<string>, held: set<string>, ws: set<Key>) {
    && (r.out.Ok? <==> forall k | k in keys :: k in ok)
    && !r.out.Unhandled?
    && (r.out.Ok? ==>
          && r.out.v.Map?
          && (forall k :: k in r.out.v.entries <==> k in acc || (k in keys && k in held))
          && (forall k | k in r.out.v.entries :: k in m && r.out.v.entries[k] == m[k])
          && SameOutside(st.vars, r.st.vars, ws))
  }

  lemma PickGoesOn(st: State, r: Run, rest: Run, m: map<string, Value>, keys: seq<string>, acc: map<string, Value>,
                   ok: set<string>, held: set<string>, ws: set<Key>)
    requires keys != [] && keys[0] in m && r.out.Ok? && keys[0] in ok && (keys[0] in held <==> GetB(r.out.v))
    requires SameOutside(st.vars, r.st.vars, ws)
    requires Picked(r.st, rest, m, keys[1..], if GetB(r.out.v) then acc[keys[0] := m[keys[0]]] else acc, ok, held, ws)
    ensures Picked(st, rest, m, keys, acc, ok, held, ws)
  {
    assert keys == [keys[0]] + keys[1..];
    if rest.out.Ok? { Chain(st.vars, r.st.vars, rest.st.vars, ws); }
  }

  lemma PickStops(st: State, r: Run, m: map<string, Value>, keys: seq<string>, acc: map<string, Value>,
                  ok: set<string>, held: set<string>, ws: set<Key>)
    requires keys != [] && !r.out.Ok? && !r.out.Unhandled? && keys[0] !in ok
    ensures Picked(st, r, m, keys, acc, ok, held, ws)
  {
    assert keys[0] in keys;
  }

  lemma {:induction false} WhereMapRefines(app: App, fuel: nat, st: State, env: Vars, x: string, rhs: Expr, m: map<string, Value>,
                                           keys: seq<string>, acc: map<string, Value>, ok: set<string>, held: set<string>, clean: bool, calls: bool)
    requires forall k :: k in keys ==> k in m
    requires Body(app, env, x, rhs, clean, calls) && Flags(app.prog, fuel, env, x, m, rhs, ok, held)
    requires Agree(st.vars, env, Reads(rhs) - Binds(x))
    requires forall k | k in acc :: k in m && acc[k] == m[k]
    ensures Picked(st, WhereMapRun(app, fuel, st, x, rhs, m, keys, acc), m, keys, acc, ok, held, Writes(rhs) + Binds(x))
    decreases fuel, rhs, 4, |keys|
  {
    if keys != [] {
      var k, ws := keys[0], Writes(rhs) + Binds(x);
      PassRefines(app, fuel, st, env, x, Pair(k, m[k]), rhs, clean, calls);
      var r := Eval(app, fuel, Bind(st, x, Pair(k, m[k])), rhs);
      assert Matches(r.out, FlagAt(app.prog, fuel, env, x, m, rhs, k));
      if r.out.Ok? {
        var acc' := if GetB(r.out.v) then acc[k := m[k]] else acc;
        WhereMapRefines(app, fuel, r.st, env, x, rhs, m, keys[1..], acc', ok, held, clean, calls);
        PickGoesOn(st, r, WhereMapRun(app, fuel, r.st, x, rhs, m, keys[1..], acc'), m, keys, acc, ok, held, ws);
      } else {
        PickStops(st, r, m, keys, acc, ok, held, ws);
      }
    }
  }

  lemma {:induction false} LexOnConcat(prog: Program, fuel: nat, env: Vars, x: string, rhs: Expr, a: seq<Value>, b: seq<Value>)
    ensures var oa, ob, o := LexOn(prog, fuel, env, x, rhs, a), LexOn(prog, fuel, env, x, rhs, b), LexOn(prog, fuel, env, x, rhs, a + b);
      && (o.Ok? <==> oa.Ok? && ob.Ok?)
      && (o.Ok? ==> o == Ok(List(GetItems(oa.v) + GetItems(ob.v))))
    decreases |a|
  {
    LexOnIsList(prog, fuel, env, x, rhs, b);
    if a == [] {
      assert a + b == b;
      var ob := LexOn(prog, fuel, env, x, rhs, b);
      if ob.Ok? { Plus(GetItems(ob.v), [], []); }
    } else {
      assert (a + b)[1..] == a[1..] + b;
      LexOnConcat(prog, fuel, env, x, rhs, a[1..], b);
      var r, oa, ob := LexValue(prog, fuel, env[x := a[0]], rhs), LexOn(prog, fuel, env, x, rhs, a[1..]), LexOn(prog, fuel, env, x, rhs, b);
      if r.Ok? && oa.Ok? && ob.Ok? { Plus([r.v], GetItems(oa.v), GetItems(ob.v)); }
    }
  }

  lemma LexOnIsList(prog: Program, fuel: nat, env: Vars, x: string, rhs: Expr, items: seq<Value>)
    ensures var o := LexOn(prog, fuel, env, x, rhs, items); o.Ok? ==> o.v.List? && |o.v.items| == |items|
    decreases |items|
  {
    if items != [] { LexOnIsList(prog, fuel, env, x, rhs, items[1..]); }
  }

  lemma {:induction false} SpliceAllConcat(outer: Value, a: seq<Value>, b: seq<Value>)
    requires FlattenSupported(outer)
    ensures var sa, sb, s := SpliceAll(outer, a), SpliceAll(outer, b), SpliceAll(outer, a + b);
      && (s.Some? <==> sa.Some? && sb.Some?)
      && (s.Some? ==> s.items == sa.items + sb.items)
  {
    if a == [] {
      assert a + b == b;
    } else {
      assert (a + b)[1..] == a[1..] + b;
      SpliceAllConcat(outer, a[1..], b);
    }
  }

  /** The values `rhs` gives the items, spliced together; None if any step fails. */
  function Spread(prog: Program, fuel: nat, env: Vars, x: string, rhs: Expr, outer: Value, items: seq<Value>): Items
    requires FlattenSupported(outer)
  {
    var o := LexOn(prog, fuel, env, x, rhs, items);
    if o.Ok? then SpliceAll(outer, GetItems(o.v)) else None
  }

  function PlusItems(a: Items, b: Items): Items {
    if a.Some? && b.Some? then Some(a.items + b.items) else None
  }

  /** The same for all inner items of all outer items. */
  function SpreadJoined(prog: Program, fuel: nat, env: Vars, x: string, rhs: Expr, outer: Value, items: seq<Value>): Items
    requires FlattenSupported(outer)
  {
    var j := Join(outer, items);
    if j.Some? then Spread(prog, fuel, env, x, rhs, outer, j.items) else None
  }

  lemma SpreadJoinedFirst(prog: Program, fuel: nat, env: Vars, x: string, rhs: Expr, outer: Value, items: seq<Value>)
    requires FlattenSupported(outer) && items != []
    ensures var inner := Inner(outer, items[0]);
      SpreadJoined(prog, fuel, env, x, rhs, outer, items) ==
        if inner.None? then None
        else PlusItems(Spread(prog, fuel, env, x, rhs, outer, inner.items), SpreadJoined(prog, fuel, env, x, rhs, outer, items[1..]))
  {
    var inner, j := Inner(outer, items[0]), Join(outer, items[1..]);
    if inner.Some? && j.Some? { SpreadConcat(prog, fuel, env, x, rhs, outer, inner.items, j.items); }
  }

  lemma {:induction false} SpreadConcat(prog: Program, fuel: nat, env: Vars, x: string, rhs: Expr, outer: Value, a: seq<Value>, b: seq<Value>)
    requires FlattenSupported(outer)
    ensures var sa, sb := Spread(prog, fuel, env, x, rhs, outer, a), Spread(prog, fuel, env, x, rhs, outer, b);
      var s := Spread(prog, fuel, env, x, rhs, outer, a + b);
      s == PlusItems(sa, sb)
  {
    LexOnConcat(prog, fuel, env, x, rhs, a, b);
    var oa, ob := LexOn(prog, fuel, env, x, rhs, a), LexOn(prog, fuel, env, x, rhs, b);
    if oa.Ok? && ob.Ok? { SpliceAllConcat(outer, GetItems(oa.v), GetItems(ob.v)); }
  }

  lemma SpreadFirst(prog: Program, fuel: nat, env: Vars, x: string, rhs: Expr, outer: Value, items: seq<Value>)
    requires FlattenSupported(outer) && items != []
    ensures var r, rest := LexAt(prog, fuel, env, x, rhs, items[0]), Spread(prog, fuel, env, x, rhs, outer, items[1..]);
      Spread(prog, fuel, env, x, rhs, outer, items) ==
        if !r.Ok? || Spliced(outer, r.v).None? || rest.None? then None else Some(Spliced(outer, r.v).items + rest.items)
  {
    var r := LexAt(prog, fuel, env, x, rhs, items[0]);
    var o := LexOn(prog, fuel, env, x, rhs, items[1..]);
    if r.Ok? && o.Ok? { assert ([r.v] + GetItems(o.v))[1..] == GetItems(o.v); }
  }

  lemma InnerFirst(app: App, fuel: nat, st: State, x: string, rhs: Expr, outer: Value, items: seq<Value>, acc: seq<Value>)
    requires FlattenSupported(outer) && items != []
    ensures var r := Eval(app, fuel, Bind(st, x, items[0]), rhs);
      InnerRun(app, fuel, st, x, rhs, outer, items, acc) ==
        if !r.out.Ok? then r
        else if Spliced(outer, r.out.v).None? then Run(Panic, r.st)
        else InnerRun(app, fuel, r.st, x, rhs, outer, items[1..], acc + Spliced(outer, r.out.v).items)
  {
  }

  /** The spliced items on both sides, those of `r` after the ones it was handed. */
  ghost predicate SameItems(st: State, r: Run, s: Items, acc: seq<Value>, ws: set<Key>) {
    && (r.out.Ok? <==> s.Some?) && !r.out.Unhandled?
    && (s.Some? ==> r.out == Ok(List(acc + s.items)) && SameOutside(st.vars, r.st.vars, ws))
  }

  lemma ItemsGoOn(st: State, mid: State, rest: Run, acc: seq<Value>, more: seq<Value>, s: Items, ws: set<Key>)
    requires SameOutside(st.vars, mid.vars, ws) && SameItems(mid, rest, s, acc + more, ws)
    ensures SameItems(st, rest, PlusItems(Some(more), s), acc, ws)
  {
    if s.Some? {
      Chain(st.vars, mid.vars, rest.st.vars, ws);
      Plus(acc, more, s.items);
    }
  }

  lemma {:induction false} InnerRefines(app: App, fuel: nat, st: State, env: Vars, x: string, rhs: Expr, outer: Value,
                                        items: seq<Value>, acc: seq<Value>, clean: bool, calls: bool)
    requires FlattenSupported(outer) && Body(app, env, x, rhs, clean, calls)
    requires Agree(st.vars, env, Reads(rhs) - Binds(x))
    ensures SameItems(st, InnerRun(app, fuel, st, x, rhs, outer, items, acc), Spread(app.prog, fuel, env, x, rhs, outer, items), acc,
                      Writes(rhs) + Binds(x))
    decreases fuel, rhs, 5, |items|
  {
    if items == [] {
      Plus(acc, [], []);
    } else {
      PassRefines(app, fuel, st, env, x, items[0], rhs, clean, calls);
      InnerFirst(app, fuel, st, x, rhs, outer, items, acc);
      SpreadFirst(app.prog, fuel, env, x, rhs, outer, items);
      var r := Eval(app, fuel, Bind(st, x, items[0]), rhs);
      if r.out.Ok? && Spliced(outer, r.out.v).Some? {
        var more := Spliced(outer, r.out.v).items;
        InnerRefines(app, fuel, r.st, env, x, rhs, outer, items[1..], acc + more, clean, calls);
        ItemsGoOn(st, r.st, InnerRun(app, fuel, r.st, x, rhs, outer, items[1..], acc + more), acc, more,
          Spread(app.prog, fuel, env, x, rhs, outer, items[1..]), Writes(rhs) + Binds(x));
      }
    }
  }

  function FlattenRun(app: App, fuel: nat, st: State, x: string, rhs: Expr, outer: Value, items: seq<Value>, acc: seq<Value>): Run
    requires FlattenSupported(outer)
  {
    EvFlatten(app, fuel, st, x, rhs, outer, items, acc)
  }

  lemma FlattenFirst(app: App, fuel: nat, st: State, x: string, rhs: Expr, outer: Value, items: seq<Value>, acc: seq<Value>)
    requires FlattenSupported(outer) && items != []
    ensures var inner := Inner(outer, items[0]);
      FlattenRun(app, fuel, st, x, rhs, outer, items, acc) ==
        if inner.None? then Run(Panic, st)
        else
          var r := InnerRun(app, fuel, st, x, rhs, outer, inner.items, acc);
          if r.out.Ok? then FlattenRun(app, fuel, r.st, x, rhs, outer, items[1..], GetItems(r.out.v)) else r
  {
  }

  lemma {:induction false} FlattenRefines(app: App, fuel: nat, st: State, env: Vars, x: string, rhs: Expr, outer: Value,
                                          items: seq<Value>, acc: seq<Value>, clean: bool, calls: bool)
    requires FlattenSupported(outer) && Body(app, env, x, rhs, clean, calls)
    requires Agree(st.vars, env, Reads(rhs) - Binds(x))
    ensures SameItems(st, FlattenRun(app, fuel, st, x, rhs, outer, items, acc), SpreadJoined(app.prog, fuel, env, x, rhs, outer, items), acc,
                      Writes(rhs) + Binds(x))
    decreases fuel, rhs, 6, |items|
  {
    if items == [] {
      Plus(acc, [], []);
    } else {
      var inner := Inner(outer, items[0]);
      FlattenFirst(app, fuel, st, x, rhs, outer, items, acc);
      SpreadJoinedFirst(app.prog, fuel, env, x, rhs, outer, items);
      if inner.Some? {
        InnerRefines(app, fuel, st, env, x, rhs, outer, inner.items, acc, clean, calls);
        var r := InnerRun(app, fuel, st, x, rhs, outer, inner.items, acc);
        if r.out.Ok? {
          AgreeAfter(st.vars, r.st.vars, env, Reads(rhs) - Binds(x), Writes(rhs) + Binds(x));
          FlattenRefines(app, fuel, r.st, env, x, rhs, outer, items[1..], GetItems(r.out.v), clean, calls);
          ItemsGoOn(st, r.st, FlattenRun(app, fuel, r.st, x, rhs, outer, items[1..], GetItems(r.out.v)), acc,
            Spread(app.prog, fuel, env, x, rhs, outer, inner.items).items, SpreadJoined(app.prog, fuel, env, x, rhs, outer, items[1..]),
            Writes(rhs) + Binds(x));
        }
      }
    }
  }

  lemma LexOnNeverUnhandled(prog: Program, fuel: nat, env: Vars, x: string, rhs: Expr, items: seq<Value>)
    ensures !LexOn(prog, fuel, env, x, rhs, items).Unhandled?
    decreases |items|
  {
    if items != [] { LexOnNeverUnhandled(prog, fuel, env, x, rhs, items[1..]); }
  }

  // ---- transforms --------------------------------------------------------------

  lemma {:induction false} TransformRefines(app: App, fuel: nat, st: State, env: Vars, arg: Expr, x: string, stmts: seq<Stmt>, ty: RetType, calls: bool)
    requires arg != Name(".") && WellScoped(Transform(arg, x, stmts, ty), true, calls) && (calls ==> AppWellScoped(app.prog))
    requires Ready(st, env, Reads(Transform(arg, x, stmts, ty)), true)
    ensures var e := Transform(arg, x, stmts, ty);
      && Matches(Ev(app, fuel, st, e).out, Lex(app.prog, fuel, env, e))
      && (Returned(Ev(app, fuel, st, e).out) ==> SameOutside(st.vars, Ev(app, fuel, st, e).st.vars, Writes(e)))
    decreases fuel, Transform(arg, x, stmts, ty), 0, 0
  {
    ValueRefines(app, fuel, st, env, arg, true, calls);
    var a := Eval(app, fuel, st, arg);
    if a.out.Ok? {
      var body := WritesStmts(stmts) - ResultKeys;
      AgreeAfter(st.vars, a.st.vars, env, (ReadsStmts(stmts) - Binds(x)) + {HasResult}, Writes(arg));
      assert AgreeKey(a.st.vars, env, HasResult);
      ApplyRefines(app, fuel, a.st, env, a.out.v, x, stmts, ty, calls);
      var r := EvApply(app, fuel, a.st, a.out.v, x, stmts, ty);
      if r.out.Ok? {
        var after := RestoreDot(r.st, a.st.vars);
        var ws := if x == "." then body - {Var(".")} else body + {Var(x)};
        forall k: Key | k !in ws ensures AgreeKey(a.st.vars, after.vars, k) {
          if k !in body + {Var(x)} { assert AgreeKey(a.st.vars, r.st.vars, k); }
        }
        SameTwice(st.vars, a.st.vars, after.vars, Writes(arg), ws);
      }
    }
  }

  /** The statements of a transform, run under a scope variable in a scope without "__$". */
  ghost predicate TransformBody(app: App, env: Vars, x: string, stmts: seq<Stmt>, calls: bool) {
    && StmtsWellScoped(stmts, true, calls) && (calls ==> AppWellScoped(app.prog))
    && (WritesStmts(stmts) - ResultKeys) !! (ReadsStmts(stmts) - Binds(x))
    && x != RESULT && RESULT !in env
  }

  function ApplyRun(app: App, fuel: nat, st: State, v: Value, x: string, stmts: seq<Stmt>, ty: RetType): Run { EvApply(app, fuel, st, v, x, stmts, ty) }

  function ApplyOut(prog: Program, fuel: nat, env: Vars, v: Value, x: string, stmts: seq<Stmt>, ty: RetType): Outcome {
    LexApply(prog, fuel, env, v, x, stmts, ty)
  }

  /** One case of the two sides of a transform, the scope variable taken out again. */
  ghost predicate SameWithout(st: State, r: Run, o: Outcome, x: string, ws: set<Key>) {
    SameResult(st, r, o, ws) && (o.Ok? ==> x !in r.st.vars)
  }

  lemma UnbindsAtEnd(st: State, r: Run, o: Outcome, x: string, ws: set<Key>)
    requires SameResult(st, r, o, ws) && Var(x) in ws && x != RESULT
    ensures SameWithout(st, if r.out.Ok? then Run(r.out, Unbind(r.st, x)) else r, o, x, ws)
  {
    if o.Ok? { UnbindKeeps(st.vars, r.st, x, ws); }
  }

  lemma {:induction false} ApplyRefines(app: App, fuel: nat, st: State, env: Vars, v: Value, x: string, stmts: seq<Stmt>, ty: RetType, calls: bool)
    requires TransformBody(app, env, x, stmts, calls)
    requires RESULT !in st.vars && Agree(st.vars, env, ReadsStmts(stmts) - Binds(x))
    ensures SameWithout(st, ApplyRun(app, fuel, st, v, x, stmts, ty), ApplyOut(app.prog, fuel, env, v, x, stmts, ty), x,
                        (WritesStmts(stmts) - ResultKeys) + {Var(x)})
    decreases fuel, stmts, 4, 0
  {
    var ws := (WritesStmts(stmts) - ResultKeys) + {Var(x)};
    if v.List? || v.Set? {
      if ty != Untyped { ItemsRefine(app, fuel, st, env, v.items, x, stmts, ty, calls); }
    } else if v.Map? && x != "." {
      PairsRefine(app, fuel, st, env, SortedPairs(v.entries), x, stmts, ty, calls);
    } else if !v.Nil? {
      RoundRefines(app, fuel, st, env, x, v, stmts, calls);
      UnbindsAtEnd(st, StmtsRun(app, fuel, Bind(st, x, v), stmts, map[]), StmtsOut(app.prog, fuel, env[x := v], stmts, map[]), x, ws);
    }
  }

  /** The collection a run over items ends with. */
  function Gathered(ty: RetType, r: Run): Run {
    if r.out.Ok? then Run(Ok(Collected(ty, GetItems(r.out.v))), r.st) else r
  }

  lemma {:induction false} ItemsRefine(app: App, fuel: nat, st: State, env: Vars, items: seq<Value>, x: string, stmts: seq<Stmt>, ty: RetType, calls: bool)
    requires TransformBody(app, env, x, stmts, calls)
    requires RESULT !in st.vars && Agree(st.vars, env, ReadsStmts(stmts) - Binds(x))
    ensures var r := Gathered(ty, EachRun(app, fuel, st, x, stmts, items, ty == ReturnsSet, []));
      var l := EachOut(app.prog, fuel, env, x, stmts, items);
      SameWithout(st, if r.out.Ok? then Run(r.out, Unbind(r.st, x)) else r,
                  if l.Ok? then Ok(Collected(ty, AppendAll(ty == ReturnsSet, [], GetItems(l.v)))) else l, x,
                  (WritesStmts(stmts) - ResultKeys) + {Var(x)})
    decreases fuel, stmts, 3, |items| + 1
  {
    EachRefines(app, fuel, st, env, x, stmts, items, ty == ReturnsSet, [], calls);
    var r, l := Gathered(ty, EachRun(app, fuel, st, x, stmts, items, ty == ReturnsSet, [])), EachOut(app.prog, fuel, env, x, stmts, items);
    UnbindsAtEnd(st, r, if l.Ok? then Ok(Collected(ty, AppendAll(ty == ReturnsSet, [], GetItems(l.v)))) else l, x,
      (WritesStmts(stmts) - ResultKeys) + {Var(x)});
  }

  lemma {:induction false} PairsRefine(app: App, fuel: nat, st: State, env: Vars, items: seq<Value>, x: string, stmts: seq<Stmt>, ty: RetType, calls: bool)
    requires TransformBody(app, env, x, stmts, calls)
    requires RESULT !in st.vars && Agree(st.vars, env, ReadsStmts(stmts) - Binds(x))
    ensures var r, l := Gathered(ty, EachRun(app, fuel, st, x, stmts, items, false, [])), EachOut(app.prog, fuel, env, x, stmts, items);
      SameWithout(st, if r.out.Ok? then Run(r.out, Unbind(r.st, x)) else r, if l.Ok? then Ok(Collected(ty, GetItems(l.v))) else l, x,
                  (WritesStmts(stmts) - ResultKeys) + {Var(x)})
    decreases fuel, stmts, 3, |items| + 1
  {
    EachRefines(app, fuel, st, env, x, stmts, items, false, [], calls);
    var r, l := Gathered(ty, EachRun(app, fuel, st, x, stmts, items, false, [])), EachOut(app.prog, fuel, env, x, stmts, items);
    if l.Ok? {
      AppendAllKeeps([], GetItems(l.v));
      Plus(GetItems(l.v), [], []);
    }
    UnbindsAtEnd(st, r, if l.Ok? then Ok(Collected(ty, GetItems(l.v))) else l, x, (WritesStmts(stmts) - ResultKeys) + {Var(x)});
  }

  lemma {:induction false} AppendAllKeeps(acc: seq<Value>, vs: seq<Value>)
    ensures AppendAll(false, acc, vs) == acc + vs
    decreases |vs|
  {
    if vs != [] {
      AppendAllKeeps(acc + [vs[0]], vs[1..]);
      assert acc + [vs[0]] + vs[1..] == acc + vs;
    }
  }

  /** One run of a transform's statements leaves "__$" unbound and the next run ready. */
  lemma {:induction false} RoundRefines(app: App, fuel: nat, st: State, env: Vars, x: string, v: Value, stmts: seq<Stmt>, calls: bool)
    requires TransformBody(app, env, x, stmts, calls)
    requires RESULT !in st.vars && Agree(st.vars, env, ReadsStmts(stmts) - Binds(x))
    ensures var r, o := StmtsRun(app, fuel, Bind(st, x, v), stmts, map[]), StmtsOut(app.prog, fuel, env[x := v], stmts, map[]);
      && (r.out.Ok? <==> o.Ok?) && !r.out.Unhandled? && !o.Unhandled?
      && (o.Ok? ==>
            && r.out == o && RESULT !in r.st.vars
            && SameOutside(st.vars, r.st.vars, (WritesStmts(stmts) - ResultKeys) + {Var(x)})
            && Agree(r.st.vars, env, ReadsStmts(stmts) - Binds(x)))
    decreases fuel, stmts, 2, 0
  {
    BindBoth(st.vars, env, ReadsStmts(stmts), x, v);
    StmtsRefines(app, fuel, Bind(st, x, v), env[x := v], stmts, map[], true, calls);
    var r := EvStmts(app, fuel, Bind(st, x, v), stmts, map[]);
    if r.out.Ok? {
      var ws := (WritesStmts(stmts) - ResultKeys) + {Var(x)};
      forall k: Key | k !in ws ensures AgreeKey(st.vars, r.st.vars, k) {
        if k !in ResultKeys { assert AgreeKey(Bind(st, x, v).vars, r.st.vars, k); }
      }
      AgreeAfter(st.vars, r.st.vars, env, ReadsStmts(stmts) - Binds(x), ws);
    }
  }

  function EachRun(app: App, fuel: nat, st: State, x: string, stmts: seq<Stmt>, items: seq<Value>, dedup: bool, acc: seq<Value>): Run {
    EvEach(app, fuel, st, x, stmts, items, dedup, acc)
  }

  function EachOut(prog: Program, fuel: nat, env: Vars, x: string, stmts: seq<Stmt>, items: seq<Value>): Outcome {
    LexEach(prog, fuel, env, x, stmts, items)
  }

  lemma {:induction false} EachRefines(app: App, fuel: nat, st: State, env: Vars, x: string, stmts: seq<Stmt>, items: seq<Value>,
                                       dedup: bool, acc: seq<Value>, calls: bool)
    requires TransformBody(app, env, x, stmts, calls)
    requires RESULT !in st.vars && Agree(st.vars, env, ReadsStmts(stmts) - Binds(x))
    ensures var r, o := EachRun(app, fuel, st, x, stmts, items, dedup, acc), EachOut(app.prog, fuel, env, x, stmts, items);
      && (r.out.Ok? <==> o.Ok?) && !r.out.Unhandled? && !o.Unhandled?
      && (o.Ok? ==>
            && r.out == Ok(List(AppendAll(dedup, acc, GetItems(o.v))))
            && SameOutside(st.vars, r.st.vars, (WritesStmts(stmts) - ResultKeys) + {Var(x)}))
    decreases fuel, stmts, 3, |items|
  {
    if items != [] {
      RoundRefines(app, fuel, st, env, x, items[0], stmts, calls);
      var r := EvStmts(app, fuel, Bind(st, x, items[0]), stmts, map[]);
      if r.out.Ok? {
        var acc' := Append(dedup, acc, r.out.v);
        EachRefines(app, fuel, r.st, env, x, stmts, items[1..], dedup, acc', calls);
        var o := LexEach(app.prog, fuel, env, x, stmts, items[1..]);
        if o.Ok? {
          assert ([r.out.v] + GetItems(o.v))[1..] == GetItems(o.v);
          var ws := (WritesStmts(stmts) - ResultKeys) + {Var(x)};
          Chain(st.vars, r.st.vars, EvEach(app, fuel, r.st, x, stmts, items[1..], dedup, acc').st.vars, ws);
        }
      }
    }
  }

  ghost predicate SameEnd(st: State, r: Run, o: Outcome, ws: set<Key>) {
    SameResult(st, r, o, ws) && (o.Ok? ==> RESULT !in r.st.vars)
  }

  lemma EndGoesOn(st: State, mid: State, r: Run, o: Outcome, ws: set<Key>, ws': set<Key>)
    requires SameOutside(st.vars, mid.vars, ws) && SameEnd(mid, r, o, ws')
    ensures SameEnd(st, r, o, ws + ws')
  {
    if o.Ok? { SameTwice(st.vars, mid.vars, r.st.vars, ws, ws'); }
  }

  lemma {:induction false} StmtsRefines(app: App, fuel: nat, st: State, env: Vars, stmts: seq<Stmt>, acc: map<string, Value>, clean: bool, calls: bool)
    requires StmtsWellScoped(stmts, clean, calls) && (calls ==> AppWellScoped(app.prog))
    requires Ready(st, env, ReadsStmts(stmts), clean)
    ensures SameEnd(st, StmtsRun(app, fuel, st, stmts, acc), StmtsOut(app.prog, fuel, env, stmts, acc), WritesStmts(stmts))
    decreases fuel, stmts, 0, 1
  {
    if stmts == [] {
      assert AgreeKey(st.vars, env, HasResult) && AgreeKey(st.vars, env, Var(RESULT));
    } else {
      match stmts[0]
      case Inject => StmtsRefines(app, fuel, st, env, stmts[1..], acc, clean, calls);
      case Assign(n, e) =>
        ValueRefines(app, fuel, st, env, e, clean, calls);
        var r := Eval(app, fuel, st, e);
        if r.out.Ok? {
          AgreeAfter(st.vars, r.st.vars, env, ReadsStmts(stmts[1..]), Writes(e));
          StmtsRefines(app, fuel, r.st, env, stmts[1..], acc[n := r.out.v], clean, calls);
          EndGoesOn(st, r.st, StmtsRun(app, fuel, r.st, stmts[1..], acc[n := r.out.v]),
            StmtsOut(app.prog, fuel, env, stmts[1..], acc[n := r.out.v]), Writes(e), WritesStmts(stmts[1..]));
        }
      case Let(n, e) => LetRefines(app, fuel, st, env, n, e, stmts, acc, clean, calls);
    }
  }

  /** What a let binds: nothing if it only logs. */
  function Bound(n: string): set<Key> {
    if n == LOG then {} else Binds(n)
  }

  function AfterLet(st: State, n: string, v: Value): State {
    if n == LOG then st else Bind(st, n, v)
  }

  function EnvAfterLet(env: Vars, n: string, v: Value): Vars {
    if n == LOG then env else env[n := v]
  }

  lemma LetBinds(st: State, mid: State, env: Vars, n: string, v: Value, ks: set<Key>, ws: set<Key>)
    requires SameOutside(st.vars, mid.vars, ws) && Agree(st.vars, env, ks - Bound(n)) && ws !! (ks - Bound(n))
    ensures Agree(AfterLet(mid, n, v).vars, EnvAfterLet(env, n, v), ks)
    ensures SameOutside(st.vars, AfterLet(mid, n, v).vars, ws + Bound(n))
  {
    AgreeAfter(st.vars, mid.vars, env, ks - Bound(n), ws);
    if n != LOG {
      BindBoth(mid.vars, env, ks, n, v);
      BindOnly(mid.vars, n, v);
    }
    SameTwice(st.vars, mid.vars, AfterLet(mid, n, v).vars, ws, Bound(n));
  }

  lemma {:induction false} LetRefines(app: App, fuel: nat, st: State, env: Vars, n: string, e: Expr, stmts: seq<Stmt>, acc: map<string, Value>, clean: bool, calls: bool)
    requires stmts != [] && stmts[0] == Let(n, e)
    requires StmtsWellScoped(stmts, clean, calls) && (calls ==> AppWellScoped(app.prog))
    requires Ready(st, env, ReadsStmts(stmts), clean)
    ensures SameEnd(st, StmtsRun(app, fuel, st, stmts, acc), StmtsOut(app.prog, fuel, env, stmts, acc), WritesStmts(stmts))
    decreases fuel, stmts, 0, 0
  {
    ValueRefines(app, fuel, st, env, e, clean, calls);
    var r := Eval(app, fuel, st, e);
    if r.out.Ok? {
      var next, env' := AfterLet(r.st, n, r.out.v), EnvAfterLet(env, n, r.out.v);
      LetBinds(st, r.st, env, n, r.out.v, ReadsStmts(stmts[1..]), Writes(e));
      StmtsRefines(app, fuel, next, env', stmts[1..], acc, clean && n != RESULT, calls);
      EndGoesOn(st, next, StmtsRun(app, fuel, next, stmts[1..], acc), StmtsOut(app.prog, fuel, env', stmts[1..], acc),
        Writes(e) + Bound(n), WritesStmts(stmts[1..]));
    }
  }
}
