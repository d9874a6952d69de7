/** Small programs of the transform language with what they compute on all inputs, said of the
    data alone (pkg/eval/exprEval.go, binexprEval.go): conditionals, filters, joins of
    collections, transforms of lists, sets and maps. */
module TransformPrograms {
  import opened Ordering
  import opened Values
  import opened Evaluator
  import opened Lexical
  import opened ScopingProofs
  import opened OperatorLaws
  import opened ViewCalls

  /** The first branch is taken on the value true and the second on every other value. */
  lemma IfTakesOneBranch(app: App, fuel: nat, st: State, cond: Expr, ifTrue: Expr, ifFalse: Expr)
    requires Eval(app, fuel, st, cond).out.Ok?
    ensures var c := Eval(app, fuel, st, cond);
      Ev(app, fuel, st, IfElse(cond, ifTrue, ifFalse)) == Eval(app, fuel, c.st, if c.out.v == Bool(true) then ifTrue else ifFalse)
  {
  }

  /** A name has the value it is bound to; unbound, a template's text and its log are empty, which
      binds the text, and every other name is nil. */
  lemma NamesAreLookedUp(app: App, fuel: nat, st: State, x: string)
    ensures x in st.vars ==> Ev(app, fuel, st, Name(x)) == Run(Ok(st.vars[x]), st)
    ensures "__$" !in st.vars ==> Ev(app, fuel, st, Name("__$")) == Run(Ok(Str("")), State(st.vars["__$" := Str("")], st.tick))
    ensures "__$Log" !in st.vars ==> Ev(app, fuel, st, Name("__$Log")) == Run(Ok(Str("")), st)
    ensures x !in st.vars && x != "__$" && x != "__$Log" ==> Ev(app, fuel, st, Name(x)) == Run(Ok(Nil), st)
  {
    assert |RESULT| == 3 && |LOG| == 6;
  }

  /** What the evaluator gives for an expression, and its lexical value. */
  function ResultOf(app: App, fuel: nat, st: State, e: Expr): Outcome { Ev(app, fuel, st, e).out }

  function Means(prog: Program, fuel: nat, env: Vars, e: Expr): Outcome { Lex(prog, fuel, env, e) }

  function MeansOn(prog: Program, fuel: nat, env: Vars, x: string, rhs: Expr, items: seq<Value>): Outcome {
    LexOn(prog, fuel, env, x, rhs, items)
  }

  lemma {:induction false} HasItsMeaning(app: App, fuel: nat, st: State, e: Expr)
    requires WellScoped(e, RESULT !in st.vars, false) && Means(app.prog, fuel, st.vars, e).Ok?
    ensures ResultOf(app, fuel, st, e) == Means(app.prog, fuel, st.vars, e)
  {
    EvRefines(app, fuel, st, st.vars, e, RESULT !in st.vars, false);
  }

  // ---- where -------------------------------------------------------------------

  /** The numbers above c, in order. */
  function Above(c: Int64, items: seq<Value>): seq<Value>
    requires AllInts(items)
  {
    if items == [] then []
    else
      assert items[0].Int?;
      if items[0].i > c then [items[0]] + Above(c, items[1..]) else Above(c, items[1..])
  }

  function AboveTest(c: Int64): Expr { Binary(Gt, "", Name("x"), Literal(Int(c))) }

  lemma {:induction false} AboveFlags(prog: Program, fuel: nat, env: Vars, c: Int64, items: seq<Value>)
    requires AllInts(items)
    ensures var o := MeansOn(prog, fuel, env, "x", AboveTest(c), items);
      o.Ok? && o.v.List? && Keep(items, o.v.items) == Above(c, items)
  {
    if items != [] {
      assert items[0].Int?;
      AboveFlags(prog, fuel, env, c, items[1..]);
      OneFlag(prog, fuel, env["x" := items[0]], c, items[0].i);
      FlagsFirst(prog, fuel, env, c, items);
      KeepCons(items, Bool(items[0].i > c), MeansOn(prog, fuel, env, "x", AboveTest(c), items[1..]).v.items);
    }
  }

  lemma OneFlag(prog: Program, fuel: nat, env: Vars, c: Int64, i: Int64)
    requires "x" in env && env["x"] == Int(i)
    ensures LexValue(prog, fuel, env, AboveTest(c)) == Ok(Bool(i > c))
  {
    assert LexValue(prog, fuel, env, Name("x")) == Ok(Int(i));
    assert LexValue(prog, fuel, env, Literal(Int(c))) == Ok(Int(c));
    OperatorMeans(prog, fuel, env, Gt, Name("x"), Literal(Int(c)), Int(i), Int(c));
    ComparisonsAreOrder(prog.lib, i, c);
  }

  lemma {:induction false} OperatorMeans(prog: Program, fuel: nat, env: Vars, op: BinOp, lhs: Expr, rhs: Expr, l: Value, r: Value)
    requires op != OtherBin && op != Where && op != Flatten
    requires LexValue(prog, fuel, env, lhs) == Ok(l) && LexValue(prog, fuel, env, rhs) == Ok(r)
    ensures Lex(prog, fuel, env, Binary(op, "", lhs, rhs)) == ApplyDefault(prog.lib, op, l, r)
  {
  }

  lemma FlagsFirst(prog: Program, fuel: nat, env: Vars, c: Int64, items: seq<Value>)
    requires items != [] && items[0].Int? && LexValue(prog, fuel, env["x" := items[0]], AboveTest(c)) == Ok(Bool(items[0].i > c))
    requires var o := MeansOn(prog, fuel, env, "x", AboveTest(c), items[1..]); o.Ok? && o.v.List?
    ensures MeansOn(prog, fuel, env, "x", AboveTest(c), items) ==
      Ok(List([Bool(items[0].i > c)] + MeansOn(prog, fuel, env, "x", AboveTest(c), items[1..]).v.items))
  {
  }

  /** `where` on a set of numbers keeps those its condition holds for. */
  lemma WhereKeepsThoseAbove(app: App, fuel: nat, st: State, c: Int64, items: seq<Value>)
    requires AllInts(items)
    ensures ResultOf(app, fuel, st, Binary(Where, "x", Literal(Set(items)), AboveTest(c))) == Ok(Set(Above(c, items)))
  {
    var e := Binary(Where, "x", Literal(Set(items)), AboveTest(c));
    AboveFlags(app.prog, fuel, st.vars, c, items);
    WhereMeans(app.prog, fuel, st.vars, c, items, MeansOn(app.prog, fuel, st.vars, "x", AboveTest(c), items).v.items);
    HasItsMeaning(app, fuel, st, e);
  }

  lemma WhereMeans(prog: Program, fuel: nat, env: Vars, c: Int64, items: seq<Value>, flags: seq<Value>)
    requires AllInts(items) && MeansOn(prog, fuel, env, "x", AboveTest(c), items) == Ok(List(flags))
    ensures Means(prog, fuel, env, Binary(Where, "x", Literal(Set(items)), AboveTest(c))) == Ok(Set(Keep(items, flags)))
  {
    assert items == [] || items[0] in items;
    assert WhereOut(prog, fuel, env, "x", Set(items), AboveTest(c)) == Ok(Set(Keep(items, flags)));
    ScopedMeans(prog, fuel, env, Set(items), AboveTest(c));
  }

  lemma {:induction false} ScopedMeans(prog: Program, fuel: nat, env: Vars, v: Value, rhs: Expr)
    ensures Means(prog, fuel, env, Binary(Where, "x", Literal(v), rhs)) == WhereOut(prog, fuel, env, "x", v, rhs)
    ensures Means(prog, fuel, env, Binary(Flatten, "x", Literal(v), rhs)) == FlattenOut(prog, fuel, env, "x", v, rhs)
  {
    assert LexValue(prog, fuel, env, Literal(v)) == Ok(v);
  }

  // ---- flatten -----------------------------------------------------------------

  predicate AllLists(items: seq<Value>) {
    forall v | v in items :: v.List?
  }

  function Concat(lists: seq<Value>): seq<Value>
    requires AllLists(lists)
  {
    if lists == [] then [] else assert lists[0].List?; lists[0].items + Concat(lists[1..])
  }

  lemma {:induction false} JoinConcats(outer: Value, lists: seq<Value>)
    requires outer.List? && FlattenSupported(outer) && AllLists(lists) && ContainedType(outer) in {NoArg, ListType}
    ensures Join(outer, lists) == Some(Concat(lists))
  {
    if lists != [] {
      assert lists[0].List?;
      JoinConcats(outer, lists[1..]);
    }
  }

  lemma {:induction false} ItselfOnEach(prog: Program, fuel: nat, env: Vars, items: seq<Value>)
    ensures MeansOn(prog, fuel, env, "x", Name("x"), items) == Ok(List(items))
  {
    if items != [] {
      ItselfOnEach(prog, fuel, env, items[1..]);
      assert LexValue(prog, fuel, env["x" := items[0]], Name("x")) == Ok(items[0]);
      assert [items[0]] + items[1..] == items;
    }
  }

  lemma {:induction false} SpliceNothing(outer: Value, items: seq<Value>)
    requires outer.List? && FlattenSupported(outer)
    ensures SpliceAll(outer, items) == Some(items)
  {
    if items != [] {
      SpliceNothing(outer, items[1..]);
      assert [items[0]] + items[1..] == items;
    }
  }

  /** `flatten` of a list of lists is their concatenation. */
  lemma FlattenConcats(app: App, fuel: nat, st: State, lists: seq<Value>)
    requires AllLists(lists)
    ensures ResultOf(app, fuel, st, Binary(Flatten, "x", Literal(List(lists)), Name("x"))) == Ok(List(Concat(lists)))
  {
    var outer := List(lists);
    FlattenMeans(app.prog, fuel, st.vars, lists);
    HasItsMeaning(app, fuel, st, Binary(Flatten, "x", Literal(List(lists)), Name("x")));
  }

  lemma FlattenMeans(prog: Program, fuel: nat, env: Vars, lists: seq<Value>)
    requires AllLists(lists)
    ensures Means(prog, fuel, env, Binary(Flatten, "x", Literal(List(lists)), Name("x"))) == Ok(List(Concat(lists)))
  {
    var outer := List(lists);
    assert lists == [] || lists[0] in lists;
    JoinConcats(outer, lists);
    ItselfOnEach(prog, fuel, env, Concat(lists));
    SpliceNothing(outer, Concat(lists));
    assert FlattenOut(prog, fuel, env, "x", outer, Name("x")) == Ok(List(Concat(lists)));
    ScopedMeans(prog, fuel, env, outer, Name("x"));
  }

  // ---- transforms --------------------------------------------------------------

  /** `v -> (x: f = x)`: every item becomes a map with the item in one field. */
  const WRAP: seq<Stmt> := [Assign("f", Name("x"))]

  function Wrapped(v: Value): Value { Map(map["f" := v]) }

  function AllWrapped(items: seq<Value>): seq<Value> {
    seq(|items|, i requires 0 <= i < |items| => Wrapped(items[i]))
  }

  lemma WrapsOne(prog: Program, fuel: nat, env: Vars, v: Value)
    requires RESULT !in env
    ensures LexStmts(prog, fuel, env["x" := v], WRAP, map[]) == Ok(Wrapped(v))
  {
    var bound := env["x" := v];
    assert WRAP[1..] == [];
    assert LexValue(prog, fuel, bound, Name("x")) == Ok(v);
    var made: map<string, Value> := map[];
    assert made["f" := v] == map["f" := v];
    assert LexStmts(prog, fuel, bound, [], map["f" := v]) == Ok(Wrapped(v));
  }

  lemma {:induction false} WrapsEach(prog: Program, fuel: nat, env: Vars, items: seq<Value>)
    requires RESULT !in env
    ensures LexEach(prog, fuel, env, "x", WRAP, items) == Ok(List(AllWrapped(items)))
  {
    if items != [] {
      WrapsOne(prog, fuel, env, items[0]);
      WrapsEach(prog, fuel, env, items[1..]);
      assert [Wrapped(items[0])] + AllWrapped(items[1..]) == AllWrapped(items);
    } else {
      assert AllWrapped(items) == [];
    }
  }

  /** `arg` is the value itself or a name bound to it. */
  predicate Gives(arg: Expr, vars: Vars, v: Value) {
    arg == Literal(v) || (arg.Name? && arg.x != "." && arg.x != RESULT && arg.x in vars && vars[arg.x] == v)
  }

  lemma WrapIsWellScoped(arg: Expr, ty: RetType)
    requires arg.Literal? || (arg.Name? && arg.x != RESULT)
    ensures WellScoped(Transform(arg, "x", WRAP, ty), true, false)
  {
    assert WRAP[1..] == [];
    assert StmtsWellScoped([], true, false);
    assert WritesStmts(WRAP) == ResultKeys;
  }

  lemma {:induction false} AppendAllDistinct(acc: seq<Value>, vs: seq<Value>)
    requires Distinct(acc)
    ensures Distinct(AppendAll(true, acc, vs))
    ensures forall v :: v in AppendAll(true, acc, vs) <==> v in acc || v in vs
    decreases |vs|
  {
    if vs != [] {
      AppendAllDistinct(Append(true, acc, vs[0]), vs[1..]);
    }
  }

  lemma {:induction false} AppendAllInOrder(acc: seq<Value>, vs: seq<Value>)
    ensures AppendAll(false, acc, vs) == acc + vs
    decreases |vs|
  {
    if vs != [] {
      AppendAllInOrder(acc + [vs[0]], vs[1..]);
      assert (acc + [vs[0]]) + vs[1..] == acc + vs;
    } else {
      assert acc + vs == acc;
    }
  }

  /** A transform of a list or set gives one result for each item, in order; one that returns a
      set gives every result once. */
  lemma TransformsEachItem(app: App, fuel: nat, st: State, arg: Expr, v: Value)
    requires Gives(arg, st.vars, v) && (v.List? || v.Set?) && RESULT !in st.vars
    ensures ResultOf(app, fuel, st, Transform(arg, "x", WRAP, ReturnsOther)) == Ok(List(AllWrapped(v.items)))
    ensures var o := ResultOf(app, fuel, st, Transform(arg, "x", WRAP, ReturnsSet));
      o.Ok? && o.v.Set? && Distinct(o.v.items) && forall r :: r in o.v.items <==> r in AllWrapped(v.items)
  {
    ItemsMean(app.prog, fuel, st.vars, arg, v);
    AppendAllDistinct([], AllWrapped(v.items));
    WrapIsWellScoped(arg, ReturnsOther);
    WrapIsWellScoped(arg, ReturnsSet);
    HasItsMeaning(app, fuel, st, Transform(arg, "x", WRAP, ReturnsOther));
    HasItsMeaning(app, fuel, st, Transform(arg, "x", WRAP, ReturnsSet));
  }

  lemma ItemsMean(prog: Program, fuel: nat, env: Vars, arg: Expr, v: Value)
    requires Gives(arg, env, v) && (v.List? || v.Set?) && RESULT !in env
    ensures Means(prog, fuel, env, Transform(arg, "x", WRAP, ReturnsOther)) == Ok(List(AllWrapped(v.items)))
    ensures Means(prog, fuel, env, Transform(arg, "x", WRAP, ReturnsSet)) == Ok(Set(AppendAll(true, [], AllWrapped(v.items))))
  {
    AppendAllInOrder([], AllWrapped(v.items));
    assert [] + AllWrapped(v.items) == AllWrapped(v.items);
    AppliesToItems(prog, fuel, env, v);
    TransformMeans(prog, fuel, env, arg, v, ReturnsOther);
    TransformMeans(prog, fuel, env, arg, v, ReturnsSet);
  }

  lemma {:induction false} TransformMeans(prog: Program, fuel: nat, env: Vars, arg: Expr, v: Value, ty: RetType)
    requires Gives(arg, env, v)
    ensures Means(prog, fuel, env, Transform(arg, "x", WRAP, ty)) == ApplyOut(prog, fuel, env, v, "x", WRAP, ty)
  {
    assert LexValue(prog, fuel, env, arg) == Ok(v);
  }

  lemma {:induction false} AppliesToItems(prog: Program, fuel: nat, env: Vars, v: Value)
    requires (v.List? || v.Set?) && RESULT !in env
    ensures ApplyOut(prog, fuel, env, v, "x", WRAP, ReturnsOther) == Ok(List(AppendAll(false, [], AllWrapped(v.items))))
    ensures ApplyOut(prog, fuel, env, v, "x", WRAP, ReturnsSet) == Ok(Set(AppendAll(true, [], AllWrapped(v.items))))
  {
    WrapsEach(prog, fuel, env, v.items);
  }

  /** A transform of a map gives one result for each entry, in key order, of the pair of the
      entry's key and value. */
  lemma TransformsEachEntry(app: App, fuel: nat, st: State, m: map<string, Value>)
    requires RESULT !in st.vars
    ensures var o := ResultOf(app, fuel, st, Transform(Literal(Map(m)), "x", WRAP, ReturnsOther));
      var keys := SortedStrings(m.Keys);
      && o.Ok? && o.v.List? && |o.v.items| == |keys| && Ascending(keys, StrLe)
      && forall i | 0 <= i < |keys| :: o.v.items[i] == Wrapped(Pair(keys[i], m[keys[i]]))
  {
    SortedPairsAre(m);
    EntriesMean(app.prog, fuel, st.vars, m);
    WrapIsWellScoped(Literal(Map(m)), ReturnsOther);
    HasItsMeaning(app, fuel, st, Transform(Literal(Map(m)), "x", WRAP, ReturnsOther));
  }

  lemma EntriesMean(prog: Program, fuel: nat, env: Vars, m: map<string, Value>)
    requires RESULT !in env
    ensures Means(prog, fuel, env, Transform(Literal(Map(m)), "x", WRAP, ReturnsOther)) == Ok(List(AllWrapped(SortedPairs(m))))
  {
    AppliesToPairs(prog, fuel, env, m);
    TransformMeans(prog, fuel, env, Literal(Map(m)), Map(m), ReturnsOther);
  }

  lemma {:induction false} AppliesToPairs(prog: Program, fuel: nat, env: Vars, m: map<string, Value>)
    requires RESULT !in env
    ensures ApplyOut(prog, fuel, env, Map(m), "x", WRAP, ReturnsOther) == Ok(List(AllWrapped(SortedPairs(m))))
  {
    WrapsEach(prog, fuel, env, SortedPairs(m));
  }

  /** A transform of any other value runs once, on the value itself. */
  lemma TransformsOther(app: App, fuel: nat, st: State, v: Value, ty: RetType)
    requires !v.Nil? && !v.List? && !v.Set? && !v.Map? && RESULT !in st.vars
    ensures ResultOf(app, fuel, st, Transform(Literal(v), "x", WRAP, ty)) == Ok(Wrapped(v))
  {
    OtherMeans(app.prog, fuel, st.vars, v, ty);
    WrapIsWellScoped(Literal(v), ty);
    HasItsMeaning(app, fuel, st, Transform(Literal(v), "x", WRAP, ty));
  }

  lemma OtherMeans(prog: Program, fuel: nat, env: Vars, v: Value, ty: RetType)
    requires !v.Nil? && !v.List? && !v.Set? && !v.Map? && RESULT !in env
    ensures Means(prog, fuel, env, Transform(Literal(v), "x", WRAP, ty)) == Ok(Wrapped(v))
  {
    WrapsOne(prog, fuel, env, v);
    TransformMeans(prog, fuel, env, Literal(v), v, ty);
  }

  /** A view of one parameter that is declared to return a set; its body does not say what it returns. */
  const SetView: View := View(["v"], ReturnsSet, Transform(Name("v"), "x", WRAP, Untyped))

  lemma SetViewRuns(app: App, fuel: nat, st: State, f: string, v: Value, scope: Vars)
    requires fuel > 0 && f in app.prog.views && app.prog.views[f] == SetView && scope == map["v" := v]
    ensures ResultOf(app, fuel, st, Call(f, [Literal(v)])) ==
      Settled(ResultOf(app, fuel - 1, State(scope, st.tick), Transform(Name("v"), "x", WRAP, ReturnsSet)))
  {
    OneLiteralRuns(app, fuel, st, v);
    OneBinds(scope, v);
    CallBindsByPosition(app, fuel, [st, st], f, [Literal(v)], [v], scope);
    CallIsEvaluated(app, fuel, st, f, [Literal(v)]);
    BodyIsTyped();
  }

  lemma OneBinds(scope: Vars, v: Value)
    requires scope == map["v" := v]
    ensures BindsByPosition(scope, SetView.params, [v])
  {
  }

  lemma BodyIsTyped()
    ensures ViewBody(SetView) == Transform(Name("v"), "x", WRAP, ReturnsSet)
  {
  }

  function Settled(o: Outcome): Outcome { if o.Unhandled? then Ok(Nil) else o }

  /** Calling it gives a set: the return type of a view is that of a body that has none. */
  lemma SetViewGivesASet(app: App, fuel: nat, st: State, f: string, v: Value)
    requires fuel > 0 && f in app.prog.views && app.prog.views[f] == SetView && (v.List? || v.Set?)
    ensures var o := ResultOf(app, fuel, st, Call(f, [Literal(v)]));
      o.Ok? && o.v.Set? && Distinct(o.v.items) && forall r :: r in o.v.items <==> r in AllWrapped(v.items)
  {
    var scope: Vars := map["v" := v];
    SetViewRuns(app, fuel, st, f, v, scope);
    TransformsEachItem(app, fuel - 1, State(scope, st.tick), Name("v"), v);
  }

  /** A template sets its text, and the text is the result, whatever else is assigned. */
  lemma TemplateGivesItsText(app: App, fuel: nat, st: State, e: Expr, v: Value)
    requires Eval(app, fuel, st, e) == Run(Ok(v), st)
    ensures EvStmts(app, fuel, st, [Let("__$", e)], map[]) == Run(Ok(v), State(st.vars - {"__$"}, st.tick))
  {
    var stmts := [Let("__$", e)];
    assert stmts[0] == Let("__$", e) && stmts[1..] == [];
    assert |LOG| == 6 && |"__$"| == 3;
    var bound := Bind(st, "__$", v);
    assert EvStmts(app, fuel, bound, [], map[]) == Run(Ok(v), Unbind(bound, "__$"));
    assert bound.vars - {"__$"} == st.vars - {"__$"};
  }

  /** A let is seen by the statements behind it, and what is assigned is a field of the result. */
  lemma LetsAreSeen(app: App, fuel: nat, st: State, v: Value)
    requires RESULT !in st.vars
    ensures EvStmts(app, fuel, st, [Let("a", Literal(v)), Assign("f", Name("a"))], map[]) ==
      Run(Ok(Map(map["f" := v])), State(st.vars["a" := v], st.tick))
  {
    var stmts := [Let("a", Literal(v)), Assign("f", Name("a"))];
    assert stmts[1..] == [Assign("f", Name("a"))] && stmts[1..][1..] == [];
    assert "a"[0] != RESULT[0] && "a"[0] != LOG[0];
    var bound := Bind(st, "a", v);
    assert Eval(app, fuel, st, Literal(v)) == Run(Ok(v), st);
    assert Eval(app, fuel, bound, Name("a")) == Run(Ok(v), bound);
    var none: map<string, Value> := map[];
    assert none["f" := v] == map["f" := v];
    assert EvStmts(app, fuel, bound, [], map["f" := v]) == Run(Ok(Map(map["f" := v])), bound);
    assert EvStmts(app, fuel, bound, stmts[1..], map[]) == Run(Ok(Map(map["f" := v])), bound);
  }
}
