/** Ordinary lexical scoping for the transform language, and the static condition under
    which the evaluator's single mutable scope implements it.

    In the lexical semantics every binder is local: `where` is a filter, `flatten` a map
    over the joined elements, and a let is visible to the later statements of its own
    transform and nowhere else. */
module Lexical {
  import opened Ordering
  import opened Values
  import opened Evaluator

  function Lookup(env: Vars, x: string): Value {
    if x in env then env[x] else if x == RESULT || x == LOG then Str("") else Nil
  }

  // ---- the lexical semantics ---------------------------------------------------

  function Lex(prog: Program, fuel: nat, env: Vars, e: Expr): Outcome
    decreases fuel, e, 0, 0
  {
    match e
    case NilExpr => Panic
    case UnknownExpr => Unhandled
    case Literal(v) => Ok(v)
    case Name(x) => Ok(Lookup(env, x))
    case GetAttr(arg, attr) =>
      var r := LexValue(prog, fuel, env, arg);
      if r.Ok? then GetAttribute(r.v, attr) else r
    case IfElse(cond, ifTrue, ifFalse) =>
      var r := LexValue(prog, fuel, env, cond);
      if r.Ok? then LexValue(prog, fuel, env, if GetB(r.v) then ifTrue else ifFalse) else r
    case ListOf(es) => LexAll(prog, fuel, env, es)
    case SetOf(es) =>
      var r := LexAll(prog, fuel, env, es);
      if r.Ok? then Ok(Set(GetItems(r.v))) else r
    case Unary(op, arg) =>
      var r := Lex(prog, fuel, env, arg);
      if r.Ok? then ApplyUnary(prog.lib, op, r.v) else r
    case Binary(op, x, lhs, rhs) =>
      if op == OtherBin then Panic
      else
        var l := LexValue(prog, fuel, env, lhs);
        if !l.Ok? then l
        else if op == Where then LexWhere(prog, fuel, env, x, l.v, rhs)
        else if op == Flatten then LexFlatten(prog, fuel, env, x, l.v, rhs)
        else
          var r := LexValue(prog, fuel, env, rhs);
          if r.Ok? then ApplyDefault(prog.lib, op, l.v, r.v) else r
    case Call(f, args) => LexCall(prog, fuel, env, f, args)
    case Transform(arg, x, stmts, ty) =>
      if arg == Name(".") then Ok(Nil)
      else
        var a := LexValue(prog, fuel, env, arg);
        if a.Ok? then LexApply(prog, fuel, env, a.v, x, stmts, ty) else a
  }

  function LexValue(prog: Program, fuel: nat, env: Vars, e: Expr): Outcome
    decreases fuel, e, 1, 0
  {
    var r := Lex(prog, fuel, env, e);
    if r.Unhandled? then Ok(Nil) else r
  }

  function LexAll(prog: Program, fuel: nat, env: Vars, es: seq<Expr>): Outcome
    decreases fuel, es, 0, 0
  {
    if es == [] then Ok(List([]))
    else
      var r := LexValue(prog, fuel, env, es[0]);
      if !r.Ok? then r
      else
        var rest := LexAll(prog, fuel, env, es[1..]);
        if rest.Ok? then Ok(List([r.v] + GetItems(rest.v))) else rest
  }

  function LexCall(prog: Program, fuel: nat, env: Vars, f: string, args: seq<Expr>): Outcome
    decreases fuel, args, 1, 0
  {
    if f in prog.views && |prog.views[f].params| != |args| then Ok(Nil)
    else if f in prog.views then
      var r := LexAll(prog, fuel, env, args);
      if !r.Ok? then r
      else if fuel == 0 then OutOfFuel
      else LexValue(prog, fuel - 1, ParamScope(prog.views[f].params, GetItems(r.v)), ViewBody(prog.views[f]))
    else if f != "" && f[0] == '.' then
      if f != ".count" || args == [] then Panic
      else
        var r := LexValue(prog, fuel, env, args[0]);
        if r.Ok? then CountOf(r.v) else r
    else
      var r := LexAll(prog, fuel, env, args);
      if r.Ok? then GoCall(prog, f, GetItems(r.v)) else r
  }

  /** The values of `rhs` with x bound to each item in turn. */
  function LexOn(prog: Program, fuel: nat, env: Vars, x: string, rhs: Expr, items: seq<Value>): Outcome
    decreases fuel, rhs, 2, |items|
  {
    if items == [] then Ok(List([]))
    else
      var r := LexValue(prog, fuel, env[x := items[0]], rhs);
      if !r.Ok? then r
      else
        var rest := LexOn(prog, fuel, env, x, rhs, items[1..]);
        if rest.Ok? then Ok(List([r.v] + GetItems(rest.v))) else rest
  }

  /** The items whose flag is true. */
  function Keep(items: seq<Value>, flags: seq<Value>): seq<Value> {
    if items == [] || flags == [] then []
    else (if GetB(flags[0]) then [items[0]] else []) + Keep(items[1..], flags[1..])
  }

  function LexAt(prog: Program, fuel: nat, env: Vars, x: string, rhs: Expr, v: Value): Outcome
    decreases fuel, rhs, 2, 0
  {
    LexValue(prog, fuel, env[x := v], rhs)
  }

  function LexWhere(prog: Program, fuel: nat, env: Vars, x: string, v: Value, rhs: Expr): Outcome
    decreases fuel, rhs, 3, 0
  {
    if !WhereSupported(v) then Panic
    else if v.Map? then
      var m := v.entries;
      if exists k :: k in m && !LexAt(prog, fuel, env, x, rhs, Pair(k, m[k])).Ok? then Panic
      else Ok(Map(map k | k in m && Holds(LexAt(prog, fuel, env, x, rhs, Pair(k, m[k]))) :: m[k]))
    else
      var flags := LexOn(prog, fuel, env, x, rhs, v.items);
      if flags.Ok? then Ok(Like(v, Keep(v.items, GetItems(flags.v)))) else flags
  }

  predicate Holds(o: Outcome) { o.Ok? && GetB(o.v) }

  /** All inner items of all outer items, in order. */
  function Join(outer: Value, items: seq<Value>): Items
    requires FlattenSupported(outer)
  {
    if items == [] then Some([])
    else
      match (Inner(outer, items[0]), Join(outer, items[1..]))
      case (Some(xs), Some(ys)) => Some(xs + ys)
      case _ => None
  }

  function SpliceAll(outer: Value, results: seq<Value>): Items
    requires FlattenSupported(outer)
  {
    if results == [] then Some([])
    else
      match (Spliced(outer, results[0]), SpliceAll(outer, results[1..]))
      case (Some(xs), Some(ys)) => Some(xs + ys)
      case _ => None
  }

  function LexFlatten(prog: Program, fuel: nat, env: Vars, x: string, v: Value, rhs: Expr): Outcome
    decreases fuel, rhs, 3, 0
  {
    if !FlattenSupported(v) then Panic
    else
      match Join(v, v.items)
      case None => Panic
      case Some(items) =>
        var r := LexOn(prog, fuel, env, x, rhs, items);
        if !r.Ok? then r
        else
          match SpliceAll(v, GetItems(r.v))
          case None => Panic
          case Some(vs) => Ok(Like(v, vs))
  }

  function LexApply(prog: Program, fuel: nat, env: Vars, v: Value, x: string, stmts: seq<Stmt>, ty: RetType): Outcome
    decreases fuel, stmts, 2, 0
  {
    if v.Nil? then Panic
    else if v.List? || v.Set? then
      if ty == Untyped then Panic
      else
        var r := LexEach(prog, fuel, env, x, stmts, v.items);
        if r.Ok? then Ok(Collected(ty, AppendAll(ty == ReturnsSet, [], GetItems(r.v)))) else r
    else if v.Map? && x != "." then
      var r := LexEach(prog, fuel, env, x, stmts, SortedPairs(v.entries));
      if r.Ok? then Ok(Collected(ty, GetItems(r.v))) else r
    else LexStmts(prog, fuel, env[x := v], stmts, map[])
  }

  function AppendAll(dedup: bool, acc: seq<Value>, vs: seq<Value>): seq<Value>
    decreases |vs|
  {
    if vs == [] then acc else AppendAll(dedup, Append(dedup, acc, vs[0]), vs[1..])
  }

  /** The result of the statements for each item. */
  function LexEach(prog: Program, fuel: nat, env: Vars, x: string, stmts: seq<Stmt>, items: seq<Value>): Outcome
    decreases fuel, stmts, 1, |items|
  {
    if items == [] then Ok(List([]))
    else
      var r := LexStmts(prog, fuel, env[x := items[0]], stmts, map[]);
      if !r.Ok? then r
      else
        var rest := LexEach(prog, fuel, env, x, stmts, items[1..]);
        if rest.Ok? then Ok(List([r.v] + GetItems(rest.v))) else rest
  }

  function LexStmts(prog: Program, fuel: nat, env: Vars, stmts: seq<Stmt>, acc: map<string, Value>): Outcome
    decreases fuel, stmts, 0, 0
  {
    if stmts == [] then
      if RESULT in env then Ok(env[RESULT]) else Ok(Map(acc))
    else
      match stmts[0]
      case Let(n, e) =>
        var r := LexValue(prog, fuel, env, e);
        if r.Ok? then LexStmts(prog, fuel, if n == LOG then env else env[n := r.v], stmts[1..], acc) else r
      case Assign(n, e) =>
        var r := LexValue(prog, fuel, env, e);
        if r.Ok? then LexStmts(prog, fuel, env, stmts[1..], acc[n := r.v]) else r
      case Inject => LexStmts(prog, fuel, env, stmts[1..], acc)
  }

  // ---- what an expression looks at and what it can leave changed ---------------

  /** A scope has two observable facts about "__$": what looking it up gives (the empty
      text if it is absent) and whether it is there at all. */
  datatype Key = Var(x: string) | HasResult

  predicate SameAt(a: Vars, b: Vars, x: string) {
    (x in a <==> x in b) && (x in a ==> a[x] == b[x])
  }

  predicate AgreeKey(a: Vars, b: Vars, k: Key) {
    match k
    case HasResult => RESULT in a <==> RESULT in b
    case Var(x) => if x == RESULT then Lookup(a, x) == Lookup(b, x) else SameAt(a, b, x)
  }

  ghost predicate Agree(a: Vars, b: Vars, ks: set<Key>) {
    forall k {:trigger AgreeKey(a, b, k)} | k in ks :: AgreeKey(a, b, k)
  }

  ghost predicate SameOutside(a: Vars, b: Vars, ks: set<Key>) {
    forall k: Key {:trigger AgreeKey(a, b, k)} | k !in ks :: AgreeKey(a, b, k)
  }

  const ResultKeys: set<Key> := {Var(RESULT), HasResult}

  function Binds(x: string): set<Key> {
    if x == RESULT then ResultKeys else {Var(x)}
  }

  predicate Scoped(op: BinOp) { op == Where || op == Flatten }

  /** The free names of `e`. A transform also asks whether there is a template result. */
  function Reads(e: Expr): set<Key> {
    match e
    case NilExpr => {}
    case UnknownExpr => {}
    case Literal(_) => {}
    case Name(x) => {Var(x)}
    case GetAttr(arg, _) => Reads(arg)
    case IfElse(cond, ifTrue, ifFalse) => Reads(cond) + Reads(ifTrue) + Reads(ifFalse)
    case ListOf(es) => ReadsAll(es)
    case SetOf(es) => ReadsAll(es)
    case Unary(_, arg) => Reads(arg)
    case Binary(op, x, lhs, rhs) => Reads(lhs) + (if Scoped(op) then Reads(rhs) - Binds(x) else Reads(rhs))
    case Call(_, args) => ReadsAll(args)
    case Transform(arg, x, stmts, _) => Reads(arg) + (ReadsStmts(stmts) - Binds(x)) + ResultKeys
  }

  function ReadsAll(es: seq<Expr>): set<Key> {
    if es == [] then {} else Reads(es[0]) + ReadsAll(es[1..])
  }

  function ReadsStmts(stmts: seq<Stmt>): set<Key> {
    if stmts == [] then ResultKeys
    else
      match stmts[0]
      case Let(n, e) => Reads(e) + (ReadsStmts(stmts[1..]) - (if n == LOG then {} else Binds(n)))
      case Assign(_, e) => Reads(e) + ReadsStmts(stmts[1..])
      case Inject => ReadsStmts(stmts[1..])
  }

  /** What evaluating `e` may leave changed in the scope: the lets and scope variables of
      transforms, and the presence of "__$" if it is looked up while absent. */
  function Writes(e: Expr): set<Key> {
    match e
    case NilExpr => {}
    case UnknownExpr => {}
    case Literal(_) => {}
    case Name(x) => if x == RESULT then {HasResult} else {}
    case GetAttr(arg, _) => Writes(arg)
    case IfElse(cond, ifTrue, ifFalse) => Writes(cond) + Writes(ifTrue) + Writes(ifFalse)
    case ListOf(es) => WritesAll(es)
    case SetOf(es) => WritesAll(es)
    case Unary(_, arg) => Writes(arg)
    case Binary(op, x, lhs, rhs) => Writes(lhs) + (if Scoped(op) then Writes(rhs) - Binds(x) else Writes(rhs))
    case Call(_, args) => WritesAll(args)
    case Transform(arg, x, stmts, _) =>
      var body := WritesStmts(stmts) - ResultKeys;
      Writes(arg) + (if x == "." then body - {Var(".")} else body + {Var(x)})
  }

  function WritesAll(es: seq<Expr>): set<Key> {
    if es == [] then {} else Writes(es[0]) + WritesAll(es[1..])
  }

  function WritesStmts(stmts: seq<Stmt>): set<Key> {
    if stmts == [] then ResultKeys
    else
      match stmts[0]
      case Let(n, e) => Writes(e) + (if n == LOG then {} else Binds(n)) + WritesStmts(stmts[1..])
      case Assign(_, e) => Writes(e) + WritesStmts(stmts[1..])
      case Inject => WritesStmts(stmts[1..])
  }

  /** Nothing is read after something that may have changed it. `clean` says that "__$"
      is not bound here, which a transform needs; `calls` allows calls of views. */
  predicate WellScoped(e: Expr, clean: bool, calls: bool) {
    match e
    case NilExpr => true
    case UnknownExpr => true
    case Literal(_) => true
    case Name(_) => true
    case GetAttr(arg, _) => WellScoped(arg, clean, calls)
    case IfElse(cond, ifTrue, ifFalse) =>
      && WellScoped(cond, clean, calls) && WellScoped(ifTrue, clean, calls) && WellScoped(ifFalse, clean, calls)
      && Writes(cond) !! (Reads(ifTrue) + Reads(ifFalse))
    case ListOf(es) => AllWellScoped(es, clean, calls)
    case SetOf(es) => AllWellScoped(es, clean, calls)
    case Unary(_, arg) => WellScoped(arg, clean, calls)
    case Binary(op, x, lhs, rhs) =>
      && WellScoped(lhs, clean, calls)
      && (if Scoped(op) then
            && WellScoped(rhs, clean && x != RESULT, calls)
            && (Writes(lhs) + Writes(rhs)) !! (Reads(rhs) - Binds(x))
          else WellScoped(rhs, clean, calls) && Writes(lhs) !! Reads(rhs))
    case Call(_, args) => calls && AllWellScoped(args, clean, calls)
    case Transform(arg, x, stmts, _) =>
      && clean && x != RESULT
      && WellScoped(arg, clean, calls) && StmtsWellScoped(stmts, true, calls)
      && Writes(arg) !! ((ReadsStmts(stmts) - Binds(x)) + {HasResult})
      && (WritesStmts(stmts) - ResultKeys) !! (ReadsStmts(stmts) - Binds(x))
  }

  predicate AllWellScoped(es: seq<Expr>, clean: bool, calls: bool) {
    es == [] ||
    (WellScoped(es[0], clean, calls) && AllWellScoped(es[1..], clean, calls) && Writes(es[0]) !! ReadsAll(es[1..]))
  }

  predicate StmtsWellScoped(stmts: seq<Stmt>, clean: bool, calls: bool) {
    if stmts == [] then true
    else
      match stmts[0]
      case Let(n, e) =>
        && WellScoped(e, clean, calls)
        && StmtsWellScoped(stmts[1..], clean && n != RESULT, calls)
        && Writes(e) !! (ReadsStmts(stmts[1..]) - (if n == LOG then {} else Binds(n)))
      case Assign(_, e) =>
        WellScoped(e, clean, calls) && StmtsWellScoped(stmts[1..], clean, calls) && Writes(e) !! ReadsStmts(stmts[1..])
      case Inject => StmtsWellScoped(stmts[1..], clean, calls)
  }

  ghost predicate AppWellScoped(prog: Program) {
    forall f | f in prog.views :: WellScoped(ViewBody(prog.views[f]), RESULT !in prog.views[f].params, true)
  }
}
