/** What the statements emitted for one table do when they are applied. */
module TableChange {
  import opened Ordering
  import opened TableDepth
  import opened SqlScript

  ghost predicate Lists(names: seq<string>, keys: set<string>) {
    Distinct(names) && forall c :: c in names <==> c in keys
  }

  /** The foreign keys of `t` point at other tables. */
  predicate PointsAway(t: string, attrs: Attrs) {
    forall c | c in attrs && attrs[c].ref.Some? :: attrs[c].ref.value.table != t
  }

  function FkMap(attrs: Attrs): map<string, Ref> {
    map c | c in attrs && attrs[c].ref.Some? :: attrs[c].ref.value
  }

  // ---- a new table -------------------------------------------------------------

  function FreshTable(attrs: Attrs, types: Types): TableState {
    TableState(map c | c in attrs :: StateOf(SpecOf(attrs[c], types)), FkMap(attrs), PkSet(attrs))
  }

  /** `after` records the columns of `t` in `names` and is otherwise `types`. */
  ghost predicate CreateRecorded(after: Types, types: Types, t: string, attrs: Attrs, names: seq<string>)
    requires forall c | c in names :: c in attrs
  {
    && (forall c | c in names :: Recorded(after, Ref(t, c)) == RecordOf(attrs[c], types))
    && (forall q: Ref | q.table != t || q.column !in names :: Recorded(after, q) == Recorded(types, q))
  }

  lemma {:induction false} CreateRecords(t: string, attrs: Attrs, names: seq<string>, types: Types)
    requires (forall c | c in names :: c in attrs) && PointsAway(t, attrs)
    ensures CreateRecorded(CreateColumns(t, attrs, names, types).types, types, t, attrs, names)
    decreases |names|
  {
    if names != [] {
      var init, c := names[..|names| - 1], names[|names| - 1];
      CreateRecords(t, attrs, init, types);
      assert names == init + [c];
    }
  }

  lemma {:induction false} CreateDefs(t: string, attrs: Attrs, names: seq<string>, types: Types)
    requires (forall c | c in names :: c in attrs) && PointsAway(t, attrs)
    ensures var r := CreateColumns(t, attrs, names, types);
      && |r.defs| == |names|
      && forall i | 0 <= i < |names| :: r.defs[i] == ColumnDef(names[i], SpecOf(attrs[names[i]], types))
    decreases |names|
  {
    if names != [] {
      var init, c := names[..|names| - 1], names[|names| - 1];
      CreateDefs(t, attrs, init, types);
      CreateRecords(t, attrs, init, types);
      assert names == init + [c];
    }
  }

  lemma {:induction false} CreatePk(t: string, attrs: Attrs, names: seq<string>, types: Types)
    requires forall c | c in names :: c in attrs
    ensures forall k :: k in CreateColumns(t, attrs, names, types).pk <==> k in names && attrs[k].pk
    decreases |names|
  {
    if names != [] {
      CreatePk(t, attrs, names[..|names| - 1], types);
      assert names == names[..|names| - 1] + [names[|names| - 1]];
    }
  }

  /** The foreign keys are those of the columns `names`. */
  ghost predicate FksOfNames(attrs: Attrs, names: seq<string>, fks: seq<FkDef>)
    requires forall c | c in names :: c in attrs
  {
    && (forall f | f in fks :: f.column in names && attrs[f.column].ref == Some(f.ref))
    && (forall c :: c in FksOf(fks) <==> c in names && attrs[c].ref.Some?)
    && (forall c | c in FksOf(fks) :: FksOf(fks)[c] == attrs[c].ref.value)
    && (forall c | c in names && attrs[c].ref.Some? :: FkDef(c, attrs[c].ref.value) in fks)
  }

  lemma OneMoreFkName(attrs: Attrs, init: seq<string>, c: string, fks: seq<FkDef>)
    requires c in attrs && (forall d | d in init :: d in attrs) && FksOfNames(attrs, init, fks)
    ensures FksOfNames(attrs, init + [c], fks + FksFor(c, attrs[c]))
  {
    var more := fks + FksFor(c, attrs[c]);
    if attrs[c].ref.Some? {
      assert more[..|more| - 1] == fks;
    } else {
      assert more == fks;
    }
  }

  lemma {:induction false} CreateFks(t: string, attrs: Attrs, names: seq<string>, types: Types)
    requires forall c | c in names :: c in attrs
    ensures FksOfNames(attrs, names, CreateColumns(t, attrs, names, types).fks)
    decreases |names|
  {
    if names != [] {
      var init, c := names[..|names| - 1], names[|names| - 1];
      CreateFks(t, attrs, init, types);
      OneMoreFkName(attrs, init, c, CreateColumns(t, attrs, init, types).fks);
      assert names == init + [c];
    }
  }

  lemma {:induction false} ColsOfDefs(defs: seq<ColumnDef>, attrs: Attrs, names: seq<string>, types: Types)
    requires |defs| == |names| && (forall c | c in names :: c in attrs)
    requires forall i | 0 <= i < |names| :: defs[i] == ColumnDef(names[i], SpecOf(attrs[names[i]], types))
    ensures ColsOf(defs) == map c | c in names :: StateOf(SpecOf(attrs[c], types))
    decreases |defs|
  {
    if defs != [] {
      var n := |defs| - 1;
      ColsOfDefs(defs[..n], attrs, names[..n], types);
      assert names == names[..n] + [names[n]];
    }
  }

  lemma MadeColumns(t: string, attrs: Attrs, names: seq<string>, types: Types)
    requires Lists(names, attrs.Keys) && PointsAway(t, attrs)
    ensures ColsOf(CreateColumns(t, attrs, names, types).defs) == FreshTable(attrs, types).cols
  {
    CreateDefs(t, attrs, names, types);
    ColsOfDefs(CreateColumns(t, attrs, names, types).defs, attrs, names, types);
  }

  lemma MadeFks(t: string, attrs: Attrs, names: seq<string>, types: Types)
    requires Lists(names, attrs.Keys)
    ensures FksOf(CreateColumns(t, attrs, names, types).fks) == FkMap(attrs)
  {
    CreateFks(t, attrs, names, types);
  }

  lemma MadePk(t: string, attrs: Attrs, names: seq<string>, types: Types)
    requires Lists(names, attrs.Keys)
    ensures (set k | k in CreateColumns(t, attrs, names, types).pk) == PkSet(attrs)
  {
    CreatePk(t, attrs, names, types);
  }

  lemma CreateMakes(t: string, attrs: Attrs, names: seq<string>, types: Types)
    requires Lists(names, attrs.Keys) && PointsAway(t, attrs)
    ensures var r := CreateColumns(t, attrs, names, types);
      TableMade(r.defs, r.pk, r.fks) == FreshTable(attrs, types)
  {
    MadeColumns(t, attrs, names, types);
    MadeFks(t, attrs, names, types);
    MadePk(t, attrs, names, types);
  }

  /** The table has a key column or a foreign key, or no columns at all. */
  predicate HasConstraint(attrs: Attrs) {
    attrs == map[] || exists c :: c in attrs && (attrs[c].pk || attrs[c].ref.Some?)
  }

  lemma ConstraintIff(t: string, attrs: Attrs, names: seq<string>, types: Types)
    requires Lists(names, attrs.Keys) && PointsAway(t, attrs)
    ensures var r := CreateColumns(t, attrs, names, types); ListEnds(r.defs, r.pk, r.fks) <==> HasConstraint(attrs)
  {
    var r := CreateColumns(t, attrs, names, types);
    CreateDefs(t, attrs, names, types);
    CreatePk(t, attrs, names, types);
    CreateFks(t, attrs, names, types);
    assert r.defs == [] <==> attrs == map[] by {
      assert names == [] || names[0] in attrs;
      assert attrs == map[] || exists c :: c in attrs;
    }
    assert r.pk != [] <==> exists c :: c in attrs && attrs[c].pk by {
      if r.pk != [] { assert r.pk[0] in r.pk && attrs[r.pk[0]].pk; }
      if c :| c in attrs && attrs[c].pk { assert c in r.pk; }
    }
    assert r.fks != [] <==> exists c :: c in attrs && attrs[c].ref.Some? by {
      if r.fks != [] { assert r.fks[0] in r.fks && attrs[r.fks[0].column].ref.Some?; }
      if c :| c in attrs && attrs[c].ref.Some? { assert FkDef(c, attrs[c].ref.value) in r.fks; }
    }
  }

  /** Every foreign key can be made: see CanRefer. */
  predicate TargetsMeet(db: Db, attrs: Attrs, types: Types) {
    forall c | c in attrs && attrs[c].ref.Some? :: CanRefer(db, Recorded(types, attrs[c].ref.value), attrs[c].ref.value)
  }

  lemma TargetsMeetIff(db: Db, t: string, attrs: Attrs, names: seq<string>, types: Types)
    requires Lists(names, attrs.Keys) && PointsAway(t, attrs)
    ensures var r := CreateColumns(t, attrs, names, types);
      (forall f | f in r.fks :: f.column in ColsOf(r.defs) && CanRefer(db, ColsOf(r.defs)[f.column].ty, f.ref)) <==> TargetsMeet(db, attrs, types)
  {
    var r := CreateColumns(t, attrs, names, types);
    MadeColumns(t, attrs, names, types);
    CreateFks(t, attrs, names, types);
    assert forall c | c in attrs && attrs[c].ref.Some? :: c in ColsOf(r.defs) && ColsOf(r.defs)[c].ty == Recorded(types, attrs[c].ref.value);
    if forall f | f in r.fks :: f.column in ColsOf(r.defs) && CanRefer(db, ColsOf(r.defs)[f.column].ty, f.ref) {
      forall c | c in attrs && attrs[c].ref.Some? ensures CanRefer(db, Recorded(types, attrs[c].ref.value), attrs[c].ref.value) {
        var f := FkDef(c, attrs[c].ref.value);
        assert f in r.fks;
      }
    }
  }

  lemma CreatableIff(db: Db, t: string, attrs: Attrs, names: seq<string>, types: Types)
    requires t !in db && Lists(names, attrs.Keys) && PointsAway(t, attrs)
    ensures var r := CreateColumns(t, attrs, names, types);
      Creatable(db, t, r.defs, r.pk, r.fks) <==> HasConstraint(attrs) && TargetsMeet(db, attrs, types)
  {
    var r := CreateColumns(t, attrs, names, types);
    ConstraintIff(t, attrs, names, types);
    TargetsMeetIff(db, t, attrs, names, types);
    MadeColumns(t, attrs, names, types);
    CreatePk(t, attrs, names, types);
    DefsAreDistinct(t, attrs, names, types);
  }

  lemma DefsAreDistinct(t: string, attrs: Attrs, names: seq<string>, types: Types)
    requires Lists(names, attrs.Keys) && PointsAway(t, attrs)
    ensures DistinctNames(CreateColumns(t, attrs, names, types).defs)
  {
    CreateDefs(t, attrs, names, types);
    var defs := CreateColumns(t, attrs, names, types).defs;
    forall i, j | 0 <= i < j < |defs| ensures defs[i].name != defs[j].name {
      assert names[i] != names[j];
    }
  }

  /** A new table is created whole, exactly if it has a constraint and its foreign keys can
      be made. */
  lemma CreateTableRuns(db: Db, t: string, attrs: Attrs, names: seq<string>, types: Types)
    requires t !in db && Lists(names, attrs.Keys) && PointsAway(t, attrs)
    ensures Apply(db, CreateStmt(t, CreateColumns(t, attrs, names, types))) ==
      if HasConstraint(attrs) && TargetsMeet(db, attrs, types) then Some(db[t := FreshTable(attrs, types)]) else None
  {
    CreatableIff(db, t, attrs, names, types);
    CreateMakes(t, attrs, names, types);
  }

  /** A column listed twice makes the statement inapplicable. */
  lemma CreateTableFails(db: Db, t: string, attrs: Attrs, names: seq<string>, types: Types)
    requires (forall c | c in names :: c in attrs) && PointsAway(t, attrs) && !Distinct(names)
    ensures Apply(db, CreateStmt(t, CreateColumns(t, attrs, names, types))) == None
  {
    var r := CreateColumns(t, attrs, names, types);
    CreateDefs(t, attrs, names, types);
    var i, j :| 0 <= i < j < |names| && names[i] == names[j];
    assert r.defs[i].name == r.defs[j].name;
  }

  // ---- the columns of a retained table -----------------------------------------

  /** A column as the statements for it leave it; `ty` is the type recorded for its target. */
  function ChangedCol(was: ColState, o: Column, n: Column, ty: SqlType): ColState {
    if n.ref.Some? then (if o.ref.None? then ColState(ty, was.serial) else was)
    else
      var pg := PgType(n.prim);
      if o.ref.Some? || pg != PgType(o.prim) then ColState(pg, was.serial)
      else if n.autoInc && !o.autoInc then ColState(pg, true)
      else if !n.autoInc && o.autoInc then ColState(pg, was.serial)
      else was
  }

  /** A foreign key that is there before and after is not touched, wherever it points. */
  function ChangedFk(o: Column, n: Column): Option<Ref> {
    if n.ref.None? || o.ref.None? then n.ref else o.ref
  }

  function ChangedRecord(o: Column, n: Column, types: Types): SqlType {
    if n.ref.Some? then Recorded(types, n.ref.value)
    else if o.ref.None? && PgType(n.prim) == PgType(o.prim) && n.autoInc && !o.autoInc then BigInt
    else PgType(n.prim)
  }

  function SetFk(fks: map<string, Ref>, c: string, r: Option<Ref>): map<string, Ref> {
    if r.Some? then fks[c := r.value] else fks - {c}
  }

  // ---- scripts that stay within one table --------------------------------------

  predicate Within(t: string, s: Stmt) {
    !s.CreateTable? && s.table == t && (s.AddFk? ==> s.fk.ref.table != t)
  }

  predicate AllWithin(t: string, script: seq<Stmt>) {
    forall s | s in script :: Within(t, s)
  }

  /** Run on the table alone; the rest of the schema is only looked at. */
  function RunTable(db: Db, ts: TableState, script: seq<Stmt>): Option<TableState>
    decreases |script|
  {
    if script == [] then Some(ts)
    else
      var r := ApplyTo(db, ts, script[0]);
      if r.Some? then RunTable(db, r.value, script[1..]) else None
  }

  lemma UpdateTwice(db: Db, t: string, a: TableState, b: TableState)
    ensures db[t := a][t := b] == db[t := b]
  {
  }

  lemma ReferencesStay(db: Db, t: string, ts: TableState, c: string, ty: SqlType)
    ensures ReferencedElsewhere(db[t := ts], Ref(t, c)) == ReferencedElsewhere(db, Ref(t, c))
    ensures RefsFit(db[t := ts], Ref(t, c), ty) == RefsFit(db, Ref(t, c), ty)
  {
    var r := Ref(t, c);
    var db' := db[t := ts];
    if ReferencedElsewhere(db, r) {
      var u, d :| u in db && u != t && d in db[u].fks && db[u].fks[d] == r;
      assert u in db' && db'[u].fks[d] == r;
    }
    if ReferencedElsewhere(db', r) {
      var u, d :| u in db' && u != t && d in db'[u].fks && db'[u].fks[d] == r;
      assert u in db && db[u].fks[d] == r;
    }
    assert forall u | u != t :: u in db <==> u in db';
    assert forall u | u != t && u in db :: db[u] == db'[u];
  }

  lemma LooksElsewhere(db: Db, t: string, ts: TableState, s: Stmt)
    requires Within(t, s)
    ensures ApplyTo(db[t := ts], ts, s) == ApplyTo(db, ts, s)
  {
    match s
    case DropColumn(_, c) => ReferencesStay(db, t, ts, c, Missing);
    case AlterType(_, c, ty) => ReferencesStay(db, t, ts, c, ty);
    case DropPk(_) =>
      forall k | k in ts.pk ensures ReferencedElsewhere(db[t := ts], Ref(t, k)) == ReferencedElsewhere(db, Ref(t, k)) {
        ReferencesStay(db, t, ts, k, Missing);
      }
    case _ =>
  }

  lemma {:induction false} RunWithin(db: Db, t: string, ts: TableState, script: seq<Stmt>)
    requires AllWithin(t, script)
    ensures Run(db[t := ts], script) ==
      (var r := RunTable(db, ts, script); if r.Some? then Some(db[t := r.value]) else None)
    decreases |script|
  {
    if script != [] {
      var s := script[0];
      assert Within(t, s);
      LooksElsewhere(db, t, ts, s);
      var r := ApplyTo(db, ts, s);
      if r.Some? {
        UpdateTwice(db, t, ts, r.value);
        RunWithin(db, t, r.value, script[1..]);
      }
    }
  }

  lemma {:induction false} RunTableConcat(db: Db, ts: TableState, a: seq<Stmt>, b: seq<Stmt>)
    ensures RunTable(db, ts, a + b) == (var r := RunTable(db, ts, a); if r.Some? then RunTable(db, r.value, b) else None)
    decreases |a|
  {
    if a == [] {
      assert a + b == b;
    } else {
      assert (a + b)[0] == a[0] && (a + b)[1..] == a[1..] + b;
      var r := ApplyTo(db, ts, a[0]);
      if r.Some? { RunTableConcat(db, r.value, a[1..], b); }
    }
  }

  lemma RunTableOne(db: Db, ts: TableState, s: Stmt)
    ensures RunTable(db, ts, [s]) == ApplyTo(db, ts, s)
  {
    assert [s][1..] == [];
  }

  lemma RunTableTwo(db: Db, ts: TableState, a: Stmt, b: Stmt)
    ensures RunTable(db, ts, [a, b]) == (var r := ApplyTo(db, ts, a); if r.Some? then ApplyTo(db, r.value, b) else None)
  {
    assert [a, b][1..] == [b];
    if ApplyTo(db, ts, a).Some? { RunTableOne(db, ApplyTo(db, ts, a).value, b); }
  }

  lemma RunOne(db: Db, s: Stmt)
    ensures Run(db, [s]) == Apply(db, s)
  {
    assert [s][1..] == [];
  }

  // ---- one column --------------------------------------------------------------

  /** The table with the state and the foreign key of one column replaced. */
  function WithColumn(ts: TableState, c: string, col: ColState, fk: Option<Ref>): TableState {
    TableState(ts.cols[c := col], SetFk(ts.fks, c, fk), ts.pk)
  }

  lemma SameColumn(ts: TableState, c: string)
    requires c in ts.cols
    ensures ts.cols[c := ts.cols[c]] == ts.cols
    ensures c in ts.fks ==> ts.fks[c := ts.fks[c]] == ts.fks
    ensures c !in ts.fks ==> ts.fks - {c} == ts.fks
  {
  }

  /** A retained column that is no foreign key afterwards has its type written. */
  predicate Retyped(o: Column, n: Column) {
    o.ref.Some? || PgType(n.prim) != PgType(o.prim) || n.autoInc != o.autoInc
  }

  /** The database takes what is written for a retained column in the state `col`. */
  predicate ColumnApplies(db: Db, col: ColState, t: string, c: string, o: Column, n: Column, types: Types) {
    if n.ref.Some? then
      var ty := Recorded(types, n.ref.value);
      o.ref.None? ==> CanConvert(db, col, Ref(t, c), ty) && CanRefer(db, ty, n.ref.value)
    else Retyped(o, n) ==> CanConvert(db, col, Ref(t, c), PgType(n.prim))
  }

  /** The statements for a column leave it as ChangedCol and ChangedFk say, if it takes them. */
  ghost predicate ColumnChanges(db: Db, ts: TableState, t: string, c: string, o: Column, n: Column, types: Types)
    requires c in ts.cols
  {
    var r := ModifyColumn(t, c, o, n, types);
    var ty := if n.ref.Some? then Recorded(types, n.ref.value) else Missing;
    && AllWithin(t, r.stmts)
    && RunTable(db, ts, r.stmts) == (if ColumnApplies(db, ts.cols[c], t, c, o, n, types)
                                     then Some(WithColumn(ts, c, ChangedCol(ts.cols[c], o, n, ty), ChangedFk(o, n))) else None)
    && r.types == types[Ref(t, c) := ChangedRecord(o, n, types)]
  }

  lemma ModifyColumnRuns(db: Db, ts: TableState, t: string, c: string, o: Column, n: Column, types: Types)
    requires c in ts.cols && (c in ts.fks <==> o.ref.Some?) && (o.ref.Some? ==> ts.fks[c] == o.ref.value)
    requires n.ref.Some? ==> n.ref.value.table != t
    ensures ColumnChanges(db, ts, t, c, o, n, types)
  {
    if n.ref.Some? {
      if o.ref.None? { PlainBecomesKey(db, ts, t, c, o, n, types); } else { SameColumn(ts, c); }
    } else if o.ref.Some? {
      KeyBecomesPlain(db, ts, t, c, o, n, types);
    } else {
      PlainStaysPlain(db, ts, t, c, o, n, types);
    }
  }

  lemma PlainBecomesKey(db: Db, ts: TableState, t: string, c: string, o: Column, n: Column, types: Types)
    requires c in ts.cols && c !in ts.fks && o.ref.None? && n.ref.Some? && n.ref.value.table != t
    ensures ColumnChanges(db, ts, t, c, o, n, types)
  {
    RunTableTwo(db, ts, AlterType(t, c, Recorded(types, n.ref.value)), AddFk(t, FkDef(c, n.ref.value)));
  }

  lemma KeyBecomesPlain(db: Db, ts: TableState, t: string, c: string, o: Column, n: Column, types: Types)
    requires c in ts.cols && c in ts.fks && o.ref.Some? && ts.fks[c] == o.ref.value && n.ref.None?
    ensures ColumnChanges(db, ts, t, c, o, n, types)
  {
    var ty := PgType(n.prim);
    assert [DropFk(t, c)] + [AlterType(t, c, ty)] == [DropFk(t, c), AlterType(t, c, ty)];
    RunTableTwo(db, ts, DropFk(t, c), AlterType(t, c, ty));
  }

  lemma PlainStaysPlain(db: Db, ts: TableState, t: string, c: string, o: Column, n: Column, types: Types)
    requires c in ts.cols && c !in ts.fks && o.ref.None? && n.ref.None?
    ensures ColumnChanges(db, ts, t, c, o, n, types)
  {
    if n.autoInc && !o.autoInc && PgType(n.prim) == PgType(o.prim) {
      PlainGetsSequence(db, ts, t, c, o, n, types);
    } else {
      SameColumn(ts, c);
      PlainIsAltered(db, ts, t, c, o, n, types);
    }
  }

  lemma PlainGetsSequence(db: Db, ts: TableState, t: string, c: string, o: Column, n: Column, types: Types)
    requires c in ts.cols && c !in ts.fks && o.ref.None? && n.ref.None?
    requires n.autoInc && !o.autoInc && PgType(n.prim) == PgType(o.prim)
    ensures ColumnChanges(db, ts, t, c, o, n, types)
  {
    SerialRuns(db, ts, t, c, PgType(n.prim));
    assert WithColumn(ts, c, ColState(PgType(n.prim), true), None) == ts.(cols := ts.cols[c := ColState(PgType(n.prim), true)]);
  }

  lemma PlainIsAltered(db: Db, ts: TableState, t: string, c: string, o: Column, n: Column, types: Types)
    requires c in ts.cols && c !in ts.fks && o.ref.None? && n.ref.None?
    requires !(n.autoInc && !o.autoInc && PgType(n.prim) == PgType(o.prim))
    requires ts.cols[c := ts.cols[c]] == ts.cols && ts.fks - {c} == ts.fks
    ensures ColumnChanges(db, ts, t, c, o, n, types)
  {
    var ty := PgType(n.prim);
    assert [] + [AlterType(t, c, ty)] == [AlterType(t, c, ty)];
    RunTableOne(db, ts, AlterType(t, c, ty));
  }

  lemma SerialRuns(db: Db, ts: TableState, t: string, c: string, ty: SqlType)
    requires c in ts.cols && c !in ts.fks
    ensures var script := [CreateSequence(t, c), AlterType(t, c, ty), SetDefault(t, c), OwnSequence(t, c), SetVal(t, c)];
      RunTable(db, ts, script) ==
        if CanConvert(db, ts.cols[c], Ref(t, c), ty) then Some(ts.(cols := ts.cols[c := ColState(ty, true)])) else None
  {
    var a, b := [CreateSequence(t, c), AlterType(t, c, ty)], [SetDefault(t, c), OwnSequence(t, c), SetVal(t, c)];
    assert [CreateSequence(t, c), AlterType(t, c, ty), SetDefault(t, c), OwnSequence(t, c), SetVal(t, c)] == a + b;
    RunTableTwo(db, ts, a[0], a[1]);
    RunTableConcat(db, ts, a, b);
    if CanConvert(db, ts.cols[c], Ref(t, c), ty) {
      DefaultRuns(db, ts.(cols := ts.cols[c := ColState(ty, ts.cols[c].serial)]), t, c);
      assert ts.cols[c := ColState(ty, ts.cols[c].serial)][c := ColState(ty, true)] == ts.cols[c := ColState(ty, true)];
    }
  }

  lemma DefaultRuns(db: Db, ts: TableState, t: string, c: string)
    requires c in ts.cols
    ensures RunTable(db, ts, [SetDefault(t, c), OwnSequence(t, c), SetVal(t, c)]) == Some(ts.(cols := ts.cols[c := ColState(ts.cols[c].ty, true)]))
  {
    assert [SetDefault(t, c), OwnSequence(t, c), SetVal(t, c)] == [SetDefault(t, c), OwnSequence(t, c)] + [SetVal(t, c)];
    RunTableTwo(db, ts, SetDefault(t, c), OwnSequence(t, c));
    RunTableConcat(db, ts, [SetDefault(t, c), OwnSequence(t, c)], [SetVal(t, c)]);
    RunTableOne(db, ts.(cols := ts.cols[c := ColState(ts.cols[c].ty, true)]), SetVal(t, c));
  }

  /** The foreign key of an added column, if it has one, can be made. */
  predicate AddedApplies(db: Db, n: Column, types: Types) {
    n.ref.Some? ==> CanRefer(db, Recorded(types, n.ref.value), n.ref.value)
  }

  lemma AddedColumnRuns(db: Db, ts: TableState, t: string, c: string, n: Column, types: Types)
    requires c !in ts.cols && c !in ts.fks
    requires n.ref.Some? ==> n.ref.value.table != t
    ensures var r := AddedColumn(t, c, n, types);
      && AllWithin(t, r.stmts)
      && RunTable(db, ts, r.stmts) ==
           if AddedApplies(db, n, types) then Some(WithColumn(ts, c, StateOf(SpecOf(n, types)), n.ref)) else None
  {
    var def := ColumnDef(c, SpecOf(n, types));
    if n.ref.Some? {
      assert [AddColumn(t, def)] + [AddFk(t, FkDef(c, n.ref.value))] == [AddColumn(t, def), AddFk(t, FkDef(c, n.ref.value))];
      RunTableTwo(db, ts, AddColumn(t, def), AddFk(t, FkDef(c, n.ref.value)));
    } else {
      assert [AddColumn(t, def)] + [] == [AddColumn(t, def)];
      RunTableOne(db, ts, AddColumn(t, def));
      assert ts.fks - {c} == ts.fks;
    }
  }

  function ColAfter(was: TableState, old_: Attrs, new_: Attrs, c: string, types: Types): ColState
    requires c in new_ && (c in old_ ==> c in was.cols)
  {
    var n := new_[c];
    if c in old_ then ChangedCol(was.cols[c], old_[c], n, if n.ref.Some? then Recorded(types, n.ref.value) else Missing)
    else StateOf(SpecOf(n, types))
  }

  function FkAfter(old_: Attrs, new_: Attrs, c: string): Option<Ref>
    requires c in new_
  {
    if c in old_ then ChangedFk(old_[c], new_[c]) else new_[c].ref
  }

  function RecordAfter(old_: Attrs, new_: Attrs, c: string, types: Types): SqlType
    requires c in new_
  {
    if c in old_ then ChangedRecord(old_[c], new_[c], types) else RecordOf(new_[c], types)
  }

  /** The table has exactly the columns, foreign keys and key of `attrs`. */
  predicate HasShape(ts: TableState, attrs: Attrs) {
    ts.cols.Keys == attrs.Keys && ts.fks == FkMap(attrs) && ts.pk == PkSet(attrs)
  }

  /** The columns in `done` are as their statements leave them, the others as they were. */
  ghost predicate ColumnsChanged(was: TableState, now: TableState, old_: Attrs, new_: Attrs, done: seq<string>, types: Types)
    requires was.cols.Keys == old_.Keys && forall c | c in done :: c in new_
  {
    && now.pk == was.pk
    && (forall c :: c in now.cols <==> c in was.cols || c in done)
    && (forall c | c in now.cols :: now.cols[c] == if c in done then ColAfter(was, old_, new_, c, types) else was.cols[c])
    && (forall c :: c in now.fks <==> if c in done then FkAfter(old_, new_, c).Some? else c in was.fks)
    && (forall c | c in now.fks :: now.fks[c] == if c in done then FkAfter(old_, new_, c).value else was.fks[c])
  }

  ghost predicate ModifyRecorded(after: Types, types: Types, t: string, old_: Attrs, new_: Attrs, names: seq<string>)
    requires forall c | c in names :: c in new_
  {
    && (forall c | c in names :: Recorded(after, Ref(t, c)) == RecordAfter(old_, new_, c, types))
    && (forall q: Ref | q.table != t || q.column !in names :: Recorded(after, q) == Recorded(types, q))
  }

  lemma {:induction false} ModifyRecords(t: string, old_: Attrs, new_: Attrs, names: seq<string>, types: Types)
    requires (forall c | c in names :: c in new_) && PointsAway(t, new_)
    ensures ModifyRecorded(ModifyColumns(t, old_, new_, names, types).types, types, t, old_, new_, names)
    decreases |names|
  {
    if names != [] {
      var init, c := names[..|names| - 1], names[|names| - 1];
      ModifyRecords(t, old_, new_, init, types);
      assert names == init + [c];
      var p := ModifyColumns(t, old_, new_, init, types);
      if c in old_ { assert ModifyColumn(t, c, old_[c], new_[c], p.types).types == p.types[Ref(t, c) := ChangedRecord(old_[c], new_[c], p.types)]; }
    }
  }

  lemma ColumnsChangedMore(was: TableState, mid: TableState, old_: Attrs, new_: Attrs, done: seq<string>, c: string, types: Types)
    requires was.cols.Keys == old_.Keys && (forall d | d in done :: d in new_) && c in new_
    requires ColumnsChanged(was, mid, old_, new_, done, types)
    ensures ColumnsChanged(was, WithColumn(mid, c, ColAfter(was, old_, new_, c, types), FkAfter(old_, new_, c)), old_, new_, done + [c], types)
  {
  }

  /** The database takes what is written for the column `c` of the new version. */
  predicate NextApplies(db: Db, was: TableState, t: string, old_: Attrs, new_: Attrs, c: string, types: Types)
    requires c in new_ && (c in old_ ==> c in was.cols)
  {
    if c in old_ then ColumnApplies(db, was.cols[c], t, c, old_[c], new_[c], types) else AddedApplies(db, new_[c], types)
  }

  ghost predicate ColumnsApply(db: Db, was: TableState, t: string, old_: Attrs, new_: Attrs, names: seq<string>, types: Types)
    requires was.cols.Keys == old_.Keys && forall c | c in names :: c in new_
  {
    forall c | c in names :: NextApplies(db, was, t, old_, new_, c, types)
  }

  lemma {:induction false} ModifyColumnsRun(db: Db, ts: TableState, t: string, old_: Attrs, new_: Attrs, names: seq<string>, types: Types)
    returns (now: TableState)
    requires HasShape(ts, old_) && Distinct(names) && (forall c | c in names :: c in new_) && PointsAway(t, new_)
    ensures AllWithin(t, ModifyColumns(t, old_, new_, names, types).stmts)
    ensures RunTable(db, ts, ModifyColumns(t, old_, new_, names, types).stmts) ==
      if ColumnsApply(db, ts, t, old_, new_, names, types) then Some(now) else None
    ensures ColumnsChanged(ts, now, old_, new_, names, types)
    decreases |names|
  {
    if names == [] {
      now := ts;
    } else {
      var init, c := names[..|names| - 1], names[|names| - 1];
      assert names == init + [c] && c !in init;
      var mid := ModifyColumnsRun(db, ts, t, old_, new_, init, types);
      ModifyRecords(t, old_, new_, init, types);
      ColumnsChangedMore(ts, mid, old_, new_, init, c, types);
      now := WithColumn(mid, c, ColAfter(ts, old_, new_, c, types), FkAfter(old_, new_, c));
      var p := ModifyColumns(t, old_, new_, init, types);
      var next := NextColumnRuns(db, mid, t, old_, new_, c, p.types);
      assert next.types == ModifyColumns(t, old_, new_, names, types).types;
      RunTableConcat(db, ts, p.stmts, next.stmts);
      SameNext(db, ts, mid, t, old_, new_, c, types, p.types);
      OneMoreApplies(db, ts, t, old_, new_, init, c, types);
    }
  }

  lemma OneMoreApplies(db: Db, was: TableState, t: string, old_: Attrs, new_: Attrs, init: seq<string>, c: string, types: Types)
    requires was.cols.Keys == old_.Keys && (forall d | d in init :: d in new_) && c in new_
    ensures ColumnsApply(db, was, t, old_, new_, init + [c], types) <==>
      ColumnsApply(db, was, t, old_, new_, init, types) && NextApplies(db, was, t, old_, new_, c, types)
  {
    assert forall d :: d in init + [c] <==> d in init || d == c;
  }

  /** Only the column itself and the types recorded for other tables matter. */
  lemma SameNext(db: Db, was: TableState, mid: TableState, t: string, old_: Attrs, new_: Attrs, c: string, types: Types, later: Types)
    requires c in new_ && (c in old_ ==> c in was.cols && c in mid.cols && was.cols[c] == mid.cols[c]) && PointsAway(t, new_)
    requires forall q: Ref | q.table != t :: Recorded(later, q) == Recorded(types, q)
    ensures NextApplies(db, mid, t, old_, new_, c, later) == NextApplies(db, was, t, old_, new_, c, types)
    ensures ColAfter(mid, old_, new_, c, later) == ColAfter(was, old_, new_, c, types)
  {
  }

  lemma NextColumnRuns(db: Db, mid: TableState, t: string, old_: Attrs, new_: Attrs, c: string, types: Types) returns (next: Change)
    requires c in new_ && PointsAway(t, new_)
    requires c in mid.cols <==> c in old_
    requires c in mid.fks <==> c in old_ && old_[c].ref.Some?
    requires c in mid.fks ==> mid.fks[c] == old_[c].ref.value
    ensures next == if c in old_ then ModifyColumn(t, c, old_[c], new_[c], types) else AddedColumn(t, c, new_[c], types)
    ensures AllWithin(t, next.stmts)
    ensures RunTable(db, mid, next.stmts) ==
      if NextApplies(db, mid, t, old_, new_, c, types)
      then Some(WithColumn(mid, c, ColAfter(mid, old_, new_, c, types), FkAfter(old_, new_, c))) else None
  {
    if c in old_ {
      next := ModifyColumn(t, c, old_[c], new_[c], types);
      ModifyColumnRuns(db, mid, t, c, old_[c], new_[c], types);
    } else {
      next := AddedColumn(t, c, new_[c], types);
      AddedColumnRuns(db, mid, t, c, new_[c], types);
    }
  }
}
