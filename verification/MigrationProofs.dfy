/** The delta script works exactly on the migrations it handles. */
module MigrationProofs {
  import opened Ordering
  import opened TableDepth
  import opened SqlScript
  import opened TableChange
  import opened RetainedTable
  import opened Migration

  /** Only the types recorded for the targets of the table's foreign keys matter. */
  ghost predicate SameTargets(attrs: Attrs, a: Types, b: Types) {
    forall c | c in attrs && attrs[c].ref.Some? :: Recorded(a, attrs[c].ref.value) == Recorded(b, attrs[c].ref.value)
  }

  lemma AfterTableSame(was: TableState, old_: Attrs, new_: Attrs, a: Types, b: Types)
    requires was.cols.Keys == old_.Keys && SameTargets(new_, a, b)
    ensures AfterTable(was, old_, new_, a) == AfterTable(was, old_, new_, b)
  {
    forall c | c in new_ ensures ColAfter(was, old_, new_, c, a) == ColAfter(was, old_, new_, c, b) {
    }
  }

  lemma FreshTableSame(attrs: Attrs, a: Types, b: Types)
    requires SameTargets(attrs, a, b)
    ensures FreshTable(attrs, a) == FreshTable(attrs, b)
  {
    forall c | c in attrs ensures SpecOf(attrs[c], a) == SpecOf(attrs[c], b) {
    }
  }

  lemma AllRecordsAre(old_: Schema, new_: Schema, rn: map<string, nat>, q: Ref)
    requires Sound(new_, rn) && IsColumn(new_, q)
    ensures Recorded(AllRecords(old_, new_, rn), q) == Record(old_, new_, rn, q)
  {
    assert Ref(q.table, q.column) == q;
    assert q in AllRecords(old_, new_, rn);
  }

  ghost predicate TargetsDone(s: Schema, t: string, done: seq<string>) {
    forall c {:trigger HasFk(s, t, c)} | HasFk(s, t, c) :: s[t][c].ref.value.table in done
  }

  lemma TargetsRecorded(old_: Schema, new_: Schema, rn: map<string, nat>, done: seq<string>, t: string, types: Types)
    requires Sound(new_, rn) && t in new_ && TargetsDone(new_, t, done) && RecordsOf(old_, new_, rn, done, types)
    ensures SameTargets(new_[t], types, AllRecords(old_, new_, rn))
  {
    forall c | c in new_[t] && new_[t][c].ref.Some?
      ensures Recorded(types, new_[t][c].ref.value) == Recorded(AllRecords(old_, new_, rn), new_[t][c].ref.value)
    {
      assert HasFk(new_, t, c);
      assert IsColumn(new_, new_[t][c].ref.value);
      AllRecordsAre(old_, new_, rn, new_[t][c].ref.value);
    }
  }

  lemma SoundPointsAway(s: Schema, rank: map<string, nat>, t: string)
    requires Sound(s, rank) && t in s
    ensures PointsAway(t, s[t])
  {
    forall c | c in s[t] && s[t][c].ref.Some? ensures s[t][c].ref.value.table != t {
      assert HasFk(s, t, c);
    }
  }

  lemma NextAppliesSame(db: Db, was: TableState, t: string, old_: Attrs, new_: Attrs, a: Types, b: Types)
    requires was.cols.Keys == old_.Keys && SameTargets(new_, a, b)
    ensures (forall c | c in new_ :: NextApplies(db, was, t, old_, new_, c, a)) <==> forall c | c in new_ :: NextApplies(db, was, t, old_, new_, c, b)
  {
    forall c | c in new_ ensures NextApplies(db, was, t, old_, new_, c, a) == NextApplies(db, was, t, old_, new_, c, b) {
    }
  }

  lemma TargetsMeetSame(db: Db, attrs: Attrs, a: Types, b: Types)
    requires SameTargets(attrs, a, b)
    ensures TargetsMeet(db, attrs, a) == TargetsMeet(db, attrs, b)
  {
  }

  lemma RecordOfColumn(old_: Schema, new_: Schema, rn: map<string, nat>, done: seq<string>, t: string, c: string, types: Types)
    requires Sound(new_, rn) && IsColumn(new_, Ref(t, c)) && TargetsDone(new_, t, done) && RecordsOf(old_, new_, rn, done, types)
    ensures Record(old_, new_, rn, Ref(t, c)) ==
      if t in old_ then RecordAfter(old_[t], new_[t], c, types) else RecordOf(new_[t][c], types)
  {
    if HasFk(new_, t, c) {
      assert IsColumn(new_, new_[t][c].ref.value);
    } else {
      assert RootOf(new_, rn, Ref(t, c)) == Ref(t, c);
    }
  }

  lemma RecordsGrow(old_: Schema, new_: Schema, rn: map<string, nat>, done: seq<string>, t: string, names: seq<string>, types: Types)
    requires Sound(new_, rn) && t in new_ && t !in done && TargetsDone(new_, t, done) && RecordsOf(old_, new_, rn, done, types)
    requires (forall c | c in names :: c in new_[t]) && (t !in old_ ==> forall c | c in new_[t] :: c in names)
    ensures RecordsOf(old_, new_, rn, done + [t], DeltaTable(old_, new_, t, names, types).types)
  {
    SoundPointsAway(new_, rn, t);
    var after := DeltaTable(old_, new_, t, names, types).types;
    if t in old_ {
      ModifyTableRecords(t, old_[t], new_[t], types);
    } else {
      CreateRecords(t, new_[t], names, types);
    }
    forall q {:trigger IsColumn(new_, q)} | IsColumn(new_, q) && q.table in done + [t]
      ensures Recorded(after, q) == Record(old_, new_, rn, q)
    {
      if q.table == t {
        assert q == Ref(t, q.column);
        RecordOfColumn(old_, new_, rn, done, t, q.column, types);
      } else {
        assert q.table in done;
      }
    }
  }

  lemma DbAtGrows(old_: Schema, new_: Schema, ro: map<string, nat>, rn: map<string, nat>, done: seq<string>, t: string)
    requires Sound(old_, ro) && Sound(new_, rn) && t in new_ && (forall u | u in done :: u in new_)
    ensures DbAt(old_, new_, ro, rn, done + [t]) == DbAt(old_, new_, ro, rn, done)[t := FinalTable(old_, new_, ro, rn, t)]
  {
  }

  /** One table: its statements apply exactly when StepWorks, and then give its final state. */
  lemma StepRuns(old_: Schema, new_: Schema, ro: map<string, nat>, rn: map<string, nat>, done: seq<string>, t: string, names: seq<string>, types: Types)
    requires Sound(old_, ro) && Sound(new_, rn) && t in new_ && t !in done && (forall u | u in done :: u in new_)
    requires TargetsDone(new_, t, done) && RecordsOf(old_, new_, rn, done, types)
    requires (forall c | c in names :: c in new_[t]) && (Distinct(names) ==> Lists(names, new_[t].Keys))
    ensures Run(DbAt(old_, new_, ro, rn, done), DeltaTable(old_, new_, t, names, types).stmts) ==
      if StepWorks(old_, new_, ro, rn, done, t, names) then Some(DbAt(old_, new_, ro, rn, done + [t])) else None
  {
    SoundPointsAway(new_, rn, t);
    TargetsRecorded(old_, new_, rn, done, t, types);
    DbAtGrows(old_, new_, ro, rn, done, t);
    if t in old_ {
      RetainedStep(old_, new_, ro, rn, done, t, types);
    } else {
      CreatedStep(old_, new_, ro, rn, done, t, names, types);
    }
  }

  lemma RetainedStep(old_: Schema, new_: Schema, ro: map<string, nat>, rn: map<string, nat>, done: seq<string>, t: string, types: Types)
    requires Sound(old_, ro) && Sound(new_, rn) && t in new_ && t in old_ && t !in done && (forall u | u in done :: u in new_)
    requires PointsAway(t, new_[t]) && SameTargets(new_[t], types, AllRecords(old_, new_, rn))
    ensures var db := DbAt(old_, new_, ro, rn, done);
      Run(db, ModifyTable(t, old_[t], new_[t], types).stmts) ==
        if StepWorks(old_, new_, ro, rn, done, t, []) then Some(db[t := FinalTable(old_, new_, ro, rn, t)]) else None
  {
    var db := DbAt(old_, new_, ro, rn, done);
    var ts := DeployedTable(old_, ro, t);
    assert HasShape(ts, old_[t]);
    assert db[t := ts] == db;
    ModifyTableWithin(db, ts, t, old_[t], new_[t], types);
    RunWithin(db, t, ts, ModifyTable(t, old_[t], new_[t], types).stmts);
    ModifyTableRuns(db, ts, t, old_[t], new_[t], types);
    NextAppliesSame(db, ts, t, old_[t], new_[t], types, AllRecords(old_, new_, rn));
    AfterTableSame(ts, old_[t], new_[t], types, AllRecords(old_, new_, rn));
  }

  lemma CreatedStep(old_: Schema, new_: Schema, ro: map<string, nat>, rn: map<string, nat>, done: seq<string>, t: string, names: seq<string>, types: Types)
    requires Sound(old_, ro) && Sound(new_, rn) && t in new_ && t !in old_ && t !in done && (forall u | u in done :: u in new_)
    requires (forall c | c in names :: c in new_[t]) && (Distinct(names) ==> Lists(names, new_[t].Keys))
    requires PointsAway(t, new_[t]) && SameTargets(new_[t], types, AllRecords(old_, new_, rn))
    ensures var db := DbAt(old_, new_, ro, rn, done);
      Run(db, DeltaTable(old_, new_, t, names, types).stmts) ==
        if StepWorks(old_, new_, ro, rn, done, t, names) then Some(db[t := FinalTable(old_, new_, ro, rn, t)]) else None
  {
    var db := DbAt(old_, new_, ro, rn, done);
    RunOne(db, CreateStmt(t, CreateColumns(t, new_[t], names, types)));
    FreshTableSame(new_[t], types, AllRecords(old_, new_, rn));
    TargetsMeetSame(db, new_[t], types, AllRecords(old_, new_, rn));
    if Distinct(names) {
      CreateTableRuns(db, t, new_[t], names, types);
    } else {
      CreateTableFails(db, t, new_[t], names, types);
    }
  }

  ghost predicate AllStepsWork(old_: Schema, new_: Schema, ro: map<string, nat>, rn: map<string, nat>, order: seq<string>, orders: map<string, seq<string>>)
    requires Sound(old_, ro) && Sound(new_, rn) && (forall t | t in order :: t in new_) && ColumnOrders(new_, orders)
    decreases |order|
  {
    order == [] ||
    var init, t := order[..|order| - 1], order[|order| - 1];
    AllStepsWork(old_, new_, ro, rn, init, orders) && StepWorks(old_, new_, ro, rn, init, t, orders[t])
  }

  ghost predicate Ordered(s: Schema, order: seq<string>) {
    && Distinct(order) && (forall t | t in order :: t in s)
    && forall i | 0 <= i < |order| :: TargetsDone(s, order[i], order[..i])
  }

  lemma OrderedPrefix(s: Schema, order: seq<string>)
    requires Ordered(s, order) && order != []
    ensures Ordered(s, order[..|order| - 1]) && order[|order| - 1] !in order[..|order| - 1]
  {
    var init := order[..|order| - 1];
    assert forall i | 0 <= i < |init| :: init[..i] == order[..i];
  }

  /** The script for the tables in `order` runs exactly when every step works. */
  ghost predicate DeltaDone(old_: Schema, new_: Schema, ro: map<string, nat>, rn: map<string, nat>, order: seq<string>, orders: map<string, seq<string>>)
    requires Sound(old_, ro) && Sound(new_, rn) && (forall t | t in order :: t in new_) && ColumnOrders(new_, orders)
  {
    var r := Delta(old_, new_, order, orders);
    var works := AllStepsWork(old_, new_, ro, rn, order, orders);
    && Run(Deployed(old_, ro), r.stmts) == (if works then Some(DbAt(old_, new_, ro, rn, order)) else None)
    && (works ==> RecordsOf(old_, new_, rn, order, r.types))
  }

  lemma DeltaSnoc(old_: Schema, new_: Schema, ro: map<string, nat>, rn: map<string, nat>, order: seq<string>, orders: map<string, seq<string>>)
    requires Sound(old_, ro) && Sound(new_, rn) && (forall u | u in order :: u in new_) && ColumnOrders(new_, orders) && order != []
    requires var init, t := order[..|order| - 1], order[|order| - 1];
      t !in init && TargetsDone(new_, t, init) && DeltaDone(old_, new_, ro, rn, init, orders)
    ensures DeltaDone(old_, new_, ro, rn, order, orders)
  {
    var init, t := order[..|order| - 1], order[|order| - 1];
    var r := Delta(old_, new_, init, orders);
    var next := DeltaTable(old_, new_, t, orders[t], r.types);
    assert order == init + [t];
    assert Delta(old_, new_, order, orders) == Change(r.stmts + next.stmts, next.types);
    RunConcat(Deployed(old_, ro), r.stmts, next.stmts);
    if AllStepsWork(old_, new_, ro, rn, init, orders) {
      StepRuns(old_, new_, ro, rn, init, t, orders[t], r.types);
      if StepWorks(old_, new_, ro, rn, init, t, orders[t]) {
        RecordsGrow(old_, new_, rn, init, t, orders[t], r.types);
      }
    }
  }

  /** The columns of the added tables among `order` are each listed once. */
  ghost predicate AddedListed(old_: Schema, new_: Schema, order: seq<string>, orders: map<string, seq<string>>)
    requires (forall t | t in order :: t in new_) && ColumnOrders(new_, orders)
  {
    forall t | t in order && t !in old_ :: Distinct(orders[t])
  }

  /** The types are recorded whether the script runs or not. */
  lemma {:induction false} DeltaRecords(old_: Schema, new_: Schema, rn: map<string, nat>, order: seq<string>, orders: map<string, seq<string>>)
    requires Sound(new_, rn) && Ordered(new_, order) && ColumnOrders(new_, orders) && AddedListed(old_, new_, order, orders)
    ensures RecordsOf(old_, new_, rn, order, Delta(old_, new_, order, orders).types)
    decreases |order|
  {
    if order != [] {
      var init, t := order[..|order| - 1], order[|order| - 1];
      OrderedPrefix(new_, order);
      LastIsReady(new_, order);
      DeltaRecords(old_, new_, rn, init, orders);
      assert t in order && order == init + [t];
      RecordsGrow(old_, new_, rn, init, t, orders[t], Delta(old_, new_, init, orders).types);
    }
  }

  lemma DeltaStart(old_: Schema, new_: Schema, ro: map<string, nat>, rn: map<string, nat>, orders: map<string, seq<string>>)
    requires Sound(old_, ro) && Sound(new_, rn) && ColumnOrders(new_, orders)
    ensures DeltaDone(old_, new_, ro, rn, [], orders)
  {
    var none: seq<string> := [];
    assert old_.Keys + (set u | u in none) == old_.Keys;
    assert DbAt(old_, new_, ro, rn, none) == Deployed(old_, ro);
  }

  lemma LastIsReady(s: Schema, order: seq<string>)
    requires Ordered(s, order) && order != []
    ensures TargetsDone(s, order[|order| - 1], order[..|order| - 1])
  {
  }

  lemma {:induction false} DeltaRuns(old_: Schema, new_: Schema, ro: map<string, nat>, rn: map<string, nat>, order: seq<string>, orders: map<string, seq<string>>)
    requires Sound(old_, ro) && Sound(new_, rn) && Ordered(new_, order) && ColumnOrders(new_, orders)
    ensures DeltaDone(old_, new_, ro, rn, order, orders)
    decreases |order|
  {
    if order == [] {
      DeltaStart(old_, new_, ro, rn, orders);
    } else {
      OrderedPrefix(new_, order);
      LastIsReady(new_, order);
      DeltaRuns(old_, new_, ro, rn, order[..|order| - 1], orders);
      DeltaSnoc(old_, new_, ro, rn, order, orders);
    }
  }

  // ---- which migrations the script handles -------------------------------------

  /** What the script can do to one column:
      - a new column, if the type of the column it references is recorded right;
      - a foreign key kept, if it keeps its target and the target's root its type;
      - a column that becomes a foreign key, if it had no sequence either;
      - a foreign key that becomes an ordinary column;
      - an ordinary column that keeps being autoincrement or not, and its type in the first case. */
  predicate ColumnMigrates(old_: Schema, new_: Schema, ro: map<string, nat>, rn: map<string, nat>, t: string, c: string)
    requires Sound(old_, ro) && Sound(new_, rn) && IsColumn(new_, Ref(t, c))
  {
    var n := new_[t][c];
    var isFk := HasFk(new_, t, c);
    if !IsColumn(old_, Ref(t, c)) then isFk ==> RecordedRight(old_, new_, RootOf(new_, rn, n.ref.value))
    else
      var o := old_[t][c];
      var wasFk := HasFk(old_, t, c);
      if isFk && wasFk then o.ref == n.ref && RootType(old_, ro, o.ref.value) == RootType(new_, rn, n.ref.value)
      else if isFk then !o.autoInc && RecordedRight(old_, new_, RootOf(new_, rn, n.ref.value))
      else if wasFk then !n.autoInc
      else o.autoInc == n.autoInc && (n.autoInc ==> PgType(o.prim) == PgType(n.prim))
  }

  lemma RecordIsRootType(old_: Schema, new_: Schema, rn: map<string, nat>, q: Ref)
    requires Sound(new_, rn) && IsColumn(new_, q)
    ensures Record(old_, new_, rn, q) == RootType(new_, rn, q) <==> RecordedRight(old_, new_, RootOf(new_, rn, q))
  {
    RecordedRightIff(old_, new_, RootOf(new_, rn, q));
  }

  /** A retained column ends as the new version has it exactly when it migrates. */
  lemma RetainedColumnIff(old_: Schema, new_: Schema, ro: map<string, nat>, rn: map<string, nat>, t: string, c: string)
    requires Sound(old_, ro) && Sound(new_, rn) && IsColumn(new_, Ref(t, c)) && t in old_
    ensures ColumnMigrates(old_, new_, ro, rn, t, c) <==>
      && ColAfter(DeployedTable(old_, ro, t), old_[t], new_[t], c, AllRecords(old_, new_, rn)) == DeployedCol(new_, rn, t, c)
      && FkAfter(old_[t], new_[t], c) == new_[t][c].ref
  {
    if HasFk(new_, t, c) {
      var q := new_[t][c].ref.value;
      assert IsColumn(new_, q);
      AllRecordsAre(old_, new_, rn, q);
      RecordIsRootType(old_, new_, rn, q);
    }
    if HasFk(old_, t, c) { assert IsColumn(old_, old_[t][c].ref.value); }
  }

  lemma CreatedColumnIff(old_: Schema, new_: Schema, ro: map<string, nat>, rn: map<string, nat>, t: string, c: string)
    requires Sound(old_, ro) && Sound(new_, rn) && IsColumn(new_, Ref(t, c)) && t !in old_
    ensures ColumnMigrates(old_, new_, ro, rn, t, c) <==>
      StateOf(SpecOf(new_[t][c], AllRecords(old_, new_, rn))) == DeployedCol(new_, rn, t, c)
  {
    if HasFk(new_, t, c) {
      var q := new_[t][c].ref.value;
      assert IsColumn(new_, q);
      AllRecordsAre(old_, new_, rn, q);
      RecordIsRootType(old_, new_, rn, q);
    }
  }

  predicate ColumnsMigrate(old_: Schema, new_: Schema, ro: map<string, nat>, rn: map<string, nat>, t: string)
    requires Sound(old_, ro) && Sound(new_, rn) && t in new_
  {
    forall c | c in new_[t] :: ColumnMigrates(old_, new_, ro, rn, t, c)
  }

  /** The state and the foreign key of one column agree. */
  predicate SameColumnIn(a: TableState, b: TableState, c: string) {
    && (c in a.cols <==> c in b.cols) && (c in a.cols ==> a.cols[c] == b.cols[c])
    && (c in a.fks <==> c in b.fks) && (c in a.fks ==> a.fks[c] == b.fks[c])
  }

  lemma FinalColumnIff(old_: Schema, new_: Schema, ro: map<string, nat>, rn: map<string, nat>, t: string, c: string)
    requires Sound(old_, ro) && Sound(new_, rn) && IsColumn(new_, Ref(t, c))
    ensures ColumnMigrates(old_, new_, ro, rn, t, c) <==>
      SameColumnIn(FinalTable(old_, new_, ro, rn, t), DeployedTable(new_, rn, t), c)
  {
    if t in old_ { RetainedColumnIff(old_, new_, ro, rn, t, c); } else { CreatedColumnIff(old_, new_, ro, rn, t, c); }
  }

  lemma SameTables(a: TableState, b: TableState, cs: set<string>)
    requires a.cols.Keys == cs == b.cols.Keys && a.fks.Keys <= cs && b.fks.Keys <= cs && a.pk == b.pk
    requires forall c | c in cs :: SameColumnIn(a, b, c)
    ensures a == b
  {
    assert a.cols == b.cols;
    assert a.fks == b.fks;
  }

  /** A table ends as the new version has it exactly when all its columns migrate. */
  lemma FinalTableIff(old_: Schema, new_: Schema, ro: map<string, nat>, rn: map<string, nat>, t: string)
    requires Sound(old_, ro) && Sound(new_, rn) && t in new_
    ensures FinalTable(old_, new_, ro, rn, t) == DeployedTable(new_, rn, t) <==> ColumnsMigrate(old_, new_, ro, rn, t)
  {
    var a, b := FinalTable(old_, new_, ro, rn, t), DeployedTable(new_, rn, t);
    forall c | c in new_[t] ensures ColumnMigrates(old_, new_, ro, rn, t, c) <==> SameColumnIn(a, b, c) {
      FinalColumnIff(old_, new_, ro, rn, t, c);
    }
    if forall c | c in new_[t] :: SameColumnIn(a, b, c) {
      SameTables(a, b, new_[t].Keys);
    }
  }
}
