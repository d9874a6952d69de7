/** The delta script turns the deployed old version into the new one exactly on the
    migrations the generator handles. */
module MigrationTheorem {
  import opened Ordering
  import opened TableDepth
  import opened SqlScript
  import opened TableChange
  import opened RetainedTable
  import opened Migration
  import opened MigrationProofs

  /** The type of a column in a deployed version. */
  function TypeIn(s: Schema, rank: map<string, nat>, t: string, c: string): SqlType
    requires Sound(s, rank) && IsColumn(s, Ref(t, c))
  {
    DeployedCol(s, rank, t, c).ty
  }

  /** The retained columns of `t` can be converted to their new types. */
  predicate TypesConvert(old_: Schema, new_: Schema, ro: map<string, nat>, rn: map<string, nat>, t: string)
    requires Sound(old_, ro) && Sound(new_, rn) && t in new_
  {
    forall c | c in new_[t] && IsColumn(old_, Ref(t, c)) :: Converts(TypeIn(old_, ro, t, c), TypeIn(new_, rn, t, c))
  }

  /** A foreign key the script makes: on an added column, or one that was none. */
  predicate GetsFk(old_: Schema, new_: Schema, t: string, c: string) {
    HasFk(new_, t, c) && !HasFk(old_, t, c)
  }

  /** The foreign keys the script makes point at keys. */
  ghost predicate FksMeetKeys(old_: Schema, new_: Schema, t: string) {
    forall c {:trigger GetsFk(old_, new_, t, c)} | GetsFk(old_, new_, t, c) ::
      var r := new_[t][c].ref.value; r.table in new_ && PkSet(new_[r.table]) == {r.column}
  }

  /** Foreign keys elsewhere must not point at the column when `t` is changed: it is dropped,
      loses the key, or gets a type theirs does not fit. */
  predicate Releases(old_: Schema, new_: Schema, ro: map<string, nat>, rn: map<string, nat>, t: string, c: string)
    requires Sound(old_, ro) && Sound(new_, rn) && t in new_ && IsColumn(old_, Ref(t, c))
  {
    c in Released(old_[t], new_[t]) || (c in new_[t] && !Fits(TypeIn(old_, ro, t, c), TypeIn(new_, rn, t, c)))
  }

  /** Every old foreign key at such a column belongs to a table changed earlier. */
  ghost predicate ReleasesFree(old_: Schema, new_: Schema, ro: map<string, nat>, rn: map<string, nat>, done: seq<string>, t: string)
    requires Sound(old_, ro) && Sound(new_, rn) && t in old_ && t in new_
  {
    forall u, c {:trigger HasFk(old_, u, c)} | HasFk(old_, u, c) && u != t ::
      var r := old_[u][c].ref.value; r.table == t && Releases(old_, new_, ro, rn, t, r.column) ==> u in done
  }

  ghost predicate TableMigrates(old_: Schema, new_: Schema, ro: map<string, nat>, rn: map<string, nat>, done: seq<string>, t: string, names: seq<string>)
    requires Sound(old_, ro) && Sound(new_, rn) && t in new_
  {
    && ColumnsMigrate(old_, new_, ro, rn, t) && FksMeetKeys(old_, new_, t)
    && (if t in old_ then
          TypesConvert(old_, new_, ro, rn, t) && KeyCanChange(old_[t], new_[t]) && ReleasesFree(old_, new_, ro, rn, done, t)
        else Distinct(names) && HasConstraint(new_[t]))
  }

  /** Table by table, in the order the script changes them. */
  ghost predicate Migratable(old_: Schema, new_: Schema, ro: map<string, nat>, rn: map<string, nat>, order: seq<string>, orders: map<string, seq<string>>)
    requires Sound(old_, ro) && Sound(new_, rn) && (forall t | t in order :: t in new_) && ColumnOrders(new_, orders)
  {
    forall i | 0 <= i < |order| :: TableMigrates(old_, new_, ro, rn, order[..i], order[i], orders[order[i]])
  }

  /** What holds of the tables changed before `t`: they have migrated, and the tables they
      refer to have been changed before as well. */
  ghost predicate ChangedBefore(old_: Schema, new_: Schema, ro: map<string, nat>, rn: map<string, nat>, done: seq<string>, t: string)
    requires Sound(old_, ro) && Sound(new_, rn)
  {
    && t !in done && (forall u | u in done :: u in new_ && ColumnsMigrate(old_, new_, ro, rn, u) && TargetsDone(new_, u, done))
    && TargetsDone(new_, t, done)
  }

  lemma TypeIsRootType(s: Schema, rank: map<string, nat>, q: Ref)
    requires Sound(s, rank) && IsColumn(s, q)
    ensures TypeIn(s, rank, q.table, q.column) == RootType(s, rank, q) && Fits(RootType(s, rank, q), RootType(s, rank, q))
  {
    assert Ref(q.table, q.column) == q;
  }

  /** The database the script has made of the tables changed before. */
  lemma TargetIsDeployed(old_: Schema, new_: Schema, ro: map<string, nat>, rn: map<string, nat>, done: seq<string>, t: string, c: string)
    requires Sound(old_, ro) && Sound(new_, rn) && ChangedBefore(old_, new_, ro, rn, done, t) && HasFk(new_, t, c)
    ensures var db, r := DbAt(old_, new_, ro, rn, done), new_[t][c].ref.value;
      r.table in db && IsColumn(new_, r) && db[r.table] == DeployedTable(new_, rn, r.table)
  {
    var r := new_[t][c].ref.value;
    assert IsColumn(new_, r) && r.table in done;
    FinalTableIff(old_, new_, ro, rn, r.table);
  }

  /** A foreign key of the right type can be made exactly when it points at a key. */
  lemma TargetMeetsIff(old_: Schema, new_: Schema, ro: map<string, nat>, rn: map<string, nat>, done: seq<string>, t: string, c: string)
    requires Sound(old_, ro) && Sound(new_, rn) && ChangedBefore(old_, new_, ro, rn, done, t) && GetsFk(old_, new_, t, c)
    requires ColumnMigrates(old_, new_, ro, rn, t, c)
    ensures var r := new_[t][c].ref.value;
      var ty := Recorded(AllRecords(old_, new_, rn), r);
      && ty == TypeIn(new_, rn, t, c)
      && (CanRefer(DbAt(old_, new_, ro, rn, done), ty, r) <==> PkSet(new_[r.table]) == {r.column})
  {
    var r := new_[t][c].ref.value;
    TargetIsDeployed(old_, new_, ro, rn, done, t, c);
    AllRecordsAre(old_, new_, rn, r);
    RecordIsRootType(old_, new_, rn, r);
    TypeIsRootType(new_, rn, r);
    assert Ref(r.table, r.column) == r;
  }

  ghost predicate RefsDone(old_: Schema, done: seq<string>, t: string, c: string) {
    forall u, d {:trigger HasFk(old_, u, d)} | HasFk(old_, u, d) && u != t && old_[u][d].ref.value == Ref(t, c) :: u in done
  }

  /** A foreign key at a column of `t` that is still there is an old one, of a table that has
      not been changed yet. */
  lemma RefsAreOld(old_: Schema, new_: Schema, ro: map<string, nat>, rn: map<string, nat>, done: seq<string>, t: string, c: string, u: string, d: string)
    requires Sound(old_, ro) && Sound(new_, rn) && ChangedBefore(old_, new_, ro, rn, done, t) && u != t
    ensures var db := DbAt(old_, new_, ro, rn, done);
      u in db && d in db[u].fks && db[u].fks[d] == Ref(t, c) <==> u !in done && HasFk(old_, u, d) && old_[u][d].ref.value == Ref(t, c)
  {
    if u in done {
      FinalTableIff(old_, new_, ro, rn, u);
      if HasFk(new_, u, d) { assert new_[u][d].ref.value.table in done; }
    }
  }

  lemma RefsFitIff(old_: Schema, new_: Schema, ro: map<string, nat>, rn: map<string, nat>, done: seq<string>, t: string, c: string, ty: SqlType)
    requires Sound(old_, ro) && Sound(new_, rn) && ChangedBefore(old_, new_, ro, rn, done, t) && IsColumn(old_, Ref(t, c))
    ensures RefsFit(DbAt(old_, new_, ro, rn, done), Ref(t, c), ty) <==> Fits(TypeIn(old_, ro, t, c), ty) || RefsDone(old_, done, t, c)
  {
    var db, r := DbAt(old_, new_, ro, rn, done), Ref(t, c);
    TypeIsRootType(old_, ro, r);
    forall u, d | u != t && u !in done && HasFk(old_, u, d) && old_[u][d].ref.value == r
      ensures u in db && d in db[u].fks && db[u].fks[d] == r && d in db[u].cols && db[u].cols[d].ty == TypeIn(old_, ro, t, c)
    {
      RefsAreOld(old_, new_, ro, rn, done, t, c, u, d);
    }
    forall u, d | u in db && u != t && d in db[u].fks && db[u].fks[d] == r ensures u !in done && HasFk(old_, u, d) && old_[u][d].ref.value == r {
      RefsAreOld(old_, new_, ro, rn, done, t, c, u, d);
    }
  }

  lemma ReferencedIff(old_: Schema, new_: Schema, ro: map<string, nat>, rn: map<string, nat>, done: seq<string>, t: string, c: string)
    requires Sound(old_, ro) && Sound(new_, rn) && ChangedBefore(old_, new_, ro, rn, done, t)
    ensures ReferencedElsewhere(DbAt(old_, new_, ro, rn, done), Ref(t, c)) <==> !RefsDone(old_, done, t, c)
  {
    var db, r := DbAt(old_, new_, ro, rn, done), Ref(t, c);
    if ReferencedElsewhere(db, r) {
      var u, d :| u in db && u != t && d in db[u].fks && db[u].fks[d] == r;
      RefsAreOld(old_, new_, ro, rn, done, t, c, u, d);
    }
    if !RefsDone(old_, done, t, c) {
      var u, d :| HasFk(old_, u, d) && u != t && old_[u][d].ref.value == r && u !in done;
      RefsAreOld(old_, new_, ro, rn, done, t, c, u, d);
    }
  }

  /** What is asked of a column for its statements to be taken. */
  ghost predicate ColumnTaken(old_: Schema, new_: Schema, ro: map<string, nat>, rn: map<string, nat>, done: seq<string>, t: string, c: string)
    requires Sound(old_, ro) && Sound(new_, rn) && IsColumn(new_, Ref(t, c))
  {
    && (GetsFk(old_, new_, t, c) ==> var r := new_[t][c].ref.value; r.table in new_ && PkSet(new_[r.table]) == {r.column})
    && (IsColumn(old_, Ref(t, c)) ==>
          && Converts(TypeIn(old_, ro, t, c), TypeIn(new_, rn, t, c))
          && (Fits(TypeIn(old_, ro, t, c), TypeIn(new_, rn, t, c)) || RefsDone(old_, done, t, c)))
  }

  lemma RetainedTaken(old_: Schema, new_: Schema, ro: map<string, nat>, rn: map<string, nat>, done: seq<string>, t: string, c: string)
    requires Sound(old_, ro) && Sound(new_, rn) && ChangedBefore(old_, new_, ro, rn, done, t)
    requires IsColumn(old_, Ref(t, c)) && IsColumn(new_, Ref(t, c)) && ColumnMigrates(old_, new_, ro, rn, t, c)
    ensures ColumnApplies(DbAt(old_, new_, ro, rn, done), DeployedCol(old_, ro, t, c), t, c, old_[t][c], new_[t][c], AllRecords(old_, new_, rn)) <==>
      ColumnTaken(old_, new_, ro, rn, done, t, c)
  {
    RefsFitIff(old_, new_, ro, rn, done, t, c, TypeIn(new_, rn, t, c));
    TypeIsRootType(old_, ro, Ref(t, c));
    TypeIsRootType(new_, rn, Ref(t, c));
    if HasFk(new_, t, c) && !HasFk(old_, t, c) { TargetMeetsIff(old_, new_, ro, rn, done, t, c); }
  }

  lemma AddedTaken(old_: Schema, new_: Schema, ro: map<string, nat>, rn: map<string, nat>, done: seq<string>, t: string, c: string)
    requires Sound(old_, ro) && Sound(new_, rn) && ChangedBefore(old_, new_, ro, rn, done, t)
    requires !IsColumn(old_, Ref(t, c)) && IsColumn(new_, Ref(t, c)) && ColumnMigrates(old_, new_, ro, rn, t, c)
    ensures AddedApplies(DbAt(old_, new_, ro, rn, done), new_[t][c], AllRecords(old_, new_, rn)) <==> ColumnTaken(old_, new_, ro, rn, done, t, c)
  {
    if HasFk(new_, t, c) { TargetMeetsIff(old_, new_, ro, rn, done, t, c); }
  }

  lemma ReleasedIff(old_: Schema, new_: Schema, ro: map<string, nat>, rn: map<string, nat>, done: seq<string>, t: string)
    requires Sound(old_, ro) && Sound(new_, rn) && t in old_ && t in new_ && ChangedBefore(old_, new_, ro, rn, done, t)
    ensures (forall c | c in Released(old_[t], new_[t]) :: RefsDone(old_, done, t, c))
      && (forall c | c in new_[t] && c in old_[t] :: Fits(TypeIn(old_, ro, t, c), TypeIn(new_, rn, t, c)) || RefsDone(old_, done, t, c))
      <==> ReleasesFree(old_, new_, ro, rn, done, t)
  {
    if ReleasesFree(old_, new_, ro, rn, done, t) {
      forall c | c in old_[t] && Releases(old_, new_, ro, rn, t, c) ensures RefsDone(old_, done, t, c) {
      }
    } else {
      var u, d :| HasFk(old_, u, d) && u != t && old_[u][d].ref.value.table == t
        && Releases(old_, new_, ro, rn, t, old_[u][d].ref.value.column) && u !in done;
      var c := old_[u][d].ref.value.column;
      assert old_[u][d].ref.value == Ref(t, c) && !RefsDone(old_, done, t, c);
    }
  }

  lemma RetainedIff(old_: Schema, new_: Schema, ro: map<string, nat>, rn: map<string, nat>, done: seq<string>, t: string)
    requires Sound(old_, ro) && Sound(new_, rn) && t in old_ && t in new_ && ChangedBefore(old_, new_, ro, rn, done, t)
    requires ColumnsMigrate(old_, new_, ro, rn, t)
    ensures StepWorks(old_, new_, ro, rn, done, t, []) <==> TableMigrates(old_, new_, ro, rn, done, t, [])
  {
    var db, types := DbAt(old_, new_, ro, rn, done), AllRecords(old_, new_, rn);
    forall c | c in new_[t]
      ensures NextApplies(db, DeployedTable(old_, ro, t), t, old_[t], new_[t], c, types) <==> ColumnTaken(old_, new_, ro, rn, done, t, c)
    {
      if c in old_[t] { RetainedTaken(old_, new_, ro, rn, done, t, c); } else { AddedTaken(old_, new_, ro, rn, done, t, c); }
    }
    forall c ensures ReferencedElsewhere(db, Ref(t, c)) <==> !RefsDone(old_, done, t, c) {
      ReferencedIff(old_, new_, ro, rn, done, t, c);
    }
    ReleasedIff(old_, new_, ro, rn, done, t);
    AllTakenIff(old_, new_, ro, rn, done, t);
  }

  lemma AllTakenIff(old_: Schema, new_: Schema, ro: map<string, nat>, rn: map<string, nat>, done: seq<string>, t: string)
    requires Sound(old_, ro) && Sound(new_, rn) && t in new_
    ensures (forall c | c in new_[t] :: ColumnTaken(old_, new_, ro, rn, done, t, c)) <==>
      && FksMeetKeys(old_, new_, t) && TypesConvert(old_, new_, ro, rn, t)
      && (forall c | c in new_[t] && IsColumn(old_, Ref(t, c)) :: Fits(TypeIn(old_, ro, t, c), TypeIn(new_, rn, t, c)) || RefsDone(old_, done, t, c))
  {
    if forall c | c in new_[t] :: ColumnTaken(old_, new_, ro, rn, done, t, c) {
      forall c {:trigger GetsFk(old_, new_, t, c)} | GetsFk(old_, new_, t, c)
        ensures var r := new_[t][c].ref.value; r.table in new_ && PkSet(new_[r.table]) == {r.column}
      {
        assert ColumnTaken(old_, new_, ro, rn, done, t, c);
      }
    }
  }

  lemma AddedIff(old_: Schema, new_: Schema, ro: map<string, nat>, rn: map<string, nat>, done: seq<string>, t: string, names: seq<string>)
    requires Sound(old_, ro) && Sound(new_, rn) && t !in old_ && t in new_ && ChangedBefore(old_, new_, ro, rn, done, t)
    requires ColumnsMigrate(old_, new_, ro, rn, t)
    ensures StepWorks(old_, new_, ro, rn, done, t, names) <==> TableMigrates(old_, new_, ro, rn, done, t, names)
  {
    forall c {:trigger GetsFk(old_, new_, t, c)} | GetsFk(old_, new_, t, c)
      ensures var r := new_[t][c].ref.value;
        r.table in new_ && (CanRefer(DbAt(old_, new_, ro, rn, done), Recorded(AllRecords(old_, new_, rn), r), r) <==> PkSet(new_[r.table]) == {r.column})
    {
      assert IsColumn(new_, new_[t][c].ref.value);
      TargetMeetsIff(old_, new_, ro, rn, done, t, c);
    }
    assert forall c | c in new_[t] && new_[t][c].ref.Some? :: GetsFk(old_, new_, t, c);
  }

  lemma StepIff(old_: Schema, new_: Schema, ro: map<string, nat>, rn: map<string, nat>, done: seq<string>, t: string, names: seq<string>)
    requires Sound(old_, ro) && Sound(new_, rn) && t in new_ && ChangedBefore(old_, new_, ro, rn, done, t)
    requires ColumnsMigrate(old_, new_, ro, rn, t)
    ensures StepWorks(old_, new_, ro, rn, done, t, names) <==> TableMigrates(old_, new_, ro, rn, done, t, names)
  {
    if t in old_ { RetainedIff(old_, new_, ro, rn, done, t); } else { AddedIff(old_, new_, ro, rn, done, t, names); }
  }

  lemma OrderedIsChangedBefore(old_: Schema, new_: Schema, ro: map<string, nat>, rn: map<string, nat>, order: seq<string>)
    requires Sound(old_, ro) && Sound(new_, rn) && Ordered(new_, order) && order != []
    requires forall t | t in order :: ColumnsMigrate(old_, new_, ro, rn, t)
    ensures ChangedBefore(old_, new_, ro, rn, order[..|order| - 1], order[|order| - 1])
  {
    var init, t := order[..|order| - 1], order[|order| - 1];
    OrderedPrefix(new_, order);
    LastIsReady(new_, order);
    forall u | u in init ensures u in new_ && ColumnsMigrate(old_, new_, ro, rn, u) && TargetsDone(new_, u, init) {
      var i :| 0 <= i < |init| && init[i] == u;
      assert order[i] == u && u in order && TargetsDone(new_, u, order[..i]);
      assert forall x | x in order[..i] :: x in init;
    }
  }

  lemma {:induction false} StepsIff(old_: Schema, new_: Schema, ro: map<string, nat>, rn: map<string, nat>, order: seq<string>, orders: map<string, seq<string>>)
    requires Sound(old_, ro) && Sound(new_, rn) && Ordered(new_, order) && ColumnOrders(new_, orders)
    requires forall t | t in order :: ColumnsMigrate(old_, new_, ro, rn, t)
    ensures AllStepsWork(old_, new_, ro, rn, order, orders) <==> Migratable(old_, new_, ro, rn, order, orders)
    decreases |order|
  {
    if order != [] {
      var init, t := order[..|order| - 1], order[|order| - 1];
      assert order == init + [t];
      OrderedPrefix(new_, order);
      OrderedIsChangedBefore(old_, new_, ro, rn, order);
      StepsIff(old_, new_, ro, rn, init, orders);
      StepIff(old_, new_, ro, rn, init, t, orders[t]);
      MigratableSnoc(old_, new_, ro, rn, init, t, orders);
    }
  }

  lemma MigratableSnoc(old_: Schema, new_: Schema, ro: map<string, nat>, rn: map<string, nat>, init: seq<string>, t: string, orders: map<string, seq<string>>)
    requires Sound(old_, ro) && Sound(new_, rn) && (forall u | u in init :: u in new_) && t in new_ && ColumnOrders(new_, orders)
    ensures Migratable(old_, new_, ro, rn, init + [t], orders) <==>
      Migratable(old_, new_, ro, rn, init, orders) && TableMigrates(old_, new_, ro, rn, init, t, orders[t])
  {
    var order := init + [t];
    assert forall i | 0 <= i < |init| :: order[..i] == init[..i] && order[i] == init[i];
    assert order[..|init|] == init && order[|init|] == t;
    if Migratable(old_, new_, ro, rn, init, orders) && TableMigrates(old_, new_, ro, rn, init, t, orders[t]) {
      forall i | 0 <= i < |order| ensures TableMigrates(old_, new_, ro, rn, order[..i], order[i], orders[order[i]]) {
        if i < |init| { assert TableMigrates(old_, new_, ro, rn, init[..i], init[i], orders[init[i]]); }
      }
    }
    if Migratable(old_, new_, ro, rn, order, orders) {
      assert TableMigrates(old_, new_, ro, rn, order[..|init|], order[|init|], orders[order[|init|]]);
      forall i | 0 <= i < |init| ensures TableMigrates(old_, new_, ro, rn, init[..i], init[i], orders[init[i]]) {
        assert TableMigrates(old_, new_, ro, rn, order[..i], order[i], orders[order[i]]);
      }
    }
  }

  /** The run got through, and every table of the new version is as deploying it afresh would make it. */
  ghost predicate Yields(r: Option<Db>, new_: Schema, rn: map<string, nat>)
    requires Sound(new_, rn)
  {
    r.Some? && forall t | t in new_ :: t in r.value && r.value[t] == DeployedTable(new_, rn, t)
  }

  lemma YieldsIff(old_: Schema, new_: Schema, ro: map<string, nat>, rn: map<string, nat>, order: seq<string>)
    requires Sound(old_, ro) && Sound(new_, rn) && Lists(order, new_.Keys)
    ensures Yields(Some(DbAt(old_, new_, ro, rn, order)), new_, rn) <==> forall t | t in new_ :: ColumnsMigrate(old_, new_, ro, rn, t)
  {
    var db := DbAt(old_, new_, ro, rn, order);
    forall t | t in new_ ensures t in db && (db[t] == DeployedTable(new_, rn, t) <==> ColumnsMigrate(old_, new_, ro, rn, t)) {
      assert t in order;
      FinalTableIff(old_, new_, ro, rn, t);
    }
  }

  lemma OldTablesStay(old_: Schema, new_: Schema, ro: map<string, nat>, rn: map<string, nat>, order: seq<string>)
    requires Sound(old_, ro) && Sound(new_, rn) && Lists(order, new_.Keys)
    ensures var db := DbAt(old_, new_, ro, rn, order);
      db.Keys == old_.Keys + new_.Keys && forall t | t in old_ && t !in new_ :: db[t] == DeployedTable(old_, ro, t)
  {
  }

  /** Migration correctness, both ways; tables only the old version has are left alone. */
  lemma DeltaMigratesIff(old_: Schema, new_: Schema, ro: map<string, nat>, rn: map<string, nat>, order: seq<string>, orders: map<string, seq<string>>)
    requires Sound(old_, ro) && Sound(new_, rn) && Ordered(new_, order) && Lists(order, new_.Keys) && ColumnOrders(new_, orders)
    ensures var r := Run(Deployed(old_, ro), Delta(old_, new_, order, orders).stmts);
      && (Yields(r, new_, rn) <==> Migratable(old_, new_, ro, rn, order, orders))
      && (r.Some? ==> r.value.Keys == old_.Keys + new_.Keys && forall t | t in old_ && t !in new_ :: r.value[t] == DeployedTable(old_, ro, t))
  {
    DeltaRuns(old_, new_, ro, rn, order, orders);
    YieldsIff(old_, new_, ro, rn, order);
    OldTablesStay(old_, new_, ro, rn, order);
    if forall t | t in new_ :: ColumnsMigrate(old_, new_, ro, rn, t) {
      StepsIff(old_, new_, ro, rn, order, orders);
    } else {
      NotMigratable(old_, new_, ro, rn, order, orders);
    }
  }

  lemma NotMigratable(old_: Schema, new_: Schema, ro: map<string, nat>, rn: map<string, nat>, order: seq<string>, orders: map<string, seq<string>>)
    requires Sound(old_, ro) && Sound(new_, rn) && Lists(order, new_.Keys) && ColumnOrders(new_, orders)
    requires exists t :: t in new_ && !ColumnsMigrate(old_, new_, ro, rn, t)
    ensures !Migratable(old_, new_, ro, rn, order, orders)
  {
    var t :| t in new_ && !ColumnsMigrate(old_, new_, ro, rn, t);
    assert t in order;
    var i :| 0 <= i < |order| && order[i] == t;
    assert !TableMigrates(old_, new_, ro, rn, order[..i], order[i], orders[order[i]]);
  }
}
