/** What the CREATE script is for, as corollaries of the migration theorem. */
module CreateTheorem {
  import opened Ordering
  import opened TableDepth
  import opened SqlScript
  import opened TableChange
  import opened RetainedTable
  import opened Migration
  import opened MigrationProofs
  import opened MigrationTheorem

  const Empty: Schema := map[]

  ghost predicate AllDistinct(s: Schema, orders: map<string, seq<string>>)
    requires ColumnOrders(s, orders)
  {
    forall t | t in s :: Distinct(orders[t])
  }

  /** Every foreign key points at the whole primary key of a table. */
  ghost predicate AllMeetKeys(s: Schema) {
    forall t | t in s :: FksMeetKeys(Empty, s, t)
  }

  /** Every table has a constraint to close its definition: see HasConstraint. */
  predicate AllHaveConstraints(s: Schema) {
    forall t | t in s :: HasConstraint(s[t])
  }

  lemma AllNewMigratable(s: Schema, rank: map<string, nat>, order: seq<string>, orders: map<string, seq<string>>)
    requires Sound(s, rank) && Lists(order, s.Keys) && ColumnOrders(s, orders)
    ensures Migratable(Empty, s, rank, rank, order, orders) <==> AllDistinct(s, orders) && AllHaveConstraints(s) && AllMeetKeys(s)
    ensures forall t | t in s :: ColumnsMigrate(Empty, s, rank, rank, t)
  {
    if Migratable(Empty, s, rank, rank, order, orders) {
      forall t | t in s ensures Distinct(orders[t]) && HasConstraint(s[t]) && FksMeetKeys(Empty, s, t) {
        assert t in order;
        var i :| 0 <= i < |order| && order[i] == t;
        assert TableMigrates(Empty, s, rank, rank, order[..i], order[i], orders[order[i]]);
      }
    }
  }

  lemma CreateWorks(s: Schema, rank: map<string, nat>, order: seq<string>, orders: map<string, seq<string>>)
    requires Sound(s, rank) && Ordered(s, order) && Lists(order, s.Keys) && ColumnOrders(s, orders)
    ensures AllStepsWork(Empty, s, rank, rank, order, orders) <==> AllDistinct(s, orders) && AllHaveConstraints(s) && AllMeetKeys(s)
  {
    AllNewMigratable(s, rank, order, orders);
    StepsIff(Empty, s, rank, rank, order, orders);
  }

  lemma AllDeployed(s: Schema, rank: map<string, nat>, order: seq<string>)
    requires Sound(s, rank) && Lists(order, s.Keys) && forall t | t in s :: ColumnsMigrate(Empty, s, rank, rank, t)
    ensures DbAt(Empty, s, rank, rank, order) == Deployed(s, rank)
  {
    var db := DbAt(Empty, s, rank, rank, order);
    forall t | t in s ensures t in db && db[t] == DeployedTable(s, rank, t) {
      FinalTableIff(Empty, s, rank, rank, t);
    }
  }

  /** The CREATE script deploys the whole model: every table and column, with the type of the
      column at the end of its reference chain, all foreign keys and the primary keys. It
      fails exactly when two columns of a table were declared on one line, a table has columns
      but neither a key nor a foreign key, or a foreign key does not point at a key. */
  lemma CreateDeploysIff(s: Schema, rank: map<string, nat>, order: seq<string>, orders: map<string, seq<string>>)
    requires Sound(s, rank) && Ordered(s, order) && Lists(order, s.Keys) && ColumnOrders(s, orders)
    ensures Run(map[], Delta(Empty, s, order, orders).stmts) ==
      if AllDistinct(s, orders) && AllHaveConstraints(s) && AllMeetKeys(s) then Some(Deployed(s, rank)) else None
  {
    DeltaRuns(Empty, s, rank, rank, order, orders);
    CreateWorks(s, rank, order, orders);
    assert Deployed(Empty, rank) == map[];
    AllNewMigratable(s, rank, order, orders);
    AllDeployed(s, rank, order);
  }

  lemma RecordedAsRoots(s: Schema, rank: map<string, nat>, order: seq<string>, types: Types, q: Ref)
    requires Sound(s, rank) && Lists(order, s.Keys) && RecordsOf(Empty, s, rank, order, types) && IsColumn(s, q)
    ensures Recorded(types, q) == RootType(s, rank, q) != Missing
  {
    RecordIsRootType(Empty, s, rank, q);
  }

  /** No lookup of a recorded type misses: every column ends recorded with a real type, the
      one of the root of its references. */
  lemma CreateRecordsRootTypes(s: Schema, rank: map<string, nat>, order: seq<string>, orders: map<string, seq<string>>, q: Ref)
    requires Sound(s, rank) && Ordered(s, order) && Lists(order, s.Keys) && ColumnOrders(s, orders) && AllDistinct(s, orders)
    requires IsColumn(s, q)
    ensures Recorded(Delta(Empty, s, order, orders).types, q) == RootType(s, rank, q) != Missing
  {
    DeltaRecords(Empty, s, rank, order, orders);
    RecordedAsRoots(s, rank, order, Delta(Empty, s, order, orders).types, q);
  }

  // ---- a table created twice, or not at all ------------------------------------

  /** The script creates the tables `names`, in that order. */
  ghost predicate Creates(stmts: seq<Stmt>, names: seq<string>) {
    |stmts| == |names| && forall i {:trigger stmts[i]} | 0 <= i < |stmts| :: stmts[i].CreateTable? && stmts[i].table == names[i]
  }

  /** If it runs, the tables were new, no two of them the same, and there are no others. */
  lemma {:induction false} CreatedTables(db: Db, stmts: seq<Stmt>, names: seq<string>)
    requires Creates(stmts, names) && Run(db, stmts).Some?
    ensures Distinct(names) && (forall n | n in names :: n !in db)
    ensures Run(db, stmts).value.Keys == db.Keys + set n | n in names
    decreases |stmts|
  {
    if stmts != [] {
      var next := Apply(db, stmts[0]).value;
      assert Creates(stmts[1..], names[1..]) by {
        forall i {:trigger stmts[1..][i]} | 0 <= i < |stmts[1..]| ensures stmts[1..][i].CreateTable? && stmts[1..][i].table == names[1..][i] {
          assert stmts[1..][i] == stmts[i + 1];
        }
      }
      CreatedTables(next, stmts[1..], names[1..]);
      assert names == [names[0]] + names[1..];
      assert next.Keys == db.Keys + {names[0]};
    }
  }

  /** A script that deploys the whole model on nothing creates each of its tables once. */
  lemma DeployingCreatesEachOnce(s: Schema, rank: map<string, nat>, stmts: seq<Stmt>, names: seq<string>)
    requires Sound(s, rank) && Creates(stmts, names) && Run(map[], stmts) == Some(Deployed(s, rank))
    ensures Lists(names, s.Keys)
  {
    CreatedTables(map[], stmts, names);
    assert Deployed(s, rank).Keys == s.Keys;
    forall n ensures n in names <==> n in s.Keys {
      assert n in (set k | k in names) <==> n in s.Keys;
    }
  }
}
