/** The database a relational model declares, said of its tables and columns alone: no table of
    types, no chain of references, no script. A script is right if it leaves such a database. */
module DeclaredSchema {
  import opened Ordering
  import opened TableDepth
  import opened SqlScript
  import opened TableChange
  import opened RetainedTable
  import opened Migration
  import opened MigrationProofs
  import opened MigrationTheorem
  import opened CreateTheorem

  /** A foreign key has the type of the column it refers to, an autoincrement column is a number
      that counts by itself, and any other column has the type of its primitive. */
  predicate ColumnDeclared(col: Column, state: ColState, db: Db) {
    if col.ref.Some? then
      var r := col.ref.value;
      HasColumn(db, r) && state.ty == db[r.table].cols[r.column].ty && !state.serial
    else if col.autoInc then state.ty == BigInt && state.serial
    else IsTypeOf(col.prim, state.ty) && !state.serial
  }

  ghost predicate TableDeclared(attrs: Attrs, ts: TableState, db: Db) {
    && (forall c :: c in ts.cols <==> c in attrs)
    && (forall c | c in attrs :: ColumnDeclared(attrs[c], ts.cols[c], db))
    && (forall c :: c in ts.fks <==> c in attrs && attrs[c].ref.Some?)
    && (forall c | c in ts.fks :: attrs[c].ref == Some(ts.fks[c]))
    && (forall c :: c in ts.pk <==> c in attrs && attrs[c].pk)
  }

  /** The database has the tables of the model, as the model declares them. */
  ghost predicate Declares(s: Schema, db: Db) {
    forall t | t in s :: t in db && TableDeclared(s[t], db[t], db)
  }

  /** And no others. */
  ghost predicate IsDatabaseOf(s: Schema, db: Db) {
    db.Keys == s.Keys && Declares(s, db)
  }

  // ---- there is one such database ----------------------------------------------

  ghost predicate HasDeployed(s: Schema, rank: map<string, nat>, db: Db)
    requires Sound(s, rank)
  {
    forall t | t in s :: t in db && db[t] == DeployedTable(s, rank, t)
  }

  lemma TargetType(s: Schema, rank: map<string, nat>, q: Ref)
    requires Sound(s, rank) && IsColumn(s, q)
    ensures DeployedCol(s, rank, q.table, q.column).ty == RootType(s, rank, q)
  {
  }

  lemma DeployedColumn(s: Schema, rank: map<string, nat>, db: Db, t: string, c: string)
    requires Sound(s, rank) && HasDeployed(s, rank, db) && IsColumn(s, Ref(t, c))
    ensures ColumnDeclared(s[t][c], DeployedCol(s, rank, t, c), db)
  {
    OneTypeOf(s[t][c].prim, PgType(s[t][c].prim));
    if HasFk(s, t, c) { TargetType(s, rank, s[t][c].ref.value); }
  }

  lemma DeployedIsDeclared(s: Schema, rank: map<string, nat>, db: Db)
    requires Sound(s, rank) && HasDeployed(s, rank, db)
    ensures Declares(s, db)
  {
    forall t, c | t in s && c in s[t] ensures ColumnDeclared(s[t][c], DeployedCol(s, rank, t, c), db) {
      DeployedColumn(s, rank, db, t, c);
    }
  }

  lemma {:induction false} DeclaredColumn(s: Schema, rank: map<string, nat>, db: Db, t: string, c: string)
    requires Sound(s, rank) && Declares(s, db) && IsColumn(s, Ref(t, c))
    ensures db[t].cols[c] == DeployedCol(s, rank, t, c)
    decreases rank[t]
  {
    OneTypeOf(s[t][c].prim, db[t].cols[c].ty);
    assert ColumnDeclared(s[t][c], db[t].cols[c], db);
    if HasFk(s, t, c) {
      var q := s[t][c].ref.value;
      DeclaredColumn(s, rank, db, q.table, q.column);
      TargetType(s, rank, q);
    }
  }

  lemma DeclaredKeys(attrs: Attrs, ts: TableState, db: Db)
    requires TableDeclared(attrs, ts, db)
    ensures ts.cols.Keys == attrs.Keys && ts.fks == FkMap(attrs) && ts.pk == PkSet(attrs)
  {
  }

  lemma DeclaredTable(s: Schema, rank: map<string, nat>, db: Db, t: string)
    requires Sound(s, rank) && Declares(s, db) && t in s
    ensures db[t] == DeployedTable(s, rank, t)
  {
    DeclaredKeys(s[t], db[t], db);
    var cols := db[t].cols;
    forall c | c in s[t] ensures cols[c] == DeployedCol(s, rank, t, c) { DeclaredColumn(s, rank, db, t, c); }
    SameColumns(s, rank, t, cols);
  }

  lemma SameColumns(s: Schema, rank: map<string, nat>, t: string, cols: map<string, ColState>)
    requires Sound(s, rank) && t in s && cols.Keys == s[t].Keys && forall c | c in s[t] :: cols[c] == DeployedCol(s, rank, t, c)
    ensures cols == DeployedTable(s, rank, t).cols
  {
  }

  lemma DeclaredIsDeployed(s: Schema, rank: map<string, nat>, db: Db)
    requires Sound(s, rank) && Declares(s, db)
    ensures HasDeployed(s, rank, db)
  {
    forall t | t in s ensures t in db && db[t] == DeployedTable(s, rank, t) { DeclaredTable(s, rank, db, t); }
  }

  /** The database a sound model declares is the one called deployed elsewhere, and there is no other. */
  lemma OneDatabase(s: Schema, rank: map<string, nat>, db: Db)
    requires Sound(s, rank)
    ensures IsDatabaseOf(s, db) <==> db == Deployed(s, rank)
    ensures Declares(s, db) <==> HasDeployed(s, rank, db)
  {
    if Declares(s, db) { DeclaredIsDeployed(s, rank, db); }
    if HasDeployed(s, rank, db) { DeployedIsDeclared(s, rank, db); }
    if db == Deployed(s, rank) { assert HasDeployed(s, rank, db); }
    if IsDatabaseOf(s, db) { assert db == Deployed(s, rank); }
  }

  // ---- the scripts -------------------------------------------------------------

  /** The CREATE script can be run on nothing exactly under the conditions of CreateDeploysIff,
      and leaves a database as the model declares it: every column with its own type. */
  lemma CreateDeclares(s: Schema, rank: map<string, nat>, order: seq<string>, orders: map<string, seq<string>>)
    requires Sound(s, rank) && Ordered(s, order) && Lists(order, s.Keys) && ColumnOrders(s, orders)
    ensures var r := Run(map[], Delta(Empty, s, order, orders).stmts);
      && (r.Some? <==> AllDistinct(s, orders) && AllHaveConstraints(s) && AllMeetKeys(s))
      && (r.Some? ==> IsDatabaseOf(s, r.value))
  {
    CreateDeploysIff(s, rank, order, orders);
    OneDatabase(s, rank, Deployed(s, rank));
  }

  /** The delta script takes a database as the old version declares it to one as the new version
      declares it exactly if the change is one of those the migration theorem lists. */
  lemma DeltaDeclares(o: Schema, n: Schema, ro: map<string, nat>, rn: map<string, nat>, order: seq<string>, orders: map<string, seq<string>>, db: Db)
    requires Sound(o, ro) && Sound(n, rn) && Ordered(n, order) && Lists(order, n.Keys) && ColumnOrders(n, orders)
    requires IsDatabaseOf(o, db)
    ensures var r := Run(db, Delta(o, n, order, orders).stmts);
      (r.Some? && Declares(n, r.value)) <==> Migratable(o, n, ro, rn, order, orders)
  {
    OneDatabase(o, ro, db);
    DeltaMigratesIff(o, n, ro, rn, order, orders);
    YieldsDeclared(n, rn, Run(db, Delta(o, n, order, orders).stmts));
  }

  lemma YieldsDeclared(n: Schema, rn: map<string, nat>, r: Option<Db>)
    requires Sound(n, rn)
    ensures Yields(r, n, rn) <==> r.Some? && Declares(n, r.value)
  {
    if r.Some? { OneDatabase(n, rn, r.value); }
  }

  // ---- one CREATE statement ----------------------------------------------------

  /** The names that are in `keep`, in their order. */
  function Only(names: seq<string>, keep: set<string>): seq<string> {
    if names == [] then []
    else if names[0] in keep then [names[0]] + Only(names[1..], keep)
    else Only(names[1..], keep)
  }

  lemma {:induction false} OnlyLast(names: seq<string>, keep: set<string>, n: string)
    ensures Only(names + [n], keep) == Only(names, keep) + (if n in keep then [n] else [])
  {
    if names == [] {
      assert [] + [n] == [n] && [n][1..] == [];
    } else {
      assert (names + [n])[1..] == names[1..] + [n];
      OnlyLast(names[1..], keep, n);
    }
  }

  function DefNames(defs: seq<ColumnDef>): seq<string> {
    seq(|defs|, i requires 0 <= i < |defs| => defs[i].name)
  }

  function FkColumns(fks: seq<FkDef>): seq<string> {
    seq(|fks|, i requires 0 <= i < |fks| => fks[i].column)
  }

  /** The columns stand in the statement in the order they are taken, and the key columns and the
      foreign keys in the order of their columns. */
  lemma {:induction false} CreatedInOrder(t: string, attrs: Attrs, names: seq<string>, types: Types)
    requires forall c | c in names :: c in attrs
    ensures var r := CreateColumns(t, attrs, names, types);
      && DefNames(r.defs) == names
      && r.pk == Only(names, set c | c in attrs && attrs[c].pk)
      && FkColumns(r.fks) == Only(names, set c | c in attrs && attrs[c].ref.Some?)
      && forall f | f in r.fks :: f.column in attrs && attrs[f.column].ref == Some(f.ref)
    decreases |names|
  {
    if names != [] {
      var init, c := names[..|names| - 1], names[|names| - 1];
      var r := CreateColumns(t, attrs, init, types);
      CreatedInOrder(t, attrs, init, types);
      assert names == init + [c];
      var keys := (set d | d in attrs && attrs[d].pk);
      var refs := (set d | d in attrs && attrs[d].ref.Some?);
      OnlyLast(init, keys, c);
      OnlyLast(init, refs, c);
      OneMoreDef(r.defs, ColumnDef(c, SpecOf(attrs[c], r.types)));
      OneMoreFk(attrs, r.fks, c);
    }
  }

  lemma OneMoreDef(defs: seq<ColumnDef>, def: ColumnDef)
    ensures DefNames(defs + [def]) == DefNames(defs) + [def.name]
  {
  }

  lemma OneMoreFk(attrs: Attrs, fks: seq<FkDef>, c: string)
    requires c in attrs && forall f | f in fks :: f.column in attrs && attrs[f.column].ref == Some(f.ref)
    ensures var more := fks + FksFor(c, attrs[c]);
      && FkColumns(more) == FkColumns(fks) + (if attrs[c].ref.Some? then [c] else [])
      && forall f | f in more :: f.column in attrs && attrs[f.column].ref == Some(f.ref)
  {
    if attrs[c].ref.Some? {
      assert FkColumns(fks + [FkDef(c, attrs[c].ref.value)]) == FkColumns(fks) + [c];
    } else {
      assert fks + [] == fks;
    }
  }
}
