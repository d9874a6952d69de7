/** From a model to a script: tables by depth, created in line order, or compared with the
    old version in name order (pkg/database/databasescriptview.go). */
module ScriptGenerator {
  import opened Ordering
  import opened TableDepth
  import opened SqlScript
  import opened TableChange
  import opened LineOrder
  import opened Migration
  import opened MigrationProofs
  import opened MigrationTheorem
  import opened ScriptView
  import opened CreateTheorem
  import opened TableOrder
  import opened DeltaCondition
  import opened DeclaredSchema

  lemma PrefixGrows<T>(s: seq<T>, i: nat)
    requires i < |s|
    ensures s[..i + 1] == s[..i] + [s[i]] && (Distinct(s) ==> s[i] !in s[..i])
  {
  }

  /** What has been written is the script for the tables in `done`. */
  ghost predicate Written(old_: Schema, s: Schema, done: seq<string>, orders: map<string, seq<string>>, stmts: seq<Stmt>, types: Types)
    requires (forall t | t in done :: t in s) && ColumnOrders(s, orders)
  {
    stmts == Delta(old_, s, done, orders).stmts && types == Delta(old_, s, done, orders).types
  }

  // ---- the CREATE script -------------------------------------------------------

  /** A CREATE script for a whole model: its relations by depth and line. Run on nothing it
      deploys the model exactly when no relation shares its line with another type of its
      depth, no two columns of a relation share one, every relation with columns has a key or a
      foreign key, and foreign keys point at keys. The ghost results are the order of the relations and of the columns of
      each. */
  method GenerateDatabaseScriptCreate(view: ScriptView, m: Model, ghost rank: map<string, nat>)
    returns (ghost order: seq<string>, ghost orders: map<string, seq<string>>)
    requires Ranked(GraphOf(m), rank) && view.out == []
    modifies view
    ensures var depth := Depths(GraphOf(m), rank);
      && Sound(Tables(m), depth) && LineOrders(Tables(m), orders)
      && Creates(view.out, order) && ByDepthAndLine(m, depth, order) && (forall t | t in order :: t in Tables(m))
      && (RelationsHaveOwnLines(m, depth) ==> Lists(order, Tables(m).Keys) && view.out == Delta(Empty, Tables(m), order, orders).stmts)
      && (Run(map[], view.out) == Some(Deployed(Tables(m), depth)) <==>
            RelationsHaveOwnLines(m, depth) && AllOwnLines(Tables(m)) && AllHaveConstraints(Tables(m)) && AllMeetKeys(Tables(m)))
    ensures var depth, r := Depths(GraphOf(m), rank), Run(map[], view.out);
      (r.Some? && IsDatabaseOf(Tables(m), r.value)) <==>
        RelationsHaveOwnLines(m, depth) && AllOwnLines(Tables(m)) && AllHaveConstraints(Tables(m)) && AllMeetKeys(Tables(m))
  {
    ghost var depth := Depths(GraphOf(m), rank);
    var visitedAttributes := new TypeMap();
    var completedTableDepthMap := CreateTableDepthMap(m, rank);
    var entities := EntitiesByDepthAndLine(m, completedTableDepthMap, depth);
    orders := WriteEntities(view, m, entities, visitedAttributes);
    order := RelationsIn(m, entities);
    RelationsListedIff(m, depth, entities);
    RelationsKeepOrder(m, entities, depth);
    CreateIsRight(m, rank, order, orders, view.out);
    ghost var r := Run(map[], view.out);
    if r.Some? { OneDatabase(Tables(m), depth, r.value); }
  }

  /** The CREATE script deploys the model exactly when it creates each relation once, no
      two columns share a line and each relation can be created. */
  lemma CreateIsRight(m: Model, rank: map<string, nat>, order: seq<string>, orders: map<string, seq<string>>, stmts: seq<Stmt>)
    requires Ranked(GraphOf(m), rank) && LineOrders(Tables(m), orders) && (forall t | t in order :: t in Tables(m))
    requires DepthFirst(order, Depths(GraphOf(m), rank)) && Creates(stmts, order)
    requires Distinct(order) ==> stmts == Delta(Empty, Tables(m), order, orders).stmts
    ensures var depth := Depths(GraphOf(m), rank);
      && Sound(Tables(m), depth)
      && (Run(map[], stmts) == Some(Deployed(Tables(m), depth)) <==>
            Lists(order, Tables(m).Keys) && AllOwnLines(Tables(m)) && AllHaveConstraints(Tables(m)) && AllMeetKeys(Tables(m)))
  {
    var depth := Depths(GraphOf(m), rank);
    DepthIsRank(GraphOf(m), rank, depth);
    RankedIsSound(m, depth);
    if Run(map[], stmts) == Some(Deployed(Tables(m), depth)) {
      DeployingCreatesEachOnce(Tables(m), depth, stmts, order);
    }
    if Lists(order, Tables(m).Keys) {
      DepthOrderIsOrdered(Tables(m), depth, order);
      DistinctIsOwn(Tables(m), orders);
      CreateDeploysIff(Tables(m), depth, order, orders);
    }
  }

  method WriteEntities(view: ScriptView, m: Model, entities: seq<string>, visited: TypeMap) returns (ghost orders: map<string, seq<string>>)
    requires (forall t | t in entities :: t in m) && view.out == [] && visited.types == map[]
    modifies view, visited
    ensures LineOrders(Tables(m), orders) && Creates(view.out, RelationsIn(m, entities))
    ensures Distinct(RelationsIn(m, entities)) ==> Written(Empty, Tables(m), RelationsIn(m, entities), orders, view.out, visited.types)
  {
    orders := map t | t in Tables(m) :: ArbitraryOrder(m[t].attrs);
    for i := 0 to |entities|
      invariant WrittenSoFar(m, entities[..i], orders, view.out, visited.types)
    {
      ghost var stmts, types := view.out, visited.types;
      ghost var names := WriteEntity(view, m, entities[i], visited);
      EntityWritten(m, entities[..i], orders, entities[i], names, stmts, types);
      PrefixGrows(entities, i);
      orders := AfterEntity(m, orders, entities[i], names);
    }
    assert entities[..|entities|] == entities;
  }

  ghost predicate WrittenSoFar(m: Model, before: seq<string>, orders: map<string, seq<string>>, stmts: seq<Stmt>, types: Types)
    requires forall t | t in before :: t in m
  {
    && LineOrders(Tables(m), orders) && Creates(stmts, RelationsIn(m, before))
    && (Distinct(RelationsIn(m, before)) ==> Written(Empty, Tables(m), RelationsIn(m, before), orders, stmts, types))
  }

  ghost function AfterEntity(m: Model, orders: map<string, seq<string>>, t: string, names: seq<string>): map<string, seq<string>>
    requires t in m
  {
    if m[t].Relation? then orders[t := names] else orders
  }

  /** What one entity adds: nothing unless it is a relation. */
  function EntityStmts(m: Model, t: string, names: seq<string>, types: Types): Change
    requires t in m && forall c | c in names :: c in AttrsOf(m[t])
  {
    if m[t].Relation? then
      var r := CreateColumns(t, AttrsOf(m[t]), names, types);
      Change([CreateStmt(t, r)], r.types)
    else Change([], types)
  }

  method WriteEntity(view: ScriptView, m: Model, entityName: string, visited: TypeMap) returns (ghost names: seq<string>)
    requires entityName in m
    modifies view, visited
    ensures (forall c | c in names :: c in AttrsOf(m[entityName])) && (m[entityName].Relation? ==> ByLines(m[entityName].attrs, names))
    ensures var r := EntityStmts(m, entityName, names, old(visited.types)); view.out == old(view.out) + r.stmts && visited.types == r.types
  {
    names := [];
    if m[entityName].Relation? {
      var text;
      names, text := view.WriteCreateTable(entityName, m[entityName].attrs, visited);
    }
  }

  lemma EntityWritten(m: Model, before: seq<string>, orders: map<string, seq<string>>, t: string, names: seq<string>, stmts: seq<Stmt>, types: Types)
    requires (forall u | u in before :: u in m) && t in m && WrittenSoFar(m, before, orders, stmts, types)
    requires (forall c | c in names :: c in AttrsOf(m[t])) && (m[t].Relation? ==> ByLines(m[t].attrs, names))
    ensures var r := EntityStmts(m, t, names, types);
      WrittenSoFar(m, before + [t], AfterEntity(m, orders, t, names), stmts + r.stmts, r.types)
  {
    RelationsSnoc(m, before, t);
    if m[t].Relation? {
      RelationWritten(m, before, orders, t, names, stmts, types);
    } else {
      NothingWritten(stmts);
    }
  }

  lemma RelationWritten(m: Model, before: seq<string>, orders: map<string, seq<string>>, t: string, names: seq<string>, stmts: seq<Stmt>, types: Types)
    requires (forall u | u in before :: u in m) && t in m && m[t].Relation? && WrittenSoFar(m, before, orders, stmts, types) && ByLines(m[t].attrs, names)
    ensures var done, r := RelationsIn(m, before) + [t], CreateColumns(t, m[t].attrs, names, types);
      && LineOrders(Tables(m), orders[t := names]) && Creates(stmts + [CreateStmt(t, r)], done)
      && (Distinct(done) ==> Written(Empty, Tables(m), done, orders[t := names], stmts + [CreateStmt(t, r)], r.types))
  {
    var done := RelationsIn(m, before);
    if Distinct(done + [t]) { DistinctInit(done, t); }
    WrittenGrows(Empty, Tables(m), done, orders, t, names, stmts, types);
    OneMoreCreate(stmts, done, CreateStmt(t, CreateColumns(t, m[t].attrs, names, types)));
  }

  lemma DistinctInit(names: seq<string>, t: string)
    requires Distinct(names + [t])
    ensures Distinct(names) && t !in names
  {
    var all := names + [t];
    forall i | 0 <= i < |names| ensures names[i] != t { assert all[i] != all[|names|]; }
    forall i, j | 0 <= i < j < |names| ensures names[i] != names[j] { assert all[i] != all[j]; }
  }

  lemma OneMoreCreate(stmts: seq<Stmt>, names: seq<string>, s: Stmt)
    requires Creates(stmts, names) && s.CreateTable?
    ensures Creates(stmts + [s], names + [s.table])
  {
  }

  lemma NothingWritten(stmts: seq<Stmt>)
    ensures stmts + [] == stmts
  {
  }

  lemma WrittenGrows(old_: Schema, s: Schema, done: seq<string>, orders: map<string, seq<string>>, t: string, names: seq<string>, stmts: seq<Stmt>, types: Types)
    requires (forall u | u in done :: u in s) && t in s && LineOrders(s, orders) && ByLines(s[t], names)
    ensures var after, r := orders[t := names], DeltaTable(old_, s, t, names, types);
      LineOrders(s, after) && (t !in done && Written(old_, s, done, orders, stmts, types) ==> Written(old_, s, done + [t], after, stmts + r.stmts, r.types))
  {
    if t !in done {
      DeltaIgnores(old_, s, done, orders, t, names);
      DeltaStepIs(old_, s, done, orders[t := names], t);
    }
  }

  /** Some order of the columns with the property all orders share. */
  ghost function ArbitraryOrder(attrs: Attrs): (names: seq<string>)
    ensures ByLines(attrs, names)
  {
    if OwnLines(attrs) then SortedStrings(attrs.Keys)
    else
      var c, d :| c in attrs && d in attrs && c != d;
      assert [c, c][0] == [c, c][1];
      [c, c]
  }

  lemma {:induction false} DeltaIgnores(old_: Schema, s: Schema, done: seq<string>, orders: map<string, seq<string>>, t: string, names: seq<string>)
    requires (forall u | u in done :: u in s) && ColumnOrders(s, orders) && t in s && t !in done && ByLines(s[t], names)
    ensures ColumnOrders(s, orders[t := names])
    ensures Delta(old_, s, done, orders[t := names]) == Delta(old_, s, done, orders)
    decreases |done|
  {
    if done != [] { DeltaIgnores(old_, s, done[..|done| - 1], orders, t, names); }
  }

  lemma DeltaStepIs(old_: Schema, s: Schema, done: seq<string>, orders: map<string, seq<string>>, t: string)
    requires (forall u | u in done :: u in s) && t in s && ColumnOrders(s, orders)
    ensures var p, r := Delta(old_, s, done, orders), Delta(old_, s, done + [t], orders);
      var next := DeltaTable(old_, s, t, orders[t], p.types);
      r.stmts == p.stmts + next.stmts && r.types == next.types
  {
    var order := done + [t];
    assert order[..|order| - 1] == done;
  }

  // ---- the delta script --------------------------------------------------------

  /** One table of the delta: added, or retained and changed. */
  method WriteDeltaTable(view: ScriptView, typeMapOld: Model, typeMapNew: Model, t: string, visited: TypeMap) returns (ghost names: seq<string>)
    requires t in typeMapNew && typeMapNew[t].Relation? && (t in typeMapOld ==> typeMapOld[t].Relation?)
    modifies view, visited
    ensures ByLines(typeMapNew[t].attrs, names)
    ensures var r := DeltaTable(Tables(typeMapOld), Tables(typeMapNew), t, names, old(visited.types));
      view.out == old(view.out) + r.stmts && visited.types == r.types
  {
    if t in typeMapOld {
      names := ArbitraryOrder(typeMapNew[t].attrs);
      view.WriteModifyTable(t, typeMapNew[t].attrs, typeMapOld[t].attrs, visited);
    } else {
      var text;
      names, text := view.WriteCreateTable(t, typeMapNew[t].attrs, visited);
    }
  }

  /** All the types are relations, and the old version has relations under their names. */
  predicate Comparable(typeMapOld: Model, typeMapNew: Model) {
    forall t | t in typeMapNew :: typeMapNew[t].Relation? && (t in typeMapOld ==> typeMapOld[t].Relation?)
  }

  ghost predicate DeltaSoFar(old_: Schema, s: Schema, done: seq<string>, orders: map<string, seq<string>>, stmts: seq<Stmt>, types: Types)
    requires forall t | t in done :: t in s
  {
    LineOrders(s, orders) && Written(old_, s, done, orders, stmts, types)
  }

  lemma OneMoreTable(old_: Schema, s: Schema, tables: seq<string>, i: nat, orders: map<string, seq<string>>, names: seq<string>, stmts: seq<Stmt>, types: Types)
    requires (forall t | t in tables :: t in s) && Distinct(tables) && i < |tables|
    requires DeltaSoFar(old_, s, tables[..i], orders, stmts, types) && ByLines(s[tables[i]], names)
    ensures var r := DeltaTable(old_, s, tables[i], names, types);
      DeltaSoFar(old_, s, tables[..i + 1], orders[tables[i] := names], stmts + r.stmts, r.types)
  {
    PrefixGrows(tables, i);
    WrittenGrows(old_, s, tables[..i], orders, tables[i], names, stmts, types);
  }

  method WriteDeltaTables(view: ScriptView, typeMapOld: Model, typeMapNew: Model, tables: seq<string>, visited: TypeMap) returns (ghost orders: map<string, seq<string>>)
    requires Comparable(typeMapOld, typeMapNew) && Distinct(tables) && (forall t | t in tables :: t in Tables(typeMapNew))
    requires view.out == [] && visited.types == map[]
    modifies view, visited
    ensures DeltaSoFar(Tables(typeMapOld), Tables(typeMapNew), tables, orders, view.out, visited.types)
  {
    ghost var o, n := Tables(typeMapOld), Tables(typeMapNew);
    orders := map t | t in n :: ArbitraryOrder(n[t]);
    for i := 0 to |tables|
      invariant DeltaSoFar(o, n, tables[..i], orders, view.out, visited.types)
    {
      ghost var stmts, types := view.out, visited.types;
      assert tables[i] in n;
      ghost var names := WriteDeltaTable(view, typeMapOld, typeMapNew, tables[i], visited);
      OneMoreTable(o, n, tables, i, orders, names, stmts, types);
      orders := orders[tables[i] := names];
    }
    assert tables[..|tables|] == tables;
  }

  /** The delta script between two versions, by depth and name: it yields the new one exactly
      when the change is one it can make, which the two versions decide, and leaves the tables
      only the old one has alone. */
  method GenerateDatabaseScriptModify(view: ScriptView, typeMapOld: Model, typeMapNew: Model, ghost rankOld: map<string, nat>, ghost rankNew: map<string, nat>)
    returns (ghost order: seq<string>, ghost orders: map<string, seq<string>>)
    requires Ranked(GraphOf(typeMapOld), rankOld) && Ranked(GraphOf(typeMapNew), rankNew) && Comparable(typeMapOld, typeMapNew)
    requires view.out == []
    modifies view
    ensures var o, n, depth := Tables(typeMapOld), Tables(typeMapNew), Depths(GraphOf(typeMapNew), rankNew);
      && Sound(o, rankOld) && Sound(n, rankNew) && depth.Keys == n.Keys
      && LineOrders(n, orders) && Lists(order, n.Keys) && ByDepthAndName(depth, order)
      && view.out == Delta(o, n, order, orders).stmts
      && (Yields(Run(Deployed(o, rankOld), view.out), n, rankNew) <==> CanMigrate(o, n, rankOld, rankNew, depth))
    ensures var o, r := Tables(typeMapOld), Run(Deployed(Tables(typeMapOld), rankOld), view.out);
      r.Some? ==> forall t | t in o && t !in typeMapNew :: t in r.value && r.value[t] == DeployedTable(o, rankOld, t)
    ensures var o, n := Tables(typeMapOld), Tables(typeMapNew);
      forall db | IsDatabaseOf(o, db) :: var r := Run(db, view.out);
        (r.Some? && Declares(n, r.value)) <==> CanMigrate(o, n, rankOld, rankNew, Depths(GraphOf(typeMapNew), rankNew))
  {
    ghost var depth := Depths(GraphOf(typeMapNew), rankNew);
    var visitedAttributes := new TypeMap();
    var tableDepthMapOld := CreateTableDepthMap(typeMapOld, rankOld);
    var tableDepthMapNew := CreateTableDepthMap(typeMapNew, rankNew);
    var tables := TablesByDepthAndName(tableDepthMapNew, depth);
    order := tables;
    DeltaIsOrdered(typeMapNew, rankNew, order);
    orders := WriteDeltaTables(view, typeMapOld, typeMapNew, tables, visitedAttributes);
    DeltaIsRight(typeMapOld, typeMapNew, rankOld, rankNew, order, orders);
    DeltaDeclaresIff(Tables(typeMapOld), Tables(typeMapNew), rankOld, rankNew, view.out, CanMigrate(Tables(typeMapOld), Tables(typeMapNew), rankOld, rankNew, depth));
  }

  lemma DeltaDeclaresIff(o: Schema, n: Schema, ro: map<string, nat>, rn: map<string, nat>, stmts: seq<Stmt>, right: bool)
    requires Sound(o, ro) && Sound(n, rn) && (Yields(Run(Deployed(o, ro), stmts), n, rn) <==> right)
    ensures forall db | IsDatabaseOf(o, db) :: var r := Run(db, stmts); (r.Some? && Declares(n, r.value)) <==> right
  {
    forall db | IsDatabaseOf(o, db) ensures var r := Run(db, stmts); (r.Some? && Declares(n, r.value)) <==> right {
      OneDatabase(o, ro, db);
      YieldsDeclared(n, rn, Run(db, stmts));
    }
  }

  lemma DeltaIsOrdered(m: Model, rank: map<string, nat>, order: seq<string>)
    requires Ranked(GraphOf(m), rank) && (forall t | t in m :: m[t].Relation?)
    requires Lists(order, Depths(GraphOf(m), rank).Keys) && ByDepthAndName(Depths(GraphOf(m), rank), order)
    ensures Tables(m).Keys == m.Keys == Depths(GraphOf(m), rank).Keys && Lists(order, Tables(m).Keys) && Ordered(Tables(m), order)
  {
    var depth := Depths(GraphOf(m), rank);
    DepthIsRank(GraphOf(m), rank, depth);
    RankedIsSound(m, depth);
    assert Tables(m).Keys == m.Keys;
    NamesAreDistinct(depth, order);
    DepthOrderIsOrdered(Tables(m), depth, order);
  }

  lemma DeltaIsRight(typeMapOld: Model, typeMapNew: Model, ro: map<string, nat>, rn: map<string, nat>, order: seq<string>, orders: map<string, seq<string>>)
    requires Ranked(GraphOf(typeMapOld), ro) && Ranked(GraphOf(typeMapNew), rn) && Comparable(typeMapOld, typeMapNew)
    requires Lists(order, Depths(GraphOf(typeMapNew), rn).Keys) && ByDepthAndName(Depths(GraphOf(typeMapNew), rn), order)
    requires LineOrders(Tables(typeMapNew), orders)
    ensures var o, n, depth := Tables(typeMapOld), Tables(typeMapNew), Depths(GraphOf(typeMapNew), rn);
      && Sound(o, ro) && Sound(n, rn) && n.Keys == typeMapNew.Keys == depth.Keys
      && (Yields(Run(Deployed(o, ro), Delta(o, n, order, orders).stmts), n, rn) <==> CanMigrate(o, n, ro, rn, depth))
    ensures var o, r := Tables(typeMapOld), Run(Deployed(Tables(typeMapOld), ro), Delta(Tables(typeMapOld), Tables(typeMapNew), order, orders).stmts);
      r.Some? ==> forall t | t in o && t !in typeMapNew :: t in r.value && r.value[t] == DeployedTable(o, ro, t)
  {
    RankedIsSound(typeMapOld, ro);
    RankedIsSound(typeMapNew, rn);
    DeltaIsOrdered(typeMapNew, rn, order);
    DeltaMigratesIff(Tables(typeMapOld), Tables(typeMapNew), ro, rn, order, orders);
    CanMigrateIff(Tables(typeMapOld), Tables(typeMapNew), ro, rn, Depths(GraphOf(typeMapNew), rn), order, orders);
  }
}
