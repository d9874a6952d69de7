/** Small models on which the scripts go wrong. */
module ScriptExamples {
  import opened Ordering
  import opened TableDepth
  import opened SqlScript
  import opened TableChange
  import opened RetainedTable
  import opened Migration
  import opened MigrationProofs
  import opened MigrationTheorem
  import opened ScriptView
  import opened CreateTheorem
  import opened TableOrder
  import opened DeltaCondition
  import opened ScriptGenerator
  import opened CreateText
  import opened DeclaredSchema

  // ---- autoincrement and keys --------------------------------------------------

  function OneColumn(autoInc: bool, pk: bool): Schema {
    map["a" := map["i" := Column(None, IntPrim, autoInc, pk, 1)]]
  }

  const OneRank: map<string, nat> := map["a" := 0]

  lemma OneColumnIsSound(autoInc: bool, pk: bool)
    ensures var s := OneColumn(autoInc, pk);
      Sound(s, OneRank) && IsColumn(s, Ref("a", "i")) && PkSet(s["a"]) == (if pk then {"i"} else {}) && Ordered(s, ["a"]) && Lists(["a"], s.Keys)
  {
    var s, order := OneColumn(autoInc, pk), ["a"];
    assert PkSet(s["a"]) == if pk then {"i"} else {};
    forall i | 0 <= i < |order| ensures TargetsDone(s, order[i], order[..i]) { assert s[order[i]]["i"].ref == None; }
  }

  lemma OneColumnMigrates(autoInc: bool, pk: bool, newAutoInc: bool, newPk: bool, orders: map<string, seq<string>>)
    requires ColumnOrders(OneColumn(newAutoInc, newPk), orders)
    requires Sound(OneColumn(autoInc, pk), OneRank) && Sound(OneColumn(newAutoInc, newPk), OneRank)
    ensures Migratable(OneColumn(autoInc, pk), OneColumn(newAutoInc, newPk), OneRank, OneRank, ["a"], orders) <==>
      autoInc == newAutoInc && (pk ==> newPk)
  {
    var o, n, order := OneColumn(autoInc, pk), OneColumn(newAutoInc, newPk), ["a"];
    OneColumnIsSound(autoInc, pk);
    OneColumnIsSound(newAutoInc, newPk);
    assert order[0] == "a" && ReleasesFree(o, n, OneRank, OneRank, order[..0], "a") && FksMeetKeys(o, n, "a");
    assert TypesConvert(o, n, OneRank, OneRank, "a");
    assert ColumnMigrates(o, n, OneRank, OneRank, "a", "i") <==> autoInc == newAutoInc;
    assert TableMigrates(o, n, OneRank, OneRank, order[..0], order[0], orders[order[0]]) <==> autoInc == newAutoInc && (pk ==> newPk);
  }

  /** A model of one table with one integer column: the delta script is right exactly when the
      column neither starts nor stops being autoincrement and does not stop being the key. */
  lemma OneColumnDelta(autoInc: bool, pk: bool, newAutoInc: bool, newPk: bool, orders: map<string, seq<string>>)
    requires ColumnOrders(OneColumn(newAutoInc, newPk), orders)
    ensures var o, n := OneColumn(autoInc, pk), OneColumn(newAutoInc, newPk);
      && Sound(o, OneRank) && Sound(n, OneRank)
      && (Yields(Run(Deployed(o, OneRank), Delta(o, n, ["a"], orders).stmts), n, OneRank) <==> autoInc == newAutoInc && (pk ==> newPk))
  {
    OneColumnIsSound(autoInc, pk);
    OneColumnIsSound(newAutoInc, newPk);
    OneColumnMigrates(autoInc, pk, newAutoInc, newPk, orders);
    OneTableDelta(OneColumn(autoInc, pk), OneColumn(newAutoInc, newPk), orders, autoInc == newAutoInc && (pk ==> newPk));
  }

  // ---- a type that changes -----------------------------------------------------

  /** One table, whose key is a column of this type. */
  function OneKey(p: Prim): Schema {
    map["a" := map["i" := Column(None, p, false, true, 1)]]
  }

  lemma OneKeyIsSound(p: Prim)
    ensures var s := OneKey(p);
      Sound(s, OneRank) && IsColumn(s, Ref("a", "i")) && !HasFk(s, "a", "i") && PkSet(s["a"]) == {"i"} && Ordered(s, ["a"]) && Lists(["a"], s.Keys)
  {
    var s, order := OneKey(p), ["a"];
    assert PkSet(s["a"]) == {"i"};
    forall i | 0 <= i < |order| ensures TargetsDone(s, order[i], order[..i]) { assert s[order[i]]["i"].ref == None; }
  }

  lemma OneKeyTypes(p: Prim, q: Prim)
    requires Sound(OneKey(p), OneRank) && Sound(OneKey(q), OneRank)
    ensures var o, n := OneKey(p), OneKey(q);
      && ColumnsMigrate(o, n, OneRank, OneRank, "a") && FksMeetKeys(o, n, "a")
      && (TypesConvert(o, n, OneRank, OneRank, "a") <==> Converts(PgType(p), PgType(q)))
  {
    var o, n := OneKey(p), OneKey(q);
    OneKeyIsSound(p);
    OneKeyIsSound(q);
    assert TypeIn(o, OneRank, "a", "i") == PgType(p) && TypeIn(n, OneRank, "a", "i") == PgType(q);
    assert ColumnMigrates(o, n, OneRank, OneRank, "a", "i");
  }

  lemma OneKeyMigrates(p: Prim, q: Prim, orders: map<string, seq<string>>)
    requires Sound(OneKey(p), OneRank) && Sound(OneKey(q), OneRank) && ColumnOrders(OneKey(q), orders)
    ensures Migratable(OneKey(p), OneKey(q), OneRank, OneRank, ["a"], orders) <==> Converts(PgType(p), PgType(q))
  {
    var o, n, order := OneKey(p), OneKey(q), ["a"];
    OneKeyIsSound(p);
    OneKeyIsSound(q);
    OneKeyTypes(p, q);
    assert order[0] == "a" && ReleasesFree(o, n, OneRank, OneRank, order[..0], "a");
    assert TableMigrates(o, n, OneRank, OneRank, order[..0], order[0], orders[order[0]]) <==> Converts(PgType(p), PgType(q));
  }

  /** What the database converts without being told how, kind by kind: a text takes every value,
      a number or a date takes its own kind. */
  lemma PrimsConvert(p: Prim, q: Prim)
    ensures Converts(PgType(p), PgType(q)) <==> q.StringPrim? || q.OtherPrim? || p == q
  {
  }

  /** One table whose key is a column of this type, in the database. */
  ghost predicate HasOneKey(db: Db, p: Prim) {
    && db.Keys == {"a"} && db["a"].cols.Keys == {"i"} && db["a"].fks == map[] && db["a"].pk == {"i"}
    && IsTypeOf(p, db["a"].cols["i"].ty) && !db["a"].cols["i"].serial
  }

  lemma OneKeyDatabase(p: Prim, db: Db)
    requires HasOneKey(db, p)
    ensures IsDatabaseOf(OneKey(p), db)
  {
    var s := OneKey(p);
    assert s.Keys == {"a"} && s["a"].Keys == {"i"} && s["a"]["i"] == Column(None, p, false, true, 1);
    assert ColumnDeclared(s["a"]["i"], db["a"].cols["i"], db);
    assert TableDeclared(s["a"], db["a"], db);
  }

  /** The delta script is right exactly when the new type is a text or the type stays: a number
      or a date becomes a text, a text becomes neither of them, nor one of them the other. */
  lemma TypeChangeDelta(p: Prim, q: Prim, orders: map<string, seq<string>>, db: Db)
    requires ColumnOrders(OneKey(q), orders) && HasOneKey(db, p)
    ensures var r := Run(db, Delta(OneKey(p), OneKey(q), ["a"], orders).stmts);
      (r.Some? && Declares(OneKey(q), r.value)) <==> q.StringPrim? || q.OtherPrim? || p == q
  {
    OneKeyIsSound(p);
    OneKeyIsSound(q);
    OneKeyMigrates(p, q, orders);
    PrimsConvert(p, q);
    OneKeyDatabase(p, db);
    DeltaDeclares(OneKey(p), OneKey(q), OneRank, OneRank, ["a"], orders, db);
  }

  function KeyDatabase(ty: SqlType): Db {
    map["a" := TableState(map["i" := ColState(ty, false)], map[], {"i"})]
  }

  lemma KeyDatabaseHasOneKey(p: Prim, ty: SqlType)
    requires IsTypeOf(p, ty)
    ensures HasOneKey(KeyDatabase(ty), p)
  {
    var db := KeyDatabase(ty);
    assert db["a"].cols == map["i" := ColState(ty, false)];
  }

  /** The script for the change of type, run on the database with that key, works. */
  ghost predicate TypeCanChange(ty: SqlType, p: Prim, q: Prim, orders: map<string, seq<string>>)
    requires ColumnOrders(OneKey(q), orders)
  {
    var r := Run(KeyDatabase(ty), Delta(OneKey(p), OneKey(q), ["a"], orders).stmts);
    r.Some? && Declares(OneKey(q), r.value)
  }

  /** A key of 20 characters becomes neither a number nor a date; a number becomes such a text. */
  lemma TwentyCharacters(orders: map<string, seq<string>>)
    requires ColumnOrders(OneKey(IntPrim), orders) && ColumnOrders(OneKey(DatePrim), orders) && ColumnOrders(OneKey(StringPrim(20)), orders)
    ensures !TypeCanChange(Varchar(20), StringPrim(20), IntPrim, orders)
    ensures !TypeCanChange(Varchar(20), StringPrim(20), DatePrim, orders)
    ensures TypeCanChange(Integer, IntPrim, StringPrim(20), orders)
  {
    KeyDatabaseHasOneKey(StringPrim(20), Varchar(20));
    KeyDatabaseHasOneKey(IntPrim, Integer);
    TypeChangeDelta(StringPrim(20), IntPrim, orders, KeyDatabase(Varchar(20)));
    TypeChangeDelta(StringPrim(20), DatePrim, orders, KeyDatabase(Varchar(20)));
    TypeChangeDelta(IntPrim, StringPrim(20), orders, KeyDatabase(Integer));
  }

  lemma OneTableDelta(o: Schema, n: Schema, orders: map<string, seq<string>>, right: bool)
    requires Sound(o, OneRank) && Sound(n, OneRank) && Ordered(n, ["a"]) && Lists(["a"], n.Keys) && ColumnOrders(n, orders)
    requires Migratable(o, n, OneRank, OneRank, ["a"], orders) <==> right
    ensures Yields(Run(Deployed(o, OneRank), Delta(o, n, ["a"], orders).stmts), n, OneRank) <==> right
  {
    DeltaMigratesIff(o, n, OneRank, OneRank, ["a"], orders);
  }

  // ---- a dropped column that is still referenced -------------------------------

  function Plain(line: int): Column {
    Column(None, IntPrim, false, false, line)
  }

  function Key(line: int): Column {
    Column(None, IntPrim, false, true, line)
  }

  /** Table `u` has a foreign key at the key k of table `t`. */
  function Referencing(t: string, u: string): Schema {
    map[t := map["k" := Key(2), "x" := Plain(3)], u := map["c" := Column(Some(Ref(t, "k")), IntPrim, false, false, 5), "x" := Key(6)]]
  }

  /** Both columns are gone, and x is the key. */
  function Unrelated(t: string, u: string): Schema {
    map[t := map["x" := Key(3)], u := map["x" := Key(6)]]
  }

  lemma ExamplesAreSound(t: string, u: string)
    requires t != u
    ensures Sound(Referencing(t, u), map[t := 0, u := 1]) && Sound(Unrelated(t, u), map[t := 0, u := 0])
  {
    var s, rank := Referencing(t, u), map[t := 0, u := 1];
    forall v, c {:trigger HasFk(s, v, c)} | HasFk(s, v, c) ensures var r := s[v][c].ref.value; Migration.IsColumn(s, r) && rank[r.table] < rank[v] {
      assert v == u && c == "c";
    }
  }

  lemma ReleasesComeLastIff(t: string, u: string)
    requires t != u && Sound(Referencing(t, u), map[t := 0, u := 1]) && Sound(Unrelated(t, u), map[t := 0, u := 0])
    ensures var o, n, ro, rn := Referencing(t, u), Unrelated(t, u), map[t := 0, u := 1], map[t := 0, u := 0];
      && (ReleasesComeLast(o, n, ro, rn, rn, t) <==> StrLe(u, t))
      && ReleasesComeLast(o, n, ro, rn, rn, u)
  {
    var o, n, ro, rn := Referencing(t, u), Unrelated(t, u), map[t := 0, u := 1], map[t := 0, u := 0];
    assert HasFk(o, u, "c") && o[u]["c"].ref.value == Ref(t, "k") && Releases(o, n, ro, rn, t, "k");
    assert Earlier(rn, u, t) <==> StrLe(u, t);
    forall v, c {:trigger HasFk(o, v, c)} | HasFk(o, v, c) ensures v == u && c == "c" {
    }
  }

  lemma UnrelatedTableMigrates(t: string, u: string, v: string)
    requires t != u && (v == t || v == u)
    ensures Sound(Referencing(t, u), map[t := 0, u := 1]) && Sound(Unrelated(t, u), map[t := 0, u := 0])
    ensures var o, n := Referencing(t, u), Unrelated(t, u);
      && ColumnsMigrate(o, n, map[t := 0, u := 1], map[t := 0, u := 0], v) && KeyCanChange(o[v], n[v])
      && FksMeetKeys(o, n, v) && TypesConvert(o, n, map[t := 0, u := 1], map[t := 0, u := 0], v)
  {
    ExamplesAreSound(t, u);
    var o, n := Referencing(t, u), Unrelated(t, u);
    assert IsColumn(o, Ref(v, "x")) && IsColumn(n, Ref(v, "x")) && !HasFk(o, v, "x") && !HasFk(n, v, "x");
    assert PkSet(n[v]) == {"x"};
  }

  lemma UnrelatedCanMigrate(t: string, u: string)
    requires t != u
    ensures var o, n, ro, rn := Referencing(t, u), Unrelated(t, u), map[t := 0, u := 1], map[t := 0, u := 0];
      Sound(o, ro) && Sound(n, rn) && (CanMigrate(o, n, ro, rn, rn) <==> StrLe(u, t))
  {
    var o, n, ro, rn := Referencing(t, u), Unrelated(t, u), map[t := 0, u := 1], map[t := 0, u := 0];
    UnrelatedTableMigrates(t, u, t);
    UnrelatedTableMigrates(t, u, u);
    ReleasesComeLastIff(t, u);
    assert n.Keys == {t, u};
    if CanMigrate(o, n, ro, rn, rn) { assert TableCanMigrate(o, n, ro, rn, rn, t); }
  }

  /** When a key column goes together with the foreign key at it, the delta script is right
      exactly when the referencing table comes first by name: otherwise the key is dropped
      while it is still referenced. */
  lemma DroppedTargetDelta(t: string, u: string, order: seq<string>, orders: map<string, seq<string>>)
    requires t != u && ByDepthAndName(map[t := 0, u := 0], order) && Lists(order, {t, u}) && LineOrders(Unrelated(t, u), orders)
    ensures var o, n, ro, rn := Referencing(t, u), Unrelated(t, u), map[t := 0, u := 1], map[t := 0, u := 0];
      && Sound(o, ro) && Sound(n, rn)
      && (Yields(Run(Deployed(o, ro), Delta(o, n, order, orders).stmts), n, rn) <==> StrLe(u, t))
  {
    var o, n, ro, rn := Referencing(t, u), Unrelated(t, u), map[t := 0, u := 1], map[t := 0, u := 0];
    UnrelatedCanMigrate(t, u);
    assert n.Keys == {t, u};
    NamesAreDistinct(rn, order);
    DepthOrderIsOrdered(n, rn, order);
    CanMigrateIff(o, n, ro, rn, rn, order, orders);
    DeltaMigratesIff(o, n, ro, rn, order, orders);
  }

  // ---- two tables on one line --------------------------------------------------

  const TwoTables: Model := map["a" := Relation(map["i" := Key(2)], 1), "b" := Relation(map["i" := Key(3)], 1)]

  const TwoRanks: map<string, nat> := map["a" := 0, "b" := 0]

  lemma NoReferences(t: string)
    requires t in TwoTables
    ensures GraphOf(TwoTables).refs[t] == {}
  {
    assert AttrsOf(TwoTables[t]).Keys == {"i"} && AttrsOf(TwoTables[t])["i"].ref == None;
  }

  lemma TwoTablesAreRanked()
    ensures Ranked(GraphOf(TwoTables), TwoRanks)
  {
    forall t, r | t in GraphOf(TwoTables).refs && r in GraphOf(TwoTables).refs[t] ensures false { NoReferences(t); }
  }

  lemma NoDepth(depth: map<string, nat>, t: string)
    requires IsDepthMap(GraphOf(TwoTables), depth) && t in TwoTables
    ensures depth[t] == 0
  {
    NoReferences(t);
    assert IsDepth(GraphOf(TwoTables), depth, t, depth[t]);
  }

  lemma TwoTablesShareALine(depth: map<string, nat>)
    requires IsDepthMap(GraphOf(TwoTables), depth)
    ensures depth.Keys == TwoTables.Keys && !RelationsHaveOwnLines(TwoTables, depth)
  {
    NoDepth(depth, "a");
    NoDepth(depth, "b");
    assert ShareLine(TwoTables, depth, "a", "b");
    assert !HasOwnLine(TwoTables, depth, "a");
  }

  /** One of two tables on one line is created twice and the other not at all: the script does
      not deploy the model. */
  method TwoTablesAreNotDeployed(view: ScriptView)
    requires view.out == []
    modifies view
    ensures Ranked(GraphOf(TwoTables), TwoRanks)
    ensures var depth := Depths(GraphOf(TwoTables), TwoRanks);
      Sound(Tables(TwoTables), depth) && Run(map[], view.out) != Some(Deployed(Tables(TwoTables), depth))
  {
    TwoTablesAreRanked();
    TwoTablesShareALine(Depths(GraphOf(TwoTables), TwoRanks));
    ghost var order, orders := GenerateDatabaseScriptCreate(view, TwoTables, TwoRanks);
  }

  // ---- a table without a key ---------------------------------------------------

  /** One table with one column, which is neither a key nor a foreign key. */
  const NoKey: Model := map["t" := Relation(map["i" := Plain(2)], 1)]

  lemma NoKeyIsRanked()
    ensures Ranked(GraphOf(NoKey), map["t" := 0]) && Tables(NoKey) == map["t" := map["i" := Plain(2)]] && !HasConstraint(map["i" := Plain(2)])
  {
    var attrs := map["i" := Plain(2)];
    assert AttrsOf(NoKey["t"]) == attrs && GraphOf(NoKey).refs["t"] == {};
    assert "i" in attrs && attrs != map[] && forall c | c in attrs :: c == "i";
  }

  lemma OneLineIsOwn(depth: map<string, nat>)
    requires depth.Keys == NoKey.Keys
    ensures RelationsHaveOwnLines(NoKey, depth) && AllOwnLines(Tables(NoKey))
  {
    NoKeyIsRanked();
  }

  /** No line is shared, and the script still does not deploy the model: the text of its one
      statement ends in a comma too many. */
  method NoKeyIsNotDeployed(view: ScriptView)
    requires view.out == []
    modifies view
    ensures Ranked(GraphOf(NoKey), map["t" := 0])
    ensures var depth := Depths(GraphOf(NoKey), map["t" := 0]);
      && Sound(Tables(NoKey), depth) && RelationsHaveOwnLines(NoKey, depth) && AllOwnLines(Tables(NoKey))
      && Run(map[], view.out) != Some(Deployed(Tables(NoKey), depth))
  {
    NoKeyIsRanked();
    ghost var order, orders := GenerateDatabaseScriptCreate(view, NoKey, map["t" := 0]);
    OneLineIsOwn(Depths(GraphOf(NoKey), map["t" := 0]));
    assert !AllHaveConstraints(Tables(NoKey)) by { assert "t" in Tables(NoKey); }
  }

  lemma OneColumnText(def: ColumnDef)
    ensures TableText([def], [], []) == [Of(ColumnItem(def)), Comma, Newline] && Read(TableText([def], [], [])) == None
  {
    ColumnIsAppended([], def);
    assert [] + [def] == [def];
    assert KeyText([]) == [] && FksText([]) == [];
    TextReads([def], [], []);
  }

  /** The text itself. */
  lemma NoKeyText()
    ensures var r := CreateColumns("t", NoKey["t"].attrs, ["i"], map[]);
      && TableText(r.defs, r.pk, r.fks) == [Of(ColumnItem(ColumnDef("i", Typed(Integer)))), Comma, Newline]
      && Read(TableText(r.defs, r.pk, r.fks)) == None
  {
    var r := CreateColumns("t", NoKey["t"].attrs, ["i"], map[]);
    assert ["i"][..0] == [];
    assert CreateColumns("t", NoKey["t"].attrs, [], map[]) == Created([], [], [], map[]);
    assert r.defs == [ColumnDef("i", Typed(Integer))] && r.pk == [] && r.fks == [];
    OneColumnText(ColumnDef("i", Typed(Integer)));
  }
}
