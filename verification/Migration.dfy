/** The delta script between two versions of a relational model, run against the deployed
    old version: exactly when it works, and that it then yields the new version. */
module Migration {
  import opened Ordering
  import opened TableDepth
  import opened SqlScript
  import opened TableChange
  import opened RetainedTable

  /** A model all of whose types are tables. */
  type Schema = map<string, Attrs>

  predicate HasFk(s: Schema, t: string, c: string) {
    t in s && c in s[t] && s[t][c].ref.Some?
  }

  predicate IsColumn(s: Schema, r: Ref) {
    r.table in s && r.column in s[r.table]
  }

  /** Every foreign key points at an existing column of a table of lower rank. */
  ghost predicate Sound(s: Schema, rank: map<string, nat>) {
    && s.Keys <= rank.Keys
    && forall t, c {:trigger HasFk(s, t, c)} | HasFk(s, t, c) ::
         var r := s[t][c].ref.value; IsColumn(s, r) && rank[r.table] < rank[t]
  }

  /** The column at the end of the chain of references from `r`. */
  function RootOf(s: Schema, rank: map<string, nat>, r: Ref): (root: Ref)
    requires Sound(s, rank) && IsColumn(s, r)
    ensures IsColumn(s, root) && !HasFk(s, root.table, root.column)
    decreases rank[r.table]
  {
    if HasFk(s, r.table, r.column) then RootOf(s, rank, s[r.table][r.column].ref.value) else r
  }

  function BaseType(c: Column): SqlType {
    if c.autoInc then BigInt else PgType(c.prim)
  }

  function RootType(s: Schema, rank: map<string, nat>, r: Ref): SqlType
    requires Sound(s, rank) && IsColumn(s, r)
  {
    var root := RootOf(s, rank, r);
    BaseType(s[root.table][root.column])
  }

  // ---- the deployed schema of a version ----------------------------------------

  function DeployedCol(s: Schema, rank: map<string, nat>, t: string, c: string): ColState
    requires Sound(s, rank) && IsColumn(s, Ref(t, c))
  {
    var col := s[t][c];
    if HasFk(s, t, c) then ColState(RootType(s, rank, col.ref.value), false)
    else ColState(BaseType(col), col.autoInc)
  }

  function DeployedTable(s: Schema, rank: map<string, nat>, t: string): TableState
    requires Sound(s, rank) && t in s
  {
    TableState(map c | c in s[t] :: DeployedCol(s, rank, t, c), FkMap(s[t]), PkSet(s[t]))
  }

  function Deployed(s: Schema, rank: map<string, nat>): Db
    requires Sound(s, rank)
  {
    map t | t in s :: DeployedTable(s, rank, t)
  }

  // ---- the script --------------------------------------------------------------

  function DeltaTable(old_: Schema, new_: Schema, t: string, names: seq<string>, types: Types): Change
    requires t in new_ && forall c | c in names :: c in new_[t]
  {
    if t in old_ then ModifyTable(t, old_[t], new_[t], types)
    else
      var r := CreateColumns(t, new_[t], names, types);
      Change([CreateStmt(t, r)], r.types)
  }

  /** The order in which the columns of each new table are written. */
  ghost predicate ColumnOrders(s: Schema, orders: map<string, seq<string>>) {
    forall t | t in s :: t in orders && (forall c | c in orders[t] :: c in s[t]) && (Distinct(orders[t]) ==> Lists(orders[t], s[t].Keys))
  }

  ghost function Delta(old_: Schema, new_: Schema, order: seq<string>, orders: map<string, seq<string>>): Change
    requires (forall t | t in order :: t in new_) && ColumnOrders(new_, orders)
    decreases |order|
  {
    if order == [] then Change([], map[])
    else
      var init, t := order[..|order| - 1], order[|order| - 1];
      var r := Delta(old_, new_, init, orders);
      var next := DeltaTable(old_, new_, t, orders[t], r.types);
      Change(r.stmts + next.stmts, next.types)
  }

  // ---- the types the script records --------------------------------------------

  predicate IsRetained(old_: Schema, q: Ref) { IsColumn(old_, q) }

  /** The type recorded for a column that is not a foreign key. */
  function RootRecord(old_: Schema, new_: Schema, q: Ref): SqlType
    requires IsColumn(new_, q)
  {
    var n := new_[q.table][q.column];
    if IsRetained(old_, q) then ChangedRecord(old_[q.table][q.column], n, map[]) else RecordOf(n, map[])
  }

  function Record(old_: Schema, new_: Schema, rank: map<string, nat>, q: Ref): SqlType
    requires Sound(new_, rank) && IsColumn(new_, q)
  {
    RootRecord(old_, new_, RootOf(new_, rank, q))
  }

  /** A retained autoincrement column is recorded with its plain type, unless the change is
      only that it became one. */
  predicate RecordedRight(old_: Schema, new_: Schema, root: Ref)
    requires IsColumn(new_, root)
  {
    var n := new_[root.table][root.column];
    n.autoInc && IsRetained(old_, root) ==>
      var o := old_[root.table][root.column]; o.ref.None? && !o.autoInc && PgType(o.prim) == PgType(n.prim)
  }

  lemma RecordedRightIff(old_: Schema, new_: Schema, root: Ref)
    requires IsColumn(new_, root) && !HasFk(new_, root.table, root.column)
    ensures RootRecord(old_, new_, root) == BaseType(new_[root.table][root.column]) <==> RecordedRight(old_, new_, root)
  {
  }

  function AllRecords(old_: Schema, new_: Schema, rank: map<string, nat>): Types
    requires Sound(new_, rank)
  {
    map t, c | t in new_ && c in new_[t] :: Ref(t, c) := Record(old_, new_, rank, Ref(t, c))
  }

  // ---- the schema the script passes through ------------------------------------

  /** A table of the new version as its statements leave it. */
  function FinalTable(old_: Schema, new_: Schema, ro: map<string, nat>, rn: map<string, nat>, t: string): TableState
    requires Sound(old_, ro) && Sound(new_, rn) && t in new_
  {
    if t in old_ then AfterTable(DeployedTable(old_, ro, t), old_[t], new_[t], AllRecords(old_, new_, rn))
    else FreshTable(new_[t], AllRecords(old_, new_, rn))
  }

  function DbAt(old_: Schema, new_: Schema, ro: map<string, nat>, rn: map<string, nat>, done: seq<string>): Db
    requires Sound(old_, ro) && Sound(new_, rn) && forall t | t in done :: t in new_
  {
    map t | t in old_.Keys + (set u | u in done) ::
      if t in done then FinalTable(old_, new_, ro, rn, t) else DeployedTable(old_, ro, t)
  }

  /** The database takes the statements for the table. */
  ghost predicate StepWorks(old_: Schema, new_: Schema, ro: map<string, nat>, rn: map<string, nat>, done: seq<string>, t: string, names: seq<string>)
    requires Sound(old_, ro) && Sound(new_, rn) && t in new_ && forall u | u in done :: u in new_
  {
    var db, types := DbAt(old_, new_, ro, rn, done), AllRecords(old_, new_, rn);
    if t in old_ then
      && (forall c | c in new_[t] :: NextApplies(db, DeployedTable(old_, ro, t), t, old_[t], new_[t], c, types))
      && NoneReferenced(db, t, Released(old_[t], new_[t])) && KeyCanChange(old_[t], new_[t])
    else Distinct(names) && HasConstraint(new_[t]) && TargetsMeet(db, new_[t], types)
  }

  /** The recorded types of the tables written so far. */
  ghost predicate RecordsOf(old_: Schema, new_: Schema, rn: map<string, nat>, done: seq<string>, types: Types)
    requires Sound(new_, rn)
  {
    forall q {:trigger IsColumn(new_, q)} | IsColumn(new_, q) && q.table in done :: Recorded(types, q) == Record(old_, new_, rn, q)
  }
}
