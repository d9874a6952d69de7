/** SQL scripts as lists of statements, what applying a statement to a schema does, and
    what the generator emits for a column, a table and a change of a table
    (pkg/database/postgres.go, databasescriptview.go). */
module SqlScript {
  import opened Ordering
  import opened TableDepth

  /** `Missing` is the empty text a failed lookup of a recorded type yields. */
  datatype SqlType = Missing | BigInt | Integer | Date | Varchar(size: int)

  datatype Spec = Typed(ty: SqlType) | BigSerial

  datatype ColumnDef = ColumnDef(name: string, spec: Spec)
  datatype FkDef = FkDef(column: string, ref: Ref)

  datatype Stmt =
    | CreateTable(table: string, defs: seq<ColumnDef>, pk: seq<string>, fks: seq<FkDef>)
    | AddColumn(table: string, def: ColumnDef)
    | AddFk(table: string, fk: FkDef)
    | DropFk(table: string, column: string)
    | AlterType(table: string, column: string, ty: SqlType)
    | DropPk(table: string)
    | DropColumn(table: string, column: string)
    | AddPk(table: string, pk: seq<string>)
    | CreateSequence(table: string, column: string)
    | SetDefault(table: string, column: string)
    | OwnSequence(table: string, column: string)
    | SetVal(table: string, column: string)

  // ---- schemas and what statements do to them ----------------------------------

  /** `serial` says the column takes its default from a sequence. */
  datatype ColState = ColState(ty: SqlType, serial: bool)

  /** No primary key is the empty set. */
  datatype TableState = TableState(cols: map<string, ColState>, fks: map<string, Ref>, pk: set<string>)

  type Db = map<string, TableState>

  function StateOf(spec: Spec): ColState {
    match spec
    case Typed(ty) => ColState(ty, false)
    case BigSerial => ColState(BigInt, true)
  }

  predicate HasColumn(db: Db, r: Ref) {
    r.table in db && r.column in db[r.table].cols
  }

  function ColsOf(defs: seq<ColumnDef>): map<string, ColState> {
    if defs == [] then map[]
    else
      var last := defs[|defs| - 1];
      ColsOf(defs[..|defs| - 1])[last.name := StateOf(last.spec)]
  }

  function FksOf(fks: seq<FkDef>): map<string, Ref> {
    if fks == [] then map[]
    else
      var last := fks[|fks| - 1];
      FksOf(fks[..|fks| - 1])[last.column := last.ref]
  }

  predicate DistinctNames(defs: seq<ColumnDef>) {
    forall i, j | 0 <= i < j < |defs| :: defs[i].name != defs[j].name
  }

  /** Some foreign key of another table points at the column. */
  predicate ReferencedElsewhere(db: Db, r: Ref) {
    exists t, c :: t in db && t != r.table && c in db[t].fks && db[t].fks[c] == r
  }

  /** Numbers, texts and dates are each compared among themselves only. */
  predicate Fits(a: SqlType, b: SqlType) {
    match a
    case Missing => false
    case BigInt => b.BigInt? || b.Integer?
    case Integer => b.BigInt? || b.Integer?
    case Date => b.Date?
    case Varchar(_) => b.Varchar?
  }

  /** What ALTER ... TYPE converts by itself: everything can be written as a text. */
  predicate Converts(a: SqlType, b: SqlType) {
    Fits(a, b) || (!a.Missing? && b.Varchar?)
  }

  /** The column is the whole primary key of its table. */
  predicate IsKey(db: Db, r: Ref) {
    HasColumn(db, r) && db[r.table].pk == {r.column}
  }

  /** A column of type `ty` can get a foreign key at `r`. */
  predicate CanRefer(db: Db, ty: SqlType, r: Ref) {
    IsKey(db, r) && Fits(ty, db[r.table].cols[r.column].ty)
  }

  /** The foreign keys of other tables at the column allow it to be of type `ty`. */
  predicate RefsFit(db: Db, r: Ref, ty: SqlType) {
    forall t, c | t in db && t != r.table && c in db[t].fks && db[t].fks[c] == r :: c in db[t].cols && Fits(db[t].cols[c].ty, ty)
  }

  /** The column, and the default it takes from a sequence if it does, can be of type `ty`. */
  predicate CanConvert(db: Db, col: ColState, r: Ref, ty: SqlType) {
    Converts(col.ty, ty) && (col.serial ==> Converts(BigInt, ty)) && RefsFit(db, r, ty)
  }

  /** What the column itself refers to allows it too; a table does not refer to itself here. */
  predicate OwnRefFits(db: Db, ts: TableState, r: Ref, ty: SqlType) {
    r.column in ts.fks ==>
      var q := ts.fks[r.column]; q.table != r.table && HasColumn(db, q) && Fits(ty, db[q.table].cols[q.column].ty)
  }

  /** Foreign keys of other tables rely on the primary key. */
  predicate KeyInUse(db: Db, t: string, pk: set<string>) {
    exists k :: k in pk && pk == {k} && ReferencedElsewhere(db, Ref(t, k))
  }

  /** Whether the text of the definition can be read: every column is written with a comma
      behind it, and the comma of the last one stays if no constraint follows it
      (CreateText.TextReads). */
  predicate ListEnds(defs: seq<ColumnDef>, pk: seq<string>, fks: seq<FkDef>) {
    defs == [] || pk != [] || fks != []
  }

  predicate Creatable(db: Db, t: string, defs: seq<ColumnDef>, pk: seq<string>, fks: seq<FkDef>) {
    && t !in db && DistinctNames(defs) && ListEnds(defs, pk, fks)
    && (forall k | k in pk :: k in ColsOf(defs))
    && (forall f | f in fks :: f.column in ColsOf(defs) && CanRefer(db, ColsOf(defs)[f.column].ty, f.ref))
  }

  function TableMade(defs: seq<ColumnDef>, pk: seq<string>, fks: seq<FkDef>): TableState {
    TableState(ColsOf(defs), FksOf(fks), set k | k in pk)
  }

  /** None when the statement cannot be applied. */
  function Apply(db: Db, s: Stmt): Option<Db> {
    if s.CreateTable? then
      if Creatable(db, s.table, s.defs, s.pk, s.fks) then Some(db[s.table := TableMade(s.defs, s.pk, s.fks)]) else None
    else if s.table !in db then None
    else
      var ts := db[s.table];
      var next := ApplyTo(db, ts, s);
      if next.Some? then Some(db[s.table := next.value]) else None
  }

  function ApplyTo(db: Db, ts: TableState, s: Stmt): Option<TableState> {
    match s
    case CreateTable(_, _, _, _) => None // the table is there already
    case AddColumn(_, def) =>
      if def.name in ts.cols then None else Some(ts.(cols := ts.cols[def.name := StateOf(def.spec)]))
    case AddFk(_, fk) =>
      if fk.column !in ts.cols || fk.column in ts.fks || !CanRefer(db, ts.cols[fk.column].ty, fk.ref) then None
      else Some(ts.(fks := ts.fks[fk.column := fk.ref]))
    case DropFk(_, c) => if c !in ts.fks then None else Some(ts.(fks := ts.fks - {c}))
    case AlterType(t, c, ty) =>
      if c !in ts.cols || !CanConvert(db, ts.cols[c], Ref(t, c), ty) || !OwnRefFits(db, ts, Ref(t, c), ty) then None
      else Some(ts.(cols := ts.cols[c := ColState(ty, ts.cols[c].serial)]))
    case DropPk(t) => if ts.pk == {} || KeyInUse(db, t, ts.pk) then None else Some(ts.(pk := {}))
    case DropColumn(t, c) =>
      if c !in ts.cols || ReferencedElsewhere(db, Ref(t, c)) then None
      else Some(TableState(ts.cols - {c}, ts.fks - {c}, if c in ts.pk then {} else ts.pk))
    case AddPk(_, pk) =>
      if pk == [] || ts.pk != {} || !(forall k | k in pk :: k in ts.cols) then None
      else Some(ts.(pk := set k | k in pk))
    case SetDefault(_, c) =>
      if c !in ts.cols then None else Some(ts.(cols := ts.cols[c := ColState(ts.cols[c].ty, true)]))
    case CreateSequence(_, c) => IfColumn(ts, c)
    case OwnSequence(_, c) => IfColumn(ts, c)
    case SetVal(_, c) => IfColumn(ts, c)
  }

  function IfColumn(ts: TableState, c: string): Option<TableState> {
    if c in ts.cols then Some(ts) else None
  }

  function Run(db: Db, script: seq<Stmt>): Option<Db>
    decreases |script|
  {
    if script == [] then Some(db)
    else
      var r := Apply(db, script[0]);
      if r.Some? then Run(r.value, script[1..]) else None
  }

  lemma {:induction false} RunConcat(db: Db, a: seq<Stmt>, b: seq<Stmt>)
    ensures Run(db, a + b) == (if Run(db, a).Some? then Run(Run(db, a).value, b) else None)
    decreases |a|
  {
    if a == [] {
      assert a + b == b;
    } else {
      assert (a + b)[0] == a[0] && (a + b)[1..] == a[1..] + b;
      var r := Apply(db, a[0]);
      if r.Some? { RunConcat(r.value, a[1..], b); }
    }
  }

  // ---- what the generator emits ------------------------------------------------

  /** visitedAttributes: the type recorded for each column written so far. */
  type Types = map<Ref, SqlType>

  function Recorded(types: Types, r: Ref): SqlType {
    if r in types then types[r] else Missing
  }

  function PgType(p: Prim): SqlType {
    match p
    case StringPrim(max) => Varchar(if max > 0 then max else 50)
    case IntPrim => Integer
    case DatePrim => Date
    case OtherPrim => Varchar(50)
  }

  /** The type in the database for one of the model, kind by kind. */
  predicate IsTypeOf(p: Prim, ty: SqlType) {
    match p
    case StringPrim(max) => if 0 < max then ty == Varchar(max) else ty == Varchar(50)
    case IntPrim => ty == Integer
    case DatePrim => ty == Date
    case OtherPrim => ty == Varchar(50)
  }

  /** PgType is right, and the only function that is. */
  lemma OneTypeOf(p: Prim, ty: SqlType)
    ensures IsTypeOf(p, ty) <==> ty == PgType(p)
  {
  }

  /** The type a column is created with, and the type recorded for columns that reference it. */
  function SpecOf(c: Column, types: Types): Spec {
    if c.ref.Some? then Typed(Recorded(types, c.ref.value))
    else if c.autoInc then BigSerial
    else Typed(PgType(c.prim))
  }

  function RecordOf(c: Column, types: Types): SqlType {
    if c.ref.Some? then Recorded(types, c.ref.value)
    else if c.autoInc then BigInt
    else PgType(c.prim)
  }

  function FksFor(name: string, c: Column): seq<FkDef> {
    if c.ref.Some? then [FkDef(name, c.ref.value)] else []
  }

  function PkFor(name: string, c: Column): seq<string> {
    if c.pk then [name] else []
  }

  datatype Created = Created(defs: seq<ColumnDef>, pk: seq<string>, fks: seq<FkDef>, types: Types)

  /** The columns of a new table, in the order of `names`. */
  function CreateColumns(t: string, attrs: Attrs, names: seq<string>, types: Types): Created
    requires forall c | c in names :: c in attrs
  {
    if names == [] then Created([], [], [], types)
    else
      var init, c := names[..|names| - 1], names[|names| - 1];
      var r := CreateColumns(t, attrs, init, types);
      var col := attrs[c];
      Created(r.defs + [ColumnDef(c, SpecOf(col, r.types))], r.pk + PkFor(c, col), r.fks + FksFor(c, col),
              r.types[Ref(t, c) := RecordOf(col, r.types)])
  }

  function CreateStmt(t: string, r: Created): Stmt {
    CreateTable(t, r.defs, r.pk, r.fks)
  }

  datatype Change = Change(stmts: seq<Stmt>, types: Types)

  /** A column present before and after. */
  function ModifyColumn(t: string, c: string, o: Column, n: Column, types: Types): Change {
    if n.ref.Some? then
      var ty := Recorded(types, n.ref.value);
      Change(if o.ref.None? then [AlterType(t, c, ty), AddFk(t, FkDef(c, n.ref.value))] else [], types[Ref(t, c) := ty])
    else
      var ty := PgType(n.prim);
      var dropped := if o.ref.Some? then [DropFk(t, c)] else [];
      if o.ref.Some? || ty != PgType(o.prim) then Change(dropped + [AlterType(t, c, ty)], types[Ref(t, c) := ty])
      else if n.autoInc && !o.autoInc then
        Change([CreateSequence(t, c), AlterType(t, c, ty), SetDefault(t, c), OwnSequence(t, c), SetVal(t, c)], types[Ref(t, c) := BigInt])
      else if !n.autoInc && o.autoInc then Change([AlterType(t, c, ty)], types[Ref(t, c) := ty])
      else Change([], types[Ref(t, c) := ty])
  }

  /** A column that is new in a retained table. */
  function AddedColumn(t: string, c: string, n: Column, types: Types): Change {
    Change([AddColumn(t, ColumnDef(c, SpecOf(n, types)))] + (if n.ref.Some? then [AddFk(t, FkDef(c, n.ref.value))] else []),
           types[Ref(t, c) := RecordOf(n, types)])
  }

  /** The columns of the new version, in the order of `names`. */
  function ModifyColumns(t: string, old_: Attrs, new_: Attrs, names: seq<string>, types: Types): Change
    requires forall c | c in names :: c in new_
  {
    if names == [] then Change([], types)
    else
      var init, c := names[..|names| - 1], names[|names| - 1];
      var r := ModifyColumns(t, old_, new_, init, types);
      var next := if c in old_ then ModifyColumn(t, c, old_[c], new_[c], r.types) else AddedColumn(t, c, new_[c], r.types);
      Change(r.stmts + next.stmts, next.types)
  }

  /** The key columns among `names`, in that order. */
  function KeyColumns(attrs: Attrs, names: seq<string>): seq<string>
    requires forall c | c in names :: c in attrs
  {
    if names == [] then []
    else KeyColumns(attrs, names[..|names| - 1]) + PkFor(names[|names| - 1], attrs[names[|names| - 1]])
  }

  function DropColumns(t: string, new_: Attrs, names: seq<string>): seq<Stmt> {
    if names == [] then []
    else
      var c := names[|names| - 1];
      DropColumns(t, new_, names[..|names| - 1]) + (if c in new_ then [] else [DropColumn(t, c)])
  }

  function PkSet(attrs: Attrs): set<string> {
    set c | c in attrs && attrs[c].pk
  }

  /** The old primary key goes if it changes and there was one; the new one comes if it changes. */
  function DropKey(t: string, oldKey: set<string>, newKey: set<string>): seq<Stmt> {
    if oldKey != newKey && oldKey != {} then [DropPk(t)] else []
  }

  function AddKey(t: string, oldKey: set<string>, newKey: set<string>, ks: seq<string>): seq<Stmt> {
    if oldKey != newKey then [AddPk(t, ks)] else []
  }

  /** What follows the columns of a retained table. */
  function ModifyKey(t: string, old_: Attrs, new_: Attrs): seq<Stmt> {
    DropKey(t, PkSet(old_), PkSet(new_))
    + DropColumns(t, new_, SortedStrings(old_.Keys))
    + AddKey(t, PkSet(old_), PkSet(new_), KeyColumns(new_, SortedStrings(new_.Keys)))
  }

  /** The change of a retained table: its columns, then the key if it changed, around the drops. */
  function ModifyTable(t: string, old_: Attrs, new_: Attrs, types: Types): Change {
    var r := ModifyColumns(t, old_, new_, SortedStrings(new_.Keys), types);
    Change(r.stmts + ModifyKey(t, old_, new_), r.types)
  }
}
