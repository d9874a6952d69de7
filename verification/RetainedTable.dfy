/** The whole change of a table that is in both versions: columns first, then the primary
    key out of the way, then the dropped columns, then the new primary key. */
module RetainedTable {
  import opened Ordering
  import opened TableDepth
  import opened SqlScript
  import opened TableChange

  function DroppedOf(new_: Attrs, names: seq<string>): set<string> {
    set c | c in names && c !in new_
  }

  function Without(ts: TableState, cs: set<string>): TableState {
    TableState(ts.cols - cs, ts.fks - cs, ts.pk)
  }

  ghost predicate NoneReferenced(db: Db, t: string, cs: set<string>) {
    forall c | c in cs :: !ReferencedElsewhere(db, Ref(t, c))
  }

  lemma DropOne(db: Db, ts: TableState, t: string, gone: set<string>, c: string)
    requires c in ts.cols && c !in ts.pk && c !in gone
    ensures ApplyTo(db, Without(ts, gone), DropColumn(t, c)) ==
      if ReferencedElsewhere(db, Ref(t, c)) then None else Some(Without(ts, gone + {c}))
  {
    var mid := Without(ts, gone);
    assert mid.cols - {c} == Without(ts, gone + {c}).cols;
    assert mid.fks - {c} == Without(ts, gone + {c}).fks;
  }

  lemma {:induction false} DropsWithin(t: string, new_: Attrs, names: seq<string>)
    ensures AllWithin(t, DropColumns(t, new_, names))
    decreases |names|
  {
    if names != [] { DropsWithin(t, new_, names[..|names| - 1]); }
  }

  /** Dropping works exactly when no other table's foreign key still points at a dropped column. */
  lemma {:induction false} DropColumnsRun(db: Db, ts: TableState, t: string, new_: Attrs, names: seq<string>)
    requires Distinct(names) && (forall c | c in names && c !in new_ :: c in ts.cols && c !in ts.pk)
    ensures RunTable(db, ts, DropColumns(t, new_, names)) ==
      if NoneReferenced(db, t, DroppedOf(new_, names)) then Some(Without(ts, DroppedOf(new_, names))) else None
    decreases |names|
  {
    if names == [] {
      assert DroppedOf(new_, names) == {};
      assert Without(ts, {}) == ts;
    } else {
      var init, c := names[..|names| - 1], names[|names| - 1];
      assert names == init + [c] && c !in init;
      DropColumnsRun(db, ts, t, new_, init);
      var gone := DroppedOf(new_, init);
      if c in new_ {
        assert DroppedOf(new_, names) == gone;
        assert DropColumns(t, new_, init) + [] == DropColumns(t, new_, init);
      } else {
        assert DroppedOf(new_, names) == gone + {c};
        RunTableConcat(db, ts, DropColumns(t, new_, init), [DropColumn(t, c)]);
        RunTableOne(db, Without(ts, gone), DropColumn(t, c));
        DropOne(db, ts, t, gone, c);
      }
    }
  }

  lemma {:induction false} KeyColumnsAre(attrs: Attrs, names: seq<string>)
    requires forall c | c in names :: c in attrs
    ensures forall k :: k in KeyColumns(attrs, names) <==> k in names && attrs[k].pk
    decreases |names|
  {
    if names != [] {
      KeyColumnsAre(attrs, names[..|names| - 1]);
      assert names == names[..|names| - 1] + [names[|names| - 1]];
    }
  }

  /** The key columns are written in name order, each once. */
  lemma {:induction false} KeyColumnsCover(attrs: Attrs)
    ensures var ks := KeyColumns(attrs, SortedStrings(attrs.Keys));
      (set k | k in ks) == PkSet(attrs) && (ks == [] <==> PkSet(attrs) == {})
  {
    KeyColumnsAre(attrs, SortedStrings(attrs.Keys));
    var ks := KeyColumns(attrs, SortedStrings(attrs.Keys));
    assert forall k :: k in ks <==> k in PkSet(attrs);
    if ks != [] { assert ks[0] in PkSet(attrs); }
  }

  /** The table as the script leaves it. */
  function AfterTable(was: TableState, old_: Attrs, new_: Attrs, types: Types): TableState
    requires was.cols.Keys == old_.Keys
  {
    TableState(
      map c | c in new_ :: ColAfter(was, old_, new_, c, types),
      map c | c in new_ && FkAfter(old_, new_, c).Some? :: FkAfter(old_, new_, c).value,
      PkSet(new_))
  }

  function Dropped(old_: Attrs, new_: Attrs): set<string> {
    old_.Keys - new_.Keys
  }

  /** The key is taken away: a column that was the whole of it, and is not any more. */
  predicate LosesKey(old_: Attrs, new_: Attrs, c: string) {
    PkSet(old_) == {c} && PkSet(new_) != {c}
  }

  /** The columns no foreign key elsewhere may point at any more. */
  function Released(old_: Attrs, new_: Attrs): set<string> {
    set c | c in old_ && (c !in new_ || LosesKey(old_, new_, c))
  }

  lemma ReleasedFree(db: Db, t: string, old_: Attrs, new_: Attrs)
    ensures NoneReferenced(db, t, Released(old_, new_)) <==>
      NoneReferenced(db, t, Dropped(old_, new_)) && (PkSet(old_) != PkSet(new_) ==> !KeyInUse(db, t, PkSet(old_)))
  {
    if PkSet(old_) != PkSet(new_) && KeyInUse(db, t, PkSet(old_)) {
      var k :| k in PkSet(old_) && PkSet(old_) == {k} && ReferencedElsewhere(db, Ref(t, k));
      assert LosesKey(old_, new_, k) && k in Released(old_, new_);
    }
    forall c | c in Released(old_, new_) && c in new_ ensures PkSet(old_) != PkSet(new_) && c in PkSet(old_) {
      assert LosesKey(old_, new_, c);
    }
  }

  /** A primary key that changes must not become empty: the script would add one of no columns. */
  predicate KeyCanChange(old_: Attrs, new_: Attrs) {
    PkSet(old_) == PkSet(new_) || PkSet(new_) != {}
  }

  lemma DroppedAre(old_: Attrs, new_: Attrs)
    ensures DroppedOf(new_, SortedStrings(old_.Keys)) == Dropped(old_, new_)
  {
  }

  lemma SettledTable(was: TableState, now: TableState, old_: Attrs, new_: Attrs, names: seq<string>, types: Types)
    requires HasShape(was, old_) && Lists(names, new_.Keys) && ColumnsChanged(was, now, old_, new_, names, types)
    ensures now.cols - Dropped(old_, new_) == AfterTable(was, old_, new_, types).cols
    ensures now.fks - Dropped(old_, new_) == AfterTable(was, old_, new_, types).fks
  {
  }

  lemma DropKeyRuns(db: Db, now: TableState, t: string, newKey: set<string>)
    ensures RunTable(db, now, DropKey(t, now.pk, newKey)) ==
      if now.pk != newKey && KeyInUse(db, t, now.pk) then None else Some(now.(pk := if now.pk != newKey then {} else now.pk))
  {
    if now.pk != newKey && now.pk != {} { RunTableOne(db, now, DropPk(t)); }
  }

  lemma AddKeyRuns(db: Db, bare: TableState, t: string, oldKey: set<string>, newKey: set<string>, ks: seq<string>)
    requires bare.pk == (if oldKey != newKey then {} else oldKey)
    requires (set k | k in ks) == newKey && (ks == [] <==> newKey == {}) && newKey <= bare.cols.Keys
    ensures RunTable(db, bare, AddKey(t, oldKey, newKey, ks)) ==
      if oldKey == newKey || newKey != {} then Some(bare.(pk := newKey)) else None
  {
    if oldKey != newKey {
      RunTableOne(db, bare, AddPk(t, ks));
      assert forall k | k in ks :: k in newKey;
    }
  }

  /** From the columns on: the key and the drops. */
  lemma KeyAndDropsRun(db: Db, now: TableState, t: string, old_: Attrs, new_: Attrs)
    requires now.pk == PkSet(old_) && now.cols.Keys == old_.Keys + new_.Keys
    ensures RunTable(db, now, ModifyKey(t, old_, new_)) ==
      if NoneReferenced(db, t, Released(old_, new_)) && KeyCanChange(old_, new_)
      then Some(Without(now, Dropped(old_, new_)).(pk := PkSet(new_))) else None
  {
    var oldKey, newKey := PkSet(old_), PkSet(new_);
    var ks := KeyColumns(new_, SortedStrings(new_.Keys));
    var a, b, c := DropKey(t, oldKey, newKey), DropColumns(t, new_, SortedStrings(old_.Keys)), AddKey(t, oldKey, newKey, ks);
    ReleasedFree(db, t, old_, new_);
    DropKeyRuns(db, now, t, newKey);
    RunTableConcat(db, now, a, b);
    RunTableConcat(db, now, a + b, c);
    if !(oldKey != newKey && KeyInUse(db, t, oldKey)) {
      var noKey := now.(pk := if oldKey != newKey then {} else oldKey);
      DroppedAre(old_, new_);
      DropColumnsRun(db, noKey, t, new_, SortedStrings(old_.Keys));
      KeyColumnsCover(new_);
      AddKeyRuns(db, Without(noKey, Dropped(old_, new_)), t, oldKey, newKey, ks);
    }
  }

  /** The statements of a retained table can be applied exactly when the database takes those
      of every column, no foreign key elsewhere points at a column that is dropped or loses the
      key, and a changed key is not empty; then they leave the table with the new columns,
      foreign keys and primary key. */
  lemma ModifyTableRuns(db: Db, ts: TableState, t: string, old_: Attrs, new_: Attrs, types: Types)
    requires HasShape(ts, old_) && PointsAway(t, new_)
    ensures RunTable(db, ts, ModifyTable(t, old_, new_, types).stmts) ==
      if (forall c | c in new_ :: NextApplies(db, ts, t, old_, new_, c, types))
         && NoneReferenced(db, t, Released(old_, new_)) && KeyCanChange(old_, new_)
      then Some(AfterTable(ts, old_, new_, types)) else None
  {
    var names := SortedStrings(new_.Keys);
    var now := ModifyColumnsRun(db, ts, t, old_, new_, names, types);
    ColumnsOfBoth(ts, now, old_, new_, names, types);
    KeyAndDropsRun(db, now, t, old_, new_);
    SettledTable(ts, now, old_, new_, names, types);
    RunTableConcat(db, ts, ModifyColumns(t, old_, new_, names, types).stmts, ModifyKey(t, old_, new_));
    assert ColumnsApply(db, ts, t, old_, new_, names, types) <==> forall c | c in new_ :: NextApplies(db, ts, t, old_, new_, c, types);
  }

  lemma ColumnsOfBoth(was: TableState, now: TableState, old_: Attrs, new_: Attrs, names: seq<string>, types: Types)
    requires HasShape(was, old_) && Lists(names, new_.Keys) && ColumnsChanged(was, now, old_, new_, names, types)
    ensures now.pk == PkSet(old_) && now.cols.Keys == old_.Keys + new_.Keys
  {
  }

  lemma ModifyKeyWithin(t: string, old_: Attrs, new_: Attrs)
    ensures AllWithin(t, ModifyKey(t, old_, new_))
  {
    DropsWithin(t, new_, SortedStrings(old_.Keys));
  }

  lemma ModifyTableWithin(db: Db, ts: TableState, t: string, old_: Attrs, new_: Attrs, types: Types)
    requires HasShape(ts, old_) && PointsAway(t, new_)
    ensures AllWithin(t, ModifyTable(t, old_, new_, types).stmts)
  {
    var _ := ModifyColumnsRun(db, ts, t, old_, new_, SortedStrings(new_.Keys), types);
    ModifyKeyWithin(t, old_, new_);
  }

  lemma ModifyTableRecords(t: string, old_: Attrs, new_: Attrs, types: Types)
    requires PointsAway(t, new_)
    ensures ModifyRecorded(ModifyTable(t, old_, new_, types).types, types, t, old_, new_, SortedStrings(new_.Keys))
  {
    ModifyRecords(t, old_, new_, SortedStrings(new_.Keys), types);
  }
}
