/** The generator itself (pkg/database/databasescriptview.go, postgres.go): it appends to one
    output, to lists it is handed by pointer, and to the map of recorded types. */
module ScriptView {
  import opened Ordering
  import opened TableDepth
  import opened SqlScript
  import opened TableChange
  import opened LineOrder
  import opened CreateText
  import opened Migration
  import opened MigrationProofs
  import opened MigrationTheorem

  /** visitedAttributes, shared by all the calls for one script. */
  class TypeMap {
    var types: Types

    constructor ()
      ensures types == map[]
    {
      types := map[];
    }
  }

  /** A list handed over by pointer and appended to. */
  class Appendable<T> {
    var items: seq<T>

    constructor ()
      ensures items == []
    {
      items := [];
    }
  }

  function ColumnLines(attrs: Attrs): map<string, int> {
    map c | c in attrs :: attrs[c].line
  }

  /** No two columns of the table are declared on one line. */
  predicate OwnLines(attrs: Attrs) {
    forall c, d | c in attrs && d in attrs && c != d :: attrs[c].line != attrs[d].line
  }

  // The flags of writeModifySQLForATable, accumulated column by column.

  function PkOf(attrs: Attrs, c: string): bool {
    c in attrs && attrs[c].pk
  }

  function SomeKeyDropped(old_: Attrs, new_: Attrs, names: seq<string>): bool {
    names != [] &&
    (SomeKeyDropped(old_, new_, names[..|names| - 1]) || (names[|names| - 1] !in new_ && PkOf(old_, names[|names| - 1])))
  }

  function SomeKeyChanged(old_: Attrs, new_: Attrs, names: seq<string>): bool {
    names != [] &&
    (SomeKeyChanged(old_, new_, names[..|names| - 1]) || PkOf(old_, names[|names| - 1]) != PkOf(new_, names[|names| - 1]))
  }

  function SomeOldKey(old_: Attrs, names: seq<string>): bool {
    names != [] && (SomeOldKey(old_, names[..|names| - 1]) || PkOf(old_, names[|names| - 1]))
  }

  lemma {:induction false} FlagsAreQuantified(old_: Attrs, new_: Attrs, names: seq<string>)
    ensures SomeKeyDropped(old_, new_, names) <==> exists c :: c in names && c !in new_ && PkOf(old_, c)
    ensures SomeKeyChanged(old_, new_, names) <==> exists c :: c in names && PkOf(old_, c) != PkOf(new_, c)
    ensures SomeOldKey(old_, names) <==> exists c :: c in names && PkOf(old_, c)
    decreases |names|
  {
    if names != [] {
      var init, last := names[..|names| - 1], names[|names| - 1];
      assert names == init + [last];
      FlagsAreQuantified(old_, new_, init);
    }
  }

  /** What writing the columns `names` of a retained table has done. */
  ghost predicate ColumnsWritten(t: string, old_: Attrs, new_: Attrs, names: seq<string>, was: Types, start: seq<Stmt>,
                                 out: seq<Stmt>, types: Types, keys: seq<string>, changed: bool, existed: bool)
    requires forall c | c in names :: c in new_
  {
    var r := ModifyColumns(t, old_, new_, names, was);
    && out == start + r.stmts && types == r.types && keys == KeyColumns(new_, names)
    && changed == SomeKeyChanged(old_, new_, names) && existed == SomeOldKey(old_, names)
  }

  function ColumnGives(t: string, c: string, old_: Attrs, new_: Attrs, types: Types): Change
    requires c in new_
  {
    if c in old_ then ModifyColumn(t, c, old_[c], new_[c], types) else AddedColumn(t, c, new_[c], types)
  }

  /** A type that is set is that of the new primitive, or that of the column referred to. */
  ghost predicate TypesAreNew(n: Column, types: Types, stmts: seq<Stmt>) {
    forall s | s in stmts && s.AlterType? :: if n.ref.None? then IsTypeOf(n.prim, s.ty) else s.ty == Recorded(types, n.ref.value)
  }

  lemma ModifiedTypes(t: string, c: string, o: Column, n: Column, types: Types)
    ensures TypesAreNew(n, types, ModifyColumn(t, c, o, n, types).stmts)
  {
    OneTypeOf(n.prim, PgType(n.prim));
  }

  lemma OneMoreDrop(t: string, new_: Attrs, old_: Attrs, names: seq<string>, i: nat)
    requires i < |names|
    ensures var c := names[i];
      && DropColumns(t, new_, names[..i + 1]) == DropColumns(t, new_, names[..i]) + (if c in new_ then [] else [DropColumn(t, c)])
      && SomeKeyDropped(old_, new_, names[..i + 1]) == (SomeKeyDropped(old_, new_, names[..i]) || (c !in new_ && PkOf(old_, c)))
  {
    assert names[..i + 1][..i] == names[..i];
  }

  lemma OneMoreColumn(t: string, old_: Attrs, new_: Attrs, names: seq<string>, i: nat, was: Types, start: seq<Stmt>,
                      out: seq<Stmt>, types: Types, keys: seq<string>, changed: bool, existed: bool)
    requires i < |names| && (forall c | c in names :: c in new_)
    requires ColumnsWritten(t, old_, new_, names[..i], was, start, out, types, keys, changed, existed)
    ensures var c := names[i];
      var next := ColumnGives(t, c, old_, new_, types);
      ColumnsWritten(t, old_, new_, names[..i + 1], was, start, out + next.stmts, next.types, keys + PkFor(c, new_[c]),
                     changed || PkOf(old_, c) != PkOf(new_, c), existed || PkOf(old_, c))
  {
    assert names[..i + 1][..i] == names[..i];
    AppendTwice(start, ModifyColumns(t, old_, new_, names[..i], was).stmts, ColumnGives(t, names[i], old_, new_, types).stmts);
  }

  class ScriptView {
    var out: seq<Stmt>

    constructor ()
      ensures out == []
    {
      out := [];
    }

    method WriteCreateColumn(col: Column, t: string, c: string, primaryKeys: Appendable<string>, foreignKeys: Appendable<FkDef>, visited: TypeMap)
      returns (def: ColumnDef, isPrimaryKey: bool)
      modifies primaryKeys, foreignKeys, visited
      ensures def == ColumnDef(c, SpecOf(col, old(visited.types))) && isPrimaryKey == col.pk
      ensures primaryKeys.items == old(primaryKeys.items) + PkFor(c, col)
      ensures foreignKeys.items == old(foreignKeys.items) + FksFor(c, col)
      ensures visited.types == old(visited.types)[Ref(t, c) := RecordOf(col, old(visited.types))]
      ensures col.ref.None? && !col.autoInc ==>
        def.spec.Typed? && IsTypeOf(col.prim, def.spec.ty) && visited.types == old(visited.types)[Ref(t, c) := def.spec.ty]
      ensures col.ref.None? && col.autoInc ==> def.spec == BigSerial && visited.types == old(visited.types)[Ref(t, c) := BigInt]
      ensures col.ref.Some? ==>
        && def.spec == Typed(Recorded(old(visited.types), col.ref.value)) && visited.types == old(visited.types)[Ref(t, c) := def.spec.ty]
        && foreignKeys.items == old(foreignKeys.items) + [FkDef(c, col.ref.value)]
    {
      isPrimaryKey := col.pk;
      if isPrimaryKey { primaryKeys.items := primaryKeys.items + [c]; }
      if col.ref.Some? {
        var datatype_ := Recorded(visited.types, col.ref.value);
        def := ColumnDef(c, Typed(datatype_));
        foreignKeys.items := foreignKeys.items + [FkDef(c, col.ref.value)];
        visited.types := visited.types[Ref(t, c) := datatype_];
      } else if col.autoInc {
        def := ColumnDef(c, BigSerial);
        visited.types := visited.types[Ref(t, c) := BigInt];
      } else {
        var datatype_ := PgType(col.prim);
        def := ColumnDef(c, Typed(datatype_));
        visited.types := visited.types[Ref(t, c) := datatype_];
      }
    }

    /** The columns come out of the attribute map in any order and are sorted by line. */
    method ColumnsByLine(attrs: Attrs) returns (names: seq<string>)
      ensures forall c | c in names :: c in attrs
      ensures Distinct(names) <==> OwnLines(attrs)
      ensures Distinct(names) ==> Lists(names, attrs.Keys)
      ensures forall i, j | 0 <= i < j < |names| :: attrs[names[i]].line <= attrs[names[j]].line
    {
      var listed := [];
      var todo := attrs.Keys;
      while todo != {}
        invariant todo <= attrs.Keys && Distinct(listed)
        invariant forall c :: c in listed <==> c in attrs && c !in todo
        decreases todo
      {
        var c :| c in todo; // the runtime's order
        todo := todo - {c};
        listed := listed + [c];
      }
      names := OrderByLine(listed, ColumnLines(attrs));
      ByLineAscends(listed, ColumnLines(attrs));
      AllListedIff(listed, ColumnLines(attrs));
      LinesAreOwn(attrs, listed);
    }

    /** Behind the columns: the primary key, then the foreign keys. */
    method AddConstraints(tableData: seq<Token>, foreignKeys: seq<FkDef>, primaryKeys: seq<string>) returns (text: seq<Token>)
      ensures text == WithConstraints(tableData, primaryKeys, foreignKeys)
    {
      text := tableData;
      if primaryKeys != [] { text := text + [Of(KeyItem(primaryKeys)), Comma]; }
      for i := 0 to |foreignKeys|
        invariant text == WithConstraints(tableData, primaryKeys, foreignKeys[..i])
      {
        FkIsAppended(tableData, primaryKeys, foreignKeys, i);
        text := text + [Newline, Of(FkItem(foreignKeys[i])), Comma];
      }
      assert foreignKeys[..|foreignKeys|] == foreignKeys;
    }

    /** The columns and their constraints, a comma at the very end taken away. */
    method CloseTable(defs: seq<ColumnDef>, tableData: seq<Token>, foreignKeys: seq<FkDef>, primaryKeys: seq<string>) returns (text: seq<Token>)
      requires tableData == ColumnsText(defs)
      ensures text == TableText(defs, primaryKeys, foreignKeys)
      ensures Read(text) == if ListEnds(defs, primaryKeys, foreignKeys) then Some(ItemsOf(defs, primaryKeys, foreignKeys)) else None
    {
      text := AddConstraints(tableData, foreignKeys, primaryKeys);
      if text != [] && text[|text| - 1] == Comma { text := text[..|text| - 1]; }
      TextReads(defs, primaryKeys, foreignKeys);
    }

    method WriteCreateColumns(t: string, attrs: Attrs, attrNames: seq<string>, primaryKeys: Appendable<string>, foreignKeys: Appendable<FkDef>, visited: TypeMap)
      returns (defs: seq<ColumnDef>, tableData: seq<Token>)
      requires (forall c | c in attrNames :: c in attrs) && primaryKeys.items == [] && foreignKeys.items == []
      modifies primaryKeys, foreignKeys, visited
      ensures CreateColumns(t, attrs, attrNames, old(visited.types)) == Created(defs, primaryKeys.items, foreignKeys.items, visited.types)
      ensures tableData == ColumnsText(defs)
    {
      defs, tableData := [], [];
      for i := 0 to |attrNames|
        invariant tableData == ColumnsText(defs)
        invariant CreateColumns(t, attrs, attrNames[..i], old(visited.types)) == Created(defs, primaryKeys.items, foreignKeys.items, visited.types)
      {
        var def, _ := WriteCreateColumn(attrs[attrNames[i]], t, attrNames[i], primaryKeys, foreignKeys, visited);
        ColumnIsAppended(defs, def);
        defs := defs + [def];
        tableData := tableData + [Of(ColumnItem(def)), Comma, Newline];
        assert attrNames[..i + 1][..i] == attrNames[..i];
      }
      assert attrNames[..|attrNames|] == attrNames;
    }

    /** The text written is that of the statement, and can be read as it exactly if the
        columns are followed by a constraint. */
    method WriteCreateTable(t: string, attrs: Attrs, visited: TypeMap) returns (ghost names: seq<string>, text: seq<Token>)
      modifies this, visited
      ensures (forall c | c in names :: c in attrs) && (Distinct(names) <==> OwnLines(attrs)) && (Distinct(names) ==> Lists(names, attrs.Keys))
      ensures var r := CreateColumns(t, attrs, names, old(visited.types));
        && out == old(out) + [CreateStmt(t, r)] && visited.types == r.types && text == TableText(r.defs, r.pk, r.fks)
        && Read(text) == if ListEnds(r.defs, r.pk, r.fks) then Some(ItemsOf(r.defs, r.pk, r.fks)) else None
    {
      var attrNames := ColumnsByLine(attrs);
      names := attrNames;
      var primaryKeys := new Appendable<string>();
      var foreignKeys := new Appendable<FkDef>();
      var defs, tableData := WriteCreateColumns(t, attrs, attrNames, primaryKeys, foreignKeys, visited);
      text := CloseTable(defs, tableData, foreignKeys.items, primaryKeys.items);
      out := out + [CreateTable(t, defs, primaryKeys.items, foreignKeys.items)];
    }

    method WriteModifyColumn(o: Column, n: Column, t: string, c: string, primaryKeys: Appendable<string>, visited: TypeMap)
      returns (primaryKeyChanged: bool, wasPrimaryKey: bool)
      modifies this, primaryKeys, visited
      ensures primaryKeyChanged == (o.pk != n.pk) && wasPrimaryKey == o.pk
      ensures primaryKeys.items == old(primaryKeys.items) + PkFor(c, n)
      ensures var r := ModifyColumn(t, c, o, n, old(visited.types));
        out == old(out) + r.stmts && visited.types == r.types
      ensures TypesAreNew(n, old(visited.types), ModifyColumn(t, c, o, n, old(visited.types)).stmts)
    {
      ModifiedTypes(t, c, o, n, visited.types);
      if n.pk { primaryKeys.items := primaryKeys.items + [c]; }
      primaryKeyChanged, wasPrimaryKey := o.pk != n.pk, o.pk;
      var datatype_;
      if n.ref.Some? {
        datatype_ := Recorded(visited.types, n.ref.value);
        if o.ref.None? {
          out := out + [AlterType(t, c, datatype_), AddFk(t, FkDef(c, n.ref.value))];
        }
      } else {
        datatype_ := PgType(n.prim);
        var datatypeOld := Missing;
        if o.ref.Some? {
          out := out + [DropFk(t, c)];
        } else {
          datatypeOld := PgType(o.prim);
        }
        if datatype_ != datatypeOld {
          out := out + [AlterType(t, c, datatype_)];
        } else if n.autoInc != o.autoInc {
          if n.autoInc {
            out := out + [CreateSequence(t, c), AlterType(t, c, datatype_), SetDefault(t, c), OwnSequence(t, c), SetVal(t, c)];
            datatype_ := BigInt;
          } else {
            out := out + [AlterType(t, c, datatype_)];
          }
        }
      }
      visited.types := visited.types[Ref(t, c) := datatype_];
    }

    /** The columns that go, and whether the key loses one of them. */
    method CollectDrops(t: string, new_: Attrs, old_: Attrs) returns (dropColumnQueries: seq<Stmt>, keyDropped: bool)
      ensures dropColumnQueries == DropColumns(t, new_, SortedStrings(old_.Keys))
      ensures keyDropped == SomeKeyDropped(old_, new_, SortedStrings(old_.Keys))
    {
      var names := SortedStrings(old_.Keys);
      dropColumnQueries, keyDropped := [], false;
      for i := 0 to |names|
        invariant dropColumnQueries == DropColumns(t, new_, names[..i])
        invariant keyDropped == SomeKeyDropped(old_, new_, names[..i])
      {
        var c := names[i];
        OneMoreDrop(t, new_, old_, names, i);
        if c !in new_ {
          if old_[c].pk { keyDropped := true; }
          dropColumnQueries := dropColumnQueries + [DropColumn(t, c)];
        }
      }
      assert names[..|names|] == names;
    }

    /** One column of the new version, added or retained. */
    method WriteColumn(t: string, c: string, new_: Attrs, old_: Attrs, primaryKeys: Appendable<string>, visited: TypeMap)
      returns (keyChanged: bool, wasKey: bool)
      requires c in new_
      modifies this, primaryKeys, visited
      ensures keyChanged == (PkOf(old_, c) != PkOf(new_, c)) && wasKey == PkOf(old_, c)
      ensures primaryKeys.items == old(primaryKeys.items) + PkFor(c, new_[c])
      ensures var r := ColumnGives(t, c, old_, new_, old(visited.types));
        out == old(out) + r.stmts && visited.types == r.types
    {
      if c !in old_ {
        var foreignKeys := new Appendable<FkDef>();
        var def, isNewColumnPK := WriteCreateColumn(new_[c], t, c, primaryKeys, foreignKeys, visited);
        out := out + [AddColumn(t, def)];
        if |foreignKeys.items| > 0 {
          out := out + [AddFk(t, foreignKeys.items[0])];
        }
        keyChanged, wasKey := isNewColumnPK, false;
      } else {
        keyChanged, wasKey := WriteModifyColumn(old_[c], new_[c], t, c, primaryKeys, visited);
      }
    }

    method WriteColumns(t: string, new_: Attrs, old_: Attrs, primaryKeys: Appendable<string>, visited: TypeMap)
      returns (keyChanged: bool, keyExisted: bool)
      requires primaryKeys.items == []
      modifies this, primaryKeys, visited
      ensures var r := ModifyColumns(t, old_, new_, SortedStrings(new_.Keys), old(visited.types));
        out == old(out) + r.stmts && visited.types == r.types
      ensures primaryKeys.items == KeyColumns(new_, SortedStrings(new_.Keys))
      ensures keyChanged == SomeKeyChanged(old_, new_, SortedStrings(new_.Keys))
      ensures keyExisted == SomeOldKey(old_, SortedStrings(new_.Keys))
    {
      var names := SortedStrings(new_.Keys);
      keyChanged, keyExisted := false, false;
      ghost var was := visited.types;
      ghost var start := out;
      for i := 0 to |names|
        invariant ColumnsWritten(t, old_, new_, names[..i], was, start, out, visited.types, primaryKeys.items, keyChanged, keyExisted)
      {
        OneMoreColumn(t, old_, new_, names, i, was, start, out, visited.types, primaryKeys.items, keyChanged, keyExisted);
        var changedByColumn, wasOldPrimaryKey := WriteColumn(t, names[i], new_, old_, primaryKeys, visited);
        keyChanged, keyExisted := keyChanged || changedByColumn, keyExisted || wasOldPrimaryKey;
      }
      assert names[..|names|] == names;
    }

    /** What is written after the columns: the drops are collected first but written here. */
    method WriteKeyChange(t: string, oldKey: set<string>, newKey: set<string>, primaryKeyChanged: bool, primaryKeyExisted: bool,
                          dropColumnQueries: seq<Stmt>, primaryKeys: seq<string>)
      requires primaryKeyChanged == (oldKey != newKey) && primaryKeyExisted == (oldKey != {})
      modifies this
      ensures out == old(out) + (DropKey(t, oldKey, newKey) + dropColumnQueries + AddKey(t, oldKey, newKey, primaryKeys))
    {
      if primaryKeyExisted && primaryKeyChanged { out := out + [DropPk(t)]; }
      out := out + dropColumnQueries;
      if primaryKeyChanged { out := out + [AddPk(t, primaryKeys)]; }
    }

    /** The key is dropped if it existed and changed, and added if it changed. */
    method WriteModifyTable(t: string, new_: Attrs, old_: Attrs, visited: TypeMap)
      modifies this, visited
      ensures out == old(out) + ModifyTable(t, old_, new_, old(visited.types)).stmts
      ensures visited.types == ModifyTable(t, old_, new_, old(visited.types)).types
    {
      var dropColumnQueries, keyDropped := CollectDrops(t, new_, old_);
      var primaryKeys := new Appendable<string>();
      var keyChanged, keyExisted := WriteColumns(t, new_, old_, primaryKeys, visited);
      FlagsAreKeyChanges(old_, new_, SortedStrings(old_.Keys), SortedStrings(new_.Keys));
      ghost var columns := ModifyColumns(t, old_, new_, SortedStrings(new_.Keys), old(visited.types)).stmts;
      WriteKeyChange(t, PkSet(old_), PkSet(new_), keyDropped || keyChanged, keyDropped || keyExisted, dropColumnQueries, primaryKeys.items);
      AppendTwice(old(out), columns, ModifyKey(t, old_, new_));
      ModifyTableIs(t, old_, new_, old(visited.types), columns);
    }
  }

  lemma AppendTwice(a: seq<Stmt>, b: seq<Stmt>, c: seq<Stmt>)
    ensures (a + b) + c == a + (b + c)
  {
  }

  lemma ModifyTableIs(t: string, old_: Attrs, new_: Attrs, types: Types, columns: seq<Stmt>)
    requires columns == ModifyColumns(t, old_, new_, SortedStrings(new_.Keys), types).stmts
    ensures ModifyTable(t, old_, new_, types).stmts == columns + ModifyKey(t, old_, new_)
  {
  }

  lemma LinesAreOwn(attrs: Attrs, listed: seq<string>)
    requires Lists(listed, attrs.Keys)
    ensures DistinctLines(listed, ColumnLines(attrs)) <==> OwnLines(attrs)
  {
    var line := ColumnLines(attrs);
    if DistinctLines(listed, line) {
      forall c, d | c in attrs && d in attrs && c != d ensures attrs[c].line != attrs[d].line {
        assert Alone(listed, line, d);
        assert c in listed && d in listed && line[c] != line[d];
      }
    }
  }

  /** The flags set along the way say what they are meant to: the key changed exactly when
      the two key sets differ, and it existed exactly when the old one was not empty. */
  lemma FlagsAreKeyChanges(old_: Attrs, new_: Attrs, oldNames: seq<string>, newNames: seq<string>)
    requires (forall c :: c in oldNames <==> c in old_) && (forall c :: c in newNames <==> c in new_)
    ensures var dropped := SomeKeyDropped(old_, new_, oldNames);
      && (dropped || SomeKeyChanged(old_, new_, newNames) <==> PkSet(old_) != PkSet(new_))
      && (dropped || SomeOldKey(old_, newNames) <==> PkSet(old_) != {})
  {
    FlagsAreQuantified(old_, new_, oldNames);
    FlagsAreQuantified(old_, new_, newNames);
    KeySetsAre(old_, new_);
  }

  lemma KeySetsAre(a: Attrs, b: Attrs)
    ensures PkSet(a) == PkSet(b) <==> forall c :: PkOf(a, c) == PkOf(b, c)
    ensures PkSet(a) == {} <==> forall c :: !PkOf(a, c)
  {
    assert forall c :: c in PkSet(a) <==> PkOf(a, c);
    assert forall c :: c in PkSet(b) <==> PkOf(b, c);
  }
}
