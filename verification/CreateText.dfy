/** The text between the parentheses of a CREATE statement (pkg/database/postgres.go): columns
    and constraints, each written with a comma behind it, of which only one at the very end is
    taken away again. */
module CreateText {
  import opened TableDepth
  import opened SqlScript

  datatype Item = ColumnItem(def: ColumnDef) | KeyItem(pk: seq<string>) | FkItem(fk: FkDef)

  datatype Token = Of(item: Item) | Comma | Newline

  // ---- as it is written --------------------------------------------------------

  function ColumnsText(defs: seq<ColumnDef>): seq<Token> {
    if defs == [] then []
    else ColumnsText(defs[..|defs| - 1]) + [Of(ColumnItem(defs[|defs| - 1])), Comma, Newline]
  }

  function FksText(fks: seq<FkDef>): seq<Token> {
    if fks == [] then []
    else FksText(fks[..|fks| - 1]) + [Newline, Of(FkItem(fks[|fks| - 1])), Comma]
  }

  function KeyText(pk: seq<string>): seq<Token> {
    if pk == [] then [] else [Of(KeyItem(pk)), Comma]
  }

  function WithConstraints(text: seq<Token>, pk: seq<string>, fks: seq<FkDef>): seq<Token> {
    text + KeyText(pk) + FksText(fks)
  }

  /** strings.HasSuffix and the slice: a comma that is followed by a newline stays. */
  function WithoutLastComma(text: seq<Token>): seq<Token> {
    if text != [] && text[|text| - 1] == Comma then text[..|text| - 1] else text
  }

  function TableText(defs: seq<ColumnDef>, pk: seq<string>, fks: seq<FkDef>): seq<Token> {
    WithoutLastComma(WithConstraints(ColumnsText(defs), pk, fks))
  }

  lemma ColumnIsAppended(defs: seq<ColumnDef>, def: ColumnDef)
    ensures ColumnsText(defs + [def]) == ColumnsText(defs) + [Of(ColumnItem(def)), Comma, Newline]
  {
    assert (defs + [def])[..|defs|] == defs;
  }

  lemma FkIsAppended(text: seq<Token>, pk: seq<string>, fks: seq<FkDef>, i: nat)
    requires i < |fks|
    ensures WithConstraints(text, pk, fks[..i + 1]) == WithConstraints(text, pk, fks[..i]) + [Newline, Of(FkItem(fks[i])), Comma]
  {
    assert fks[..i + 1][..i] == fks[..i];
  }

  // ---- as it is read -----------------------------------------------------------

  function WithoutNewlines(text: seq<Token>): seq<Token> {
    if text == [] then []
    else WithoutNewlines(text[..|text| - 1]) + (if text[|text| - 1] == Newline then [] else [text[|text| - 1]])
  }

  /** Items with commas between them. */
  function ReadItems(text: seq<Token>): Option<seq<Item>> {
    if text == [] || !text[0].Of? then None
    else if |text| == 1 then Some([text[0].item])
    else if text[1] != Comma then None
    else
      var rest := ReadItems(text[2..]);
      if rest.Some? then Some([text[0].item] + rest.value) else None
  }

  /** There may be none. */
  function Read(text: seq<Token>): Option<seq<Item>> {
    var t := WithoutNewlines(text);
    if t == [] then Some([]) else ReadItems(t)
  }

  /** The items in the order they are written. */
  function ItemsOf(defs: seq<ColumnDef>, pk: seq<string>, fks: seq<FkDef>): seq<Item> {
    seq(|defs|, i requires 0 <= i < |defs| => ColumnItem(defs[i]))
    + (if pk == [] then [] else [KeyItem(pk)])
    + seq(|fks|, i requires 0 <= i < |fks| => FkItem(fks[i]))
  }

  /** They are the columns, the key if there is one, and the foreign keys, and nothing else. */
  lemma ItemsAre(defs: seq<ColumnDef>, pk: seq<string>, fks: seq<FkDef>, i: Item)
    ensures i in ItemsOf(defs, pk, fks) <==>
      match i
      case ColumnItem(def) => def in defs
      case KeyItem(ks) => ks == pk != []
      case FkItem(fk) => fk in fks
    ensures |ItemsOf(defs, pk, fks)| == |defs| + (if pk == [] then 0 else 1) + |fks|
  {
    var cs := seq(|defs|, k requires 0 <= k < |defs| => ColumnItem(defs[k]));
    var fs := seq(|fks|, k requires 0 <= k < |fks| => FkItem(fks[k]));
    assert ItemsOf(defs, pk, fks) == cs + (if pk == [] then [] else [KeyItem(pk)]) + fs;
    if i.ColumnItem? && i.def in defs {
      var k :| 0 <= k < |defs| && defs[k] == i.def;
      assert cs[k] == i;
    }
    if i.FkItem? && i.fk in fks {
      var k :| 0 <= k < |fks| && fks[k] == i.fk;
      assert fs[k] == i;
    }
  }

  // ---- reading what is written -------------------------------------------------

  /** Each item with a comma behind it. */
  function Terminated(items: seq<Item>): seq<Token> {
    if items == [] then [] else [Of(items[0]), Comma] + Terminated(items[1..])
  }

  lemma {:induction false} TerminatedConcat(a: seq<Item>, b: seq<Item>)
    ensures Terminated(a + b) == Terminated(a) + Terminated(b)
  {
    if a == [] {
      assert a + b == b;
    } else {
      assert (a + b)[1..] == a[1..] + b;
      TerminatedConcat(a[1..], b);
    }
  }

  lemma {:induction false} NewlinesConcat(a: seq<Token>, b: seq<Token>)
    ensures WithoutNewlines(a + b) == WithoutNewlines(a) + WithoutNewlines(b)
    decreases |b|
  {
    if b == [] {
      assert a + b == a;
    } else {
      assert (a + b)[..|a + b| - 1] == a + b[..|b| - 1];
      NewlinesConcat(a, b[..|b| - 1]);
    }
  }

  lemma ThreeTokens(item: Item)
    ensures WithoutNewlines([Of(item), Comma, Newline]) == [Of(item), Comma]
    ensures WithoutNewlines([Newline, Of(item), Comma]) == [Of(item), Comma]
    ensures WithoutNewlines([Of(item), Comma]) == [Of(item), Comma] && Terminated([item]) == [Of(item), Comma]
  {
    var a, b, c := [Of(item), Comma, Newline], [Newline, Of(item), Comma], [Of(item), Comma];
    assert [Of(item)][..0] == [] && WithoutNewlines([Of(item)]) == [Of(item)];
    assert c[..1] == [Of(item)] && a[..2] == c;
    assert b[..2] == [Newline, Of(item)] && b[..2][..1] == [Newline] && [Newline][..0] == [];
    assert WithoutNewlines([Newline]) == [] && WithoutNewlines(b[..2]) == [Of(item)];
    assert [item][1..] == [];
  }

  lemma {:induction false} ColumnsAreTerminated(defs: seq<ColumnDef>)
    ensures WithoutNewlines(ColumnsText(defs)) == Terminated(seq(|defs|, i requires 0 <= i < |defs| => ColumnItem(defs[i])))
  {
    if defs != [] {
      var init, last := defs[..|defs| - 1], ColumnItem(defs[|defs| - 1]);
      var items := seq(|init|, i requires 0 <= i < |init| => ColumnItem(init[i]));
      ColumnsAreTerminated(init);
      NewlinesConcat(ColumnsText(init), [Of(last), Comma, Newline]);
      ThreeTokens(last);
      TerminatedConcat(items, [last]);
      assert seq(|defs|, i requires 0 <= i < |defs| => ColumnItem(defs[i])) == items + [last];
    }
  }

  lemma {:induction false} FksAreTerminated(fks: seq<FkDef>)
    ensures WithoutNewlines(FksText(fks)) == Terminated(seq(|fks|, i requires 0 <= i < |fks| => FkItem(fks[i])))
  {
    if fks != [] {
      var init, last := fks[..|fks| - 1], FkItem(fks[|fks| - 1]);
      var items := seq(|init|, i requires 0 <= i < |init| => FkItem(init[i]));
      FksAreTerminated(init);
      NewlinesConcat(FksText(init), [Newline, Of(last), Comma]);
      ThreeTokens(last);
      TerminatedConcat(items, [last]);
      assert seq(|fks|, i requires 0 <= i < |fks| => FkItem(fks[i])) == items + [last];
    }
  }

  lemma AllAreTerminated(defs: seq<ColumnDef>, pk: seq<string>, fks: seq<FkDef>)
    ensures WithoutNewlines(WithConstraints(ColumnsText(defs), pk, fks)) == Terminated(ItemsOf(defs, pk, fks))
  {
    var cs, ks, fs := seq(|defs|, i requires 0 <= i < |defs| => ColumnItem(defs[i])), if pk == [] then [] else [KeyItem(pk)], seq(|fks|, i requires 0 <= i < |fks| => FkItem(fks[i]));
    ColumnsAreTerminated(defs);
    FksAreTerminated(fks);
    if pk != [] { ThreeTokens(KeyItem(pk)); }
    NewlinesConcat(ColumnsText(defs), KeyText(pk));
    NewlinesConcat(ColumnsText(defs) + KeyText(pk), FksText(fks));
    TerminatedConcat(cs, ks);
    TerminatedConcat(cs + ks, fs);
  }

  /** A comma behind the last item is one too many. */
  lemma {:induction false} TerminatedIsUnread(items: seq<Item>)
    ensures ReadItems(Terminated(items)) == None
  {
    if items != [] {
      assert Terminated(items)[2..] == Terminated(items[1..]);
      TerminatedIsUnread(items[1..]);
    }
  }

  lemma {:induction false} SeparatedIsRead(items: seq<Item>)
    requires items != []
    ensures var t := Terminated(items); t != [] && t[|t| - 1] == Comma && ReadItems(t[..|t| - 1]) == Some(items)
  {
    var t := Terminated(items);
    assert t == [Of(items[0]), Comma] + Terminated(items[1..]);
    var u := t[..|t| - 1];
    assert items == [items[0]] + items[1..];
    if |items| == 1 {
      assert items[1..] == [] && u == [Of(items[0])] && items == [items[0]];
    } else {
      SeparatedIsRead(items[1..]);
      var rest := Terminated(items[1..]);
      assert u[0] == Of(items[0]) && u[1] == Comma && u[2..] == rest[..|rest| - 1];
    }
  }

  /** The text ends in a comma exactly when there is a constraint. */
  lemma EndsInComma(defs: seq<ColumnDef>, pk: seq<string>, fks: seq<FkDef>)
    ensures var text := WithConstraints(ColumnsText(defs), pk, fks);
      text != [] && text[|text| - 1] == Comma <==> pk != [] || fks != []
  {
    var text := WithConstraints(ColumnsText(defs), pk, fks);
    if fks != [] {
      assert text[|text| - 1] == FksText(fks)[|FksText(fks)| - 1];
    } else if pk != [] {
      assert text == ColumnsText(defs) + KeyText(pk);
    } else {
      assert text == ColumnsText(defs);
    }
  }

  lemma WithConstraintReads(text: seq<Token>, items: seq<Item>)
    requires items != [] && text != [] && text[|text| - 1] == Comma && WithoutNewlines(text) == Terminated(items)
    ensures Read(text[..|text| - 1]) == Some(items)
  {
    var init, t := text[..|text| - 1], Terminated(items);
    SeparatedIsRead(items);
    assert text == init + [Comma];
    NewlinesConcat(init, [Comma]);
    assert [Comma][..0] == [] && WithoutNewlines([Comma]) == [Comma];
    assert WithoutNewlines(init) == t[..|t| - 1] && ReadItems([]) == None;
  }

  /** Read back, the text is the columns, the key and the foreign keys of the statement,
      exactly if there is no column or some constraint. Otherwise the comma of the last column
      is left over and there is no reading it. */
  lemma TextReads(defs: seq<ColumnDef>, pk: seq<string>, fks: seq<FkDef>)
    ensures Read(TableText(defs, pk, fks)) == if ListEnds(defs, pk, fks) then Some(ItemsOf(defs, pk, fks)) else None
  {
    var text, items := WithConstraints(ColumnsText(defs), pk, fks), ItemsOf(defs, pk, fks);
    AllAreTerminated(defs, pk, fks);
    EndsInComma(defs, pk, fks);
    if pk != [] || fks != [] {
      WithConstraintReads(text, items);
    } else if defs != [] {
      TerminatedIsUnread(items);
      assert items[0] == ColumnItem(defs[0]);
    }
  }
}
