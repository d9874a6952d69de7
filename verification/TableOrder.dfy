/** The order in which the tables of a model are written: by depth and source line in a
    CREATE script, by depth and name in a delta script (pkg/database/databasescriptview.go). */
module TableOrder {
  import opened Ordering
  import opened TableDepth
  import opened TableChange
  import opened LineOrder
  import opened Migration
  import opened MigrationProofs

  /** The relations of a model; its other types are passed over. */
  function Tables(m: Model): Schema {
    map t | t in m && m[t].Relation? :: m[t].attrs
  }

  function TableLines(m: Model): map<string, int> {
    map t | t in m :: m[t].line
  }

  lemma RankedIsSound(m: Model, rank: map<string, nat>)
    requires Ranked(GraphOf(m), rank)
    ensures Sound(Tables(m), rank)
  {
    var s, g := Tables(m), GraphOf(m);
    forall t, c {:trigger HasFk(s, t, c)} | HasFk(s, t, c)
      ensures var r := s[t][c].ref.value; Migration.IsColumn(s, r) && rank[r.table] < rank[t]
    {
      var r := s[t][c].ref.value;
      assert r in g.refs[t];
      assert r in g.columns;
    }
  }

  lemma DepthIsRank(g: Graph, rank: map<string, nat>, depth: map<string, nat>)
    requires Ranked(g, rank) && IsDepthMap(g, depth)
    ensures Ranked(g, depth)
  {
    forall t, r | t in g.refs && r in g.refs[t] ensures r in g.columns && r.table in depth && depth[r.table] < depth[t] {
      assert IsDepth(g, depth, t, depth[t]);
    }
  }

  // ---- depth by depth ----------------------------------------------------------

  ghost function Next(ds: seq<int>, k: nat): int
    requires k <= |ds|
  {
    if k == 0 then 0 else ds[k - 1] + 1
  }

  ghost predicate NoneFrom(depth: map<string, nat>, from: int, d: int) {
    from <= d && d >= 0 && forall t | t in depth :: depth[t] < from || depth[t] >= d
  }

  ghost predicate DepthAt(ds: seq<int>, k: int, buckets: map<int, seq<string>>, depth: map<string, nat>) {
    0 <= k < |ds| && ds[k] in buckets && IsBucket(buckets[ds[k]], depth, ds[k]) && NoneFrom(depth, Next(ds, k), ds[k])
  }

  /** The depths in ascending order, every one with its bucket. */
  ghost predicate IsDepthList(ds: seq<int>, buckets: map<int, seq<string>>, depth: map<string, nat>) {
    && (forall k {:trigger DepthAt(ds, k, buckets, depth)} | 0 <= k < |ds| :: DepthAt(ds, k, buckets, depth))
    && forall t | t in depth :: depth[t] < Next(ds, |ds|)
  }

  /** sort.Ints over the depths that were found. */
  method SortedDepths(buckets: map<int, seq<string>>, ghost depth: map<string, nat>) returns (ds: seq<int>)
    requires Buckets(buckets, depth)
    ensures IsDepthList(ds, buckets, depth)
  {
    ds := SortedInts(buckets.Keys);
    SortedIntsAscend(buckets.Keys);
    forall k {:trigger DepthAt(ds, k, buckets, depth)} | 0 <= k < |ds| ensures DepthAt(ds, k, buckets, depth) {
      NoneBetween(buckets, depth, ds, k);
    }
    NoneBeyond(buckets, depth, ds);
  }

  lemma NoneBetween(buckets: map<int, seq<string>>, depth: map<string, nat>, ds: seq<int>, k: nat)
    requires Buckets(buckets, depth) && k < |ds| && (forall e :: e in ds <==> e in buckets) && forall i, j | 0 <= i < j < |ds| :: ds[i] < ds[j]
    ensures ds[k] in buckets && IsBucket(buckets[ds[k]], depth, ds[k]) && NoneFrom(depth, Next(ds, k), ds[k])
  {
    assert ds[k] in ds;
    assert HasBucket(buckets, ds[k]) && buckets[ds[k]][0] in buckets[ds[k]];
    forall t | t in depth ensures depth[t] < Next(ds, k) || depth[t] >= ds[k] {
      assert HasBucket(buckets, depth[t]) && depth[t] in ds;
      var i :| 0 <= i < |ds| && ds[i] == depth[t];
    }
  }

  lemma NoneBeyond(buckets: map<int, seq<string>>, depth: map<string, nat>, ds: seq<int>)
    requires Buckets(buckets, depth) && (forall e :: e in ds <==> e in buckets) && forall i, j | 0 <= i < j < |ds| :: ds[i] < ds[j]
    ensures forall t | t in depth :: depth[t] < Next(ds, |ds|)
  {
    forall t | t in depth ensures depth[t] < Next(ds, |ds|) {
      assert HasBucket(buckets, depth[t]) && depth[t] in ds;
      var i :| 0 <= i < |ds| && ds[i] == depth[t];
    }
  }

  /** Referenced tables come first when the order does not go back in depth. */
  ghost predicate DepthFirst(names: seq<string>, depth: map<string, nat>) {
    (forall t | t in names :: t in depth) && forall i, j | 0 <= i < j < |names| :: depth[names[i]] <= depth[names[j]]
  }

  /** In depth order every referenced table comes before the tables that reference it. */
  lemma DepthOrderIsOrdered(s: Schema, depth: map<string, nat>, order: seq<string>)
    requires Sound(s, depth) && DepthFirst(order, depth) && Lists(order, s.Keys)
    ensures Ordered(s, order)
  {
    forall i | 0 <= i < |order| ensures TargetsDone(s, order[i], order[..i]) {
      forall c {:trigger HasFk(s, order[i], c)} | HasFk(s, order[i], c) ensures s[order[i]][c].ref.value.table in order[..i] {
        var u := s[order[i]][c].ref.value.table;
        assert u in order;
        var j :| 0 <= j < |order| && order[j] == u;
        assert j < i;
      }
    }
  }

  // ---- entities by depth and line ----------------------------------------------

  predicate ShareLine(m: Model, depth: map<string, nat>, t: string, u: string)
    requires depth.Keys == m.Keys
  {
    t in m && u in m && t != u && depth[t] == depth[u] && m[t].line == m[u].line
  }

  /** No other table of its depth is declared on the line of `t`. */
  ghost predicate HasOwnLine(m: Model, depth: map<string, nat>, t: string)
    requires depth.Keys == m.Keys
  {
    forall u {:trigger ShareLine(m, depth, t, u)} :: !ShareLine(m, depth, t, u)
  }

  ghost predicate DepthLineLe(m: Model, depth: map<string, nat>, a: string, b: string)
    requires depth.Keys == m.Keys && a in m && b in m
  {
    depth[a] < depth[b] || (depth[a] == depth[b] && m[a].line <= m[b].line)
  }

  /** Entities of the model by depth, and by line within a depth. */
  ghost predicate ByDepthAndLine(m: Model, depth: map<string, nat>, names: seq<string>)
    requires depth.Keys == m.Keys
  {
    && (forall t | t in names :: t in m)
    && forall i, j {:trigger DepthLineLe(m, depth, names[i], names[j])} | 0 <= i < j < |names| ::
         names[i] in m && names[j] in m && DepthLineLe(m, depth, names[i], names[j])
  }

  /** `names` holds the entities of the depths below `d`, each once if its line is its own. */
  ghost predicate Collected(m: Model, depth: map<string, nat>, names: seq<string>, d: int)
    requires depth.Keys == m.Keys
  {
    && ByDepthAndLine(m, depth, names) && (forall t | t in names :: depth[t] < d)
    && forall t {:trigger HasOwnLine(m, depth, t)} | t in m && depth[t] < d :: multiset(names)[t] == 1 <==> HasOwnLine(m, depth, t)
  }

  lemma AppendByLine(m: Model, depth: map<string, nat>, before: seq<string>, bucket: seq<string>, d: int)
    requires depth.Keys == m.Keys && ByDepthAndLine(m, depth, before) && forall t | t in before :: depth[t] < d
    requires (forall t | t in bucket :: t in m && depth[t] == d) && forall i, j | 0 <= i < j < |bucket| :: m[bucket[i]].line <= m[bucket[j]].line
    ensures ByDepthAndLine(m, depth, before + bucket)
  {
    var all := before + bucket;
    forall i, j {:trigger DepthLineLe(m, depth, all[i], all[j])} | 0 <= i < j < |all|
      ensures all[i] in m && all[j] in m && DepthLineLe(m, depth, all[i], all[j])
    {
      if j < |before| {
        assert DepthLineLe(m, depth, before[i], before[j]);
      } else if i < |before| {
        assert all[i] in before && all[j] in bucket;
      } else {
        assert all[i] == bucket[i - |before|] && all[j] == bucket[j - |before|] && all[i] in bucket && all[j] in bucket;
      }
    }
  }

  lemma OwnLineInBucket(m: Model, depth: map<string, nat>, bucket: seq<string>, d: int, t: string)
    requires depth.Keys == m.Keys && IsBucket(bucket, depth, d) && t in bucket
    ensures Alone(bucket, TableLines(m), t) <==> HasOwnLine(m, depth, t)
  {
    if Alone(bucket, TableLines(m), t) {
      forall u {:trigger ShareLine(m, depth, t, u)} ensures !ShareLine(m, depth, t, u) {
        if u in bucket && u != t { assert TableLines(m)[u] != TableLines(m)[t]; }
      }
    } else {
      var u :| u in bucket && u != t && TableLines(m)[u] == TableLines(m)[t];
      assert ShareLine(m, depth, t, u);
    }
  }

  /** One depth: its entities in line order. */
  method EntitiesOfDepth(m: Model, tableNames: seq<string>, ghost depth: map<string, nat>, ghost before: seq<string>, ghost from: int, ghost d: int)
    returns (entityNames: seq<string>)
    requires depth.Keys == m.Keys && Collected(m, depth, before, from) && NoneFrom(depth, from, d) && IsBucket(tableNames, depth, d)
    ensures Collected(m, depth, before + entityNames, d + 1)
  {
    entityNames := OrderByLine(tableNames, TableLines(m));
    CollectBucket(m, depth, before, from, d, tableNames, entityNames);
  }

  lemma CollectBucket(m: Model, depth: map<string, nat>, before: seq<string>, from: int, d: int, bucket: seq<string>, sorted: seq<string>)
    requires depth.Keys == m.Keys && Collected(m, depth, before, from) && NoneFrom(depth, from, d) && IsBucket(bucket, depth, d)
    requires sorted == ByLine(bucket, TableLines(m))
    ensures Collected(m, depth, before + sorted, d + 1)
  {
    ByLineAscends(bucket, TableLines(m));
    AppendByLine(m, depth, before, sorted, d);
    forall t {:trigger HasOwnLine(m, depth, t)} | t in m && depth[t] < d + 1
      ensures multiset(before + sorted)[t] == 1 <==> HasOwnLine(m, depth, t)
    {
      if depth[t] < d {
        assert t !in sorted;
      } else {
        assert t in bucket && t !in before;
        ListedOnceIff(bucket, TableLines(m), t);
        OwnLineInBucket(m, depth, bucket, d, t);
      }
    }
  }

  /** The entities of a CREATE script, by depth and then by line: an entity is there once
      exactly when no other of its depth is declared on its line. */
  method EntitiesByDepthAndLine(m: Model, buckets: map<int, seq<string>>, ghost depth: map<string, nat>) returns (entities: seq<string>)
    requires depth.Keys == m.Keys && Buckets(buckets, depth)
    ensures ByDepthAndLine(m, depth, entities)
    ensures forall t | t in m :: multiset(entities)[t] == 1 <==> HasOwnLine(m, depth, t)
  {
    var depthsFound := SortedDepths(buckets, depth);
    entities := EntitiesOfDepths(m, buckets, depthsFound, depth);
  }

  method EntitiesOfDepths(m: Model, buckets: map<int, seq<string>>, depthsFound: seq<int>, ghost depth: map<string, nat>) returns (entities: seq<string>)
    requires depth.Keys == m.Keys && IsDepthList(depthsFound, buckets, depth)
    ensures ByDepthAndLine(m, depth, entities)
    ensures forall t | t in m :: multiset(entities)[t] == 1 <==> HasOwnLine(m, depth, t)
  {
    entities := [];
    for k := 0 to |depthsFound|
      invariant Collected(m, depth, entities, Next(depthsFound, k))
    {
      var d := depthsFound[k];
      assert DepthAt(depthsFound, k, buckets, depth);
      var entityNames := EntitiesOfDepth(m, buckets[d], depth, entities, Next(depthsFound, k), d);
      entities := entities + entityNames;
    }
  }

  // ---- the relations among them ------------------------------------------------

  function RelationsIn(m: Model, names: seq<string>): (r: seq<string>)
    requires forall t | t in names :: t in m
    ensures forall t | t in r :: t in names && m[t].Relation?
  {
    if names == [] then []
    else
      var t := names[|names| - 1];
      RelationsIn(m, names[..|names| - 1]) + (if m[t].Relation? then [t] else [])
  }

  lemma RelationsSnoc(m: Model, names: seq<string>, t: string)
    requires (forall u | u in names :: u in m) && t in m
    ensures RelationsIn(m, names + [t]) == if m[t].Relation? then RelationsIn(m, names) + [t] else RelationsIn(m, names)
  {
    assert (names + [t])[..|names|] == names;
  }

  lemma {:induction false} RelationsCount(m: Model, names: seq<string>, t: string)
    requires (forall u | u in names :: u in m) && t in m && m[t].Relation?
    ensures multiset(RelationsIn(m, names))[t] == multiset(names)[t]
    decreases |names|
  {
    if names != [] {
      var init, last := names[..|names| - 1], names[|names| - 1];
      assert names == init + [last];
      RelationsCount(m, init, t);
      RelationsSnoc(m, init, last);
    }
  }

  lemma {:induction false} RelationsKeepOrder(m: Model, names: seq<string>, depth: map<string, nat>)
    requires depth.Keys == m.Keys && ByDepthAndLine(m, depth, names)
    ensures ByDepthAndLine(m, depth, RelationsIn(m, names))
    decreases |names|
  {
    if names != [] {
      var init, last := names[..|names| - 1], names[|names| - 1];
      assert names == init + [last];
      assert ByDepthAndLine(m, depth, init) by {
        forall i, j {:trigger DepthLineLe(m, depth, init[i], init[j])} | 0 <= i < j < |init|
          ensures init[i] in m && init[j] in m && DepthLineLe(m, depth, init[i], init[j])
        {
          assert DepthLineLe(m, depth, names[i], names[j]);
        }
      }
      RelationsKeepOrder(m, init, depth);
      var r := RelationsIn(m, init);
      forall i | 0 <= i < |r| ensures DepthLineLe(m, depth, r[i], last) {
        assert r[i] in init;
        var j :| 0 <= j < |init| && init[j] == r[i];
        assert DepthLineLe(m, depth, names[j], names[|init|]);
      }
      if m[last].Relation? { OneMoreByLine(m, depth, r, last); }
    }
  }

  lemma OneMoreByLine(m: Model, depth: map<string, nat>, names: seq<string>, t: string)
    requires depth.Keys == m.Keys && ByDepthAndLine(m, depth, names) && t in m
    requires forall i | 0 <= i < |names| :: DepthLineLe(m, depth, names[i], t)
    ensures ByDepthAndLine(m, depth, names + [t])
  {
    var all := names + [t];
    forall i, j {:trigger DepthLineLe(m, depth, all[i], all[j])} | 0 <= i < j < |all|
      ensures all[i] in m && all[j] in m && DepthLineLe(m, depth, all[i], all[j])
    {
      if j < |names| { assert DepthLineLe(m, depth, names[i], names[j]); } else { assert DepthLineLe(m, depth, names[i], t); }
    }
  }

  /** No relation shares its line with another type of its depth. Two types that are no
      relations may. */
  ghost predicate RelationsHaveOwnLines(m: Model, depth: map<string, nat>)
    requires depth.Keys == m.Keys
  {
    forall t {:trigger HasOwnLine(m, depth, t)} | t in m && m[t].Relation? :: HasOwnLine(m, depth, t)
  }

  lemma LineOrderIsDepthFirst(m: Model, depth: map<string, nat>, names: seq<string>)
    requires depth.Keys == m.Keys && ByDepthAndLine(m, depth, names)
    ensures DepthFirst(names, depth)
  {
    forall i, j | 0 <= i < j < |names| ensures depth[names[i]] <= depth[names[j]] { assert DepthLineLe(m, depth, names[i], names[j]); }
  }

  /** Then, and only then, the relations are each listed once. */
  lemma RelationsListedIff(m: Model, depth: map<string, nat>, entities: seq<string>)
    requires depth.Keys == m.Keys && ByDepthAndLine(m, depth, entities)
    requires forall t | t in m :: multiset(entities)[t] == 1 <==> HasOwnLine(m, depth, t)
    ensures Lists(RelationsIn(m, entities), Tables(m).Keys) <==> RelationsHaveOwnLines(m, depth)
    ensures DepthFirst(RelationsIn(m, entities), depth)
  {
    RelationsKeepOrder(m, entities, depth);
    LineOrderIsDepthFirst(m, depth, RelationsIn(m, entities));
    EachRelationOnce(m, depth, entities, RelationsIn(m, entities));
  }

  lemma EachRelationOnce(m: Model, depth: map<string, nat>, entities: seq<string>, r: seq<string>)
    requires depth.Keys == m.Keys && (forall t | t in entities :: t in m) && r == RelationsIn(m, entities)
    requires forall t | t in m :: multiset(entities)[t] == 1 <==> HasOwnLine(m, depth, t)
    ensures Lists(r, Tables(m).Keys) <==> RelationsHaveOwnLines(m, depth)
  {
    OnceEach(r, Tables(m).Keys);
    forall t | t in m && m[t].Relation? ensures multiset(r)[t] == 1 <==> HasOwnLine(m, depth, t) { RelationsCount(m, entities, t); }
  }

  // ---- tables by depth and name ------------------------------------------------

  /** `a` is written before `b`. */
  ghost predicate Earlier(depth: map<string, nat>, a: string, b: string)
    requires a in depth && b in depth
  {
    depth[a] < depth[b] || (depth[a] == depth[b] && a != b && StrLe(a, b))
  }

  ghost predicate ByDepthAndName(depth: map<string, nat>, names: seq<string>) {
    && (forall t | t in names :: t in depth)
    && forall i, j {:trigger Earlier(depth, names[i], names[j])} | 0 <= i < j < |names| ::
         names[i] in depth && names[j] in depth && Earlier(depth, names[i], names[j])
  }

  lemma EarlierOneWay(depth: map<string, nat>, a: string, b: string)
    requires a in depth && b in depth
    ensures !(Earlier(depth, a, b) && Earlier(depth, b, a)) && !Earlier(depth, a, a)
  {
    StrLeTotal(a, b);
  }

  /** What comes before a table in such a list is what is written earlier. */
  lemma BeforeIsEarlier(depth: map<string, nat>, names: seq<string>, i: nat, u: string)
    requires ByDepthAndName(depth, names) && i < |names|
    ensures u in names[..i] <==> u in names && Earlier(depth, u, names[i])
  {
    if u in names[..i] {
      var j :| 0 <= j < i && names[j] == u;
      assert Earlier(depth, names[j], names[i]);
    }
    if u in names && Earlier(depth, u, names[i]) {
      var j :| 0 <= j < |names| && names[j] == u;
      if j > i { assert Earlier(depth, names[i], names[j]); }
      EarlierOneWay(depth, u, names[i]);
      assert j < i && names[..i][j] == u;
    }
  }

  /** `names` lists the tables of the depths below `d`. */
  ghost predicate ListsUpTo(names: seq<string>, depth: map<string, nat>, d: int) {
    ByDepthAndName(depth, names) && forall t :: t in names <==> t in depth && depth[t] < d
  }

  lemma ListBucket(names: seq<string>, depth: map<string, nat>, d: int, e: int, bucket: seq<string>)
    requires ListsUpTo(names, depth, d) && NoneFrom(depth, d, e) && (forall t :: t in bucket <==> t in depth && depth[t] == e)
    requires Ascending(bucket, StrLe)
    ensures ListsUpTo(names + bucket, depth, e + 1)
  {
    var all := names + bucket;
    forall i, j {:trigger Earlier(depth, all[i], all[j])} | 0 <= i < j < |all|
      ensures all[i] in depth && all[j] in depth && Earlier(depth, all[i], all[j])
    {
      if j < |names| {
        assert Earlier(depth, names[i], names[j]);
      } else if i < |names| {
        assert all[i] in names && all[j] in bucket;
      } else {
        assert all[i] == bucket[i - |names|] && all[j] == bucket[j - |names|] && all[i] in bucket && all[j] in bucket;
      }
    }
  }

  /** One depth of a delta script: sort.Strings. */
  method NamesOfDepth(tableNames: seq<string>, ghost depth: map<string, nat>, ghost before: seq<string>, ghost from: int, ghost d: int) returns (names: seq<string>)
    requires ListsUpTo(before, depth, from) && NoneFrom(depth, from, d) && IsBucket(tableNames, depth, d)
    ensures ListsUpTo(before + names, depth, d + 1)
  {
    names := SortedStrings(set t | t in tableNames);
    SortedStringsAscend((set t | t in tableNames), names);
    ListBucket(before, depth, from, d, names);
  }

  /** The tables of a delta script, by depth and then by name. */
  method TablesByDepthAndName(buckets: map<int, seq<string>>, ghost depth: map<string, nat>) returns (tables: seq<string>)
    requires Buckets(buckets, depth)
    ensures ByDepthAndName(depth, tables) && Lists(tables, depth.Keys)
  {
    var tableDepthsListNew := SortedDepths(buckets, depth);
    tables := NamesOfDepths(buckets, tableDepthsListNew, depth);
    NamesAreDistinct(depth, tables);
  }

  method NamesOfDepths(buckets: map<int, seq<string>>, ds: seq<int>, ghost depth: map<string, nat>) returns (tables: seq<string>)
    requires IsDepthList(ds, buckets, depth)
    ensures ByDepthAndName(depth, tables) && forall t :: t in tables <==> t in depth
  {
    tables := [];
    for k := 0 to |ds|
      invariant ListsUpTo(tables, depth, Next(ds, k))
    {
      assert DepthAt(ds, k, buckets, depth);
      var tableNames := NamesOfDepth(buckets[ds[k]], depth, tables, Next(ds, k), ds[k]);
      tables := tables + tableNames;
    }
  }

  lemma NamesAreDistinct(depth: map<string, nat>, names: seq<string>)
    requires ByDepthAndName(depth, names)
    ensures Distinct(names) && DepthFirst(names, depth)
  {
    forall i, j | 0 <= i < j < |names| ensures names[i] != names[j] && depth[names[i]] <= depth[names[j]] {
      assert Earlier(depth, names[i], names[j]);
    }
  }

  /** There is one such list. */
  lemma {:induction false} OneTableOrder(depth: map<string, nat>, a: seq<string>, b: seq<string>)
    requires ByDepthAndName(depth, a) && ByDepthAndName(depth, b) && forall t :: t in a <==> t in b
    ensures a == b
  {
    NamesAreDistinct(depth, a);
    NamesAreDistinct(depth, b);
    assert (a == [] || a[0] in b) && (b == [] || b[0] in a);
    if |a| > 0 && |b| > 0 {
      FirstIsFirst(depth, a, b);
      RestByName(depth, a);
      RestByName(depth, b);
      forall t ensures t in a[1..] <==> t in b[1..] {
        assert t in a[1..] <==> t in a && t != a[0];
        assert t in b[1..] <==> t in b && t != b[0];
      }
      OneTableOrder(depth, a[1..], b[1..]);
      assert a == [a[0]] + a[1..] && b == [b[0]] + b[1..];
    }
  }

  lemma FirstIsFirst(depth: map<string, nat>, a: seq<string>, b: seq<string>)
    requires ByDepthAndName(depth, a) && ByDepthAndName(depth, b) && (forall t :: t in a <==> t in b) && |a| > 0 && |b| > 0
    ensures a[0] == b[0]
  {
    assert a[0] in a && b[0] in b;
    var i :| 0 <= i < |b| && b[i] == a[0];
    var j :| 0 <= j < |a| && a[j] == b[0];
    if i > 0 && j > 0 {
      assert Earlier(depth, b[0], b[i]) && Earlier(depth, a[0], a[j]);
      EarlierOneWay(depth, a[0], b[0]);
    }
  }

  lemma RestByName(depth: map<string, nat>, a: seq<string>)
    requires ByDepthAndName(depth, a) && |a| > 0
    ensures ByDepthAndName(depth, a[1..])
  {
    var r := a[1..];
    forall i, j {:trigger Earlier(depth, r[i], r[j])} | 0 <= i < j < |r| ensures r[i] in depth && r[j] in depth && Earlier(depth, r[i], r[j]) {
      assert Earlier(depth, a[i + 1], a[j + 1]);
    }
  }
}
