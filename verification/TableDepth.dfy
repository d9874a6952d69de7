/** Relational models and the layering of their tables by foreign-key depth
    (pkg/database/db_utils.go). */
module TableDepth {
  import opened Ordering

  datatype Option<T> = None | Some(value: T)

  datatype Ref = Ref(table: string, column: string)

  /** A primitive column type; `max` is the length constraint of a string, 0 if it has none. */
  datatype Prim = StringPrim(max: int) | IntPrim | DatePrim | OtherPrim

  /** `line` is the source line the column, or the table, is declared on. */
  datatype Column = Column(ref: Option<Ref>, prim: Prim, autoInc: bool, pk: bool, line: int)

  type Attrs = map<string, Column>

  datatype TypeDecl = Relation(attrs: Attrs, line: int) | OtherDecl(line: int)

  type Model = map<string, TypeDecl>

  function AttrsOf(d: TypeDecl): Attrs {
    if d.Relation? then d.attrs else map[]
  }

  /** The foreign-key graph of a model: what each table references, and all its columns. */
  datatype Graph = Graph(refs: map<string, set<Ref>>, columns: set<Ref>)

  function RefsOf(attrs: Attrs): set<Ref> {
    set c | c in attrs && attrs[c].ref.Some? :: attrs[c].ref.value
  }

  function ColumnsOf(t: string, attrs: Attrs): set<Ref> {
    set c | c in attrs :: Ref(t, c)
  }

  function GraphOf(m: Model): Graph {
    Graph(map t | t in m :: RefsOf(AttrsOf(m[t])), set t, c | t in m && c in AttrsOf(m[t]) :: Ref(t, c))
  }

  /** A rank that falls along every reference, none of them dangling: what makes the
      graph resolvable and acyclic. */
  ghost predicate Ranked(g: Graph, rank: map<string, nat>) {
    && rank.Keys == g.refs.Keys
    && forall t, r | t in g.refs && r in g.refs[t] :: r in g.columns && r.table in rank && rank[r.table] < rank[t]
  }

  /** Depth 0 without references, otherwise one more than the deepest referenced table. */
  ghost predicate IsDepth(g: Graph, depth: map<string, nat>, t: string, n: nat)
    requires t in g.refs
  {
    && (forall r | r in g.refs[t] :: r.table in depth && depth[r.table] < n)
    && (n > 0 ==> exists r :: r in g.refs[t] && r.table in depth && n == depth[r.table] + 1)
  }

  ghost predicate AllDepths(g: Graph, depth: map<string, nat>)
    requires depth.Keys <= g.refs.Keys
  {
    forall t {:trigger IsDepth(g, depth, t, depth[t])} | t in depth :: IsDepth(g, depth, t, depth[t])
  }

  ghost predicate IsDepthMap(g: Graph, depth: map<string, nat>) {
    depth.Keys == g.refs.Keys && AllDepths(g, depth)
  }

  /** The equations have one solution, whatever order the tables were completed in. */
  lemma {:induction false} DepthIsUnique(g: Graph, a: map<string, nat>, b: map<string, nat>, t: string)
    requires IsDepthMap(g, a) && IsDepthMap(g, b) && t in g.refs
    ensures a[t] == b[t]
    decreases a[t]
  {
    assert IsDepth(g, a, t, a[t]) && IsDepth(g, b, t, b[t]);
    forall r | r in g.refs[t] ensures a[r.table] == b[r.table] { DepthIsUnique(g, a, b, r.table); }
  }

  ghost predicate References(g: Graph, t: string, u: string)
    requires t in g.refs
  {
    exists r :: r in g.refs[t] && r.table == u
  }

  /** A chain of tables, each referencing the next. */
  ghost predicate IsPath(g: Graph, p: seq<string>) {
    && p != [] && (forall i | 0 <= i < |p| :: p[i] in g.refs)
    && forall i | 0 <= i < |p| - 1 :: References(g, p[i], p[i + 1])
  }

  lemma {:induction false} PathsAreNoLonger(g: Graph, depth: map<string, nat>, p: seq<string>)
    requires IsDepthMap(g, depth) && IsPath(g, p)
    ensures |p| - 1 <= depth[p[0]]
  {
    if |p| > 1 {
      var q := p[1..];
      assert forall i | 0 <= i < |q| :: q[i] == p[i + 1];
      assert References(g, p[0], q[0]) && IsDepth(g, depth, p[0], depth[p[0]]);
      PathsAreNoLonger(g, depth, q);
    }
  }

  lemma {:induction false} LongestPath(g: Graph, depth: map<string, nat>, t: string) returns (p: seq<string>)
    requires IsDepthMap(g, depth) && t in g.refs
    ensures IsPath(g, p) && p[0] == t && |p| - 1 == depth[t]
    decreases depth[t]
  {
    p := [t];
    if depth[t] > 0 {
      assert IsDepth(g, depth, t, depth[t]);
      var r :| r in g.refs[t] && r.table in depth && depth[t] == depth[r.table] + 1;
      var q := LongestPath(g, depth, r.table);
      p := [t] + q;
      assert References(g, t, q[0]);
      assert forall i | 0 <= i < |p| - 1 :: p[i + 1] == q[i];
    }
  }

  /** The depth of a table is the length of the longest chain of references from it. */
  lemma DepthIsLongestPath(g: Graph, depth: map<string, nat>, t: string)
    requires IsDepthMap(g, depth) && t in g.refs
    ensures forall p | IsPath(g, p) && p[0] == t :: |p| - 1 <= depth[t]
    ensures exists p :: IsPath(g, p) && p[0] == t && |p| - 1 == depth[t]
  {
    forall p | IsPath(g, p) && p[0] == t ensures |p| - 1 <= depth[t] { PathsAreNoLonger(g, depth, p); }
    var p := LongestPath(g, depth, t);
  }

  ghost predicate IsBucket(bucket: seq<string>, depth: map<string, nat>, d: int) {
    Distinct(bucket) && forall t :: t in bucket <==> t in depth && depth[t] == d
  }

  ghost predicate HasBucket(buckets: map<int, seq<string>>, d: int) {
    d in buckets && buckets[d] != []
  }

  /** completedTableDepthMap: every table once, in the bucket of its depth. */
  ghost predicate Buckets(buckets: map<int, seq<string>>, depth: map<string, nat>) {
    && (forall n {:trigger HasBucket(buckets, n)} | n in buckets :: HasBucket(buckets, n) && IsBucket(buckets[n], depth, n))
    && (forall t {:trigger HasBucket(buckets, depth[t])} | t in depth :: HasBucket(buckets, depth[t]))
  }

  lemma BucketAppended(bucket: seq<string>, depth: map<string, nat>, t: string, n: nat)
    requires IsBucket(bucket, depth, n) && t !in depth
    ensures IsBucket(bucket + [t], depth[t := n], n)
  {
    assert t !in bucket;
  }

  lemma BucketStays(bucket: seq<string>, depth: map<string, nat>, t: string, n: nat, k: int)
    requires IsBucket(bucket, depth, k) && t !in depth && k != n
    ensures IsBucket(bucket, depth[t := n], k)
  {
  }

  lemma BucketsGrow(buckets: map<int, seq<string>>, depth: map<string, nat>, t: string, n: nat)
    requires Buckets(buckets, depth) && t !in depth
    ensures Buckets(buckets[n := (if n in buckets then buckets[n] else []) + [t]], depth[t := n])
  {
    var bs, ds := buckets[n := (if n in buckets then buckets[n] else []) + [t]], depth[t := n];
    forall k {:trigger HasBucket(bs, k)} | k in bs ensures HasBucket(bs, k) && IsBucket(bs[k], ds, k) {
      if k != n {
        assert HasBucket(buckets, k);
        BucketStays(buckets[k], depth, t, n, k);
      } else if n in buckets {
        assert HasBucket(buckets, n);
        BucketAppended(buckets[n], depth, t, n);
      } else {
        forall u | u in depth ensures depth[u] != n { assert HasBucket(buckets, depth[u]); }
        BucketAppended([], depth, t, n);
      }
    }
    forall u {:trigger HasBucket(bs, ds[u])} | u in ds ensures HasBucket(bs, ds[u]) {
      if u != t { assert HasBucket(buckets, depth[u]); }
    }
  }

  /** The four maps the recursion fills and empties. */
  class DepthMaps {
    var completed: map<int, seq<string>>
    var complete: map<string, nat>
    var incomplete: set<string>
    var visited: set<Ref>

    constructor (m: Model)
      ensures completed == map[] && complete == map[] && incomplete == m.Keys && visited == {}
    {
      completed, complete, incomplete, visited := map[], map[], m.Keys, {};
    }

    ghost predicate Valid(g: Graph)
      reads this
    {
      && complete.Keys !! incomplete && complete.Keys + incomplete == g.refs.Keys
      && (forall r :: r in visited <==> r in g.columns && r.table in complete)
      && AllDepths(g, complete)
      && Buckets(completed, complete)
    }

    /** findTableDepth: are all referenced columns of completed tables, and how deep is `t` then? */
    method FindTableDepth(t: string, columns: Attrs) returns (allProcessed: bool, tableDepth: nat, attrs: set<Ref>)
      requires forall r | r in visited :: r.table in complete
      ensures allProcessed <==> RefsOf(columns) <= visited
      ensures allProcessed ==>
        && (forall r | r in RefsOf(columns) :: r.table in complete && complete[r.table] < tableDepth)
        && (tableDepth > 0 ==> exists r :: r in RefsOf(columns) && r.table in complete && tableDepth == complete[r.table] + 1)
        && attrs == ColumnsOf(t, columns)
    {
      allProcessed, tableDepth, attrs := true, 0, {};
      var todo := columns.Keys;
      ghost var refs: set<Ref> := {};
      while todo != {}
        invariant todo <= columns.Keys
        invariant refs == set c | c in columns && c !in todo && columns[c].ref.Some? :: columns[c].ref.value
        invariant allProcessed <==> refs <= visited
        invariant allProcessed ==> forall r | r in refs :: r.table in complete && complete[r.table] < tableDepth
        invariant tableDepth > 0 ==> exists r :: r in refs && r.table in complete && tableDepth == complete[r.table] + 1
        invariant allProcessed ==> attrs == set c | c in columns && c !in todo :: Ref(t, c)
        decreases todo
      {
        var c :| c in todo; // the runtime's order
        todo := todo - {c};
        var column := columns[c];
        if column.ref.Some? {
          var r := column.ref.value;
          refs := refs + {r};
          if r in visited {
            var newDepth := complete[r.table] + 1;
            attrs := attrs + {Ref(t, c)};
            if newDepth > tableDepth { tableDepth := newDepth; }
          } else {
            allProcessed := false;
          }
        } else {
          attrs := attrs + {Ref(t, c)};
        }
      }
      assert refs == RefsOf(columns);
    }

    method CompleteTable(ghost g: Graph, t: string, size: nat, attrs: set<Ref>)
      requires Valid(g) && t in incomplete
      requires IsDepth(g, complete, t, size) && attrs == set r | r in g.columns && r.table == t
      modifies this
      ensures Valid(g)
      ensures complete == old(complete)[t := size] && incomplete == old(incomplete) - {t} && old(visited) <= visited
    {
      var bucket := if size in completed then completed[size] else [];
      BucketsGrow(completed, complete, t, size);
      DepthsKept(g, complete, t, size);
      completed := completed[size := bucket + [t]];
      complete := complete[t := size];
      incomplete := incomplete - {t};
      visited := visited + attrs;
    }

    /** processTableDepth: passes over the incomplete tables until none is left. */
    method ProcessTableDepth(m: Model, ghost g: Graph, ghost rank: map<string, nat>)
      requires g == GraphOf(m) && Valid(g) && Ranked(g, rank)
      modifies this
      ensures Valid(g) && incomplete == {}
      decreases incomplete
    {
      ghost var before := incomplete;
      if before != {} { LowestIsReady(g, rank, LowestRanked(before, rank), before); }
      Pass(m, g, {});
      if incomplete != {} {
        assert LowestRanked(before, rank) in before - incomplete;
        ProcessTableDepth(m, g, rank);
      }
    }

    /** One pass, in any order: it completes every table that was ready, and none of a stuck set. */
    method Pass(m: Model, ghost g: Graph, ghost ts: set<string>)
      requires g == GraphOf(m) && Valid(g)
      modifies this
      ensures Valid(g) && incomplete <= old(incomplete)
      ensures forall t | t in old(incomplete) && g.refs[t] <= old(visited) :: t !in incomplete
      ensures Stuck(g, ts) && ts <= old(incomplete) ==> ts <= incomplete
    {
      var todo := incomplete;
      while todo != {}
        invariant Valid(g) && todo <= incomplete <= old(incomplete) && old(visited) <= visited
        invariant forall t | t in old(incomplete) && t !in todo && g.refs[t] <= old(visited) :: t !in incomplete
        invariant Stuck(g, ts) && ts <= old(incomplete) ==> ts <= incomplete
        decreases todo
      {
        var t :| t in todo;
        todo := todo - {t};
        if Stuck(g, ts) && ts <= incomplete && t in ts { StuckIsNotReady(g, ts, this, t); }
        var _ := TryTable(m, g, t);
      }
    }

    /** However many passes are made, tables that wait for each other are never completed. */
    method Passes(m: Model, ghost g: Graph, ghost ts: set<string>, n: nat)
      requires g == GraphOf(m) && Valid(g) && Stuck(g, ts) && ts <= incomplete
      modifies this
      ensures Valid(g) && ts <= incomplete <= old(incomplete)
    {
      for k := 0 to n
        invariant Valid(g) && ts <= incomplete <= old(incomplete)
      {
        Pass(m, g, ts);
      }
    }

    /** One iteration of the pass. */
    method TryTable(m: Model, ghost g: Graph, t: string) returns (processComplete: bool)
      requires g == GraphOf(m) && Valid(g) && t in incomplete
      modifies this
      ensures Valid(g) && (processComplete <==> g.refs[t] <= old(visited)) && old(visited) <= visited
      ensures incomplete == if processComplete then old(incomplete) - {t} else old(incomplete)
    {
      var size, attrs;
      processComplete, size, attrs := FindTableDepth(t, AttrsOf(m[t]));
      if processComplete {
        CompleteTable(g, t, size, attrs);
      }
    }
  }

  lemma DepthsKept(g: Graph, depth: map<string, nat>, t: string, n: nat)
    requires depth.Keys <= g.refs.Keys && t in g.refs && t !in depth && IsDepth(g, depth, t, n) && AllDepths(g, depth)
    ensures AllDepths(g, depth[t := n])
  {
    var next := depth[t := n];
    forall u {:trigger IsDepth(g, next, u, next[u])} | u in next ensures IsDepth(g, next, u, next[u]) {
      assert IsDepth(g, depth, u, if u == t then n else depth[u]);
    }
  }

  lemma LowestIsReady(g: Graph, rank: map<string, nat>, t: string, ts: set<string>)
    requires Ranked(g, rank) && t in ts && ts <= rank.Keys && forall u | u in ts :: rank[t] <= rank[u]
    ensures forall r | r in g.refs[t] :: r in g.columns && r.table in rank && r.table !in ts
  {
  }

  ghost function LowestRanked(ts: set<string>, rank: map<string, nat>): (t: string)
    requires ts != {} && ts <= rank.Keys
    ensures t in ts && forall u | u in ts :: rank[t] <= rank[u]
  {
    var t :| t in ts;
    var rest := set v | v in ts && rank[v] < rank[t];
    if rest == {} then
      assert forall u | u in ts :: u !in rest;
      t
    else
      assert t !in rest && rest < ts;
      LowestRanked(rest, rank)
  }

  // ---- the depths as a function of the graph -----------------------------------

  ghost function Greatest(ns: set<nat>): (n: nat)
    ensures (forall k | k in ns :: k <= n) && (ns == {} ==> n == 0) && (ns != {} ==> n in ns)
  {
    if ns == {} then 0
    else
      var k :| k in ns;
      var rest := Greatest(ns - {k});
      assert forall j | j in ns :: j == k || j in ns - {k};
      if k > rest then k else rest
  }

  /** One more than the depths of the tables referenced. */
  ghost function RefDepths(g: Graph, rank: map<string, nat>, t: string): set<nat>
    requires Ranked(g, rank) && t in g.refs
    decreases rank[t], 0
  {
    set r | r in g.refs[t] :: DepthOf(g, rank, r.table) + 1
  }

  ghost function DepthOf(g: Graph, rank: map<string, nat>, t: string): nat
    requires Ranked(g, rank) && t in g.refs
    decreases rank[t], 1
  {
    Greatest(RefDepths(g, rank, t))
  }

  ghost function AllDepthsOf(g: Graph, rank: map<string, nat>): map<string, nat>
    requires Ranked(g, rank)
  {
    map t | t in g.refs :: DepthOf(g, rank, t)
  }

  /** The depths of all tables; they are there when the graph is ranked, and do not depend on
      the ranks (OneDepthMap). */
  ghost function Depths(g: Graph, rank: map<string, nat>): (depth: map<string, nat>)
    requires Ranked(g, rank)
    ensures IsDepthMap(g, depth)
  {
    var depth := AllDepthsOf(g, rank);
    assert AllDepths(g, depth) by {
      forall t {:trigger IsDepth(g, depth, t, depth[t])} | t in depth ensures IsDepth(g, depth, t, depth[t]) {
        DepthOfIsDepth(g, rank, t);
      }
    }
    depth
  }

  lemma RefIsShallower(g: Graph, rank: map<string, nat>, t: string, r: Ref)
    requires Ranked(g, rank) && t in g.refs && r in g.refs[t]
    ensures DepthOf(g, rank, r.table) < DepthOf(g, rank, t)
  {
    assert DepthOf(g, rank, r.table) + 1 in RefDepths(g, rank, t);
  }

  lemma SomeRefIsNext(g: Graph, rank: map<string, nat>, t: string) returns (r: Ref)
    requires Ranked(g, rank) && t in g.refs && DepthOf(g, rank, t) > 0
    ensures r in g.refs[t] && r.table in g.refs && DepthOf(g, rank, t) == DepthOf(g, rank, r.table) + 1
  {
    assert DepthOf(g, rank, t) in RefDepths(g, rank, t);
    r :| r in g.refs[t] && DepthOf(g, rank, t) == DepthOf(g, rank, r.table) + 1;
  }

  lemma DepthOfIsDepth(g: Graph, rank: map<string, nat>, t: string)
    requires Ranked(g, rank) && t in g.refs
    ensures IsDepth(g, AllDepthsOf(g, rank), t, DepthOf(g, rank, t))
  {
    var depth := AllDepthsOf(g, rank);
    forall r | r in g.refs[t] ensures r.table in depth && depth[r.table] < DepthOf(g, rank, t) { RefIsShallower(g, rank, t, r); }
    if DepthOf(g, rank, t) > 0 {
      var r := SomeRefIsNext(g, rank, t);
    }
  }

  // ---- the layers of a model, said of its columns ------------------------------

  /** A column of the table is a foreign key at `r`. */
  predicate RefersTo(m: Model, t: string, r: Ref) {
    t in m && m[t].Relation? && exists c :: c in m[t].attrs && m[t].attrs[c].ref == Some(r)
  }

  predicate IsColumnOf(m: Model, r: Ref) {
    r.table in m && m[r.table].Relation? && r.column in m[r.table].attrs
  }

  lemma GraphIsThatOf(m: Model, t: string, r: Ref)
    ensures GraphOf(m).refs.Keys == m.Keys
    ensures t in m ==> (r in GraphOf(m).refs[t] <==> RefersTo(m, t, r))
    ensures r in GraphOf(m).columns <==> IsColumnOf(m, r)
  {
  }

  /** A model is ranked if every foreign key is at a column that exists, of a table of smaller rank. */
  lemma RankedMeans(m: Model, rank: map<string, nat>)
    ensures Ranked(GraphOf(m), rank) <==>
      rank.Keys == m.Keys && forall t, r | RefersTo(m, t, r) :: IsColumnOf(m, r) && t in rank && r.table in rank && rank[r.table] < rank[t]
  {
    var g := GraphOf(m);
    if Ranked(g, rank) {
      forall t, r | RefersTo(m, t, r) ensures IsColumnOf(m, r) && t in rank && r.table in rank && rank[r.table] < rank[t] {
        GraphIsThatOf(m, t, r);
        assert t in g.refs && r in g.refs[t];
      }
    }
    if rank.Keys == m.Keys && forall t, r | RefersTo(m, t, r) :: IsColumnOf(m, r) && t in rank && r.table in rank && rank[r.table] < rank[t] {
      forall t, r | t in g.refs && r in g.refs[t] ensures r in g.columns && r.table in rank && rank[r.table] < rank[t] {
        GraphIsThatOf(m, t, r);
        assert RefersTo(m, t, r);
      }
    }
  }

  predicate InLayer(buckets: map<int, seq<string>>, n: int, t: string) {
    n in buckets && t in buckets[n]
  }

  /** Every table is in one layer, once. */
  ghost predicate PlacedOnce(m: Model, buckets: map<int, seq<string>>) {
    && (forall t | t in m :: exists n :: n >= 0 && InLayer(buckets, n, t))
    && (forall n, k, t | InLayer(buckets, n, t) && InLayer(buckets, k, t) :: n == k)
    && (forall n | n in buckets :: n >= 0 && Distinct(buckets[n]))
    && (forall n, t | InLayer(buckets, n, t) :: t in m)
  }

  /** A table of layer n refers to tables of layers before n only, and to one of the layer just before. */
  ghost predicate RefersBack(m: Model, buckets: map<int, seq<string>>, n: int, t: string) {
    && (forall r | RefersTo(m, t, r) :: exists k :: k < n && InLayer(buckets, k, r.table))
    && (n > 0 ==> exists r :: RefersTo(m, t, r) && InLayer(buckets, n - 1, r.table))
  }

  /** So the first layer has the tables without foreign keys. */
  ghost predicate Layered(m: Model, buckets: map<int, seq<string>>) {
    PlacedOnce(m, buckets) && forall n, t {:trigger InLayer(buckets, n, t)} | InLayer(buckets, n, t) :: RefersBack(m, buckets, n, t)
  }

  lemma LayerIsDepth(buckets: map<int, seq<string>>, depth: map<string, nat>, n: int, t: string)
    requires Buckets(buckets, depth)
    ensures InLayer(buckets, n, t) <==> t in depth && depth[t] == n
  {
    if n in buckets { assert HasBucket(buckets, n); }
    if t in depth { assert HasBucket(buckets, depth[t]); }
  }

  lemma BucketsPlaceOnce(m: Model, depth: map<string, nat>, buckets: map<int, seq<string>>)
    requires Buckets(buckets, depth) && depth.Keys == m.Keys
    ensures PlacedOnce(m, buckets)
  {
    forall n, t ensures InLayer(buckets, n, t) <==> t in depth && depth[t] == n { LayerIsDepth(buckets, depth, n, t); }
    forall t | t in m ensures exists n :: n >= 0 && InLayer(buckets, n, t) { assert InLayer(buckets, depth[t], t); }
    forall n | n in buckets ensures n >= 0 && Distinct(buckets[n]) {
      assert HasBucket(buckets, n) && IsBucket(buckets[n], depth, n);
      assert InLayer(buckets, n, buckets[n][0]);
    }
  }

  lemma BucketRefersBack(m: Model, depth: map<string, nat>, buckets: map<int, seq<string>>, t: string)
    requires Buckets(buckets, depth) && IsDepthMap(GraphOf(m), depth) && t in m
    ensures RefersBack(m, buckets, depth[t], t)
  {
    var g := GraphOf(m);
    assert IsDepth(g, depth, t, depth[t]);
    forall r | RefersTo(m, t, r) ensures exists k :: k < depth[t] && InLayer(buckets, k, r.table) {
      GraphIsThatOf(m, t, r);
      LayerIsDepth(buckets, depth, depth[r.table], r.table);
    }
    if depth[t] > 0 {
      var r :| r in g.refs[t] && r.table in depth && depth[t] == depth[r.table] + 1;
      GraphIsThatOf(m, t, r);
      LayerIsDepth(buckets, depth, depth[r.table], r.table);
    }
  }

  lemma BucketsAreLayers(m: Model, depth: map<string, nat>, buckets: map<int, seq<string>>)
    requires IsDepthMap(GraphOf(m), depth) && Buckets(buckets, depth)
    ensures Layered(m, buckets)
  {
    BucketsPlaceOnce(m, depth, buckets);
    forall n, t {:trigger InLayer(buckets, n, t)} | InLayer(buckets, n, t) ensures RefersBack(m, buckets, n, t) {
      LayerIsDepth(buckets, depth, n, t);
      BucketRefersBack(m, depth, buckets, t);
    }
  }

  /** Every table is placed exactly once, at its depth, whatever the iteration orders. */
  method CreateTableDepthMap(m: Model, ghost rank: map<string, nat>) returns (buckets: map<int, seq<string>>)
    requires Ranked(GraphOf(m), rank)
    ensures Buckets(buckets, Depths(GraphOf(m), rank)) && Layered(m, buckets)
  {
    var maps := new DepthMaps(m);
    maps.ProcessTableDepth(m, GraphOf(m), rank);
    buckets := maps.completed;
    OneDepthMap(GraphOf(m), maps.complete, Depths(GraphOf(m), rank));
    BucketsAreLayers(m, Depths(GraphOf(m), rank), buckets);
  }

  lemma OneDepthMap(g: Graph, a: map<string, nat>, b: map<string, nat>)
    requires IsDepthMap(g, a) && IsDepthMap(g, b)
    ensures a == b
  {
    forall t | t in g.refs ensures a[t] == b[t] { DepthIsUnique(g, a, b, t); }
  }

  ghost predicate StuckIn(g: Graph, ts: set<string>, t: string) {
    t in g.refs && exists r :: r in g.refs[t] && (r.table in ts || r !in g.columns)
  }

  /** Tables each of which references one of them, or a column that does not exist. */
  ghost predicate Stuck(g: Graph, ts: set<string>) {
    forall t | t in ts :: StuckIn(g, ts, t)
  }

  /** While all of them are incomplete, none of them is ready. */
  lemma StuckIsNotReady(g: Graph, ts: set<string>, maps: DepthMaps, t: string)
    requires maps.Valid(g) && Stuck(g, ts) && ts <= maps.incomplete && t in ts
    ensures t in g.refs && !(g.refs[t] <= maps.visited)
  {
    assert StuckIn(g, ts, t);
    var r :| r in g.refs[t] && (r.table in ts || r !in g.columns);
    assert r !in maps.visited;
  }

  /** So the recursion can end exactly when no set of tables is stuck, which is when the
      foreign-key graph is resolvable and acyclic. */
  lemma RankedIffNothingStuck(g: Graph)
    requires forall r | r in g.columns :: r.table in g.refs
    ensures (exists rank :: Ranked(g, rank)) <==> (forall ts | ts != {} :: !Stuck(g, ts))
  {
    forall rank, ts | Ranked(g, rank) && ts != {} ensures !Stuck(g, ts) { RankedIsNotStuck(g, rank, ts); }
    if forall ts | ts != {} :: !Stuck(g, ts) {
      var rank := RankUpTo(g, map[]);
    }
  }

  lemma RankedIsNotStuck(g: Graph, rank: map<string, nat>, ts: set<string>)
    requires Ranked(g, rank) && ts != {}
    ensures !Stuck(g, ts)
  {
    if ts <= rank.Keys {
      var t := LowestRanked(ts, rank);
      assert !StuckIn(g, ts, t);
    } else {
      var t :| t in ts && t !in rank;
      assert !StuckIn(g, ts, t);
    }
  }

  /** A ranking of some of the tables, closed under references. */
  ghost predicate RankedPart(g: Graph, rank: map<string, nat>) {
    && rank.Keys <= g.refs.Keys
    && forall t, r | t in rank && r in g.refs[t] :: r in g.columns && r.table in rank && rank[r.table] < rank[t]
  }

  lemma {:induction false} RankUpTo(g: Graph, part: map<string, nat>) returns (rank: map<string, nat>)
    requires RankedPart(g, part) && forall ts | ts != {} :: !Stuck(g, ts)
    requires forall r | r in g.columns :: r.table in g.refs
    requires forall t | t in part :: part[t] < |part|
    ensures Ranked(g, rank)
    decreases g.refs.Keys - part.Keys
  {
    var left := g.refs.Keys - part.Keys;
    if left == {} {
      NothingLeft(g.refs.Keys, part.Keys);
      rank := part;
    } else {
      assert !Stuck(g, left);
      var t :| t in left && !StuckIn(g, left, t);
      RankedPartGrows(g, part, t);
      rank := RankUpTo(g, part[t := |part|]);
    }
  }

  lemma NothingLeft(all: set<string>, part: set<string>)
    requires part <= all && all - part == {}
    ensures part == all
  {
    forall t | t in all ensures t in part { assert t in all - part || t in part; }
  }

  lemma RankedPartGrows(g: Graph, part: map<string, nat>, t: string)
    requires RankedPart(g, part) && t in g.refs && t !in part && !StuckIn(g, g.refs.Keys - part.Keys, t)
    requires (forall r | r in g.columns :: r.table in g.refs) && forall u | u in part :: part[u] < |part|
    ensures var next := part[t := |part|]; RankedPart(g, next) && forall u | u in next :: next[u] < |next|
  {
    var next := part[t := |part|];
    assert next.Keys == part.Keys + {t} && |next| == |part| + 1;
    forall r | r in g.refs[t] ensures r in g.columns && r.table in part {
    }
  }
}
