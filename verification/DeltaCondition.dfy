/** Which changes of a model the delta script can make, read off the two models alone. */
module DeltaCondition {
  import opened Ordering
  import opened TableDepth
  import opened SqlScript
  import opened TableChange
  import opened RetainedTable
  import opened Migration
  import opened MigrationProofs
  import opened MigrationTheorem
  import opened ScriptView
  import opened CreateTheorem
  import opened TableOrder

  /** An order the generator can choose for the columns of a table: each once unless lines are shared. */
  ghost predicate ByLines(attrs: Attrs, names: seq<string>) {
    (forall c | c in names :: c in attrs) && (Distinct(names) <==> OwnLines(attrs)) && (Distinct(names) ==> Lists(names, attrs.Keys))
  }

  /** The orders chosen so far have the property every order the generator chooses has. */
  ghost predicate LineOrders(s: Schema, orders: map<string, seq<string>>) {
    forall t | t in s :: t in orders && ByLines(s[t], orders[t])
  }

  /** No two columns of a table are declared on one line. */
  predicate AllOwnLines(s: Schema) {
    forall t | t in s :: OwnLines(s[t])
  }

  lemma DistinctIsOwn(s: Schema, orders: map<string, seq<string>>)
    requires LineOrders(s, orders)
    ensures AllDistinct(s, orders) <==> AllOwnLines(s)
  {
    forall t | t in s ensures ByLines(s[t], orders[t]) {
    }
  }

  /** Every old foreign key at a column that `t` releases belongs to a table of the new version
      that is less deep than `t` there, or as deep and before it by name. */
  ghost predicate ReleasesComeLast(old_: Schema, new_: Schema, ro: map<string, nat>, rn: map<string, nat>, depth: map<string, nat>, t: string)
    requires Sound(old_, ro) && Sound(new_, rn) && t in old_ && t in new_ && depth.Keys == new_.Keys
  {
    forall u, c {:trigger HasFk(old_, u, c)} | HasFk(old_, u, c) && u != t ::
      var r := old_[u][c].ref.value; r.table == t && Releases(old_, new_, ro, rn, t, r.column) ==> u in new_ && Earlier(depth, u, t)
  }

  /** What is asked of one table of the new version. */
  ghost predicate TableCanMigrate(old_: Schema, new_: Schema, ro: map<string, nat>, rn: map<string, nat>, depth: map<string, nat>, t: string)
    requires Sound(old_, ro) && Sound(new_, rn) && t in new_ && depth.Keys == new_.Keys
  {
    && ColumnsMigrate(old_, new_, ro, rn, t) && FksMeetKeys(old_, new_, t)
    && (if t in old_ then
          TypesConvert(old_, new_, ro, rn, t) && KeyCanChange(old_[t], new_[t]) && ReleasesComeLast(old_, new_, ro, rn, depth, t)
        else OwnLines(new_[t]) && HasConstraint(new_[t]))
  }

  /** `depth` are the depths of the new version. */
  ghost predicate CanMigrate(old_: Schema, new_: Schema, ro: map<string, nat>, rn: map<string, nat>, depth: map<string, nat>)
    requires Sound(old_, ro) && Sound(new_, rn) && depth.Keys == new_.Keys
  {
    forall t {:trigger TableCanMigrate(old_, new_, ro, rn, depth, t)} | t in new_ :: TableCanMigrate(old_, new_, ro, rn, depth, t)
  }

  lemma ReleasesFreeIff(old_: Schema, new_: Schema, ro: map<string, nat>, rn: map<string, nat>, depth: map<string, nat>, order: seq<string>, i: nat)
    requires Sound(old_, ro) && Sound(new_, rn) && depth.Keys == new_.Keys
    requires ByDepthAndName(depth, order) && Lists(order, new_.Keys) && i < |order| && order[i] in old_
    ensures order[i] in new_
      && (ReleasesFree(old_, new_, ro, rn, order[..i], order[i]) <==> ReleasesComeLast(old_, new_, ro, rn, depth, order[i]))
  {
    var t := order[i];
    assert t in order;
    forall u, c {:trigger HasFk(old_, u, c)} | HasFk(old_, u, c)
      ensures u in order[..i] <==> u in new_ && Earlier(depth, u, t)
    {
      BeforeIsEarlier(depth, order, i, u);
    }
  }

  /** The condition of the migration theorem, for the order the generator takes. */
  lemma CanMigrateIff(old_: Schema, new_: Schema, ro: map<string, nat>, rn: map<string, nat>, depth: map<string, nat>, order: seq<string>, orders: map<string, seq<string>>)
    requires Sound(old_, ro) && Sound(new_, rn) && depth.Keys == new_.Keys
    requires ByDepthAndName(depth, order) && Lists(order, new_.Keys) && LineOrders(new_, orders)
    ensures Migratable(old_, new_, ro, rn, order, orders) <==> CanMigrate(old_, new_, ro, rn, depth)
  {
    forall i | 0 <= i < |order|
      ensures TableMigrates(old_, new_, ro, rn, order[..i], order[i], orders[order[i]]) <==> TableCanMigrate(old_, new_, ro, rn, depth, order[i])
    {
      assert order[i] in order && ByLines(new_[order[i]], orders[order[i]]);
      if order[i] in old_ { ReleasesFreeIff(old_, new_, ro, rn, depth, order, i); }
    }
    if Migratable(old_, new_, ro, rn, order, orders) {
      forall t {:trigger TableCanMigrate(old_, new_, ro, rn, depth, t)} | t in new_ ensures TableCanMigrate(old_, new_, ro, rn, depth, t) {
        assert t in order;
        var i :| 0 <= i < |order| && order[i] == t;
        assert TableMigrates(old_, new_, ro, rn, order[..i], order[i], orders[order[i]]);
      }
    }
  }
}
