/** Without combinations of attributes in unions: which messages a type gets, and how many
    (pkg/validate/validate.go). */
module GrammarMessages {
  import opened Ordering
  import opened GrammarConformance

  /** Something for every key, summed up. */
  ghost function Sum(f: string -> multiset<Message>, keys: set<string>): multiset<Message> {
    if keys == {} then multiset{}
    else
      var k :| k in keys;
      f(k) + Sum(f, keys - {k})
  }

  lemma {:induction false} SumInAnyOrder(f: string -> multiset<Message>, keys: set<string>, k: string)
    requires k in keys
    ensures Sum(f, keys) == f(k) + Sum(f, keys - {k})
    decreases keys
  {
    var b :| b in keys && Sum(f, keys) == f(b) + Sum(f, keys - {b});
    if k != b {
      SumInAnyOrder(f, keys - {b}, k);
      SumInAnyOrder(f, keys - {k}, b);
      assert keys - {b} - {k} == keys - {k} - {b};
    }
  }

  /** One message for a required attribute that is missing and for a union without a match. */
  function AttrShare(g: Grammar, spec: Attrs, t: Type, name: string): string -> multiset<Message>
    requires t.Tuple?
  {
    (gk: string) =>
      if gk !in spec then multiset{}
      else if IsUnion(g, gk) then if Fails(Decided(g, t, gk)) then multiset{InvalidOption(name)} else multiset{}
      else if gk in t.attrs || spec[gk] then multiset{} else multiset{MissingReqField(gk, name)}
  }

  /** And one for every attribute that is not accounted for. */
  ghost function ExcessShare(g: Grammar, spec: Attrs, t: Type, name: string): string -> multiset<Message>
    requires t.Tuple?
  {
    (a: string) => if Accounted(g, spec, t, a) then multiset{} else multiset{ExcessAttr(a, name)}
  }

  ghost function Expected(g: Grammar, spec: Attrs, t: Type, name: string): multiset<Message>
    requires t.Tuple?
    decreases t, 2
  {
    AllNested(g, t, t.attrs.Keys) + Sum(AttrShare(g, spec, t, name), spec.Keys) + Sum(ExcessShare(g, spec, t, name), t.attrs.Keys)
  }

  ghost function Nested(g: Grammar, t: Type, a: string): multiset<Message>
    requires t.Tuple?
    decreases t, 0
  {
    if IsNested(g, t, a) then Expected(g, AttrsOf(g, a), t.attrs[a], a) else multiset{}
  }

  ghost function AllNested(g: Grammar, t: Type, names: set<string>): multiset<Message>
    requires t.Tuple?
    decreases t, 1, names
  {
    if names == {} then multiset{}
    else
      var a :| a in names;
      Nested(g, t, a) + AllNested(g, t, names - {a})
  }

  /** The sum does not depend on the order of the attributes. */
  lemma {:induction false} NestedInAnyOrder(g: Grammar, t: Type, names: set<string>, a: string)
    requires t.Tuple? && a in names
    ensures AllNested(g, t, names) == Nested(g, t, a) + AllNested(g, t, names - {a})
    decreases names
  {
    var b :| b in names && AllNested(g, t, names) == Nested(g, t, b) + AllNested(g, t, names - {b});
    if a != b {
      NestedInAnyOrder(g, t, names - {b}, a);
      NestedInAnyOrder(g, t, names - {a}, b);
      assert names - {b} - {a} == names - {a} - {b};
    }
  }

  function Members(keys: seq<string>): set<string> {
    set k | k in keys
  }

  lemma FirstMember(keys: seq<string>)
    requires keys != [] && Distinct(keys)
    ensures Distinct(keys[1..]) && keys[0] in Members(keys) && Members(keys) - {keys[0]} == Members(keys[1..])
  {
    forall k ensures k in Members(keys) - {keys[0]} <==> k in Members(keys[1..]) {
      assert keys == [keys[0]] + keys[1..];
    }
  }

  /** Without combinations these are the messages, each as often, in every order. */
  lemma {:induction false} ExactMessages(v: Setup, rank: Rank, level: nat, spec: Attrs, t: Type, name: string, s: State)
    requires t.Tuple? && Acyclic(v.g, rank) && Below(v.g, rank, spec, level) && WithoutCombinations(v.g) && s.names == t.attrs.Keys
    ensures multiset(Compare(v, rank, level, spec, t, name, s).out) == multiset(s.out) + Expected(v.g, spec, t, name)
    decreases t, 2, 0
  {
    var all := Listing(v, spec, t, t.attrs.Keys, s.tick);
    NestedExact(v, rank, t, all, Ticked(s));
    assert Members(all) == t.attrs.Keys;
    LevelExact(v, rank, level, spec, t, name, NestedInOrder(v, rank, spec, t, s));
  }

  lemma LevelExact(v: Setup, rank: Rank, level: nat, spec: Attrs, t: Type, name: string, s: State)
    requires t.Tuple? && Acyclic(v.g, rank) && Below(v.g, rank, spec, level) && WithoutCombinations(v.g) && s.names == t.attrs.Keys
    ensures multiset(ExcessInOrder(v, spec, t, name, AttrsInOrder(v, rank, level, spec, t, name, s)).out) ==
      multiset(s.out) + Sum(AttrShare(v.g, spec, t, name), spec.Keys) + Sum(ExcessShare(v.g, spec, t, name), t.attrs.Keys)
  {
    var keys := Listing(v, spec, t, spec.Keys, s.tick);
    assert Members(keys) == spec.Keys;
    AttrsExact(v, rank, level, spec, t, keys, name, Ticked(s));
    AttrsKeep(v, rank, level, spec, t, keys, name, Ticked(s));
    var s2 := CompareAttrs(v, rank, level, spec, t, keys, name, Ticked(s));
    LeftAreUnaccounted(v.g, spec, t, keys, s2.names);
    ExcessExact(v.g, spec, t, Listing(v, spec, t, s2.names, s2.tick), t.attrs.Keys, name);
  }

  lemma {:induction false} NestedExact(v: Setup, rank: Rank, t: Type, keys: seq<string>, s: State)
    requires t.Tuple? && Acyclic(v.g, rank) && WithoutCombinations(v.g) && Distinct(keys) && forall k | k in keys :: k in t.attrs
    ensures var r := CompareNested(v, rank, t, keys, s);
      r.names == s.names && multiset(r.out) == multiset(s.out) + AllNested(v.g, t, Members(keys))
    decreases t, 1, |keys|
  {
    if keys != [] {
      var a := keys[0];
      FirstMember(keys);
      NestedInAnyOrder(v.g, t, Members(keys), a);
      if IsNested(v.g, t, a) {
        ExactMessages(v, rank, rank(a), AttrsOf(v.g, a), t.attrs[a], a, s.(names := t.attrs[a].attrs.Keys));
      }
      NestedExact(v, rank, t, keys[1..], if IsNested(v.g, t, a) then CompareOne(v, rank, t, a, s) else s);
    }
  }

  /** What one attribute of the grammar type accounts for. */
  predicate Strikes(g: Grammar, t: Type, gk: string, a: string)
    requires t.Tuple?
  {
    if IsUnion(g, gk) then Decided(g, t, gk) == Single(a) else gk == a
  }

  lemma AttrExact(v: Setup, rank: Rank, level: nat, spec: Attrs, t: Type, gk: string, name: string, s: State)
    requires t.Tuple? && Acyclic(v.g, rank) && Below(v.g, rank, spec, level) && WithoutCombinations(v.g) && gk in spec && s.names <= t.attrs.Keys
    ensures var r := CompareAttr(v, rank, level, spec, t, gk, name, s);
      && multiset(r.out) == multiset(s.out) + AttrShare(v.g, spec, t, name)(gk)
      && r.names <= s.names && forall a | a in s.names :: a in r.names <==> !Strikes(v.g, t, gk, a)
  {
  }

  lemma {:induction false} AttrsExact(v: Setup, rank: Rank, level: nat, spec: Attrs, t: Type, keys: seq<string>, name: string, s: State)
    requires t.Tuple? && Acyclic(v.g, rank) && Below(v.g, rank, spec, level) && WithoutCombinations(v.g)
    requires Distinct(keys) && (forall k | k in keys :: k in spec) && s.names <= t.attrs.Keys
    ensures multiset(CompareAttrs(v, rank, level, spec, t, keys, name, s).out) == multiset(s.out) + Sum(AttrShare(v.g, spec, t, name), Members(keys))
    decreases |keys|
  {
    if keys != [] {
      FirstMember(keys);
      SumInAnyOrder(AttrShare(v.g, spec, t, name), Members(keys), keys[0]);
      AttrExact(v, rank, level, spec, t, keys[0], name, s);
      AttrsExact(v, rank, level, spec, t, keys[1..], name, CompareAttr(v, rank, level, spec, t, keys[0], name, s));
    }
  }

  /** The names that none of the keys accounts for are left. */
  ghost predicate Leaves(g: Grammar, t: Type, keys: seq<string>, before: set<string>, after: set<string>)
    requires t.Tuple?
  {
    after <= before && forall a | a in before :: a in after <==> forall k | k in keys :: !Strikes(g, t, k, a)
  }

  lemma LeavesCons(g: Grammar, t: Type, keys: seq<string>, before: set<string>, mid: set<string>, after: set<string>)
    requires t.Tuple? && keys != [] && mid <= before && (forall a | a in before :: a in mid <==> !Strikes(g, t, keys[0], a))
    requires Leaves(g, t, keys[1..], mid, after)
    ensures Leaves(g, t, keys, before, after)
  {
    assert keys == [keys[0]] + keys[1..];
  }

  lemma {:induction false} AttrsKeep(v: Setup, rank: Rank, level: nat, spec: Attrs, t: Type, keys: seq<string>, name: string, s: State)
    requires t.Tuple? && Acyclic(v.g, rank) && Below(v.g, rank, spec, level) && WithoutCombinations(v.g)
    requires (forall k | k in keys :: k in spec) && s.names <= t.attrs.Keys
    ensures Leaves(v.g, t, keys, s.names, CompareAttrs(v, rank, level, spec, t, keys, name, s).names)
    decreases |keys|
  {
    if keys != [] {
      AttrExact(v, rank, level, spec, t, keys[0], name, s);
      var s1 := CompareAttr(v, rank, level, spec, t, keys[0], name, s);
      AttrsKeep(v, rank, level, spec, t, keys[1..], name, s1);
      LeavesCons(v.g, t, keys, s.names, s1.names, CompareAttrs(v, rank, level, spec, t, keys[1..], name, s1).names);
    }
  }

  lemma LeftAreUnaccounted(g: Grammar, spec: Attrs, t: Type, keys: seq<string>, left: set<string>)
    requires t.Tuple? && (forall k :: k in keys <==> k in spec.Keys) && Leaves(g, t, keys, t.attrs.Keys, left)
    ensures forall a | a in t.attrs :: a in left <==> !Accounted(g, spec, t, a)
  {
    forall a | a in t.attrs ensures a in left <==> !Accounted(g, spec, t, a) {
      if k :| k in keys && Strikes(g, t, k, a) { assert k in spec; }
      if Accounted(g, spec, t, a) {
        if a in spec && !IsUnion(g, a) {
          assert a in keys && Strikes(g, t, a, a);
        } else {
          var gk :| gk in spec && IsUnion(g, gk) && Decided(g, t, gk) == Single(a);
          assert gk in keys && Strikes(g, t, gk, a);
        }
      }
    }
  }

  lemma {:induction false} ExcessExact(g: Grammar, spec: Attrs, t: Type, left: seq<string>, keys: set<string>, name: string)
    requires t.Tuple? && Distinct(left) && forall a :: a in left <==> a in keys && !Accounted(g, spec, t, a)
    ensures multiset(Excesses(left, name)) == Sum(ExcessShare(g, spec, t, name), keys)
    decreases keys
  {
    var f := ExcessShare(g, spec, t, name);
    if left == [] {
      NothingInExcess(g, spec, t, keys, name);
    } else {
      var a := left[0];
      FirstMember(left);
      SumInAnyOrder(f, keys, a);
      assert Excesses(left, name) == [ExcessAttr(a, name)] + Excesses(left[1..], name);
      forall b ensures b in left[1..] <==> b in keys - {a} && !Accounted(g, spec, t, b) {
        assert b in Members(left[1..]) <==> b in Members(left) && b != a;
      }
      ExcessExact(g, spec, t, left[1..], keys - {a}, name);
    }
  }

  lemma {:induction false} NothingInExcess(g: Grammar, spec: Attrs, t: Type, keys: set<string>, name: string)
    requires t.Tuple? && forall a | a in keys :: Accounted(g, spec, t, a)
    ensures Sum(ExcessShare(g, spec, t, name), keys) == multiset{}
    decreases keys
  {
    if keys != {} {
      var a :| a in keys;
      SumInAnyOrder(ExcessShare(g, spec, t, name), keys, a);
      NothingInExcess(g, spec, t, keys - {a}, name);
    }
  }
}
