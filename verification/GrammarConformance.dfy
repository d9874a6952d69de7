/** Comparing the result type of a view with a grammar (pkg/validate/validate.go): what is
    reported depends on the order in which Go yields the attributes when the grammar has
    unions with combinations of attributes. */
module GrammarConformance {
  import opened Ordering

  /** The type of a view's result; only tuples have attributes. */
  datatype Type = Tuple(attrs: map<string, Type>) | OtherType

  /** The attributes of a grammar type, and whether they are optional. */
  type Attrs = map<string, bool>

  datatype GrammarType = TupleType(attrs: Attrs) | OneOf(options: seq<string>) | OtherGrammar

  type Grammar = map<string, GrammarType>

  /** The attributes named in an InvalidOption message are left out. */
  datatype Message = MissingReqField(attr: string, spec: string) | ExcessAttr(attr: string, spec: string) | InvalidOption(spec: string)

  const CombinationPrefix := "__Choice_Combination_"

  /** The option stands for several attributes: those of the grammar type of that name. */
  predicate IsCombination(name: string) {
    |CombinationPrefix| <= |name| && name[..|CombinationPrefix|] == CombinationPrefix
  }

  predicate IsUnion(g: Grammar, name: string) {
    name in g && g[name].OneOf?
  }

  function AttrsOf(g: Grammar, name: string): Attrs {
    if name in g && g[name].TupleType? then g[name].attrs else map[]
  }

  /** The attribute is a nested tuple whose name is a grammar type. */
  predicate IsNested(g: Grammar, t: Type, a: string)
    requires t.Tuple?
  {
    a in t.attrs && t.attrs[a].Tuple? && a in g
  }

  /** Which option of a union decides, and whether none before it was looked for in vain.
      A combination is passed over if there is a single attribute. */
  datatype Decision = Single(name: string) | Combined(name: string, matching: bool) | Ended(matching: bool)

  function Decide(options: seq<string>, impl: set<string>, matching: bool): (d: Decision)
    ensures d.Combined? ==> d.name in options && IsCombination(d.name)
    ensures d.Single? ==> d.name in impl
  {
    if options == [] then Ended(matching)
    else if IsCombination(options[0]) then
      if |impl| == 1 then Decide(options[1..], impl, matching) else Combined(options[0], matching)
    else if options[0] in impl then Single(options[0])
    else Decide(options[1..], impl, false)
  }

  function Decided(g: Grammar, t: Type, gk: string): (d: Decision)
    requires t.Tuple? && IsUnion(g, gk)
    ensures d.Combined? ==> d.name in g[gk].options && IsCombination(d.name)
    ensures d.Single? ==> d.name in t.attrs
  {
    Decide(g[gk].options, t.attrs.Keys, true)
  }

  predicate Fails(d: Decision) {
    (d.Combined? || d.Ended?) && !d.matching
  }

  // ---- no endless comparison ---------------------------------------------------

  /** Ranks of grammar types, falling from a type to the combinations its unions offer. */
  type Rank = string -> nat

  ghost predicate Below(g: Grammar, rank: Rank, spec: Attrs, level: nat) {
    forall gk | gk in spec && IsUnion(g, gk) :: OptionsBelow(rank, g[gk].options, level)
  }

  ghost predicate OptionsBelow(rank: Rank, options: seq<string>, level: nat) {
    forall c | c in options && IsCombination(c) :: rank(c) < level
  }

  ghost predicate Acyclic(g: Grammar, rank: Rank) {
    forall n {:trigger AttrsOf(g, n)} :: Below(g, rank, AttrsOf(g, n), rank(n))
  }

  // ---- one comparison ----------------------------------------------------------

  /** What the runtime may base the order of some keys on. */
  datatype Moment = Moment(tick: nat, spec: Attrs, impl: Type, keys: set<string>)

  datatype Setup = Setup(g: Grammar, order: Moment -> seq<string>)

  /** The names not accounted for yet, how many maps have been ranged over, and the messages. */
  datatype State = State(names: set<string>, tick: nat, out: seq<Message>)

  /** Every listing of the keys is some order. */
  function Listing(v: Setup, spec: Attrs, t: Type, keys: set<string>, tick: nat): (r: seq<string>)
    ensures Distinct(r) && |r| == |keys| && forall k :: k in r <==> k in keys
  {
    ListingOf(v.order(Moment(tick, spec, t, keys)), keys)
  }

  function Ticked(s: State): State {
    s.(tick := s.tick + 1)
  }

  function Report(s: State, m: Message): State {
    s.(out := s.out + [m])
  }

  ghost function Compare(v: Setup, rank: Rank, level: nat, spec: Attrs, t: Type, name: string, s: State): State
    requires t.Tuple? && Acyclic(v.g, rank) && Below(v.g, rank, spec, level)
    decreases t, level, 3, 0
  {
    ExcessInOrder(v, spec, t, name, AttrsInOrder(v, rank, level, spec, t, name, NestedInOrder(v, rank, spec, t, s)))
  }

  ghost function NestedInOrder(v: Setup, rank: Rank, spec: Attrs, t: Type, s: State): State
    requires t.Tuple? && Acyclic(v.g, rank)
    decreases t, 0, 1, 0
  {
    CompareNested(v, rank, t, Listing(v, spec, t, t.attrs.Keys, s.tick), Ticked(s))
  }

  ghost function AttrsInOrder(v: Setup, rank: Rank, level: nat, spec: Attrs, t: Type, name: string, s: State): State
    requires t.Tuple? && Acyclic(v.g, rank) && Below(v.g, rank, spec, level)
    decreases t, level, 2, 0
  {
    CompareAttrs(v, rank, level, spec, t, Listing(v, spec, t, spec.Keys, s.tick), name, Ticked(s))
  }

  function ExcessInOrder(v: Setup, spec: Attrs, t: Type, name: string, s: State): State {
    ReportExcess(Listing(v, spec, t, s.names, s.tick), name, Ticked(s))
  }

  /** The nested tuples, each with names of its own. */
  ghost function CompareNested(v: Setup, rank: Rank, t: Type, keys: seq<string>, s: State): State
    requires t.Tuple? && Acyclic(v.g, rank) && forall k | k in keys :: k in t.attrs
    decreases t, 0, 0, |keys|
  {
    if keys == [] then s
    else
      var s1 := if IsNested(v.g, t, keys[0]) then CompareOne(v, rank, t, keys[0], s) else s;
      CompareNested(v, rank, t, keys[1..], s1)
  }

  ghost function CompareOne(v: Setup, rank: Rank, t: Type, a: string, s: State): State
    requires t.Tuple? && Acyclic(v.g, rank) && IsNested(v.g, t, a)
    decreases t, 0, 0, 0
  {
    var inner := t.attrs[a];
    Compare(v, rank, rank(a), AttrsOf(v.g, a), inner, a, s.(names := inner.attrs.Keys)).(names := s.names)
  }

  ghost function CompareAttrs(v: Setup, rank: Rank, level: nat, spec: Attrs, t: Type, keys: seq<string>, name: string, s: State): State
    requires t.Tuple? && Acyclic(v.g, rank) && Below(v.g, rank, spec, level) && forall k | k in keys :: k in spec
    decreases t, level, 1, |keys|
  {
    if keys == [] then s
    else CompareAttrs(v, rank, level, spec, t, keys[1..], name, CompareAttr(v, rank, level, spec, t, keys[0], name, s))
  }

  ghost function CompareAttr(v: Setup, rank: Rank, level: nat, spec: Attrs, t: Type, gk: string, name: string, s: State): State
    requires t.Tuple? && Acyclic(v.g, rank) && Below(v.g, rank, spec, level) && gk in spec
    decreases t, level, 1, 0
  {
    if IsUnion(v.g, gk) then CompareOneOf(v, rank, level, Decided(v.g, t, gk), t, name, s)
    else if gk in t.attrs then s.(names := s.names - {gk})
    else if spec[gk] then s else Report(s, MissingReqField(gk, name))
  }

  /** A combination is compared with the whole tuple, on the names that are left. */
  ghost function CompareOneOf(v: Setup, rank: Rank, level: nat, d: Decision, t: Type, name: string, s: State): State
    requires t.Tuple? && Acyclic(v.g, rank) && (d.Combined? ==> rank(d.name) < level)
    decreases t, level, 0, 0
  {
    var s1 := match d
      case Single(n) => s.(names := s.names - {n})
      case Combined(c, _) => Compare(v, rank, rank(c), AttrsOf(v.g, c), t, name, s)
      case Ended(_) => s;
    if Fails(d) then Report(s1, InvalidOption(name)) else s1
  }

  function ReportExcess(keys: seq<string>, name: string, s: State): State {
    State({}, s.tick, s.out + Excesses(keys, name))
  }

  function Excesses(keys: seq<string>, name: string): seq<Message> {
    seq(|keys|, i requires 0 <= i < |keys| => ExcessAttr(keys[i], name))
  }

  // ---- conforming whatever the order -------------------------------------------

  /** Some union of the grammar type is decided by a combination. */
  ghost predicate HasCombined(g: Grammar, spec: Attrs, t: Type)
    requires t.Tuple?
  {
    exists gk :: gk in spec && IsUnion(g, gk) && Decided(g, t, gk).Combined?
  }

  /** The attribute is one of the grammar type, or the option that decides one of its unions. */
  ghost predicate Accounted(g: Grammar, spec: Attrs, t: Type, a: string)
    requires t.Tuple?
  {
    (a in spec && !IsUnion(g, a)) || exists gk :: gk in spec && IsUnion(g, gk) && Decided(g, t, gk) == Single(a)
  }

  /** The tuple conforms: the nested ones do; no required attribute is missing; every union is
      decided without a failure, and if by a combination, then the tuple as a whole is one of
      that; and if there is no such union, every attribute is accounted for. */
  ghost predicate Conforms(g: Grammar, rank: Rank, level: nat, spec: Attrs, t: Type)
    requires t.Tuple? && Acyclic(g, rank) && Below(g, rank, spec, level)
    decreases t, level, 1
  {
    && (forall a | IsNested(g, t, a) :: Conforms(g, rank, rank(a), AttrsOf(g, a), t.attrs[a]))
    && (forall gk | gk in spec :: AttrConforms(g, rank, level, spec, t, gk))
    && (HasCombined(g, spec, t) || forall a | a in t.attrs :: Accounted(g, spec, t, a))
  }

  ghost predicate AttrConforms(g: Grammar, rank: Rank, level: nat, spec: Attrs, t: Type, gk: string)
    requires t.Tuple? && Acyclic(g, rank) && Below(g, rank, spec, level) && gk in spec
    decreases t, level, 0
  {
    if IsUnion(g, gk) then
      var d := Decided(g, t, gk);
      !Fails(d) && (d.Combined? ==> Conforms(g, rank, rank(d.name), AttrsOf(g, d.name), t))
    else gk in t.attrs || spec[gk]
  }

  // Conforming types are reported nothing, in any order.

  lemma {:induction false} ConformingIsSilent(v: Setup, rank: Rank, level: nat, spec: Attrs, t: Type, name: string, s: State)
    requires t.Tuple? && Acyclic(v.g, rank) && Below(v.g, rank, spec, level)
    requires Conforms(v.g, rank, level, spec, t) && s.names <= t.attrs.Keys
    ensures var r := Compare(v, rank, level, spec, t, name, s); r.out == s.out && r.names == {}
    decreases t, level, 2, 0
  {
    var s1 := CompareNested(v, rank, t, Listing(v, spec, t, t.attrs.Keys, s.tick), Ticked(s));
    NestedAreSilent(v, rank, t, Listing(v, spec, t, t.attrs.Keys, s.tick), Ticked(s));
    var keys := Listing(v, spec, t, spec.Keys, s1.tick);
    AttrsAreSilent(v, rank, level, spec, t, keys, name, Ticked(s1));
    var s2 := CompareAttrs(v, rank, level, spec, t, keys, name, Ticked(s1));
    NothingIsLeft(v.g, spec, t, keys, s2);
  }

  lemma {:induction false} NestedAreSilent(v: Setup, rank: Rank, t: Type, keys: seq<string>, s: State)
    requires t.Tuple? && Acyclic(v.g, rank) && forall k | k in keys :: k in t.attrs
    requires forall a | IsNested(v.g, t, a) :: Conforms(v.g, rank, rank(a), AttrsOf(v.g, a), t.attrs[a])
    ensures var r := CompareNested(v, rank, t, keys, s); r.out == s.out && r.names == s.names
    decreases t, 0, 0, |keys|
  {
    if keys != [] {
      var a := keys[0];
      var s1 := if IsNested(v.g, t, a) then CompareOne(v, rank, t, a, s) else s;
      if IsNested(v.g, t, a) {
        ConformingIsSilent(v, rank, rank(a), AttrsOf(v.g, a), t.attrs[a], a, s.(names := t.attrs[a].attrs.Keys));
      }
      NestedAreSilent(v, rank, t, keys[1..], s1);
    }
  }

  /** What `gk` accounts for is not among the names that are left. */
  ghost predicate Struck(g: Grammar, t: Type, gk: string, names: set<string>)
    requires t.Tuple?
  {
    if IsUnion(g, gk) then
      match Decided(g, t, gk)
      case Single(n) => n !in names
      case Combined(_, _) => names == {}
      case Ended(_) => true
    else gk !in names
  }

  lemma {:induction false} AttrsAreSilent(v: Setup, rank: Rank, level: nat, spec: Attrs, t: Type, keys: seq<string>, name: string, s: State)
    requires t.Tuple? && Acyclic(v.g, rank) && Below(v.g, rank, spec, level) && s.names <= t.attrs.Keys
    requires forall k | k in keys :: k in spec && AttrConforms(v.g, rank, level, spec, t, k)
    ensures var r := CompareAttrs(v, rank, level, spec, t, keys, name, s);
      r.out == s.out && r.names <= s.names && forall k | k in keys :: Struck(v.g, t, k, r.names)
    decreases t, level, 1, |keys|
  {
    if keys != [] {
      AttrIsSilent(v, rank, level, spec, t, keys[0], name, s);
      AttrsAreSilent(v, rank, level, spec, t, keys[1..], name, CompareAttr(v, rank, level, spec, t, keys[0], name, s));
    }
  }

  lemma {:induction false} AttrIsSilent(v: Setup, rank: Rank, level: nat, spec: Attrs, t: Type, gk: string, name: string, s: State)
    requires t.Tuple? && Acyclic(v.g, rank) && Below(v.g, rank, spec, level) && s.names <= t.attrs.Keys
    requires gk in spec && AttrConforms(v.g, rank, level, spec, t, gk)
    ensures var r := CompareAttr(v, rank, level, spec, t, gk, name, s);
      r.out == s.out && r.names <= s.names && Struck(v.g, t, gk, r.names)
    decreases t, level, 1, 0
  {
    if IsUnion(v.g, gk) {
      var d := Decided(v.g, t, gk);
      if d.Combined? { ConformingIsSilent(v, rank, rank(d.name), AttrsOf(v.g, d.name), t, name, s); }
    }
  }

  lemma NothingIsLeft(g: Grammar, spec: Attrs, t: Type, keys: seq<string>, s: State)
    requires t.Tuple? && s.names <= t.attrs.Keys && (forall k :: k in keys <==> k in spec.Keys) && forall k | k in keys :: Struck(g, t, k, s.names)
    requires HasCombined(g, spec, t) || forall a | a in t.attrs :: Accounted(g, spec, t, a)
    ensures s.names == {}
  {
    if HasCombined(g, spec, t) {
      var gk :| gk in spec && IsUnion(g, gk) && Decided(g, t, gk).Combined?;
      assert Struck(g, t, gk, s.names);
    } else {
      forall a | a in t.attrs ensures a !in s.names {
        assert Accounted(g, spec, t, a);
        if a in spec && !IsUnion(g, a) {
          assert Struck(g, t, a, s.names);
        } else {
          var gk :| gk in spec && IsUnion(g, gk) && Decided(g, t, gk) == Single(a);
          assert Struck(g, t, gk, s.names);
        }
      }
    }
  }

  // ---- messages are only added -------------------------------------------------

  lemma {:induction false} CompareAdds(v: Setup, rank: Rank, level: nat, spec: Attrs, t: Type, name: string, s: State)
    requires t.Tuple? && Acyclic(v.g, rank) && Below(v.g, rank, spec, level)
    ensures s.out <= Compare(v, rank, level, spec, t, name, s).out
    decreases t, level, 2, 0
  {
    var s1 := CompareNested(v, rank, t, Listing(v, spec, t, t.attrs.Keys, s.tick), Ticked(s));
    NestedAdd(v, rank, t, Listing(v, spec, t, t.attrs.Keys, s.tick), Ticked(s));
    AttrsAdd(v, rank, level, spec, t, Listing(v, spec, t, spec.Keys, s1.tick), name, Ticked(s1));
  }

  lemma {:induction false} NestedAdd(v: Setup, rank: Rank, t: Type, keys: seq<string>, s: State)
    requires t.Tuple? && Acyclic(v.g, rank) && forall k | k in keys :: k in t.attrs
    ensures var r := CompareNested(v, rank, t, keys, s); s.out <= r.out && r.names == s.names
    decreases t, 0, 0, |keys|
  {
    if keys != [] {
      if IsNested(v.g, t, keys[0]) {
        OneAdds(v, rank, t, keys[0], s);
        NestedAdd(v, rank, t, keys[1..], CompareOne(v, rank, t, keys[0], s));
      } else {
        NestedAdd(v, rank, t, keys[1..], s);
      }
    }
  }

  lemma {:induction false} OneAdds(v: Setup, rank: Rank, t: Type, a: string, s: State)
    requires t.Tuple? && Acyclic(v.g, rank) && IsNested(v.g, t, a)
    ensures var r := CompareOne(v, rank, t, a, s); s.out <= r.out && r.names == s.names
    decreases t, 0, 0, 0
  {
    CompareAdds(v, rank, rank(a), AttrsOf(v.g, a), t.attrs[a], a, s.(names := t.attrs[a].attrs.Keys));
  }

  lemma {:induction false} AttrsAdd(v: Setup, rank: Rank, level: nat, spec: Attrs, t: Type, keys: seq<string>, name: string, s: State)
    requires t.Tuple? && Acyclic(v.g, rank) && Below(v.g, rank, spec, level) && forall k | k in keys :: k in spec
    ensures s.out <= CompareAttrs(v, rank, level, spec, t, keys, name, s).out
    decreases t, level, 1, |keys|
  {
    if keys != [] {
      AttrAdds(v, rank, level, spec, t, keys[0], name, s);
      AttrsAdd(v, rank, level, spec, t, keys[1..], name, CompareAttr(v, rank, level, spec, t, keys[0], name, s));
    }
  }

  lemma {:induction false} AttrAdds(v: Setup, rank: Rank, level: nat, spec: Attrs, t: Type, gk: string, name: string, s: State)
    requires t.Tuple? && Acyclic(v.g, rank) && Below(v.g, rank, spec, level) && gk in spec
    ensures s.out <= CompareAttr(v, rank, level, spec, t, gk, name, s).out
    decreases t, level, 1, 0
  {
    if IsUnion(v.g, gk) {
      var d := Decided(v.g, t, gk);
      if d.Combined? { CompareAdds(v, rank, rank(d.name), AttrsOf(v.g, d.name), t, name, s); }
    }
  }

  // ---- reporting what does not conform -----------------------------------------

  /** The union is decided by a combination that the tuple as a whole does not conform to. */
  ghost predicate Bad(g: Grammar, rank: Rank, spec: Attrs, t: Type, gk: string)
    requires t.Tuple? && Acyclic(g, rank)
  {
    gk in spec && IsUnion(g, gk) && Decided(g, t, gk).Combined?
    && var c := Decided(g, t, gk).name; !Conforms(g, rank, rank(c), AttrsOf(g, c), t)
  }

  /** Such a union, if there is one, comes first. */
  ghost predicate BadFirst(v: Setup, rank: Rank)
    requires Acyclic(v.g, rank)
  {
    forall spec: Attrs, t: Type, tick {:trigger Listing(v, spec, t, spec.Keys, tick)} |
      t.Tuple? && exists gk :: Bad(v.g, rank, spec, t, gk) ::
      var keys := Listing(v, spec, t, spec.Keys, tick); keys != [] && Bad(v.g, rank, spec, t, keys[0])
  }

  lemma {:induction false} UnconformingIsReported(v: Setup, rank: Rank, level: nat, spec: Attrs, t: Type, name: string, s: State)
    requires t.Tuple? && Acyclic(v.g, rank) && Below(v.g, rank, spec, level) && BadFirst(v, rank)
    requires !Conforms(v.g, rank, level, spec, t) && s.names == t.attrs.Keys
    ensures |Compare(v, rank, level, spec, t, name, s).out| > |s.out|
    decreases t, level, 2, 0
  {
    if a :| IsNested(v.g, t, a) && !Conforms(v.g, rank, rank(a), AttrsOf(v.g, a), t.attrs[a]) {
      var all := Listing(v, spec, t, t.attrs.Keys, s.tick);
      NestedIsReported(v, rank, t, all, a, Ticked(s));
      var s1 := CompareNested(v, rank, t, all, Ticked(s));
      AttrsAdd(v, rank, level, spec, t, Listing(v, spec, t, spec.Keys, s1.tick), name, Ticked(s1));
    } else {
      OwnLevelIsReported(v, rank, level, spec, t, name, s);
    }
  }

  lemma {:induction false} OwnLevelIsReported(v: Setup, rank: Rank, level: nat, spec: Attrs, t: Type, name: string, s: State)
    requires t.Tuple? && Acyclic(v.g, rank) && Below(v.g, rank, spec, level) && BadFirst(v, rank)
    requires !Conforms(v.g, rank, level, spec, t) && s.names == t.attrs.Keys
    requires forall a | IsNested(v.g, t, a) :: Conforms(v.g, rank, rank(a), AttrsOf(v.g, a), t.attrs[a])
    ensures |Compare(v, rank, level, spec, t, name, s).out| > |s.out|
    decreases t, level, 1, 2
  {
    var all := Listing(v, spec, t, t.attrs.Keys, s.tick);
    var s1 := CompareNested(v, rank, t, all, Ticked(s));
    NestedAdd(v, rank, t, all, Ticked(s));
    LevelIsReported(v, rank, level, spec, t, s1.tick, name, Ticked(s1));
    var s2 := CompareAttrs(v, rank, level, spec, t, Listing(v, spec, t, spec.Keys, s1.tick), name, Ticked(s1));
    if s2.names != {} { SomeAreListed(Listing(v, spec, t, s2.names, s2.tick), s2.names); }
  }

  lemma SomeAreListed(l: seq<string>, names: set<string>)
    requires names != {} && forall k :: k in l <==> k in names
    ensures l != []
  {
    var k :| k in names;
    assert k in l;
  }

  /** If all nested tuples conform, an attribute is reported or a name is left over. */
  lemma {:induction false} LevelIsReported(v: Setup, rank: Rank, level: nat, spec: Attrs, t: Type, tick: nat, name: string, s: State)
    requires t.Tuple? && Acyclic(v.g, rank) && Below(v.g, rank, spec, level) && BadFirst(v, rank)
    requires !Conforms(v.g, rank, level, spec, t) && s.names == t.attrs.Keys
    requires forall a | IsNested(v.g, t, a) :: Conforms(v.g, rank, rank(a), AttrsOf(v.g, a), t.attrs[a])
    ensures var r := CompareAttrs(v, rank, level, spec, t, Listing(v, spec, t, spec.Keys, tick), name, s);
      s.out <= r.out && (|r.out| > |s.out| || r.names != {})
    decreases t, level, 1, 1
  {
    var keys := Listing(v, spec, t, spec.Keys, tick);
    AttrsAdd(v, rank, level, spec, t, keys, name, s);
    if gk :| Bad(v.g, rank, spec, t, gk) {
      BadIsReported(v, rank, level, spec, t, keys[0], name, s);
      AttrsAdd(v, rank, level, spec, t, keys[1..], name, CompareAttr(v, rank, level, spec, t, keys[0], name, s));
    } else if gk :| gk in spec && !AttrConforms(v.g, rank, level, spec, t, gk) {
      FailsOrBad(v.g, rank, level, spec, t, gk);
      AttrIsReported(v, rank, level, spec, t, keys, gk, name, s);
    } else {
      var a :| a in t.attrs && !Accounted(v.g, spec, t, a);
      NameIsLeft(v, rank, level, spec, t, keys, a, name, s);
    }
  }

  lemma {:induction false} NestedIsReported(v: Setup, rank: Rank, t: Type, keys: seq<string>, a: string, s: State)
    requires t.Tuple? && Acyclic(v.g, rank) && BadFirst(v, rank) && (forall k | k in keys :: k in t.attrs)
    requires a in keys && IsNested(v.g, t, a) && !Conforms(v.g, rank, rank(a), AttrsOf(v.g, a), t.attrs[a])
    ensures |CompareNested(v, rank, t, keys, s).out| > |s.out|
    decreases t, 0, 0, |keys|
  {
    var k := keys[0];
    var s1 := if IsNested(v.g, t, k) then CompareOne(v, rank, t, k, s) else s;
    if k == a {
      UnconformingIsReported(v, rank, rank(a), AttrsOf(v.g, a), t.attrs[a], a, s.(names := t.attrs[a].attrs.Keys));
      NestedAdd(v, rank, t, keys[1..], s1);
    } else {
      if IsNested(v.g, t, k) { OneAdds(v, rank, t, k, s); }
      NestedIsReported(v, rank, t, keys[1..], a, s1);
    }
  }

  lemma {:induction false} BadIsReported(v: Setup, rank: Rank, level: nat, spec: Attrs, t: Type, gk: string, name: string, s: State)
    requires t.Tuple? && Acyclic(v.g, rank) && Below(v.g, rank, spec, level) && BadFirst(v, rank)
    requires Bad(v.g, rank, spec, t, gk) && s.names == t.attrs.Keys
    ensures |CompareAttr(v, rank, level, spec, t, gk, name, s).out| > |s.out|
    decreases t, level, 1, 0
  {
    var c := Decided(v.g, t, gk).name;
    UnconformingIsReported(v, rank, rank(c), AttrsOf(v.g, c), t, name, s);
  }

  /** A required attribute that is missing, or a union for which an option was looked for in
      vain, be it that a combination comes after it. */
  predicate FailsAlways(g: Grammar, spec: Attrs, t: Type, gk: string)
    requires t.Tuple? && gk in spec
  {
    if IsUnion(g, gk) then Fails(Decided(g, t, gk)) else gk !in t.attrs && !spec[gk]
  }

  lemma FailsOrBad(g: Grammar, rank: Rank, level: nat, spec: Attrs, t: Type, gk: string)
    requires t.Tuple? && Acyclic(g, rank) && Below(g, rank, spec, level) && gk in spec && !AttrConforms(g, rank, level, spec, t, gk)
    ensures FailsAlways(g, spec, t, gk) || Bad(g, rank, spec, t, gk)
  {
  }

  /** It is reported whenever it is its turn. */
  lemma {:induction false} AttrIsReported(v: Setup, rank: Rank, level: nat, spec: Attrs, t: Type, keys: seq<string>, gk: string, name: string, s: State)
    requires t.Tuple? && Acyclic(v.g, rank) && Below(v.g, rank, spec, level) && (forall k | k in keys :: k in spec)
    requires gk in keys && FailsAlways(v.g, spec, t, gk)
    ensures |CompareAttrs(v, rank, level, spec, t, keys, name, s).out| > |s.out|
    decreases |keys|
  {
    AttrAdds(v, rank, level, spec, t, keys[0], name, s);
    var s1 := CompareAttr(v, rank, level, spec, t, keys[0], name, s);
    if keys[0] == gk {
      if IsUnion(v.g, gk) && Decided(v.g, t, gk).Combined? {
        var c := Decided(v.g, t, gk).name;
        CompareAdds(v, rank, rank(c), AttrsOf(v.g, c), t, name, s);
      }
      AttrsAdd(v, rank, level, spec, t, keys[1..], name, s1);
    } else {
      AttrIsReported(v, rank, level, spec, t, keys[1..], gk, name, s1);
    }
  }

  /** And so in every order. */
  lemma FailureIsReported(v: Setup, rank: Rank, level: nat, spec: Attrs, t: Type, gk: string, name: string, s: State)
    requires t.Tuple? && Acyclic(v.g, rank) && Below(v.g, rank, spec, level) && gk in spec && FailsAlways(v.g, spec, t, gk)
    ensures |Compare(v, rank, level, spec, t, name, s).out| > |s.out|
  {
    NestedAdd(v, rank, t, Listing(v, spec, t, t.attrs.Keys, s.tick), Ticked(s));
    var s1 := NestedInOrder(v, rank, spec, t, s);
    AttrIsReported(v, rank, level, spec, t, Listing(v, spec, t, spec.Keys, s1.tick), gk, name, Ticked(s1));
  }

  lemma NameStays(v: Setup, rank: Rank, level: nat, spec: Attrs, t: Type, gk: string, a: string, name: string, s: State)
    requires t.Tuple? && Acyclic(v.g, rank) && Below(v.g, rank, spec, level) && gk in spec
    requires !HasCombined(v.g, spec, t) && !Accounted(v.g, spec, t, a) && a in s.names
    ensures a in CompareAttr(v, rank, level, spec, t, gk, name, s).names
  {
    if IsUnion(v.g, gk) {
      match Decided(v.g, t, gk)
      case Single(n) => assert n != a;
      case Combined(_, _) => assert false;
      case Ended(_) =>
    }
  }

  lemma {:induction false} NameIsLeft(v: Setup, rank: Rank, level: nat, spec: Attrs, t: Type, keys: seq<string>, a: string, name: string, s: State)
    requires t.Tuple? && Acyclic(v.g, rank) && Below(v.g, rank, spec, level) && (forall k | k in keys :: k in spec)
    requires !HasCombined(v.g, spec, t) && !Accounted(v.g, spec, t, a) && a in s.names
    ensures a in CompareAttrs(v, rank, level, spec, t, keys, name, s).names
    decreases |keys|
  {
    if keys != [] {
      NameStays(v, rank, level, spec, t, keys[0], a, name, s);
      NameIsLeft(v, rank, level, spec, t, keys[1..], a, name, CompareAttr(v, rank, level, spec, t, keys[0], name, s));
    }
  }

  // ---- the exact condition -----------------------------------------------------

  ghost function WorstAt(g: Grammar, rank: Rank, m: Moment): seq<string>
    requires Acyclic(g, rank)
  {
    if m.impl.Tuple? && m.keys == m.spec.Keys && exists gk :: Bad(g, rank, m.spec, m.impl, gk) then
      var gk :| Bad(g, rank, m.spec, m.impl, gk);
      [gk] + SortedStrings(m.keys - {gk})
    else SortedStrings(m.keys)
  }

  /** An order that takes such unions first. */
  ghost function Worst(g: Grammar, rank: Rank): Setup {
    Setup(g, (m: Moment) => if Acyclic(g, rank) then WorstAt(g, rank, m) else [])
  }

  lemma HeadIsListed(gk: string, keys: set<string>)
    requires gk in keys
    ensures var r := [gk] + SortedStrings(keys - {gk}); ListingOf(r, keys) == r
  {
    var rest := SortedStrings(keys - {gk});
    var r := [gk] + rest;
    assert |r| == |keys|;
    forall k ensures k in (set x | x in r) <==> k in keys {
      assert k in r <==> k == gk || k in rest;
    }
    assert (set x | x in r) == keys;
  }

  lemma WorstListing(g: Grammar, rank: Rank, spec: Attrs, t: Type, tick: nat)
    requires Acyclic(g, rank) && t.Tuple? && exists gk :: Bad(g, rank, spec, t, gk)
    ensures var keys := Listing(Worst(g, rank), spec, t, spec.Keys, tick); keys != [] && Bad(g, rank, spec, t, keys[0])
  {
    var m := Moment(tick, spec, t, spec.Keys);
    var r := WorstAt(g, rank, m);
    assert Bad(g, rank, spec, t, r[0]) && r[0] in spec;
    assert Worst(g, rank).order(m) == r;
    HeadIsListed(r[0], spec.Keys);
  }

  lemma WorstIsBadFirst(g: Grammar, rank: Rank)
    requires Acyclic(g, rank)
    ensures BadFirst(Worst(g, rank), rank)
  {
    forall spec: Attrs, t: Type, tick | t.Tuple? && exists gk :: Bad(g, rank, spec, t, gk)
      ensures var keys := Listing(Worst(g, rank), spec, t, spec.Keys, tick); keys != [] && Bad(g, rank, spec, t, keys[0])
    {
      WorstListing(g, rank, spec, t, tick);
    }
  }

  ghost predicate SilentAlways(g: Grammar, rank: Rank, level: nat, spec: Attrs, t: Type, name: string)
    requires t.Tuple? && Acyclic(g, rank) && Below(g, rank, spec, level)
  {
    forall order, tick, out :: Compare(Setup(g, order), rank, level, spec, t, name, State(t.attrs.Keys, tick, out)).out == out
  }

  /** A type is reported nothing in any order exactly when it conforms. */
  lemma SilentIffConforms(g: Grammar, rank: Rank, level: nat, spec: Attrs, t: Type, name: string)
    requires t.Tuple? && Acyclic(g, rank) && Below(g, rank, spec, level)
    ensures SilentAlways(g, rank, level, spec, t, name) <==> Conforms(g, rank, level, spec, t)
  {
    if Conforms(g, rank, level, spec, t) {
      forall order, tick, out ensures Compare(Setup(g, order), rank, level, spec, t, name, State(t.attrs.Keys, tick, out)).out == out {
        ConformingIsSilent(Setup(g, order), rank, level, spec, t, name, State(t.attrs.Keys, tick, out));
      }
    } else {
      var v := Worst(g, rank);
      WorstIsBadFirst(g, rank);
      UnconformingIsReported(v, rank, level, spec, t, name, State(t.attrs.Keys, 0, []));
      assert Compare(Setup(g, v.order), rank, level, spec, t, name, State(t.attrs.Keys, 0, [])).out != [];
    }
  }

  ghost predicate WithoutCombinations(g: Grammar) {
    forall n, c | IsUnion(g, n) && c in g[n].options :: !IsCombination(c)
  }

  /** Without combinations the order is of no consequence: one that does not conform is
      reported something in every order. */
  lemma AnyOrderReports(v: Setup, rank: Rank, level: nat, spec: Attrs, t: Type, name: string, s: State)
    requires t.Tuple? && Acyclic(v.g, rank) && Below(v.g, rank, spec, level) && WithoutCombinations(v.g) && s.names == t.attrs.Keys
    ensures Compare(v, rank, level, spec, t, name, s).out == s.out <==> Conforms(v.g, rank, level, spec, t)
  {
    assert BadFirst(v, rank);
    if Conforms(v.g, rank, level, spec, t) {
      ConformingIsSilent(v, rank, level, spec, t, name, s);
    } else {
      UnconformingIsReported(v, rank, level, spec, t, name, s);
    }
  }
}
