/** Grammars with combinations on which the comparison goes wrong (pkg/validate/validate.go). */
module GrammarExamples {
  import opened Ordering
  import opened GrammarConformance

  // ---- the order decides -------------------------------------------------------

  /** A grammar type with the attribute p and the choice u, whose option c has the attribute q,
      and a type with p and q. */
  ghost predicate Mixed(g: Grammar, rank: Rank, spec: Attrs, t: Type, p: string, u: string, c: string, q: string) {
    && t.Tuple? && t.attrs.Keys == {p, q} && (forall a :: !IsNested(g, t, a)) && p != q && p != u && u != q
    && spec.Keys == {p, u} && !IsUnion(g, p) && IsUnion(g, u) && Decided(g, t, u) == Combined(c, true)
    && AttrsOf(g, c).Keys == {q} && !IsUnion(g, q)
    && Acyclic(g, rank) && Below(g, rank, spec, 1) && rank(c) == 0
  }

  /** If p has been accounted for, nothing is wrong with the choice. */
  lemma ChoiceIsSilentLater(v: Setup, rank: Rank, spec: Attrs, t: Type, p: string, u: string, c: string, q: string, name: string, s: State)
    requires Mixed(v.g, rank, spec, t, p, u, c, q) && s.names == {q}
    ensures var r := CompareAttr(v, rank, 1, spec, t, u, name, s); r.out == s.out && r.names == {}
  {
    var inner := AttrsOf(v.g, c);
    assert Below(v.g, rank, inner, rank(c));
    NestedAreSilent(v, rank, t, Listing(v, inner, t, t.attrs.Keys, s.tick), Ticked(s));
    var s1 := NestedInOrder(v, rank, inner, t, s);
    var keys := Listing(v, inner, t, inner.Keys, s1.tick);
    assert q in keys && forall k | k in keys :: k == q;
    AttrsAreSilent(v, rank, 0, inner, t, keys, name, Ticked(s1));
    var s2 := AttrsInOrder(v, rank, 0, inner, t, name, s1);
    assert Struck(v.g, t, q, s2.names);
    assert s2.names == {};
    assert Compare(v, rank, 0, inner, t, name, s) == ExcessInOrder(v, inner, t, name, s2);
  }

  lemma FirstIsSilent(v: Setup, rank: Rank, spec: Attrs, t: Type, p: string, u: string, c: string, q: string, name: string, s: State)
    requires Mixed(v.g, rank, spec, t, p, u, c, q) && s.names == {p, q}
    ensures CompareAttr(v, rank, 1, spec, t, p, name, s) == s.(names := {q})
  {
  }

  lemma TwoAttrs(v: Setup, rank: Rank, level: nat, spec: Attrs, t: Type, a: string, b: string, name: string, s: State)
    requires t.Tuple? && Acyclic(v.g, rank) && Below(v.g, rank, spec, level) && a in spec && b in spec
    ensures CompareAttrs(v, rank, level, spec, t, [a, b], name, s) ==
      CompareAttr(v, rank, level, spec, t, b, name, CompareAttr(v, rank, level, spec, t, a, name, s))
  {
    assert [a, b][1..] == [b] && [b][1..] == [];
    assert CompareAttrs(v, rank, level, spec, t, [b], name, CompareAttr(v, rank, level, spec, t, a, name, s)) ==
      CompareAttr(v, rank, level, spec, t, b, name, CompareAttr(v, rank, level, spec, t, a, name, s));
  }

  /** But if the choice comes first, p is one too many for its option. */
  lemma ChoiceIsReportedFirst(v: Setup, rank: Rank, spec: Attrs, t: Type, p: string, u: string, c: string, q: string, name: string, s: State)
    requires Mixed(v.g, rank, spec, t, p, u, c, q) && s.names == {p, q}
    ensures |CompareAttr(v, rank, 1, spec, t, u, name, s).out| > |s.out|
  {
    var inner := AttrsOf(v.g, c);
    assert Below(v.g, rank, inner, rank(c));
    NestedAdd(v, rank, t, Listing(v, inner, t, t.attrs.Keys, s.tick), Ticked(s));
    var s1 := NestedInOrder(v, rank, inner, t, s);
    var keys := Listing(v, inner, t, inner.Keys, s1.tick);
    AttrsAdd(v, rank, 0, inner, t, keys, name, Ticked(s1));
    assert !HasCombined(v.g, inner, t) && !Accounted(v.g, inner, t, p);
    NameIsLeft(v, rank, 0, inner, t, keys, p, name, Ticked(s1));
    var s2 := AttrsInOrder(v, rank, 0, inner, t, name, s1);
    SomeAreListed(Listing(v, inner, t, s2.names, s2.tick), s2.names);
    assert Compare(v, rank, 0, inner, t, name, s) == ExcessInOrder(v, inner, t, name, s2);
  }

  /** The same type of the same grammar: nothing is reported if p comes before the choice. */
  lemma SilentIfFirst(v: Setup, rank: Rank, spec: Attrs, t: Type, p: string, u: string, c: string, q: string, name: string, s: State)
    requires Mixed(v.g, rank, spec, t, p, u, c, q) && s.names == {p, q}
    requires forall tick :: Listing(v, spec, t, spec.Keys, tick) == [p, u]
    ensures Compare(v, rank, 1, spec, t, name, s).out == s.out
  {
    NestedAreSilent(v, rank, t, Listing(v, spec, t, t.attrs.Keys, s.tick), Ticked(s));
    var s1 := Ticked(NestedInOrder(v, rank, spec, t, s));
    FirstIsSilent(v, rank, spec, t, p, u, c, q, name, s1);
    ChoiceIsSilentLater(v, rank, spec, t, p, u, c, q, name, s1.(names := {q}));
    TwoAttrs(v, rank, 1, spec, t, p, u, name, s1);
  }

  /** And something if it comes behind. */
  lemma ReportedIfSecond(v: Setup, rank: Rank, spec: Attrs, t: Type, p: string, u: string, c: string, q: string, name: string, s: State)
    requires Mixed(v.g, rank, spec, t, p, u, c, q) && s.names == {p, q}
    requires forall tick :: Listing(v, spec, t, spec.Keys, tick) == [u, p]
    ensures |Compare(v, rank, 1, spec, t, name, s).out| > |s.out|
  {
    NestedAdd(v, rank, t, Listing(v, spec, t, t.attrs.Keys, s.tick), Ticked(s));
    var s1 := Ticked(NestedInOrder(v, rank, spec, t, s));
    ChoiceIsReportedFirst(v, rank, spec, t, p, u, c, q, name, s1);
    TwoAttrs(v, rank, 1, spec, t, u, p, name, s1);
    AttrAdds(v, rank, 1, spec, t, p, name, CompareAttr(v, rank, 1, spec, t, u, name, s1));
  }

  // ---- an alternative that is never accepted -----------------------------------

  /** A grammar type with a choice u between an attribute that the type does not have and a
      combination c, of which it has all attributes. */
  ghost predicate SecondOf(g: Grammar, rank: Rank, spec: Attrs, t: Type, u: string, c: string) {
    && t.Tuple? && (forall a :: !IsNested(g, t, a))
    && spec.Keys == {u} && IsUnion(g, u) && Decided(g, t, u) == Combined(c, false)
    && AttrsOf(g, c).Keys == t.attrs.Keys && (forall a | a in t.attrs :: !IsUnion(g, a))
    && Acyclic(g, rank) && Below(g, rank, spec, 1)
  }

  lemma AllAccounted(g: Grammar, rank: Rank, level: nat, spec: Attrs, t: Type)
    requires t.Tuple? && (forall a :: !IsNested(g, t, a)) && Acyclic(g, rank) && Below(g, rank, spec, level)
    requires spec.Keys == t.attrs.Keys && forall a | a in t.attrs :: !IsUnion(g, a)
    ensures Conforms(g, rank, level, spec, t)
  {
    forall a | a in t.attrs ensures Accounted(g, spec, t, a) && AttrConforms(g, rank, level, spec, t, a) {
      assert a in spec;
    }
  }

  /** The type is one of the combination, and is reported in every order all the same: that
      the attribute was looked for in vain is remembered. */
  lemma SecondAlternativeIsReported(v: Setup, rank: Rank, spec: Attrs, t: Type, u: string, c: string, name: string, s: State)
    requires SecondOf(v.g, rank, spec, t, u, c)
    ensures Below(v.g, rank, AttrsOf(v.g, c), rank(c)) && Conforms(v.g, rank, rank(c), AttrsOf(v.g, c), t)
    ensures |Compare(v, rank, 1, spec, t, name, s).out| > |s.out|
  {
    assert Below(v.g, rank, AttrsOf(v.g, c), rank(c));
    AllAccounted(v.g, rank, rank(c), AttrsOf(v.g, c), t);
    FailureIsReported(v, rank, 1, spec, t, u, name, s);
  }

  // ---- concrete grammars -------------------------------------------------------

  const C := "__Choice_Combination_1"

  const NoRank: Rank := (n: string) => 0

  lemma CombinationC()
    ensures IsCombination(C) && !IsCombination("a") && C !in {"u", "p", "q", "r", "a"}
  {
    assert C[..|CombinationPrefix|] == CombinationPrefix;
    assert C[0] == '_' && "u"[0] == 'u' && "p"[0] == 'p' && "q"[0] == 'q' && "r"[0] == 'r' && "a"[0] == 'a';
  }

  lemma DecideFirst(c: string, impl: set<string>)
    requires IsCombination(c) && |impl| != 1
    ensures Decide([c], impl, true) == Combined(c, true)
  {
  }

  lemma DecideSecond(a: string, c: string, impl: set<string>)
    requires !IsCombination(a) && IsCombination(c) && a !in impl && |impl| != 1
    ensures Decide([a, c], impl, true) == Combined(c, false)
  {
    assert [a, c][1..] == [c];
    assert Decide([c], impl, false) == Combined(c, false);
  }

  function OrderGrammar(): Grammar { map["u" := OneOf([C]), C := TupleType(map["q" := false])] }

  /** A runtime that yields p and u in this order. */
  function InOrder(first: seq<string>): Setup {
    Setup(OrderGrammar(), (m: Moment) => if m.keys == {"p", "u"} then first else SortedStrings(m.keys))
  }

  lemma OrderGrammarIsMixed()
    ensures Mixed(OrderGrammar(), NoRank, map["p" := false, "u" := false], Tuple(map["p" := OtherType, "q" := OtherType]), "p", "u", C, "q")
  {
    CombinationC();
    var g, t := OrderGrammar(), Tuple(map["p" := OtherType, "q" := OtherType]);
    assert "p" != "u" && "u" != "q" && "p" != "q";
    assert t.attrs.Keys == {"p", "q"} && |t.attrs.Keys| == 2;
    DecideFirst(C, t.attrs.Keys);
    assert AttrsOf(g, C) == map["q" := false];
    assert !IsUnion(g, "p") && !IsUnion(g, "q") && IsUnion(g, "u");
  }

  lemma ListedAsGiven(first: seq<string>, spec: Attrs, t: Type, tick: nat)
    requires spec.Keys == {"p", "u"} && (first == ["p", "u"] || first == ["u", "p"])
    ensures Listing(InOrder(first), spec, t, spec.Keys, tick) == first
  {
    assert "p" != "u" && |spec.Keys| == 2;
    assert (set k | k in first) == spec.Keys;
  }

  /** A type with p and q: silent in one order, reported in the other. */
  lemma OrderDecides(s: State)
    requires s.names == {"p", "q"}
    ensures var g, spec, t := OrderGrammar(), map["p" := false, "u" := false], Tuple(map["p" := OtherType, "q" := OtherType]);
      && Acyclic(g, NoRank) && Below(g, NoRank, spec, 1)
      && Compare(InOrder(["p", "u"]), NoRank, 1, spec, t, "t", s).out == s.out
      && |Compare(InOrder(["u", "p"]), NoRank, 1, spec, t, "t", s).out| > |s.out|
  {
    var spec, t := map["p" := false, "u" := false], Tuple(map["p" := OtherType, "q" := OtherType]);
    OrderGrammarIsMixed();
    forall tick ensures Listing(InOrder(["p", "u"]), spec, t, spec.Keys, tick) == ["p", "u"] { ListedAsGiven(["p", "u"], spec, t, tick); }
    forall tick ensures Listing(InOrder(["u", "p"]), spec, t, spec.Keys, tick) == ["u", "p"] { ListedAsGiven(["u", "p"], spec, t, tick); }
    SilentIfFirst(InOrder(["p", "u"]), NoRank, spec, t, "p", "u", C, "q", "t", s);
    ReportedIfSecond(InOrder(["u", "p"]), NoRank, spec, t, "p", "u", C, "q", "t", s);
  }

  function ChoiceGrammar(): Grammar { map["u" := OneOf(["a", C]), C := TupleType(map["q" := false, "r" := false])] }

  lemma ChoiceGrammarIsAcyclic()
    ensures Acyclic(ChoiceGrammar(), NoRank) && Below(ChoiceGrammar(), NoRank, map["u" := false], 1)
    ensures AttrsOf(ChoiceGrammar(), C) == map["q" := false, "r" := false]
    ensures IsUnion(ChoiceGrammar(), "u") && !IsUnion(ChoiceGrammar(), "q") && !IsUnion(ChoiceGrammar(), "r")
  {
    CombinationC();
    assert "q" != "u" && "r" != "u" && "q" != "r";
  }

  lemma ChoiceGrammarIsSecond()
    ensures SecondOf(ChoiceGrammar(), NoRank, map["u" := false], Tuple(map["q" := OtherType, "r" := OtherType]), "u", C)
  {
    CombinationC();
    var g, t := ChoiceGrammar(), Tuple(map["q" := OtherType, "r" := OtherType]);
    assert "q" != "u" && "r" != "u" && "q" != "r" && "a" != "q" && "a" != "r";
    assert t.attrs.Keys == {"q", "r"} && |t.attrs.Keys| == 2;
    ChoiceGrammarIsAcyclic();
    DecideSecond("a", C, t.attrs.Keys);
  }

  /** A choice between a and the combination of q and r, and a type with q and r. */
  lemma SecondAlternativeIsRefused(order: Moment -> seq<string>, s: State)
    ensures var g, spec, t := ChoiceGrammar(), map["u" := false], Tuple(map["q" := OtherType, "r" := OtherType]);
      && Acyclic(g, NoRank) && Below(g, NoRank, spec, 1) && Below(g, NoRank, AttrsOf(g, C), 0)
      && Conforms(g, NoRank, 0, AttrsOf(g, C), t)
      && |Compare(Setup(g, order), NoRank, 1, spec, t, "t", s).out| > |s.out|
  {
    ChoiceGrammarIsSecond();
    SecondAlternativeIsReported(Setup(ChoiceGrammar(), order), NoRank, map["u" := false], Tuple(map["q" := OtherType, "r" := OtherType]), "u", C, "t", s);
  }
}
