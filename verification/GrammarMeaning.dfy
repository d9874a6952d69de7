/** What the grammar asks of a type, said without the comparison's own notions
    (pkg/validate/validate.go). */
module GrammarMeaning {
  import opened Ordering
  import opened GrammarConformance

  // ---- unions ------------------------------------------------------------------

  /** A combination is told by how its name begins. */
  lemma CombinationsAreNamed(name: string)
    ensures IsCombination(name) <==> exists rest: string :: name == "__Choice_Combination_" + rest
  {
    if IsCombination(name) {
      var n := |"__Choice_Combination_"|;
      assert name == name[..n] + name[n..];
      assert name == "__Choice_Combination_" + name[n..];
    }
    if rest: string :| name == "__Choice_Combination_" + rest {
      assert name[..|"__Choice_Combination_"|] == "__Choice_Combination_";
    }
  }

  /** The option is gone past: a combination for a single attribute, or a missing attribute. */
  predicate PassedOver(option: string, impl: set<string>) {
    if IsCombination(option) then |impl| == 1 else option !in impl
  }

  ghost predicate FirstNotPassed(options: seq<string>, impl: set<string>, i: nat) {
    i < |options| && !PassedOver(options[i], impl) && forall j | 0 <= j < i :: PassedOver(options[j], impl)
  }

  ghost predicate OnlyCombinations(options: seq<string>) {
    forall o | o in options :: IsCombination(o)
  }

  ghost predicate CombinedAt(options: seq<string>, impl: set<string>, i: nat, c: string, m: bool, matching: bool) {
    FirstNotPassed(options, impl, i) && options[i] == c && IsCombination(c) && (m <==> matching && OnlyCombinations(options[..i]))
  }

  /** The first option that is not gone past decides a union; it is met if that is an attribute,
      failed if it is a combination behind a missing attribute, and failed, if there is no such
      option, unless all are combinations. */
  ghost predicate IsDecision(options: seq<string>, impl: set<string>, d: Decision, matching: bool) {
    match d
    case Single(n) => exists i: nat :: FirstNotPassed(options, impl, i) && options[i] == n && n in impl && !IsCombination(n)
    case Combined(c, m) => exists i: nat :: CombinedAt(options, impl, i, c, m, matching)
    case Ended(m) => (forall o | o in options :: PassedOver(o, impl)) && (m <==> matching && OnlyCombinations(options))
  }

  lemma {:induction false} DecisionGoesOn(options: seq<string>, impl: set<string>, d: Decision, matching: bool)
    requires options != [] && PassedOver(options[0], impl)
    requires IsDecision(options[1..], impl, d, matching && IsCombination(options[0]))
    ensures IsDecision(options, impl, d, matching)
  {
    var rest := options[1..];
    forall i | 0 <= i < |rest| ensures rest[i] == options[i + 1] {}
    match d
    case Single(n) =>
      var i: nat :| FirstNotPassed(rest, impl, i) && rest[i] == n;
      assert FirstNotPassed(options, impl, i + 1) && options[i + 1] == n;
    case Combined(c, m) =>
      var i: nat :| CombinedAt(rest, impl, i, c, m, matching && IsCombination(options[0]));
      assert options[..i + 1] == [options[0]] + rest[..i];
      assert CombinedAt(options, impl, i + 1, c, m, matching);
    case Ended(_) =>
      assert options == [options[0]] + rest;
  }

  lemma {:induction false} DecidesIsFirst(options: seq<string>, impl: set<string>, matching: bool)
    ensures IsDecision(options, impl, Decide(options, impl, matching), matching)
  {
    if options != [] {
      if PassedOver(options[0], impl) {
        DecidesIsFirst(options[1..], impl, matching && IsCombination(options[0]));
        DecisionGoesOn(options, impl, Decide(options, impl, matching), matching);
      } else {
        assert FirstNotPassed(options, impl, 0) && options[..0] == [];
        if IsCombination(options[0]) { assert CombinedAt(options, impl, 0, options[0], matching, matching); }
      }
    }
  }

  /** A union of single attributes is failed exactly when the type has none of them, and it has any. */
  lemma PlainUnionFailsIff(g: Grammar, t: Type, gk: string)
    requires t.Tuple? && IsUnion(g, gk) && forall o | o in g[gk].options :: !IsCombination(o)
    ensures Fails(Decided(g, t, gk)) <==> g[gk].options != [] && forall o | o in g[gk].options :: o !in t.attrs
  {
    var options, impl, d := g[gk].options, t.attrs.Keys, Decided(g, t, gk);
    DecidesIsFirst(options, impl, true);
    if d.Ended? && options != [] { assert options[0] in options; }
    if d.Single? {
      var i: nat :| FirstNotPassed(options, impl, i) && options[i] == d.name;
      assert options[i] in options;
    }
  }

  // ---- grammars without unions -------------------------------------------------

  predicate NoUnions(g: Grammar) {
    forall n | n in g :: !g[n].OneOf?
  }

  function AttrsOfType(ty: GrammarType): Attrs {
    if ty.TupleType? then ty.attrs else map[]
  }

  /** The type has no attribute the grammar type does not have and all those it requires; and so
      has every nested tuple, compared with the grammar type of its name if there is one. */
  ghost predicate Fits(g: Grammar, spec: Attrs, t: Type)
    requires t.Tuple?
    decreases t
  {
    && (forall a | a in t.attrs :: a in spec)
    && (forall a | a in spec && !spec[a] :: a in t.attrs)
    && forall a | a in t.attrs && t.attrs[a].Tuple? && a in g :: Fits(g, AttrsOfType(g[a]), t.attrs[a])
  }

  lemma {:induction false} ConformsIsFits(g: Grammar, rank: Rank, level: nat, spec: Attrs, t: Type)
    requires t.Tuple? && Acyclic(g, rank) && Below(g, rank, spec, level) && NoUnions(g)
    ensures Conforms(g, rank, level, spec, t) <==> Fits(g, spec, t)
    decreases t
  {
    forall a | a in t.attrs && t.attrs[a].Tuple? && a in g
      ensures IsNested(g, t, a) && AttrsOf(g, a) == AttrsOfType(g[a])
      ensures Conforms(g, rank, rank(a), AttrsOf(g, a), t.attrs[a]) <==> Fits(g, AttrsOfType(g[a]), t.attrs[a])
    {
      ConformsIsFits(g, rank, rank(a), AttrsOf(g, a), t.attrs[a]);
    }
    forall gk | gk in spec ensures AttrConforms(g, rank, level, spec, t, gk) <==> gk in t.attrs || spec[gk] {}
    forall a | a in t.attrs ensures Accounted(g, spec, t, a) <==> a in spec {}
  }

  /** In every order of the attributes nothing is reported exactly when the type fits. */
  lemma FittingIsSilent(v: Setup, rank: Rank, level: nat, spec: Attrs, t: Type, name: string, s: State)
    requires t.Tuple? && Acyclic(v.g, rank) && Below(v.g, rank, spec, level) && NoUnions(v.g) && s.names == t.attrs.Keys
    ensures Compare(v, rank, level, spec, t, name, s).out == s.out <==> Fits(v.g, spec, t)
  {
    ConformsIsFits(v.g, rank, level, spec, t);
    AnyOrderReports(v, rank, level, spec, t, name, s);
  }
}
