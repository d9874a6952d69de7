/** Laws the operators of the evaluator obey, stated without their tables (pkg/eval/exprOp.go). */
module OperatorLaws {
  import opened Ordering
  import opened Values

  /** Truncating division: quotient and remainder belong together, the remainder is smaller
      than the divisor and has the sign of the dividend; it does not round down. */
  lemma DivisionTruncates(a: int, b: int)
    requires b != 0
    ensures TruncDiv(a, b) * b + TruncMod(a, b) == a
    ensures (if TruncMod(a, b) < 0 then -TruncMod(a, b) else TruncMod(a, b)) < (if b < 0 then -b else b)
    ensures a >= 0 ==> TruncMod(a, b) >= 0
    ensures a <= 0 ==> TruncMod(a, b) <= 0
  {
    var x, y := if a < 0 then -a else a, if b < 0 then -b else b;
    var q, r := x / y, x % y;
    Euclid(x, y);
    assert TruncMod(a, b) == if a < 0 then -r else r;
    assert TruncDiv(a, b) == if (a < 0) == (b < 0) then q else -q;
    Signed(a, b, x, y, q, r);
  }

  lemma Signed(a: int, b: int, x: int, y: int, q: int, r: int)
    requires x == q * y + r && (a == x || a == -x) && (b == y || b == -y)
    ensures (if (a == x) == (b == y) then q else -q) * b + (if a == x then r else -r) == a || a == x == 0 || b == y == 0
  {
    SignsCancel(q, y);
  }

  lemma Euclid(x: int, y: int)
    requires x >= 0 && y > 0
    ensures x / y * y + x % y == x && 0 <= x % y < y
  {
  }

  lemma SignsCancel(q: int, y: int)
    ensures (-q) * y == -(q * y) && q * (-y) == -(q * y) && (-q) * (-y) == q * y
  {
  }

  /** The one quotient that does not fit wraps around to the dividend. */
  lemma OnlyOneQuotientWraps(a: Int64, b: Int64)
    requires b != 0
    ensures Wrap64(TruncDiv(a, b)) == TruncDiv(a, b) <==> !(a == -0x8000_0000_0000_0000 && b == -1)
    ensures a == -0x8000_0000_0000_0000 && b == -1 ==> Wrap64(TruncDiv(a, b)) == a
  {
    var q := TruncDiv(a, b);
    var n: int := a;
    var m: int := b;
    var x, y := if n < 0 then -n else n, if m < 0 then -m else m;
    if y > 1 { Halves(x, y); } else { assert x / y == x; }
    WrapsOutside(q);
  }

  lemma WrapsOutside(z: int)
    requires -0x8000_0000_0000_0000 <= z <= 0x8000_0000_0000_0000
    ensures Wrap64(z) == if z == 0x8000_0000_0000_0000 then -0x8000_0000_0000_0000 else z
  {
  }

  lemma Halves(x: int, y: int)
    requires x >= 0 && y > 1
    ensures x / y * 2 <= x
  {
    Euclid(x, y);
    Grows(x / y, y - 2);
    assert x / y * y == x / y * 2 + x / y * (y - 2);
  }

  lemma Grows(q: int, d: int)
    requires q >= 0 && d >= 0
    ensures q * d >= 0
  {
  }

  /** `!in` answers the opposite of `in`, on the same operands; so does `!=` of `==`. */
  lemma NegationsAgree(lib: Library, l: Value, r: Value)
    ensures var yes, no := ApplyDefault(lib, In, l, r), ApplyDefault(lib, NotIn, l, r);
      (yes.Ok? <==> no.Ok?) && (yes.Ok? ==> yes.v.Bool? && no == Ok(Bool(!yes.v.b)))
    ensures var eq, ne := ApplyDefault(lib, Eq, l, r), ApplyDefault(lib, Ne, l, r);
      (eq.Ok? <==> ne.Ok?) && (eq.Ok? ==> eq.v.Bool? && ne == Ok(Bool(!eq.v.b)))
  {
  }

  predicate AllInts(items: seq<Value>) {
    forall v | v in items :: v.Int?
  }

  predicate AllStrs(items: seq<Value>) {
    forall v | v in items :: v.Str?
  }

  predicate Uniform(a: seq<Value>, b: seq<Value>) {
    (AllInts(a) && AllInts(b)) || (AllStrs(a) && AllStrs(b))
  }

  /** The union of two sets of numbers or of strings has exactly their members, each once. */
  lemma UnionIsUnion(lib: Library, a: seq<Value>, b: seq<Value>)
    requires Uniform(a, b)
    ensures var u := SetUnion(lib, a, b);
      u.Ok? && u.v.Set? && Distinct(u.v.items) && forall v :: v in u.v.items <==> v in a || v in b
  {
    if a == [] && b == [] {
    } else if AllInts(a) && AllInts(b) {
      IntUnion(lib, a, b);
    } else {
      StrUnion(lib, a, b);
    }
  }

  lemma FirstType(a: seq<Value>, b: seq<Value>)
    requires a != [] || b != []
    ensures AllInts(a) && AllInts(b) ==> (if ContainedType(Set(a)) == NoArg then ContainedType(Set(b)) else ContainedType(Set(a))) == IntType
    ensures AllStrs(a) && AllStrs(b) ==> (if ContainedType(Set(a)) == NoArg then ContainedType(Set(b)) else ContainedType(Set(a))) == StringType
  {
    if a != [] { assert a[0] in a; }
    if b != [] { assert b[0] in b; }
  }

  lemma IntUnion(lib: Library, a: seq<Value>, b: seq<Value>)
    requires AllInts(a) && AllInts(b) && (a != [] || b != [])
    ensures var u := SetUnion(lib, a, b);
      u.Ok? && u.v.Set? && Distinct(u.v.items) && forall v :: v in u.v.items <==> v in a || v in b
  {
    IntUnionIs(lib, a, b);
    IntListing(SortedInts(IntSet(a) + IntSet(b)), a, b);
  }

  lemma IntUnionIs(lib: Library, a: seq<Value>, b: seq<Value>)
    requires AllInts(a) && AllInts(b) && (a != [] || b != [])
    ensures SetUnion(lib, a, b) == Ok(Set(IntValues(SortedInts(IntSet(a) + IntSet(b)))))
  {
    FirstType(a, b);
  }

  lemma IntListing(keys: seq<int>, a: seq<Value>, b: seq<Value>)
    requires AllInts(a) && AllInts(b) && Distinct(keys) && forall k :: k in keys <==> k in IntSet(a) + IntSet(b)
    ensures Distinct(IntValues(keys)) && forall v :: v in IntValues(keys) <==> v in a || v in b
  {
    var items := IntValues(keys);
    forall i | 0 <= i < |keys| ensures Wrap64(keys[i]) == keys[i] && (items[i] in a || items[i] in b) {
      assert keys[i] in keys;
      var w :| (w in a || w in b) && GetI(w) as int == keys[i];
      assert items[i] == w;
    }
    forall i, j | 0 <= i < j < |items| ensures items[i] != items[j] { assert keys[i] != keys[j]; }
    forall v | v in a || v in b ensures v in items {
      assert GetI(v) as int in keys;
      var i :| 0 <= i < |keys| && keys[i] == GetI(v) as int;
      assert items[i] == v;
    }
  }

  lemma StrUnion(lib: Library, a: seq<Value>, b: seq<Value>)
    requires AllStrs(a) && AllStrs(b) && (a != [] || b != [])
    ensures var u := SetUnion(lib, a, b);
      u.Ok? && u.v.Set? && Distinct(u.v.items) && forall v :: v in u.v.items <==> v in a || v in b
  {
    StrUnionIs(lib, a, b);
    StrListing(SortedStrings(StringSet(a) + StringSet(b)), a, b);
  }

  lemma StrUnionIs(lib: Library, a: seq<Value>, b: seq<Value>)
    requires AllStrs(a) && AllStrs(b) && (a != [] || b != [])
    ensures SetUnion(lib, a, b) == Ok(Set(StrValues(SortedStrings(StringSet(a) + StringSet(b)))))
  {
    FirstType(a, b);
  }

  lemma StrListing(keys: seq<string>, a: seq<Value>, b: seq<Value>)
    requires AllStrs(a) && AllStrs(b) && Distinct(keys) && forall k :: k in keys <==> k in StringSet(a) + StringSet(b)
    ensures Distinct(StrValues(keys)) && forall v :: v in StrValues(keys) <==> v in a || v in b
  {
    var items := StrValues(keys);
    forall i | 0 <= i < |keys| ensures items[i] in a || items[i] in b {
      assert keys[i] in keys;
      var w :| (w in a || w in b) && GetS(w) == keys[i];
      assert items[i] == w;
    }
    forall i, j | 0 <= i < j < |items| ensures items[i] != items[j] { assert keys[i] != keys[j]; }
    forall v | v in a || v in b ensures v in items {
      assert GetS(v) in keys;
      var i :| 0 <= i < |keys| && keys[i] == GetS(v);
      assert items[i] == v;
    }
  }

  /** So the order of the operands, and of the items in them, does not show. */
  lemma UnionCommutes(lib: Library, a: seq<Value>, b: seq<Value>)
    requires Uniform(a, b)
    ensures SetUnion(lib, a, b) == SetUnion(lib, b, a)
  {
    if a != [] || b != [] {
      FirstType(a, b);
      FirstType(b, a);
      assert IntSet(a) + IntSet(b) == IntSet(b) + IntSet(a);
      assert StringSet(a) + StringSet(b) == StringSet(b) + StringSet(a);
    }
  }

  /** No two different maps among the operands have the same JSON text. */
  ghost predicate TextsApart(lib: Library, a: seq<Value>, b: seq<Value>)
    requires AllMaps(a) && AllMaps(b)
  {
    forall v, w | v in a + b && w in a + b :: lib.json(v.entries) == lib.json(w.entries) ==> v == w
  }

  lemma {:induction false} MapSetIs(lib: Library, items: seq<Value>)
    requires AllMaps(items)
    ensures forall k | k in MapSet(lib, items) :: MapSet(lib, items)[k] in items && lib.json(MapSet(lib, items)[k].entries) == k
    ensures forall v | v in items :: lib.json(v.entries) in MapSet(lib, items)
  {
    if items != [] { MapSetIs(lib, items[..|items| - 1]); }
  }

  /** The map that is kept for each text, one of `b` rather than of `a`. */
  function MapUnion(lib: Library, a: seq<Value>, b: seq<Value>): map<string, Value> {
    MapSet(lib, a) + MapSet(lib, b)
  }

  /** The map's texts are those of the operands' members, each kept with one of them. */
  ghost predicate Keeps(lib: Library, u: map<string, Value>, a: seq<Value>, b: seq<Value>) {
    && (forall k | k in u :: u[k] in a + b && u[k].Map? && lib.json(u[k].entries) == k)
    && forall v | v in a + b :: v.Map? && lib.json(v.entries) in u
  }

  lemma MapUnionKeeps(lib: Library, a: seq<Value>, b: seq<Value>)
    requires AllMaps(a) && AllMaps(b)
    ensures Keeps(lib, MapUnion(lib, a, b), a, b)
  {
    MapSetIs(lib, a);
    MapSetIs(lib, b);
  }

  lemma FirstMapType(a: seq<Value>, b: seq<Value>)
    requires AllMaps(a) && AllMaps(b) && (a != [] || b != [])
    ensures (if ContainedType(Set(a)) == NoArg then ContainedType(Set(b)) else ContainedType(Set(a))) == MapType
  {
    if a != [] { assert a[0] in a; }
    if b != [] { assert b[0] in b; }
  }

  lemma MapUnionIs(lib: Library, a: seq<Value>, b: seq<Value>)
    requires AllMaps(a) && AllMaps(b) && (a != [] || b != [])
    ensures SetUnion(lib, a, b) == Ok(MapsOf(MapUnion(lib, a, b)))
  {
    FirstMapType(a, b);
    MapsAreUnited(lib, a, b);
  }

  lemma MapsAreUnited(lib: Library, a: seq<Value>, b: seq<Value>)
    requires AllMaps(a) && AllMaps(b)
    requires (if ContainedType(Set(a)) == NoArg then ContainedType(Set(b)) else ContainedType(Set(a))) == MapType
    ensures SetUnion(lib, a, b) == Ok(MapsOf(MapUnion(lib, a, b)))
  {
    var u := MapUnion(lib, a, b);
    assert u == MapSet(lib, a) + MapSet(lib, b);
  }

  lemma KeptOnce(lib: Library, u: map<string, Value>, keys: seq<string>, a: seq<Value>, b: seq<Value>)
    requires AllMaps(a) && AllMaps(b) && Keeps(lib, u, a, b) && Distinct(keys) && forall k :: k in keys <==> k in u
    ensures var items := ValuesAt(u, keys);
      && Distinct(items) && (forall v | v in items :: v in a + b && u[lib.json(v.entries)] == v)
      && (forall v | v in a + b :: u[lib.json(v.entries)] in items)
  {
    var items := ValuesAt(u, keys);
    forall i | 0 <= i < |keys| ensures items[i] in a + b && lib.json(items[i].entries) == keys[i] {
      assert keys[i] in keys;
    }
    forall v | v in a + b ensures u[lib.json(v.entries)] in items {
      var i :| 0 <= i < |keys| && keys[i] == lib.json(v.entries);
      assert items[i] == u[keys[i]];
    }
  }

  /** The union of two sets of maps has no other members and none twice, one for every JSON
      text; it has them all exactly if different maps have different texts. */
  lemma UnionOfMaps(lib: Library, a: seq<Value>, b: seq<Value>)
    requires AllMaps(a) && AllMaps(b) && (a != [] || b != [])
    ensures var u := SetUnion(lib, a, b);
      && u.Ok? && u.v.Set? && Distinct(u.v.items) && (forall v | v in u.v.items :: v in a + b)
      && (forall v | v in a + b :: exists w :: w in u.v.items && w.Map? && lib.json(w.entries) == lib.json(v.entries))
      && ((forall v | v in a + b :: v in u.v.items) <==> TextsApart(lib, a, b))
  {
    var u := MapUnion(lib, a, b);
    MapUnionIs(lib, a, b);
    MapUnionKeeps(lib, a, b);
    KeptOnce(lib, u, SortedStrings(u.Keys), a, b);
    AllKeptIff(lib, u, ValuesAt(u, SortedStrings(u.Keys)), a, b);
  }

  lemma AllKeptIff(lib: Library, u: map<string, Value>, items: seq<Value>, a: seq<Value>, b: seq<Value>)
    requires AllMaps(a) && AllMaps(b) && Keeps(lib, u, a, b)
    requires forall v | v in items :: v in a + b && u[lib.json(v.entries)] == v
    requires forall v | v in a + b :: u[lib.json(v.entries)] in items
    ensures forall v | v in a + b :: exists w :: w in items && w.Map? && lib.json(w.entries) == lib.json(v.entries)
    ensures (forall v | v in a + b :: v in items) <==> TextsApart(lib, a, b)
  {
    forall v | v in a + b ensures exists w :: w in items && w.Map? && lib.json(w.entries) == lib.json(v.entries) {
      var w := u[lib.json(v.entries)];
      assert w in items && w.Map? && lib.json(w.entries) == lib.json(v.entries);
    }
    if TextsApart(lib, a, b) {
      forall v | v in a + b ensures v in items {
        var w := u[lib.json(v.entries)];
        assert w in a + b && lib.json(w.entries) == lib.json(v.entries);
      }
    }
  }

  /** Then the order of the operands does not show here either. */
  lemma MapUnionCommutes(lib: Library, a: seq<Value>, b: seq<Value>)
    requires AllMaps(a) && AllMaps(b) && TextsApart(lib, a, b)
    ensures SetUnion(lib, a, b) == SetUnion(lib, b, a)
  {
    if a != [] || b != [] {
      MapUnionIs(lib, a, b);
      MapUnionIs(lib, b, a);
      MapUnionKeeps(lib, a, b);
      MapUnionKeeps(lib, b, a);
      KeptIsOne(lib, MapUnion(lib, a, b), MapUnion(lib, b, a), a, b);
    }
  }

  lemma KeptIsOne(lib: Library, u: map<string, Value>, v: map<string, Value>, a: seq<Value>, b: seq<Value>)
    requires AllMaps(a) && AllMaps(b) && TextsApart(lib, a, b) && Keeps(lib, u, a, b) && Keeps(lib, v, b, a)
    ensures u == v
  {
    forall k ensures k in u <==> k in v {
      if k in u { assert u[k] in b + a; }
      if k in v { assert v[k] in a + b; }
    }
    forall k | k in u ensures u[k] == v[k] {
      assert u[k] in a + b && v[k] in a + b;
    }
  }

  // ---- what the operators of numbers, texts and maps compute -------------------

  /** The integer of 64 bits that is `n` modulo 2^64. */
  predicate IsNumber(o: Outcome, n: int) {
    o.Ok? && o.v.Int? && (o.v.i - n) % 0x1_0000_0000_0000_0000 == 0
  }

  lemma WrapIsModular(n: int)
    ensures (Wrap64(n) - n) % 0x1_0000_0000_0000_0000 == 0
    ensures -0x8000_0000_0000_0000 <= n < 0x8000_0000_0000_0000 ==> Wrap64(n) == n
  {
    var m := 0x1_0000_0000_0000_0000;
    var k := n + 0x8000_0000_0000_0000;
    assert k == k / m * m + k % m;
    Multiple(-(k / m));
  }

  lemma Multiple(q: int)
    ensures q * 0x1_0000_0000_0000_0000 % 0x1_0000_0000_0000_0000 == 0
  {
  }

  lemma Wraps(o: Outcome, n: int)
    requires o == Ok(Int(Wrap64(n)))
    ensures IsNumber(o, n)
  {
    WrapIsModular(n);
  }

  /** Sums, differences and products are those of the integers modulo 2^64, and exact where the
      result fits (NumbersAreExact). */
  lemma SumsAreModular(lib: Library, a: Int64, b: Int64)
    ensures IsNumber(ApplyDefault(lib, Add, Int(a), Int(b)), a + b)
    ensures IsNumber(ApplyDefault(lib, Sub, Int(a), Int(b)), a - b)
    ensures IsNumber(ApplyUnary(lib, Neg, Int(a)), -(a as int))
  {
    Wraps(ApplyDefault(lib, Add, Int(a), Int(b)), a + b);
    Wraps(ApplyDefault(lib, Sub, Int(a), Int(b)), a - b);
    Wraps(ApplyUnary(lib, Neg, Int(a)), -(a as int));
  }

  lemma ProductsAreModular(lib: Library, a: Int64, b: Int64)
    ensures IsNumber(ApplyDefault(lib, Mul, Int(a), Int(b)), a * b)
  {
    var n: int := a * b;
    assert ApplyDefault(lib, Mul, Int(a), Int(b)) == Ok(Int(Wrap64(n)));
    Wraps(ApplyDefault(lib, Mul, Int(a), Int(b)), n);
  }

  /** Division and remainder refuse only a zero. */
  lemma QuotientsAreModular(lib: Library, a: Int64, b: Int64)
    ensures ApplyDefault(lib, Div, Int(a), Int(b)).Ok? <==> b != 0
    ensures ApplyDefault(lib, Mod, Int(a), Int(b)).Ok? <==> b != 0
    ensures b != 0 ==> IsNumber(ApplyDefault(lib, Div, Int(a), Int(b)), TruncDiv(a, b))
    ensures b != 0 ==> IsNumber(ApplyDefault(lib, Mod, Int(a), Int(b)), TruncMod(a, b))
  {
    if b != 0 {
      var q, r := TruncDiv(a, b), TruncMod(a, b);
      assert ApplyDefault(lib, Div, Int(a), Int(b)) == Ok(Int(Wrap64(q)));
      assert ApplyDefault(lib, Mod, Int(a), Int(b)) == Ok(Int(Wrap64(r)));
      Wraps(ApplyDefault(lib, Div, Int(a), Int(b)), q);
      Wraps(ApplyDefault(lib, Mod, Int(a), Int(b)), r);
    }
  }

  lemma NumbersAreExact(o: Outcome, n: int)
    requires IsNumber(o, n) && -0x8000_0000_0000_0000 <= n < 0x8000_0000_0000_0000
    ensures o == Ok(Int(n))
  {
    var d := o.v.i - n;
    assert d == d / 0x1_0000_0000_0000_0000 * 0x1_0000_0000_0000_0000;
  }

  predicate Answers(o: Outcome, b: bool) { o == Ok(Bool(b)) }

  /** The comparisons of numbers are those of the integers. */
  lemma ComparisonsAreOrder(lib: Library, a: Int64, b: Int64)
    ensures Answers(ApplyDefault(lib, Lt, Int(a), Int(b)), a < b)
    ensures Answers(ApplyDefault(lib, Le, Int(a), Int(b)), a < b || a == b)
    ensures Answers(ApplyDefault(lib, Gt, Int(a), Int(b)), b < a)
    ensures Answers(ApplyDefault(lib, Ge, Int(a), Int(b)), b < a || a == b)
    ensures Answers(ApplyDefault(lib, Eq, Int(a), Int(b)), !(a < b) && !(b < a))
    ensures Answers(ApplyDefault(lib, Ne, Int(a), Int(b)), a < b || b < a)
  {
  }

  /** Two values of the kinds `==` takes are equal if they are the same; numbers, texts and null
      are told apart from each other or refused, never confused. */
  lemma EqualityIsSameness(lib: Library, l: Value, r: Value)
    ensures ApplyDefault(lib, Eq, l, r).Ok? ==> Answers(ApplyDefault(lib, Eq, l, r), l == r)
    ensures ApplyDefault(lib, Eq, l, r).Ok? <==>
      || (l.Bool? && r.Bool?) || (l.Int? && r.Int?) || (l.Str? && r.Str?)
      || (l.Null? && (r.Null? || r.Int? || r.Str?)) || (r.Null? && (l.Int? || l.Str? || l.List?))
  {
  }

  /** Texts and lists are joined in the order of the operands. */
  lemma JoinsInOrder(lib: Library, x: string, y: string, xs: seq<Value>, ys: seq<Value>, i: nat)
    ensures ApplyDefault(lib, Add, Str(x), Str(y)).Ok? && ApplyDefault(lib, Add, Str(x), Str(y)).v.Str?
    ensures var s := ApplyDefault(lib, Add, Str(x), Str(y)).v.s;
      |s| == |x| + |y| && x <= s && (i < |y| ==> s[|x| + i] == y[i])
    ensures ApplyDefault(lib, BitOr, List(xs), List(ys)) == ApplyDefault(lib, BitOr, List(xs), Set(ys))
    ensures ApplyDefault(lib, BitOr, List(xs), List(ys)).Ok? && ApplyDefault(lib, BitOr, List(xs), List(ys)).v.List?
    ensures var s := ApplyDefault(lib, BitOr, List(xs), List(ys)).v.items;
      |s| == |xs| + |ys| && xs <= s && (i < |ys| ==> s[|xs| + i] == ys[i])
  {
  }

  /** `in` asks for the text itself among the items, or among the keys of a map. The empty text
      is found also at an item that is no text. */
  lemma InIsMembership(lib: Library, x: string, items: seq<Value>, m: map<string, Value>)
    ensures x != "" ==> Answers(ApplyDefault(lib, In, Str(x), List(items)), Str(x) in items)
    ensures x != "" ==> Answers(ApplyDefault(lib, In, Str(x), Set(items)), Str(x) in items)
    ensures Answers(ApplyDefault(lib, In, Str(""), List(items)), Str("") in items || !AllStrs(items))
    ensures Answers(ApplyDefault(lib, In, Str(x), Map(m)), x in m.Keys)
  {
    forall v | v in items && v != Str(x) ensures GetS(v) != x || (x == "" && !v.Str?) {
    }
    if Str(x) in items { assert GetS(Str(x)) == x; }
    if Str("") in items { assert GetS(Str("")) == ""; }
    if !AllStrs(items) {
      var v :| v in items && !v.Str?;
      assert GetS(v) == "";
    }
  }

  /** An attribute is the entry of that name, null if there is none; a pair that map iteration
      made gives its key, its value, and otherwise the attributes of its value. */
  lemma AttributesAreEntries(m: map<string, Value>, k: string, attr: string)
    requires m.Keys != {"key", "value"}
    ensures attr in m ==> GetAttribute(Map(m), attr) == Ok(m[attr])
    ensures attr !in m ==> GetAttribute(Map(m), attr) == Ok(Null)
    ensures GetAttribute(Pair(k, Map(m)), "key") == Ok(Str(k))
    ensures GetAttribute(Pair(k, Map(m)), "value") == Ok(Map(m))
    ensures attr != "key" && attr != "value" ==> GetAttribute(Pair(k, Map(m)), attr) == GetAttribute(Map(m), attr)
  {
    var p := Pair(k, Map(m)).entries;
    assert p.Keys == {"key", "value"};
    assert p["key"] == Str(k) && p["value"] == Map(m);
  }

  /** `.count` is the number of items or entries, and `single` the one item there is. */
  lemma CountsAndSingles(lib: Library, items: seq<Value>, m: map<string, Value>, v: Value)
    ensures IsNumber(CountOf(List(items)), |items|) && IsNumber(CountOf(Set(items)), |items|)
    ensures IsNumber(CountOf(Map(m)), |m.Keys|)
    ensures ApplyUnary(lib, Single, List(items)).Ok? <==> |items| == 1
    ensures ApplyUnary(lib, Single, List(items)) == Ok(v) <==> items == [v]
    ensures ApplyUnary(lib, Single, Set(items)) == ApplyUnary(lib, Single, List(items))
  {
    WrapIsModular(|items|);
    WrapIsModular(|m|);
  }

  /** What `flatten` joins: the items of inner lists or sets, or the maps themselves; only a set
      of maps takes a body's set apart, every other collection takes each body value as it is. */
  lemma FlattenTakes(first: Value, rest: seq<Value>, xs: seq<Value>, m: map<string, Value>, r: Value)
    requires var items := [first] + rest; FlattenSupported(List(items)) && FlattenSupported(Set(items))
    ensures var l, s := List([first] + rest), Set([first] + rest);
      && (first.List? ==> Inner(l, List(xs)) == Some(xs) && Inner(s, List(xs)) == Some(xs))
      && (first.Set? ==> Inner(l, Set(xs)) == Some(xs) && Inner(s, Set(xs)) == Some(xs))
      && (first.Map? ==> Inner(l, Map(m)) == Some([Map(m)]) && Inner(s, Map(m)) == Some([Map(m)]))
      && Spliced(l, r) == Some([r])
      && Spliced(s, Set(xs)) == Some(if first.Map? then xs else [Set(xs)])
  {
    assert ([first] + rest)[0] == first;
  }

  /** The collections `where` and `flatten` take, by their first item; a map has no order to go by
      and is taken by `where` whatever is in it. */
  lemma WhereAndFlattenTake(first: Value, rest: seq<Value>, m: map<string, Value>)
    ensures var l, s := List([first] + rest), Set([first] + rest);
      && (WhereSupported(l) <==> first.List? || first.Str? || first.Map? || first.Nil?)
      && (WhereSupported(s) <==> first.Map? || first.Int? || first.Float? || first.Str? || first.Nil?)
      && (FlattenSupported(l) <==> first.List? || first.Set? || first.Map? || first.Nil?)
      && (FlattenSupported(s) <==> FlattenSupported(l))
    ensures WhereSupported(List([])) && WhereSupported(Set([])) && WhereSupported(Map(m))
    ensures FlattenSupported(List([])) && FlattenSupported(Set([])) && !FlattenSupported(Map(m))
    ensures !first.List? && !first.Set? && !first.Map? ==> !WhereSupported(first) && !FlattenSupported(first)
  {
    assert ([first] + rest)[0] == first;
  }

  /** The kinds of operands the operators take; everything else is a panic. */
  lemma OperandsTaken(lib: Library, op: BinOp, l: Value, r: Value)
    requires op in {Sub, Mul, Lt, Le, Gt, Ge}
    ensures ApplyDefault(lib, op, l, r).Ok? <==> l.Int? && r.Int?
    ensures ApplyDefault(lib, op, l, r).Ok? || ApplyDefault(lib, op, l, r).Panic?
  {
  }

  lemma OtherOperandsTaken(lib: Library, l: Value, r: Value)
    ensures ApplyDefault(lib, Add, l, r).Ok? <==> (l.Int? && r.Int?) || (l.Str? && r.Str?)
    ensures ApplyDefault(lib, And, l, r).Ok? <==> l.Bool? && r.Bool?
    ensures ApplyDefault(lib, In, l, r).Ok? <==> l.Str? && (r.List? || r.Set? || r.Map? || r.Null?)
    ensures !ApplyDefault(lib, OtherBin, l, r).Ok?
  {
  }
}
