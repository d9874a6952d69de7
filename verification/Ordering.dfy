/** Total orders and the sorted listing of a finite set: the model of collecting a
    Go map's keys in whatever order the runtime yields them and sorting the result. */
module Ordering {

  ghost predicate TotalOrder<T(!new)>(le: (T, T) -> bool) {
    && (forall x :: le(x, x))
    && (forall x, y :: le(x, y) || le(y, x))
    && (forall x, y :: le(x, y) && le(y, x) ==> x == y)
    && (forall x, y, z :: le(x, y) && le(y, z) ==> le(x, z))
  }

  ghost predicate Ascending<T>(xs: seq<T>, le: (T, T) -> bool) {
    forall i, j :: 0 <= i < j < |xs| ==> xs[i] != xs[j] && le(xs[i], xs[j])
  }

  ghost predicate Distinct<T>(xs: seq<T>) {
    forall i, j :: 0 <= i < j < |xs| ==> xs[i] != xs[j]
  }

  ghost predicate IsLeast<T>(x: T, s: set<T>, le: (T, T) -> bool) {
    x in s && forall y | y in s :: le(x, y)
  }

  lemma LeastExists<T(!new)>(s: set<T>, le: (T, T) -> bool)
    requires s != {} && TotalOrder(le)
    ensures exists x :: IsLeast(x, s, le)
  {
    var x :| x in s;
    var rest := s - {x};
    if rest == {} {
      assert s == {x};
      assert IsLeast(x, s, le);
    } else {
      LeastExists(rest, le);
      var m :| IsLeast(m, rest, le);
      if le(x, m) {
        forall y | y in s ensures le(x, y) {
          if y != x { assert y in rest && le(m, y); }
        }
        assert IsLeast(x, s, le);
      } else {
        forall y | y in s ensures le(m, y) {
          if y != x { assert y in rest; }
        }
        assert IsLeast(m, s, le);
      }
    }
  }

  /** The members of `s`, each once, in ascending order. */
  function SortSet<T(==,!new)>(s: set<T>, le: (T, T) -> bool): (r: seq<T>)
    requires TotalOrder(le)
    ensures Distinct(r) && forall x :: x in r <==> x in s
    ensures |r| == |s|
  {
    if s == {} then []
    else
      LeastExists(s, le);
      assert exists x :: x in s && forall y | y in s :: le(x, y) by {
        var m :| IsLeast(m, s, le);
        assert m in s;
      }
      var x :| x in s && forall y | y in s :: le(x, y);
      [x] + SortSet(s - {x}, le)
  }

  lemma {:induction false} SortSetAscends<T(!new)>(s: set<T>, le: (T, T) -> bool)
    requires TotalOrder(le)
    ensures Ascending(SortSet(s, le), le)
  {
    if s != {} {
      LeastExists(s, le);
      assert exists x :: x in s && forall y | y in s :: le(x, y) by {
        var m :| IsLeast(m, s, le);
        assert m in s;
      }
      var r := SortSet(s, le);
      var x := r[0];
      assert x in s && (forall y | y in s :: le(x, y)) && r[1..] == SortSet(s - {x}, le);
      SortSetAscends(s - {x}, le);
      forall i, j | 0 <= i < j < |r| ensures r[i] != r[j] && le(r[i], r[j]) {
        assert r[j] in s;
        if i > 0 { assert r[i] == r[1..][i - 1] && r[j] == r[1..][j - 1]; }
      }
    }
  }

  /** Sorting has one answer: an ascending listing is determined by its members. */
  lemma {:induction false} AscendingIsUnique<T(!new)>(a: seq<T>, b: seq<T>, le: (T, T) -> bool)
    requires TotalOrder(le) && Ascending(a, le) && Ascending(b, le)
    requires forall x :: x in a <==> x in b
    ensures a == b
  {
    assert a == [] || a[0] in a;
    assert b == [] || b[0] in b;
    if a != [] && b != [] {
      assert a[0] in b && b[0] in a;
      assert le(a[0], b[0]) && le(b[0], a[0]);
      forall x ensures x in a[1..] <==> x in b[1..] {
        if x in a[1..] { assert x in b; }
        if x in b[1..] { assert x in a; }
      }
      AscendingIsUnique(a[1..], b[1..], le);
    }
  }

  /** Byte-wise lexicographic order of strings, as sort.Strings uses it. */
  predicate StrLe(a: string, b: string) {
    a == "" || (b != "" && (a[0] < b[0] || (a[0] == b[0] && StrLe(a[1..], b[1..]))))
  }

  lemma {:induction false} StrLeTotal(a: string, b: string)
    ensures StrLe(a, a)
    ensures StrLe(a, b) || StrLe(b, a)
    ensures StrLe(a, b) && StrLe(b, a) ==> a == b
  {
    if a != "" { StrLeTotal(a[1..], if b == "" then "" else b[1..]); }
  }

  lemma {:induction false} StrLeTransitive(a: string, b: string, c: string)
    requires StrLe(a, b) && StrLe(b, c)
    ensures StrLe(a, c)
  {
    if a != "" && a[0] == b[0] == c[0] { StrLeTransitive(a[1..], b[1..], c[1..]); }
  }

  /** `a` and `b` first differ at k, where `a` has the smaller character. */
  predicate SmallerAt(a: string, b: string, k: nat) {
    k < |a| && k < |b| && a[..k] == b[..k] && a[k] < b[k]
  }

  /** One string is before another if it is a prefix of it, or smaller where they first differ. */
  lemma {:induction false} StrLeIsLexicographic(a: string, b: string)
    ensures StrLe(a, b) <==> a <= b || exists k: nat :: SmallerAt(a, b, k)
  {
    if a != "" && b != "" && a[0] == b[0] {
      StrLeIsLexicographic(a[1..], b[1..]);
      forall k: nat ensures SmallerAt(a[1..], b[1..], k) <==> SmallerAt(a, b, k + 1) {
        if k < |a[1..]| && k < |b[1..]| {
          assert a[..k + 1] == [a[0]] + a[1..][..k] && b[..k + 1] == [b[0]] + b[1..][..k];
          assert a[1..][..k] == a[..k + 1][1..] && b[1..][..k] == b[..k + 1][1..];
        }
      }
      if k: nat :| SmallerAt(a, b, k) { assert SmallerAt(a[1..], b[1..], k - 1); }
      assert a == [a[0]] + a[1..] && b == [b[0]] + b[1..];
      assert a <= b ==> a[1..] <= b[1..] by { if a <= b { assert a[1..] == b[1..][..|a| - 1]; } }
      assert a[1..] <= b[1..] ==> a <= b;
    } else if a != "" && b != "" {
      assert a[0] < b[0] ==> SmallerAt(a, b, 0);
      assert forall k: nat | 0 < k < |a| && k < |b| :: a[..k][0] != b[..k][0];
    }
  }

  lemma StrLeIsTotalOrder()
    ensures TotalOrder(StrLe)
  {
    forall a, b ensures StrLe(a, a) && (StrLe(a, b) || StrLe(b, a)) && (StrLe(a, b) && StrLe(b, a) ==> a == b) {
      StrLeTotal(a, b);
    }
    forall a, b, c | StrLe(a, b) && StrLe(b, c) ensures StrLe(a, c) {
      StrLeTransitive(a, b, c);
    }
  }

  function SortedStrings(s: set<string>): (r: seq<string>)
    ensures Distinct(r) && forall x :: x in r <==> x in s
    ensures |r| == |s|
  {
    StrLeIsTotalOrder();
    SortSet(s, StrLe)
  }

  /** The listing is in order, and so the only one of its kind. */
  lemma SortedStringsAscend(s: set<string>, r: seq<string>)
    requires forall x :: x in r <==> x in s
    ensures Ascending(SortedStrings(s), StrLe)
    ensures Ascending(r, StrLe) ==> r == SortedStrings(s)
  {
    StrLeIsTotalOrder();
    SortSetAscends(s, StrLe);
    if Ascending(r, StrLe) { AscendingIsUnique(r, SortedStrings(s), StrLe); }
  }

  /** `r`, if it lists the keys: so every listing of them is some order to range over them. */
  function ListingOf(r: seq<string>, keys: set<string>): (listing: seq<string>)
    ensures Distinct(listing) && forall k :: k in listing <==> k in keys
    ensures |listing| == |keys|
  {
    if |r| == |keys| && (set k | k in r) == keys then
      ListingIsDistinct(r, keys);
      assert forall k :: k in r <==> k in (set k | k in r);
      r
    else SortedStrings(keys)
  }

  lemma {:induction false} ListingIsDistinct(r: seq<string>, keys: set<string>)
    requires |r| == |keys| && (set k | k in r) == keys
    ensures Distinct(r)
  {
    forall i, j | 0 <= i < j < |r| ensures r[i] != r[j] {
      if r[i] == r[j] {
        var shorter := r[..j] + r[j + 1..];
        assert (set k | k in shorter) == keys by {
          forall k | k in keys ensures k in shorter {
            var n :| 0 <= n < |r| && r[n] == k;
            if n < j { assert shorter[n] == k; }
            else if n == j { assert shorter[i] == k; }
            else { assert shorter[n - 1] == k; }
          }
        }
        SetOfSeqIsSmall(shorter);
      }
    }
  }

  lemma {:induction false} SetOfSeqIsSmall(xs: seq<string>)
    ensures |set k | k in xs| <= |xs|
  {
    if xs != [] {
      SetOfSeqIsSmall(xs[1..]);
      assert (set k | k in xs) == {xs[0]} + (set k | k in xs[1..]);
    }
  }

  predicate IntLe(a: int, b: int) { a <= b }

  function SortedInts(s: set<int>): (r: seq<int>)
    ensures Distinct(r) && forall x :: x in r <==> x in s
    ensures |r| == |s|
  {
    SortSet(s, IntLe)
  }

  lemma SortedIntsAscend(s: set<int>)
    ensures forall i, j | 0 <= i < j < |SortedInts(s)| :: SortedInts(s)[i] < SortedInts(s)[j]
  {
    SortSetAscends(s, IntLe);
  }
}
