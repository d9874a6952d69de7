/** Listing names by the source line they are declared on, the way the generator does it:
    through a map from line to name, so that a line shared by two names keeps only one. */
module LineOrder {
  import opened Ordering

  predicate Sorted(xs: seq<int>) {
    forall i, j | 0 <= i < j < |xs| :: xs[i] <= xs[j]
  }

  function Insert(x: int, xs: seq<int>): (r: seq<int>)
    ensures multiset(r) == multiset(xs) + multiset{x}
  {
    if xs == [] || x <= xs[0] then
      assert multiset([x] + xs) == multiset(xs) + multiset{x};
      [x] + xs
    else
      assert xs == [xs[0]] + xs[1..];
      [xs[0]] + Insert(x, xs[1..])
  }

  lemma SortedCons(x: int, xs: seq<int>)
    requires Sorted(xs) && forall y | y in xs :: x <= y
    ensures Sorted([x] + xs)
  {
    var r := [x] + xs;
    forall i, j | 0 <= i < j < |r| ensures r[i] <= r[j] {
      assert r[j] == xs[j - 1] && xs[j - 1] in xs;
    }
  }

  lemma InsertedAre(x: int, xs: seq<int>)
    ensures forall y | y in Insert(x, xs) :: y == x || y in xs
  {
    forall y | y in Insert(x, xs) ensures y == x || y in xs {
      assert y in multiset(Insert(x, xs));
    }
  }

  lemma {:induction false} InsertKeepsSorted(x: int, xs: seq<int>)
    requires Sorted(xs)
    ensures Sorted(Insert(x, xs))
  {
    if xs == [] || x <= xs[0] {
      SortedCons(x, xs);
    } else {
      InsertKeepsSorted(x, xs[1..]);
      InsertedAre(x, xs[1..]);
      SortedCons(xs[0], Insert(x, xs[1..]));
    }
  }

  /** sort.Slice on line numbers. */
  function SortLines(xs: seq<int>): (r: seq<int>)
    ensures Sorted(r) && multiset(r) == multiset(xs) && |r| == |xs|
  {
    if xs == [] then []
    else
      assert xs == [xs[0]] + xs[1..];
      var r := Insert(xs[0], SortLines(xs[1..]));
      InsertKeepsSorted(xs[0], SortLines(xs[1..]));
      assert |r| == |multiset(r)| == |multiset(xs)| == |xs|;
      r
  }

  // ---- how often a name is listed ----------------------------------------------

  lemma {:induction false} DistinctIsOnce<T>(xs: seq<T>, x: T)
    requires Distinct(xs)
    ensures multiset(xs)[x] == if x in xs then 1 else 0
  {
    if xs != [] {
      var init, last := xs[..|xs| - 1], xs[|xs| - 1];
      assert xs == init + [last] && last !in init;
      DistinctIsOnce(init, x);
    }
  }

  lemma RepeatedIsTwice<T>(xs: seq<T>, i: nat, j: nat)
    requires i < j < |xs| && xs[i] == xs[j]
    ensures multiset(xs)[xs[i]] >= 2
  {
    assert xs == xs[..j] + xs[j..];
    assert multiset(xs) == multiset(xs[..j]) + multiset(xs[j..]);
    assert xs[i] in xs[..j] && xs[i] in xs[j..];
  }

  /** A list names each of some things once exactly when it counts each of them once. */
  lemma OnceEach<T>(xs: seq<T>, all: set<T>)
    requires forall x | x in xs :: x in all
    ensures Distinct(xs) && (forall x | x in all :: x in xs) <==> forall x | x in all :: multiset(xs)[x] == 1
  {
    if Distinct(xs) && forall x | x in all :: x in xs {
      forall x | x in all ensures multiset(xs)[x] == 1 { DistinctIsOnce(xs, x); }
    }
    if forall x | x in all :: multiset(xs)[x] == 1 {
      forall x | x in all ensures x in xs { assert x in multiset(xs); }
      forall i, j | 0 <= i < j < |xs| ensures xs[i] != xs[j] {
        if xs[i] == xs[j] { RepeatedIsTwice(xs, i, j); }
      }
    }
  }

  /** Two lists that have something of each at the same places have it equally often. */
  lemma {:induction false} SamePlaces<T, U>(xs: seq<T>, x: T, ys: seq<U>, y: U)
    requires |xs| == |ys| && forall i | 0 <= i < |xs| :: xs[i] == x <==> ys[i] == y
    ensures multiset(xs)[x] == multiset(ys)[y]
    decreases |xs|
  {
    if xs != [] {
      var n := |xs| - 1;
      SamePlaces(xs[..n], x, ys[..n], y);
      assert xs == xs[..n] + [xs[n]] && ys == ys[..n] + [ys[n]];
    }
  }

  // ---- the listing -------------------------------------------------------------

  ghost predicate Lined(names: seq<string>, line: map<string, int>) {
    forall n | n in names :: n in line
  }

  function LinesOf(names: seq<string>, line: map<string, int>): seq<int>
    requires forall n | n in names :: n in line
  {
    seq(|names|, i requires 0 <= i < |names| => line[names[i]])
  }

  /** lineNumberMap: of the names on a line it keeps the last. */
  function LastOn(names: seq<string>, line: map<string, int>, l: int): string
    requires forall n | n in names :: n in line
  {
    if names == [] then ""
    else
      var last := names[|names| - 1];
      if line[last] == l then last else LastOn(names[..|names| - 1], line, l)
  }

  /** As many names as before, in line order, each line giving the last name on it. */
  function ByLine(names: seq<string>, line: map<string, int>): seq<string>
    requires forall n | n in names :: n in line
  {
    var sorted := SortLines(LinesOf(names, line));
    seq(|sorted|, i requires 0 <= i < |sorted| => LastOn(names, line, sorted[i]))
  }

  lemma {:induction false} LastIsOnLine(names: seq<string>, line: map<string, int>, n: string)
    requires Lined(names, line) && n in names
    ensures var last := LastOn(names, line, line[n]); last in names && line[last] == line[n]
    decreases |names|
  {
    var init, last := names[..|names| - 1], names[|names| - 1];
    assert names == init + [last];
    if line[last] != line[n] { LastIsOnLine(init, line, n); }
  }

  /** Nothing else is declared on the line of `n`. */
  predicate Alone(names: seq<string>, line: map<string, int>, n: string)
    requires (forall u | u in names :: u in line) && n in line
  {
    forall u | u in names && u != n :: line[u] != line[n]
  }

  lemma SortedHas(names: seq<string>, line: map<string, int>, l: int)
    requires Lined(names, line)
    ensures l in SortLines(LinesOf(names, line)) ==> exists n :: n in names && line[n] == l
    ensures multiset(SortLines(LinesOf(names, line)))[l] == multiset(LinesOf(names, line))[l]
  {
    var ls := LinesOf(names, line);
    if l in SortLines(ls) {
      assert l in multiset(SortLines(ls)) && l in multiset(ls) && l in ls;
      var i :| 0 <= i < |ls| && ls[i] == l;
      assert names[i] in names;
    }
  }

  lemma PlacesAre(names: seq<string>, line: map<string, int>, i: nat)
    requires Lined(names, line) && i < |names|
    ensures var l, r := SortLines(LinesOf(names, line))[i], ByLine(names, line)[i];
      r in names && line[r] == l && r == LastOn(names, line, l)
  {
    var sorted := SortLines(LinesOf(names, line));
    assert sorted[i] in sorted;
    SortedHas(names, line, sorted[i]);
    var n :| n in names && line[n] == sorted[i];
    LastIsOnLine(names, line, n);
  }

  /** The listing is in line order, and has nothing but the names. */
  lemma ByLineAscends(names: seq<string>, line: map<string, int>)
    requires Lined(names, line)
    ensures var r := ByLine(names, line);
      && |r| == |names| && (forall n | n in r :: n in names)
      && forall i, j | 0 <= i < j < |r| :: line[r[i]] <= line[r[j]]
  {
    var r := ByLine(names, line);
    forall i | 0 <= i < |r| ensures r[i] in names && line[r[i]] == SortLines(LinesOf(names, line))[i] { PlacesAre(names, line, i); }
  }

  lemma AloneIsOnce(names: seq<string>, line: map<string, int>, n: string)
    requires Lined(names, line) && Distinct(names) && n in names
    ensures multiset(LinesOf(names, line))[line[n]] == 1 <==> Alone(names, line, n)
  {
    var ls := LinesOf(names, line);
    if Alone(names, line, n) {
      SamePlaces(names, n, ls, line[n]);
      DistinctIsOnce(names, n);
    } else {
      var u :| u in names && u != n && line[u] == line[n];
      var i :| 0 <= i < |names| && names[i] == n;
      var j :| 0 <= j < |names| && names[j] == u;
      RepeatedIsTwice(ls, if i < j then i else j, if i < j then j else i);
    }
  }

  /** A name is listed once exactly when its line is its own; otherwise as often as there are
      names on the line, or not at all. */
  lemma ListedOnceIff(names: seq<string>, line: map<string, int>, n: string)
    requires Lined(names, line) && Distinct(names) && n in names
    ensures multiset(ByLine(names, line))[n] ==
      if LastOn(names, line, line[n]) == n then multiset(LinesOf(names, line))[line[n]] else 0
    ensures multiset(ByLine(names, line))[n] == 1 <==> Alone(names, line, n)
  {
    var r, sorted := ByLine(names, line), SortLines(LinesOf(names, line));
    forall i | 0 <= i < |r| ensures r[i] in names && line[r[i]] == sorted[i] && r[i] == LastOn(names, line, sorted[i]) { PlacesAre(names, line, i); }
    SortedHas(names, line, line[n]);
    AloneIsOnce(names, line, n);
    LastIsOnLine(names, line, n);
    if LastOn(names, line, line[n]) == n {
      SamePlaces(r, n, sorted, line[n]);
    } else {
      assert n !in r;
    }
  }

  /** No line is shared. */
  predicate DistinctLines(names: seq<string>, line: map<string, int>)
    requires forall n | n in names :: n in line
  {
    forall n | n in names :: Alone(names, line, n)
  }

  /** Each name is listed once exactly when no line is shared. */
  lemma AllListedIff(names: seq<string>, line: map<string, int>)
    requires Lined(names, line) && Distinct(names)
    ensures var r := ByLine(names, line);
      && (Distinct(r) <==> DistinctLines(names, line))
      && (DistinctLines(names, line) ==> forall n | n in names :: n in r)
  {
    var r, all := ByLine(names, line), set n | n in names;
    ByLineAscends(names, line);
    OnceEach(r, all);
    forall n | n in all ensures multiset(r)[n] == 1 <==> Alone(names, line, n) { ListedOnceIff(names, line, n); }
    if Distinct(r) && exists n :: n in names && n !in r {
      var n :| n in names && n !in r;
      Pigeons(r, names, n);
    }
  }

  /** A list of distinct members of another, as long as it is, leaves none out. */
  lemma Pigeons<T>(xs: seq<T>, ys: seq<T>, y: T)
    requires Distinct(xs) && Distinct(ys) && (forall x | x in xs :: x in ys) && y in ys && y !in xs
    ensures |xs| < |ys|
  {
    var a, b := multiset(xs), multiset(ys);
    forall x ensures a[x] <= b[x] { DistinctIsOnce(xs, x); DistinctIsOnce(ys, x); }
    DistinctIsOnce(ys, y);
    assert a <= b && b == a + (b - a);
    assert y in b - a;
  }

  ghost predicate IsLineMap(lineNumberMap: map<int, string>, names: seq<string>, line: map<string, int>)
    requires forall n | n in names :: n in line
  {
    && (forall n | n in names :: line[n] in lineNumberMap)
    && forall l | l in lineNumberMap :: lineNumberMap[l] == LastOn(names, line, l)
  }

  /** The map from line to name, and the line numbers as they come. */
  method MapLines(names: seq<string>, line: map<string, int>) returns (lineNumberMap: map<int, string>, lineNumbers: seq<int>)
    requires forall n | n in names :: n in line
    ensures lineNumbers == LinesOf(names, line) && IsLineMap(lineNumberMap, names, line)
  {
    lineNumberMap, lineNumbers := map[], [];
    for k := 0 to |names|
      invariant lineNumbers == LinesOf(names[..k], line)
      invariant forall i | 0 <= i < k :: line[names[i]] in lineNumberMap
      invariant forall l | l in lineNumberMap :: lineNumberMap[l] == LastOn(names[..k], line, l)
    {
      assert names[..k + 1][..k] == names[..k];
      lineNumberMap := lineNumberMap[line[names[k]] := names[k]];
      lineNumbers := lineNumbers + [line[names[k]]];
    }
    assert names[..|names|] == names;
  }

  method NamesAt(lineNumberMap: map<int, string>, sorted: seq<int>) returns (r: seq<string>)
    requires forall i | 0 <= i < |sorted| :: sorted[i] in lineNumberMap
    ensures |r| == |sorted| && forall i | 0 <= i < |r| :: r[i] == lineNumberMap[sorted[i]]
  {
    r := [];
    for k := 0 to |sorted|
      invariant |r| == k && forall i | 0 <= i < k :: r[i] == lineNumberMap[sorted[i]]
    {
      r := r + [lineNumberMap[sorted[k]]];
    }
  }

  /** Names by line, by way of the map from line to name. */
  method OrderByLine(names: seq<string>, line: map<string, int>) returns (r: seq<string>)
    requires forall n | n in names :: n in line
    ensures r == ByLine(names, line)
  {
    var lineNumberMap, lineNumbers := MapLines(names, line);
    var sorted := SortLines(lineNumbers);
    LinesAreMapped(names, line, lineNumberMap, sorted);
    r := NamesAt(lineNumberMap, sorted);
    NamesAreByLine(names, line, lineNumberMap, sorted, r);
  }

  lemma LinesAreMapped(names: seq<string>, line: map<string, int>, lineNumberMap: map<int, string>, sorted: seq<int>)
    requires Lined(names, line) && IsLineMap(lineNumberMap, names, line) && sorted == SortLines(LinesOf(names, line))
    ensures forall i | 0 <= i < |sorted| :: sorted[i] in lineNumberMap
  {
    forall i | 0 <= i < |sorted| ensures sorted[i] in lineNumberMap { SortedHas(names, line, sorted[i]); }
  }

  lemma NamesAreByLine(names: seq<string>, line: map<string, int>, lineNumberMap: map<int, string>, sorted: seq<int>, r: seq<string>)
    requires Lined(names, line) && IsLineMap(lineNumberMap, names, line) && sorted == SortLines(LinesOf(names, line))
    requires |r| == |sorted| && forall i | 0 <= i < |r| :: sorted[i] in lineNumberMap && r[i] == lineNumberMap[sorted[i]]
    ensures r == ByLine(names, line)
  {
  }

  /** Two names on one line: the second is listed twice and the first is lost. */
  lemma SharedLineLosesAName()
    ensures ByLine(["a", "b"], map["a" := 1, "b" := 1]) == ["b", "b"]
    ensures ByLine(["b", "a"], map["a" := 1, "b" := 1]) == ["a", "a"]
  {
    OneLineListsTheLast("a", "b");
    OneLineListsTheLast("b", "a");
  }

  lemma OneLineListsTheLast(x: string, y: string)
    ensures ByLine([x, y], map[x := 1, y := 1]) == [y, y]
  {
    var names, line := [x, y], map[x := 1, y := 1];
    ByLineAscends(names, line);
    assert names[..1] == [x];
    assert LastOn(names, line, 1) == y;
    var r := ByLine(names, line);
    forall i | 0 <= i < |r| ensures r[i] == y {
      PlacesAre(names, line, i);
      assert r[i] in names && line[r[i]] == 1;
    }
    assert r == [r[0], r[1]];
  }
}
