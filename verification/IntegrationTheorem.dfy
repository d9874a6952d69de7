/** The result of the integration builder, characterised without its three phases. */
module IntegrationTheorem {
  import opened Ordering
  import opened CallTree
  import opened IntegrationCalls
  import opened IntegrationBuilder

  /** What ends up in the diagram: the calls induced on its apps, and what the walk from the
      seeds picks up at collectors. */
  ghost predicate Drawn(s: Setup, seeds: set<string>, apps: set<string>, d: Dep) {
    Induced(s.m, apps, d) || AtCollector(s, seeds, d)
  }

  ghost predicate IsDiagram(s: Setup, seeds: set<string>, f: Found) {
    && Consistent(f)
    && (forall a :: a in f.apps <==> IsShown(s, seeds, a))
    && (forall d | d in f.deps :: Drawn(s, seeds, Listed(f.apps), d))
    && (forall d {:trigger Drawn(s, seeds, Listed(f.apps), d)} | Drawn(s, seeds, Listed(f.apps), d) :: Key(d) in f.keys)
  }

  lemma WalkFromSeed(s: Setup, seeds: set<string>, f: Found, p: seq<Stmt>)
    requires IsWalk(s, StartOf(s.m, seeds), p) && seeds <= s.m.Keys && forall a | a in seeds :: AppCovered(s, a, f)
    ensures Last(p).app in f.apps
    ensures |p| > 1 && !IsHidden(s.m, Last(p).app, Last(p).ep) ==> Key(Dep(p[|p| - 2].app, p[|p| - 2].ep, Last(p).app, Last(p).ep)) in f.keys
  {
    var a, e :| a in seeds && a in s.m && e in s.m[a].eps && e != Collector && p[0] in CallsAt(s.m, a, e);
    assert HasEndpoint(s.m, a, e) && Covered(s, a, e, f);
    assert WalkFrom(s, a, e, p);
  }

  /** The apps after the first phase. */
  lemma WalkedApps(s: Setup, seeds: set<string>, f: Found)
    requires seeds <= s.m.Keys && (forall a | a in seeds :: AppCovered(s, a, f) && a in f.apps) && FoundOnWalk(s, StartOf(s.m, seeds), seeds, f)
    ensures forall a :: a in f.apps <==> a in seeds || ReachedApp(s, seeds, a)
  {
    forall a ensures a in f.apps <==> a in seeds || ReachedApp(s, seeds, a) {
      if ReachedApp(s, seeds, a) {
        var c: Stmt :| Reached(s, StartOf(s.m, seeds), c) && c.Call? && c.app == a;
        var p: seq<Stmt> :| IsWalk(s, StartOf(s.m, seeds), p) && Last(p) == c;
        WalkFromSeed(s, seeds, f, p);
      }
    }
  }

  lemma WalkGoesOn(s: Setup, start: set<Stmt>, q: seq<Stmt>, next: Stmt)
    requires IsWalk(s, start, q) && Last(q).app in s.passthroughs && Taken(s, next) && next in CallsAt(s.m, Last(q).app, Last(q).ep)
    ensures var p := q + [next]; IsWalk(s, start, p) && p[|p| - 2] == Last(q) && Last(p) == next
  {
  }

  lemma CollectorsCovered(s: Setup, seeds: set<string>, f: Found, d: Dep)
    requires seeds <= s.m.Keys && (forall a | a in seeds :: AppCovered(s, a, f)) && AtCollector(s, seeds, d)
    ensures Key(d) in f.keys
  {
    var start, c, next := StartOf(s.m, seeds), Call(d.app, d.ep), Call(d.target, d.targetEp);
    var q :| IsWalk(s, start, q) && Last(q) == c;
    ReachedIsTaken(s, start, next);
    WalkGoesOn(s, start, q, next);
    WalkFromSeed(s, seeds, f, q + [next]);
  }

  lemma ReachedIsTaken(s: Setup, start: set<Stmt>, c: Stmt)
    requires Reached(s, start, c)
    ensures Taken(s, c)
  {
    var p :| IsWalk(s, start, p) && Last(p) == c;
  }

  /** What the walk found lies within what the diagram shows. */
  lemma WalkedIsDrawn(s: Setup, seeds: set<string>, apps: set<string>, d: Dep)
    requires OnWalk(s, StartOf(s.m, seeds), seeds, d) && forall a | a in seeds || ReachedApp(s, seeds, a) :: a in apps
    ensures Drawn(s, seeds, apps, d)
  {
    var start, c := StartOf(s.m, seeds), Call(d.target, d.targetEp);
    ReachedIsTaken(s, start, c);
    assert c.app == d.target && ReachedApp(s, seeds, d.target);
    if d.app !in seeds {
      var here := Call(d.app, d.ep);
      assert Reached(s, start, here) && here.app == d.app && ReachedApp(s, seeds, d.app);
    } else if d.ep == Collector {
      assert AtCollector(s, seeds, d);
    }
  }

  lemma PhasesMakeDiagram(s: Setup, seeds: set<string>, f1: Found, f2: Found, f3: Found)
    requires seeds <= s.m.Keys && (forall a | a in seeds :: AppCovered(s, a, f1) && a in f1.apps) && FoundOnWalk(s, StartOf(s.m, seeds), seeds, f1)
    requires Consistent(f1) && Grows(f1, f2) && AllCallersAdded(s, seeds, s.m.Keys, f1, f2)
    requires Grows(f2, f3) && f3.apps == f2.apps && Connected(s.m, Listed(f2.apps), Listed(f2.apps), f2, f3)
    ensures IsDiagram(s, seeds, f3)
  {
    var apps := Listed(f3.apps);
    WalkedApps(s, seeds, f1);
    forall a ensures a in f3.apps <==> IsShown(s, seeds, a) { CallersExist(s, seeds, a); }
    forall d | d in f3.deps ensures Drawn(s, seeds, apps, d) {
      if d in f1.deps { WalkedIsDrawn(s, seeds, apps, d); }
    }
    forall d {:trigger Drawn(s, seeds, apps, d)} | Drawn(s, seeds, apps, d) ensures Key(d) in f3.keys {
      if AtCollector(s, seeds, d) { CollectorsCovered(s, seeds, f1, d); }
    }
  }

  lemma CallersExist(s: Setup, seeds: set<string>, app: string)
    ensures CallsSeed(s, seeds, app) ==> app in s.m
  {
  }

  lemma LastIsCalled(s: Setup, start: set<Stmt>, p: seq<Stmt>)
    requires IsWalk(s, start, p) && |p| > 1
    ensures p[|p| - 2].Call? && Last(p) in CallsAt(s.m, p[|p| - 2].app, p[|p| - 2].ep)
  {
    var i := |p| - 2;
    assert Taken(s, p[i]) && p[i + 1] == Last(p);
  }

  lemma ShownExist(s: Setup, seeds: set<string>, f: Found)
    requires TargetsExist(s, seeds) && seeds <= s.m.Keys && forall a | a in f.apps :: IsShown(s, seeds, a)
    ensures forall a | a in f.apps :: a in s.m
  {
    forall a | a in f.apps ensures a in s.m {
      CallersExist(s, seeds, a);
    }
  }

  lemma ShownAfterCallers(s: Setup, seeds: set<string>, f1: Found, f2: Found)
    requires seeds <= s.m.Keys && (forall a | a in seeds :: AppCovered(s, a, f1) && a in f1.apps) && FoundOnWalk(s, StartOf(s.m, seeds), seeds, f1)
    requires TargetsExist(s, seeds) && AllCallersAdded(s, seeds, s.m.Keys, f1, f2)
    ensures Listed(f2.apps) <= s.m.Keys
  {
    WalkedApps(s, seeds, f1);
    forall a | a in f2.apps ensures IsShown(s, seeds, a) {}
    ShownExist(s, seeds, f2);
  }

  /** The apps named by the project's statements, except humans. */
  function SeedsIn(m: Module, stmts: seq<Stmt>): seq<string> {
    if stmts == [] then []
    else
      var init, last := stmts[..|stmts| - 1], stmts[|stmts| - 1];
      if last.Action? && last.text in m && !m[last.text].human then SeedsIn(m, init) + [last.text] else SeedsIn(m, init)
  }

  lemma {:induction false} SeedsExist(m: Module, stmts: seq<Stmt>)
    ensures forall a :: a in SeedsIn(m, stmts) <==> a in m && !m[a].human && Action(a) in stmts
    decreases |stmts|
  {
    if stmts != [] {
      var init, last := stmts[..|stmts| - 1], stmts[|stmts| - 1];
      assert stmts == init + [last];
      SeedsExist(m, init);
    }
  }

  method MakeBuilderFromStmt(s: Setup, stmts: seq<Stmt>, ghost rank: Rank, ghost top: nat) returns (b: IntsBuilder)
    requires WellFounded(s, rank) && RanksSeeds(s, Listed(SeedsIn(s.m, stmts)), rank, top) && TargetsExist(s, Listed(SeedsIn(s.m, stmts)))
    ensures b.s == s && IsDiagram(s, Listed(SeedsIn(s.m, stmts)), b.Now())
    ensures forall a :: a in SeedsIn(s.m, stmts) <==> a in s.m && !s.m[a].human && Action(a) in stmts
    ensures NoColons(s.m) && NoCollectorCalls(s.m) ==> ListsCalls(s.m, Listed(b.finalApps), b.depsOut)
  {
    var seedApps := [];
    for i := 0 to |stmts|
      invariant seedApps == SeedsIn(s.m, stmts[..i])
    {
      assert stmts[..i + 1][..i] == stmts[..i];
      if stmts[i].Action? && stmts[i].text in s.m && !s.m[stmts[i].text].human {
        seedApps := seedApps + [stmts[i].text];
      }
    }
    assert stmts[..|stmts|] == stmts;
    SeedsExist(s.m, stmts);
    b := BuildFrom(s, seedApps, rank, top);
    if NoColons(s.m) && NoCollectorCalls(s.m) { DrawsEachCallOnce(s, Listed(seedApps), b.Now()); }
  }

  method BuildFrom(s: Setup, seedApps: seq<string>, ghost rank: Rank, ghost top: nat) returns (b: IntsBuilder)
    requires (forall a | a in seedApps :: a in s.m) && WellFounded(s, rank)
    requires RanksSeeds(s, Listed(seedApps), rank, top) && TargetsExist(s, Listed(seedApps))
    ensures b.s == s && IsDiagram(s, Listed(seedApps), b.Now())
  {
    b := new IntsBuilder(s);
    b.finalApps := seedApps;
    var seeds := set a | a in seedApps;
    b.WalkSeeds(seedApps, rank, top);
    ghost var f1 := b.Now();
    b.FindCallers(seeds);
    ghost var f2 := b.Now();
    ShownAfterCallers(s, seeds, f1, f2);
    b.Connect(set a | a in b.finalApps);
    PhasesMakeDiagram(s, seeds, f1, f2, b.Now());
  }

  // ---- without calls to collectors ---------------------------------------------

  predicate NoCollectorCalls(m: Module) {
    forall a, e | a in m && e in m[a].eps :: forall c | c in CallsAt(m, a, e) :: c.ep != Collector
  }

  lemma NothingAtCollectors(s: Setup, seeds: set<string>, d: Dep)
    requires NoCollectorCalls(s.m)
    ensures !AtCollector(s, seeds, d)
  {
    if AtCollector(s, seeds, d) {
      var p: seq<Stmt> :| IsWalk(s, StartOf(s.m, seeds), p) && Last(p) == Call(d.app, d.ep);
      if |p| > 1 {
        LastIsCalled(s, StartOf(s.m, seeds), p);
      }
    }
  }

  ghost predicate KeysApart(m: Module, apps: set<string>) {
    forall d, e | Induced(m, apps, d) && Induced(m, apps, e) && Key(d) == Key(e) :: d == e
  }

  /** The diagram draws each call between its apps once, and nothing else, exactly when the
      texts of those calls tell them apart. */
  lemma DiagramIsInduced(s: Setup, seeds: set<string>, f: Found)
    requires IsDiagram(s, seeds, f) && NoCollectorCalls(s.m)
    ensures forall d | d in f.deps :: Induced(s.m, Listed(f.apps), d)
    ensures (forall d | Induced(s.m, Listed(f.apps), d) :: d in f.deps) <==> KeysApart(s.m, Listed(f.apps))
  {
    var apps := Listed(f.apps);
    forall d ensures Drawn(s, seeds, apps, d) <==> Induced(s.m, apps, d) { NothingAtCollectors(s, seeds, d); }
    if KeysApart(s.m, apps) { ApartMeansAll(s.m, apps, f); }
    if forall d | Induced(s.m, apps, d) :: d in f.deps { AllMeansApart(s.m, apps, f); }
  }

  lemma ApartMeansAll(m: Module, apps: set<string>, f: Found)
    requires Consistent(f) && KeysApart(m, apps) && (forall d | d in f.deps :: Induced(m, apps, d))
    requires forall d {:trigger Induced(m, apps, d)} | Induced(m, apps, d) :: Key(d) in f.keys
    ensures forall d | Induced(m, apps, d) :: d in f.deps
  {
    forall d | Induced(m, apps, d) ensures d in f.deps {
      var e :| e in f.deps && Key(e) == Key(d);
      assert Induced(m, apps, e);
    }
  }

  lemma AllMeansApart(m: Module, apps: set<string>, f: Found)
    requires Consistent(f) && forall d | Induced(m, apps, d) :: d in f.deps
    ensures KeysApart(m, apps)
  {
    forall d, e | Induced(m, apps, d) && Induced(m, apps, e) && Key(d) == Key(e) ensures d == e {
      var i :| 0 <= i < |f.deps| && f.deps[i] == d;
      var j :| 0 <= j < |f.deps| && f.deps[j] == e;
      assert DistinctKeys(f.deps);
    }
  }

  // ---- names without colons ----------------------------------------------------

  /** No application, endpoint or target of a call has a colon in its name. */
  ghost predicate NoColons(m: Module) {
    forall a, e | a in m && e in m[a].eps ::
      ColonFree(a) && ColonFree(e) && forall c | c in CallsAt(m, a, e) :: ColonFree(c.app)
  }

  /** The endpoint `ep` of one of the apps calls a visible endpoint of one of them. */
  ghost predicate CallsAmong(m: Module, apps: set<string>, d: Dep) {
    && d.app in apps && d.app in m && d.ep != ".. * <- *" && d.ep in m[d.app].eps
    && Occurs(Call(d.target, d.targetEp), m[d.app].eps[d.ep].stmts)
    && d.target in apps && !(d.target in m && m[d.target].human)
    && !(d.target in m && d.targetEp in m[d.target].eps && m[d.target].eps[d.targetEp].hidden)
  }

  /** The list is that of all these calls, each once. */
  ghost predicate ListsCalls(m: Module, apps: set<string>, deps: seq<Dep>) {
    Distinct(deps) && forall d :: d in deps <==> CallsAmong(m, apps, d)
  }

  lemma InducedIsCalled(m: Module, apps: set<string>, d: Dep)
    ensures Induced(m, apps, d) <==> CallsAmong(m, apps, d)
  {
    var c := Call(d.target, d.targetEp);
    if HasEndpoint(m, d.app, d.ep) { CallsAreThoseWritten(c, m[d.app].eps[d.ep].stmts); }
  }

  lemma WithoutColonsApart(m: Module, apps: set<string>)
    requires NoColons(m)
    ensures KeysApart(m, apps)
  {
    forall d, e | Induced(m, apps, d) && Induced(m, apps, e) && Key(d) == Key(e) ensures d == e {
      assert Call(d.target, d.targetEp) in CallsAt(m, d.app, d.ep) && Call(e.target, e.targetEp) in CallsAt(m, e.app, e.ep);
      KeysTellApart(d, e);
    }
  }

  lemma KeysAreDistinct(deps: seq<Dep>)
    requires DistinctKeys(deps)
    ensures Distinct(deps)
  {
  }

  /** If names have no colons and no call goes to a collector, the diagram has every call between
      its apps itself, once, and nothing else. */
  lemma DrawsEachCallOnce(s: Setup, seeds: set<string>, f: Found)
    requires IsDiagram(s, seeds, f) && NoCollectorCalls(s.m) && NoColons(s.m)
    ensures ListsCalls(s.m, Listed(f.apps), f.deps)
  {
    DiagramIsInduced(s, seeds, f);
    WithoutColonsApart(s.m, Listed(f.apps));
    KeysAreDistinct(f.deps);
    forall d ensures d in f.deps <==> CallsAmong(s.m, Listed(f.apps), d) { InducedIsCalled(s.m, Listed(f.apps), d); }
  }

  /** Which apps the diagram may show besides the seeds: none that is excluded, and a human one
      only as a caller. */
  lemma ShownAreAllowed(s: Setup, seeds: set<string>, app: string)
    requires IsShown(s, seeds, app) && app !in seeds
    ensures app !in s.excludes && (app in s.m && s.m[app].human ==> CallsSeed(s, seeds, app))
  {
    if ReachedApp(s, seeds, app) {
      var c: Stmt :| Reached(s, StartOf(s.m, seeds), c) && c.Call? && c.app == app;
      ReachedIsTaken(s, StartOf(s.m, seeds), c);
    }
  }

  // ---- two calls with one text -------------------------------------------------

  const Idle: Endpoint := Endpoint([], false)

  /** Two endpoints of "a" that call two other applications. */
  const ClashModule: Module := map[
    "a" := App(false, false, map["b:c" := Endpoint([Call("d", "e")], false), "b" := Endpoint([Call("c:d", "e")], false)]),
    "d" := App(false, false, map["e" := Idle]),
    "c:d" := App(false, false, map["e" := Idle])]

  const Clash: Setup := Setup(ClashModule, {}, {})
  const First: Dep := Dep("a", "b:c", "d", "e")
  const Second: Dep := Dep("a", "b", "c:d", "e")

  lemma CallsOne(app: string, ep: string, c: Stmt)
    requires c.Call? && HasEndpoint(ClashModule, app, ep) && ClashModule[app].eps[ep].stmts == [c]
    ensures CallsAt(ClashModule, app, ep) == [c]
  {
    assert [c][1..] == [];
    assert CallsIn([c]) == CallsOf(c) + CallsIn([]);
  }

  lemma ClashCalls()
    ensures CallsAt(ClashModule, "a", "b:c") == [Call("d", "e")] && CallsAt(ClashModule, "a", "b") == [Call("c:d", "e")]
    ensures CallsAt(ClashModule, "d", "e") == [] && CallsAt(ClashModule, "c:d", "e") == []
  {
    CallsOne("a", "b:c", Call("d", "e"));
    CallsOne("a", "b", Call("c:d", "e"));
  }

  /** Both calls belong to the diagram, under one text. */
  lemma BothInduced(apps: set<string>)
    requires {"a", "d", "c:d"} <= apps
    ensures Induced(ClashModule, apps, First) && Induced(ClashModule, apps, Second) && Key(First) == Key(Second) && First != Second
  {
    ClashCalls();
    assert Collector[0] == '.' && "b"[0] == 'b' && "b:c"[0] == 'b';
    assert Key(First) == "a:b:c:d:e" && Key(Second) == "a:b:c:d:e";
  }

  lemma ClashStarts(c: Stmt)
    requires Reached(Clash, StartOf(ClashModule, {"a"}), c)
    ensures c == Call("d", "e") || c == Call("c:d", "e")
  {
    ClashCalls();
    var p: seq<Stmt> :| IsWalk(Clash, StartOf(ClashModule, {"a"}), p) && Last(p) == c;
    assert |p| == 1;
  }

  lemma ClashStart()
    ensures var start := StartOf(ClashModule, {"a"}); Call("d", "e") in start && Call("c:d", "e") in start
  {
    ClashCalls();
    assert Collector[0] == '.' && "b"[0] == 'b' && "b:c"[0] == 'b';
    assert "b:c" in ClashModule["a"].eps && Call("d", "e") in CallsAt(ClashModule, "a", "b:c");
    assert "b" in ClashModule["a"].eps && Call("c:d", "e") in CallsAt(ClashModule, "a", "b");
  }

  lemma CalledIsShown(s: Setup, seeds: set<string>, c: Stmt)
    requires c in StartOf(s.m, seeds) && Taken(s, c)
    ensures IsShown(s, seeds, c.app)
  {
    ReachedFirst(s, StartOf(s.m, seeds), c);
    assert ReachedApp(s, seeds, c.app);
  }

  lemma ClashShown(f: Found)
    requires IsDiagram(Clash, {"a"}, f)
    ensures {"a", "d", "c:d"} <= Listed(f.apps)
  {
    ClashStart();
    CalledIsShown(Clash, {"a"}, Call("d", "e"));
    CalledIsShown(Clash, {"a"}, Call("c:d", "e"));
    assert IsShown(Clash, {"a"}, "a");
  }

  lemma NoCollectorsInClash()
    ensures NoCollectorCalls(ClashModule)
  {
    ClashCalls();
    assert Collector[0] == '.' && "e"[0] == 'e';
  }

  /** Names with colons can share a text, and then one of the calls is missing. */
  lemma KeysCanClash(f: Found)
    requires IsDiagram(Clash, {"a"}, f)
    ensures var apps := Listed(f.apps);
      !KeysApart(ClashModule, apps) && exists d :: Induced(ClashModule, apps, d) && d !in f.deps
  {
    ClashShown(f);
    BothInduced(Listed(f.apps));
    NoCollectorsInClash();
    DiagramIsInduced(Clash, {"a"}, f);
  }

  /** That is what is built from "a". */
  method BuildClash() returns (b: IntsBuilder)
    ensures b.s == Clash && exists d :: Induced(ClashModule, Listed(b.finalApps), d) && d !in b.depsOut
  {
    forall c | Reached(Clash, StartOf(ClashModule, {"a"}), c) && c.Call? ensures c.app in ClashModule { ClashStarts(c); }
    assert Listed(["a"]) == {"a"};
    b := BuildFrom(Clash, ["a"], map[], 0);
    KeysCanClash(b.Now());
  }
}
