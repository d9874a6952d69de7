/** The integration builder (pkg/integrationdiagram/ints_builder.go): three phases over the
    call graph, whose result is the graph induced on the apps it ends with. */
module IntegrationBuilder {
  import opened Ordering
  import opened CallTree
  import opened IntegrationCalls

  /** The calls of the endpoints of the seeds. */
  ghost function StartOf(m: Module, seeds: set<string>): set<Stmt> {
    set a, e, c | a in seeds && a in m && e in m[a].eps && e != Collector && c in CallsAt(m, a, e) :: c
  }

  /** The app calls a seed, and is not excluded. */
  ghost predicate CallsSeed(s: Setup, seeds: set<string>, app: string) {
    app !in s.excludes && exists e, c {:trigger c in CallsAt(s.m, app, e)} :: e != Collector && c in CallsAt(s.m, app, e) && c.app in seeds && !IsHuman(s.m, c.app)
  }

  /** What the diagram shows: the seeds, what is reached from them, and their callers. */
  ghost predicate IsShown(s: Setup, seeds: set<string>, app: string) {
    app in seeds || ReachedApp(s, seeds, app) || CallsSeed(s, seeds, app)
  }

  ghost predicate ReachedApp(s: Setup, seeds: set<string>, app: string) {
    exists c: Stmt :: Reached(s, StartOf(s.m, seeds), c) && c.Call? && c.app == app
  }

  /** A call between apps of `apps` that the diagram draws. */
  predicate Induced(m: Module, apps: set<string>, d: Dep) {
    && d.app in apps && d.ep != Collector && Call(d.target, d.targetEp) in CallsAt(m, d.app, d.ep)
    && d.target in apps && !IsHuman(m, d.target) && !IsHidden(m, d.target, d.targetEp)
  }

  /** The walk may go through the collector of a passthrough app, if something calls that. */
  ghost predicate AtCollector(s: Setup, seeds: set<string>, d: Dep) {
    d.ep == Collector && OnWalk(s, StartOf(s.m, seeds), seeds, d)
  }

  /** Every call the walk from the seeds comes to is of an app that exists: the builder
      dereferences what it looks up. */
  ghost predicate TargetsExist(s: Setup, seeds: set<string>) {
    forall c {:trigger Reached(s, StartOf(s.m, seeds), c)} | Reached(s, StartOf(s.m, seeds), c) && c.Call? :: c.app in s.m
  }

  ghost predicate WalkFrom(s: Setup, app: string, ep: string, p: seq<Stmt>) {
    p != [] && p[0] in CallsAt(s.m, app, ep) && IsWalk(s, {p[0]}, p)
  }

  /** All walks from the endpoint have been followed. */
  ghost predicate Covered(s: Setup, app: string, ep: string, f: Found) {
    forall p {:trigger WalkFrom(s, app, ep, p)} | WalkFrom(s, app, ep, p) :: EndFound(s, app, ep, p, f)
  }

  lemma CoveredGrows(s: Setup, app: string, ep: string, f: Found, g: Found)
    requires Covered(s, app, ep, f) && Grows(f, g)
    ensures Covered(s, app, ep, g)
  {
  }

  lemma AllCoveredGrow(s: Setup, app: string, eps: seq<string>, i: nat, f: Found, g: Found)
    requires i <= |eps| && Grows(f, g) && forall j | 0 <= j < i && eps[j] != Collector :: Covered(s, app, eps[j], f)
    ensures forall j | 0 <= j < i && eps[j] != Collector :: Covered(s, app, eps[j], g)
  {
    forall j | 0 <= j < i && eps[j] != Collector ensures Covered(s, app, eps[j], g) { CoveredGrows(s, app, eps[j], f, g); }
  }

  lemma GrowsTrans(f: Found, g: Found, h: Found)
    requires Grows(f, g) && Grows(g, h)
    ensures Grows(f, h)
  {
  }

  /** One endpoint of a seed. */
  lemma SeedEndpoint(s: Setup, rank: Rank, top: nat, seeds: set<string>, app: string, ep: string, f: Found)
    requires WellFounded(s, rank) && Below(s, rank, CallsAt(s.m, app, ep), top)
    requires app in seeds && ep != Collector && HasEndpoint(s.m, app, ep) && FoundOnWalk(s, StartOf(s.m, seeds), seeds, f)
    ensures var g := HandleAll(s, rank, top, FromSeeds, app, ep, CallsAt(s.m, app, ep), f);
      Grows(f, g) && FoundOnWalk(s, StartOf(s.m, seeds), seeds, g) && Covered(s, app, ep, g)
  {
    var calls, start := CallsAt(s.m, app, ep), StartOf(s.m, seeds);
    var g := HandleAll(s, rank, top, FromSeeds, app, ep, calls, f);
    HandleAllGrows(s, rank, top, FromSeeds, app, ep, calls, f);
    forall c | c in calls && Taken(s, c) ensures Reached(s, start, c) { ReachedFirst(s, start, c); }
    WalkIsSound(s, rank, top, start, seeds, app, ep, calls, f);
    forall p {:trigger WalkFrom(s, app, ep, p)} | WalkFrom(s, app, ep, p) ensures EndFound(s, app, ep, p, g) {
      WalkIsComplete(s, rank, top, app, ep, calls, f, {p[0]}, p);
    }
  }

  // ---- callers and calls among the found apps ----------------------------------

  /** One more endpoint was looked at for callers. */
  ghost predicate CallersFound(s: Setup, seeds: set<string>, app: string, ep: string, calls: seq<Stmt>, f: Found, g: Found) {
    && (forall a :: a in g.apps <==> a in f.apps || (a == app && app !in s.excludes && exists c :: c in calls && c.Call? && c.app in seeds && !IsHuman(s.m, c.app)))
    && forall d | d in g.deps :: d in f.deps ||
         (d.app == app && d.ep == ep && app in g.apps && Call(d.target, d.targetEp) in calls && d.target in seeds && !IsHuman(s.m, d.target) && !IsHidden(s.m, d.target, d.targetEp))
  }

  lemma {:induction false} CallersAre(s: Setup, rank: Rank, level: nat, seeds: set<string>, app: string, ep: string, calls: seq<Stmt>, f: Found)
    requires Ready(s, rank, level, Callers(seeds), calls)
    ensures CallersFound(s, seeds, app, ep, calls, f, HandleAll(s, rank, level, Callers(seeds), app, ep, calls, f))
    decreases |calls|
  {
    if calls != [] {
      var c := calls[0];
      assert c in calls && c == Call(c.app, c.ep);
      AddCallGrows(app, ep, c, f);
      var f1 := Handle(s, rank, level, Callers(seeds), app, ep, c, f);
      CallersAre(s, rank, level, seeds, app, ep, calls[1..], f1);
      HandleAllGrows(s, rank, level, Callers(seeds), app, ep, calls[1..], f1);
    }
  }

  ghost predicate AmongFound(m: Module, apps: set<string>, app: string, ep: string, calls: seq<Stmt>, f: Found, g: Found) {
    && (forall d | d in g.deps :: d in f.deps ||
         (d.app == app && d.ep == ep && Call(d.target, d.targetEp) in calls && d.target in apps && !IsHuman(m, d.target) && !IsHidden(m, d.target, d.targetEp)))
    && (forall c | c in calls && c.Call? && c.app in apps && !IsHuman(m, c.app) && !IsHidden(m, c.app, c.ep) :: Key(Dep(app, ep, c.app, c.ep)) in g.keys)
  }

  lemma {:induction false} AmongAre(s: Setup, rank: Rank, level: nat, apps: set<string>, app: string, ep: string, calls: seq<Stmt>, f: Found)
    requires Ready(s, rank, level, Among(apps), calls)
    ensures AmongFound(s.m, apps, app, ep, calls, f, HandleAll(s, rank, level, Among(apps), app, ep, calls, f))
    decreases |calls|
  {
    if calls != [] {
      var c := calls[0];
      assert c in calls && c == Call(c.app, c.ep);
      AddCallGrows(app, ep, c, f);
      var f1 := Handle(s, rank, level, Among(apps), app, ep, c, f);
      AmongAre(s, rank, level, apps, app, ep, calls[1..], f1);
      HandleAllGrows(s, rank, level, Among(apps), app, ep, calls[1..], f1);
    }
  }

  // ---- the builder -------------------------------------------------------------

  class IntsBuilder {
    const s: Setup
    var finalApps: seq<string>
    var deps: set<string>
    var depsOut: seq<Dep>

    constructor (s: Setup)
      ensures this.s == s && Now() == Found([], {}, [])
    {
      this.s, finalApps, deps, depsOut := s, [], {}, [];
    }

    function Now(): Found
      reads this
    {
      Found(finalApps, deps, depsOut)
    }

    method AddCall(app: string, ep: string, c: Stmt)
      requires c.Call?
      modifies this
      ensures Now() == IntegrationCalls.AddCall(app, ep, c, old(Now()))
      ensures finalApps == old(finalApps)
      ensures var d := Dep(app, ep, c.app, c.ep);
        Consistent(old(Now())) && HasPlainNames(d) && (forall e | e in old(depsOut) :: HasPlainNames(e)) ==>
        depsOut == if d in old(depsOut) then old(depsOut) else old(depsOut) + [d]
    {
      var dep := Dep(app, ep, c.app, c.ep);
      if Consistent(Now()) && HasPlainNames(dep) && forall e | e in depsOut :: HasPlainNames(e) { AddsUnlessListed(app, ep, c, Now()); }
      var k := Key(dep);
      if k in deps { return; }
      deps := deps + {k};
      depsOut := depsOut + [dep];
    }

    method AddUnlessHidden(app: string, ep: string, c: Stmt)
      requires c.Call?
      modifies this
      ensures Now() == AddVisible(s.m, app, ep, c, old(Now()))
    {
      if !IsHidden(s.m, c.app, c.ep) { AddCall(app, ep, c); }
    }

    method HandleCall(h: Handler, app: string, ep: string, c: Stmt, ghost rank: Rank, ghost level: nat)
      requires Ready(s, rank, level, h, [c])
      modifies this
      ensures Now() == Handle(s, rank, level, h, app, ep, c, old(Now()))
      decreases level, 0, 1
    {
      assert c in [c];
      match h
      case FromSeeds =>
        if c.app in s.excludes || IsHuman(s.m, c.app) { return; }
        AddUnlessHidden(app, ep, c);
        finalApps := finalApps + [c.app];
        WalkPassthrough(c, rank, level);
      case Callers(seeds) =>
        if app in s.excludes || c.app !in seeds || IsHuman(s.m, c.app) { return; }
        AddUnlessHidden(app, ep, c);
        finalApps := finalApps + [app];
      case Among(apps) =>
        if c.app !in apps || IsHuman(s.m, c.app) { return; }
        AddUnlessHidden(app, ep, c);
    }

    method WalkPassthrough(c: Stmt, ghost rank: Rank, ghost level: nat)
      requires Taken(s, c) && WellFounded(s, rank) && (Walks(s, c) ==> c in rank && rank[c] < level)
      modifies this
      ensures Now() == if c.app in s.passthroughs then HandleAll(s, rank, rank[c], FromSeeds, c.app, c.ep, CallsAt(s.m, c.app, c.ep), old(Now())) else old(Now())
      decreases level, 0, 0
    {
      if c.app in s.passthroughs && HasEndpoint(s.m, c.app, c.ep) {
        ProcessCalls(FromSeeds, c.app, c.ep, s.m[c.app].eps[c.ep].stmts, rank, rank[c]);
      }
    }

    method ProcessCalls(h: Handler, app: string, ep: string, stmts: seq<Stmt>, ghost rank: Rank, ghost level: nat)
      requires Ready(s, rank, level, h, CallsIn(stmts))
      modifies this
      ensures Now() == HandleAll(s, rank, level, h, app, ep, CallsIn(stmts), old(Now()))
      decreases level, 1, stmts, 0
    {
      ghost var all := HandleAll(s, rank, level, h, app, ep, CallsIn(stmts), Now());
      for i := 0 to |stmts|
        invariant Ready(s, rank, level, h, CallsIn(stmts[i..]))
        invariant all == HandleAll(s, rank, level, h, app, ep, CallsIn(stmts[i..]), Now())
      {
        assert stmts[i..][0] == stmts[i] && stmts[i..][1..] == stmts[i + 1..];
        HandleConcat(s, rank, level, h, app, ep, CallsOf(stmts[i]), CallsIn(stmts[i + 1..]), Now());
        ProcessStmt(h, app, ep, stmts[i], rank, level);
      }
    }

    method ProcessStmt(h: Handler, app: string, ep: string, stmt: Stmt, ghost rank: Rank, ghost level: nat)
      requires Ready(s, rank, level, h, CallsOf(stmt))
      modifies this
      ensures Now() == HandleAll(s, rank, level, h, app, ep, CallsOf(stmt), old(Now()))
      decreases level, 1, stmt, 0
    {
      match stmt
      case Call(_, _) => HandleCall(h, app, ep, stmt, rank, level);
      case Action(_) =>
      case Ret(_) =>
      case Block(_, stmts) => ProcessCalls(h, app, ep, stmts, rank, level);
      case Alt(choices) => ProcessChoices(h, app, ep, choices, rank, level);
    }

    method ProcessChoices(h: Handler, app: string, ep: string, choices: seq<Choice>, ghost rank: Rank, ghost level: nat)
      requires Ready(s, rank, level, h, CallsInChoices(choices))
      modifies this
      ensures Now() == HandleAll(s, rank, level, h, app, ep, CallsInChoices(choices), old(Now()))
      decreases level, 1, choices, 0
    {
      ghost var all := HandleAll(s, rank, level, h, app, ep, CallsInChoices(choices), Now());
      for i := 0 to |choices|
        invariant Ready(s, rank, level, h, CallsInChoices(choices[i..]))
        invariant all == HandleAll(s, rank, level, h, app, ep, CallsInChoices(choices[i..]), Now())
      {
        assert choices[i..][0] == choices[i] && choices[i..][1..] == choices[i + 1..];
        HandleConcat(s, rank, level, h, app, ep, CallsIn(choices[i].stmts), CallsInChoices(choices[i + 1..]), Now());
        ProcessCalls(h, app, ep, choices[i].stmts, rank, level);
      }
    }

    method WalkEndpoint(app: string, ep: string, ghost seeds: set<string>, ghost rank: Rank, ghost top: nat)
      requires app in seeds && ep != Collector && HasEndpoint(s.m, app, ep)
      requires WellFounded(s, rank) && Below(s, rank, CallsAt(s.m, app, ep), top) && FoundOnWalk(s, StartOf(s.m, seeds), seeds, Now())
      modifies this
      ensures Grows(old(Now()), Now()) && FoundOnWalk(s, StartOf(s.m, seeds), seeds, Now()) && Covered(s, app, ep, Now())
    {
      SeedEndpoint(s, rank, top, seeds, app, ep, Now());
      ProcessCalls(FromSeeds, app, ep, s.m[app].eps[ep].stmts, rank, top);
    }

    /** One seed of the first phase. */
    method WalkSeed(app: string, ghost seeds: set<string>, ghost rank: Rank, ghost top: nat)
      requires app in s.m && app in seeds && WellFounded(s, rank) && RanksApp(s, app, rank, top)
      requires Consistent(Now()) && FoundOnWalk(s, StartOf(s.m, seeds), seeds, Now())
      modifies this
      ensures Grows(old(Now()), Now()) && FoundOnWalk(s, StartOf(s.m, seeds), seeds, Now()) && AppCovered(s, app, Now())
    {
      var epnames := SortedStrings(s.m[app].eps.Keys);
      for i := 0 to |epnames|
        invariant Grows(old(Now()), Now()) && FoundOnWalk(s, StartOf(s.m, seeds), seeds, Now())
        invariant forall j | 0 <= j < i && epnames[j] != Collector :: Covered(s, app, epnames[j], Now())
      {
        if epnames[i] != Collector {
          ghost var before := Now();
          WalkEndpoint(app, epnames[i], seeds, rank, top);
          GrowsTrans(old(Now()), before, Now());
          AllCoveredGrow(s, app, epnames, i, before, Now());
        }
      }
    }

    /** Direct dependencies of the seeds, through passthrough apps as far as they go. */
    method WalkSeeds(seedApps: seq<string>, ghost rank: Rank, ghost top: nat)
      requires (forall a | a in seedApps :: a in s.m) && WellFounded(s, rank) && RanksSeeds(s, Listed(seedApps), rank, top)
      requires Now() == Found(seedApps, {}, [])
      modifies this
      ensures var seeds := Listed(seedApps);
        Grows(Found(seedApps, {}, []), Now()) && FoundOnWalk(s, StartOf(s.m, seeds), seeds, Now()) && forall a | a in seedApps :: AppCovered(s, a, Now())
    {
      ghost var seeds := Listed(seedApps);
      for i := 0 to |seedApps|
        invariant Grows(Found(seedApps, {}, []), Now()) && FoundOnWalk(s, StartOf(s.m, seeds), seeds, Now())
        invariant forall j | 0 <= j < i :: AppCovered(s, seedApps[j], Now())
      {
        ghost var before := Now();
        WalkSeed(seedApps[i], seeds, rank, top);
        GrowsTrans(Found(seedApps, {}, []), before, Now());
        forall j | 0 <= j < i ensures AppCovered(s, seedApps[j], Now()) { AppCoveredGrows(s, seedApps[j], before, Now()); }
      }
    }

    /** One app of the second phase. */
    method FindCaller(app: string, seeds: set<string>)
      requires app in s.m
      modifies this
      ensures Grows(old(Now()), Now()) && CallerAdded(s, seeds, app, old(Now()), Now())
    {
      var epnames := SortedStrings(s.m[app].eps.Keys);
      for i := 0 to |epnames|
        invariant Grows(old(Now()), Now()) && CallersAmong(s, seeds, app, epnames[..i], old(Now()), Now())
      {
        ghost var before := Now();
        PrefixHas(epnames, i);
        if epnames[i] != Collector {
          CallersAre(s, map[], 0, seeds, app, epnames[i], CallsAt(s.m, app, epnames[i]), before);
          HandleAllGrows(s, map[], 0, Callers(seeds), app, epnames[i], CallsAt(s.m, app, epnames[i]), before);
          ProcessCalls(Callers(seeds), app, epnames[i], s.m[app].eps[epnames[i]].stmts, map[], 0);
          GrowsTrans(old(Now()), before, Now());
          OneMoreCaller(s, seeds, app, epnames[..i], epnames[i], old(Now()), before, Now());
        }
      }
      AllCallers(s, seeds, app, epnames, old(Now()), Now());
    }

    /** Apps that call a seed. */
    method FindCallers(seeds: set<string>)
      modifies this
      ensures Grows(old(Now()), Now()) && AllCallersAdded(s, seeds, s.m.Keys, old(Now()), Now())
    {
      var appsNames := SortedStrings(s.m.Keys);
      for i := 0 to |appsNames|
        invariant Grows(old(Now()), Now()) && AllCallersAdded(s, seeds, Listed(appsNames[..i]), old(Now()), Now())
      {
        ghost var before := Now();
        PrefixHas(appsNames, i);
        assert appsNames[i] in s.m;
        FindCaller(appsNames[i], seeds);
        GrowsTrans(old(Now()), before, Now());
        assert Listed(appsNames[..i + 1]) == Listed(appsNames[..i]) + {appsNames[i]};
        OneMoreCallerApp(s, seeds, Listed(appsNames[..i]), appsNames[i], old(Now()), before, Now());
      }
      assert appsNames[..|appsNames|] == appsNames;
      assert Listed(appsNames) == s.m.Keys;
    }

    /** One app of the third phase. */
    method ConnectApp(app: string, apps: set<string>)
      requires app in s.m && app in apps
      modifies this
      ensures Grows(old(Now()), Now()) && finalApps == old(finalApps) && Connected(s.m, apps, {app}, old(Now()), Now())
    {
      var epnames := SortedStrings(s.m[app].eps.Keys);
      for i := 0 to |epnames|
        invariant Grows(old(Now()), Now()) && finalApps == old(finalApps) && ConnectedBy(s.m, apps, app, epnames[..i], old(Now()), Now())
      {
        ghost var before := Now();
        PrefixHas(epnames, i);
        if epnames[i] != Collector {
          AmongAre(s, map[], 0, apps, app, epnames[i], CallsAt(s.m, app, epnames[i]), before);
          HandleAllGrows(s, map[], 0, Among(apps), app, epnames[i], CallsAt(s.m, app, epnames[i]), before);
          ProcessCalls(Among(apps), app, epnames[i], s.m[app].eps[epnames[i]].stmts, map[], 0);
          GrowsTrans(old(Now()), before, Now());
          OneMoreConnected(s.m, apps, app, epnames[..i], epnames[i], old(Now()), before, Now());
        }
      }
      AllConnected(s.m, apps, app, epnames, old(Now()), Now());
    }

    /** The calls among the apps found. */
    method Connect(apps: set<string>)
      requires apps == Listed(finalApps) && apps <= s.m.Keys
      modifies this
      ensures Grows(old(Now()), Now()) && finalApps == old(finalApps) && Connected(s.m, apps, apps, old(Now()), Now())
    {
      var names := finalApps;
      for i := 0 to |names|
        invariant Grows(old(Now()), Now()) && finalApps == names && Connected(s.m, apps, Listed(names[..i]), old(Now()), Now())
      {
        ghost var before := Now();
        PrefixHas(names, i);
        assert names[i] in apps;
        ConnectApp(names[i], apps);
        GrowsTrans(old(Now()), before, Now());
        assert Listed(names[..i + 1]) == Listed(names[..i]) + {names[i]};
      }
      assert names[..|names|] == names;
    }
  }

  ghost function Listed(names: seq<string>): set<string> {
    set a | a in names
  }

  lemma PrefixHas<T>(xs: seq<T>, i: nat)
    requires i < |xs|
    ensures xs[..i + 1] == xs[..i] + [xs[i]]
  {
  }

  // ---- what the second phase adds ----------------------------------------------

  ghost predicate CallsSeedAt(s: Setup, seeds: set<string>, app: string, ep: string) {
    ep != Collector && exists c :: c in CallsAt(s.m, app, ep) && c.app in seeds && !IsHuman(s.m, c.app)
  }

  /** A dependency of a caller on a seed. */
  ghost predicate CallerDep(s: Setup, seeds: set<string>, d: Dep) {
    d.ep != Collector && Call(d.target, d.targetEp) in CallsAt(s.m, d.app, d.ep) && d.target in seeds && !IsHuman(s.m, d.target) && !IsHidden(s.m, d.target, d.targetEp)
  }

  ghost predicate NewDeps(s: Setup, seeds: set<string>, f: Found, g: Found) {
    forall d | d in g.deps :: d in f.deps || (d.app in g.apps && CallerDep(s, seeds, d))
  }

  ghost predicate CallersAmong(s: Setup, seeds: set<string>, app: string, eps: seq<string>, f: Found, g: Found) {
    && (forall a :: a in g.apps <==> a in f.apps || (a == app && app !in s.excludes && exists e :: e in eps && CallsSeedAt(s, seeds, app, e)))
    && NewDeps(s, seeds, f, g)
  }

  lemma OneMoreCaller(s: Setup, seeds: set<string>, app: string, eps: seq<string>, ep: string, f: Found, g: Found, h: Found)
    requires CallersAmong(s, seeds, app, eps, f, g) && ep != Collector && CallersFound(s, seeds, app, ep, CallsAt(s.m, app, ep), g, h)
    ensures CallersAmong(s, seeds, app, eps + [ep], f, h)
  {
    assert CallsSeedAt(s, seeds, app, ep) <==> exists c :: c in CallsAt(s.m, app, ep) && c.Call? && c.app in seeds && !IsHuman(s.m, c.app);
    forall a ensures a in h.apps <==> a in f.apps || (a == app && app !in s.excludes && exists e :: e in eps + [ep] && CallsSeedAt(s, seeds, app, e)) {
      if e :| e in eps + [ep] && CallsSeedAt(s, seeds, app, e) { assert e in eps || e == ep; }
      if e :| e in eps && CallsSeedAt(s, seeds, app, e) { assert e in eps + [ep]; }
      assert ep in eps + [ep];
    }
  }

  ghost predicate CallerAdded(s: Setup, seeds: set<string>, app: string, f: Found, g: Found) {
    && (forall a :: a in g.apps <==> a in f.apps || (a == app && CallsSeed(s, seeds, app)))
    && NewDeps(s, seeds, f, g)
  }

  lemma AllCallers(s: Setup, seeds: set<string>, app: string, eps: seq<string>, f: Found, g: Found)
    requires app in s.m && (forall e :: e in eps <==> e in s.m[app].eps) && CallersAmong(s, seeds, app, eps[..|eps|], f, g)
    ensures CallerAdded(s, seeds, app, f, g)
  {
    assert eps[..|eps|] == eps;
    if CallsSeed(s, seeds, app) {
      var e, c :| e != Collector && c in CallsAt(s.m, app, e) && c.app in seeds && !IsHuman(s.m, c.app);
      assert CallsSeedAt(s, seeds, app, e) && e in eps;
    }
  }

  ghost predicate AllCallersAdded(s: Setup, seeds: set<string>, apps: set<string>, f: Found, g: Found) {
    && (forall a :: a in g.apps <==> a in f.apps || (a in apps && CallsSeed(s, seeds, a)))
    && NewDeps(s, seeds, f, g)
  }

  lemma OneMoreCallerApp(s: Setup, seeds: set<string>, apps: set<string>, app: string, f: Found, g: Found, h: Found)
    requires AllCallersAdded(s, seeds, apps, f, g) && CallerAdded(s, seeds, app, g, h)
    ensures AllCallersAdded(s, seeds, apps + {app}, f, h)
  {
  }

  // ---- what the third phase adds -----------------------------------------------

  /** Everything added is induced, and everything induced from `done` is there. */
  ghost predicate Connected(m: Module, apps: set<string>, done: set<string>, f: Found, g: Found) {
    && (forall d | d in g.deps :: d in f.deps || Induced(m, apps, d))
    && (forall d | Induced(m, apps, d) && d.app in done :: Key(d) in g.keys)
  }

  ghost predicate ConnectedBy(m: Module, apps: set<string>, app: string, eps: seq<string>, f: Found, g: Found) {
    && (forall d | d in g.deps :: d in f.deps || Induced(m, apps, d))
    && (forall d | Induced(m, apps, d) && d.app == app && d.ep in eps :: Key(d) in g.keys)
  }

  lemma OneMoreConnected(m: Module, apps: set<string>, app: string, eps: seq<string>, ep: string, f: Found, g: Found, h: Found)
    requires ConnectedBy(m, apps, app, eps, f, g) && app in apps && ep != Collector && AmongFound(m, apps, app, ep, CallsAt(m, app, ep), g, h) && Grows(g, h)
    ensures ConnectedBy(m, apps, app, eps + [ep], f, h)
  {
    forall d | Induced(m, apps, d) && d.app == app && d.ep in eps + [ep] ensures Key(d) in h.keys {
      if d.ep == ep {
        var c := Call(d.target, d.targetEp);
        assert c in CallsAt(m, app, ep) && Dep(app, ep, c.app, c.ep) == d;
      }
    }
  }

  lemma AllConnected(m: Module, apps: set<string>, app: string, eps: seq<string>, f: Found, g: Found)
    requires app in m && (forall e :: e in eps <==> e in m[app].eps) && ConnectedBy(m, apps, app, eps[..|eps|], f, g)
    ensures Connected(m, apps, {app}, f, g)
  {
    assert eps[..|eps|] == eps;
    forall d | Induced(m, apps, d) && d.app in {app} ensures Key(d) in g.keys {
      assert d.ep in m[app].eps;
    }
  }

  /** The ranks cover the calls of the seeds. */
  predicate RanksSeeds(s: Setup, seeds: set<string>, rank: Rank, top: nat) {
    forall a | a in seeds && a in s.m :: RanksApp(s, a, rank, top)
  }

  predicate RanksApp(s: Setup, app: string, rank: Rank, top: nat)
    requires app in s.m
  {
    forall e | e in s.m[app].eps && e != Collector :: Below(s, rank, CallsAt(s.m, app, e), top)
  }

  ghost predicate AppCovered(s: Setup, app: string, f: Found) {
    forall e {:trigger Covered(s, app, e, f)} | HasEndpoint(s.m, app, e) && e != Collector :: Covered(s, app, e, f)
  }

  lemma AppCoveredGrows(s: Setup, app: string, f: Found, g: Found)
    requires AppCovered(s, app, f) && Grows(f, g)
    ensures AppCovered(s, app, g)
  {
    forall e {:trigger Covered(s, app, e, g)} | HasEndpoint(s.m, app, e) && e != Collector ensures Covered(s, app, e, g) {
      assert Covered(s, app, e, f);
    }
  }
}
