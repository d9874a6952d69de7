/** How the integration builder handles a call (pkg/integrationdiagram/ints_builder.go), and
    what the calls it walks through amount to. */
module IntegrationCalls {
  import opened CallTree

  const Collector := ".. * <- *"

  datatype Dep = Dep(app: string, ep: string, target: string, targetEp: string)

  /** The text dependencies are told apart by. */
  function Key(d: Dep): string {
    d.app + ":" + d.ep + ":" + d.target + ":" + d.targetEp
  }

  predicate ColonFree(name: string) {
    forall i | 0 <= i < |name| :: name[i] != ':'
  }

  /** The first colon stands behind the name. */
  lemma ColonAt(name: string, x: string)
    requires ColonFree(name)
    ensures var s := name + ":" + x; s[|name|] == ':' && forall i | 0 <= i < |name| :: s[i] != ':'
  {
  }

  /** Two texts that are cut at their first colon are cut at the same place. */
  lemma FirstColon(a: string, b: string, x: string, y: string)
    requires ColonFree(a) && ColonFree(b) && a + ":" + x == b + ":" + y
    ensures a == b && x == y
  {
    var s := a + ":" + x;
    var t := b + ":" + y;
    ColonAt(a, x);
    ColonAt(b, y);
    assert a == s[..|a|] == t[..|b|] == b;
    assert x == s[|a| + 1..] == t[|b| + 1..] == y;
  }

  /** Calls have different texts if the names in front of the colons have none themselves. */
  lemma KeysTellApart(d: Dep, e: Dep)
    requires ColonFree(d.app) && ColonFree(d.ep) && ColonFree(d.target)
    requires ColonFree(e.app) && ColonFree(e.ep) && ColonFree(e.target)
    ensures Key(d) == Key(e) <==> d == e
  {
    if Key(d) == Key(e) {
      var d2, e2 := d.target + ":" + d.targetEp, e.target + ":" + e.targetEp;
      var d1, e1 := d.ep + ":" + d2, e.ep + ":" + e2;
      assert Key(d) == d.app + ":" + d1 && Key(e) == e.app + ":" + e1;
      FirstColon(d.app, e.app, d1, e1);
      FirstColon(d.ep, e.ep, d2, e2);
      FirstColon(d.target, e.target, d.targetEp, e.targetEp);
    }
  }

  datatype Setup = Setup(m: Module, excludes: set<string>, passthroughs: set<string>)

  /** What the builder accumulates. */
  datatype Found = Found(apps: seq<string>, keys: set<string>, deps: seq<Dep>)

  predicate IsHuman(m: Module, app: string) {
    app in m && m[app].human
  }

  predicate IsHidden(m: Module, app: string, ep: string) {
    HasEndpoint(m, app, ep) && m[app].eps[ep].hidden
  }

  /** The calls of an endpoint; an endpoint that does not exist has none. */
  function CallsAt(m: Module, app: string, ep: string): seq<Stmt>
    ensures forall c | c in CallsAt(m, app, ep) :: c.Call?
  {
    if HasEndpoint(m, app, ep) then
      OnlyCalls(m[app].eps[ep].stmts);
      CallsIn(m[app].eps[ep].stmts)
    else []
  }

  function AddCall(app: string, ep: string, c: Stmt, f: Found): Found
    requires c.Call?
  {
    var d := Dep(app, ep, c.app, c.ep);
    if Key(d) in f.keys then f else f.(keys := f.keys + {Key(d)}, deps := f.deps + [d])
  }

  function AddVisible(m: Module, app: string, ep: string, c: Stmt, f: Found): Found
    requires c.Call?
  {
    if IsHidden(m, c.app, c.ep) then f else AddCall(app, ep, c, f)
  }

  /** The callbacks: what is called from the seeds, who calls the seeds, what the apps found
      so far call among themselves. */
  datatype Handler = FromSeeds | Callers(seeds: set<string>) | Among(apps: set<string>)

  // ---- passthrough apps --------------------------------------------------------

  predicate Taken(s: Setup, c: Stmt) {
    c.Call? && c.app !in s.excludes && !IsHuman(s.m, c.app)
  }

  predicate Walks(s: Setup, c: Stmt) {
    Taken(s, c) && c.app in s.passthroughs
  }

  /** Ranks of the calls into passthrough apps, falling along the walk. */
  type Rank = map<Stmt, nat>

  predicate Below(s: Setup, rank: Rank, calls: seq<Stmt>, level: nat) {
    forall c | c in calls && Walks(s, c) :: c in rank && rank[c] < level
  }

  /** No endless walk through passthrough apps. */
  predicate WellFounded(s: Setup, rank: Rank) {
    forall c | c in rank && Walks(s, c) :: Below(s, rank, CallsAt(s.m, c.app, c.ep), rank[c])
  }

  predicate Ready(s: Setup, rank: Rank, level: nat, h: Handler, calls: seq<Stmt>) {
    (forall c | c in calls :: c.Call?) && (h.FromSeeds? ==> WellFounded(s, rank) && Below(s, rank, calls, level))
  }

  function HandleAll(s: Setup, rank: Rank, level: nat, h: Handler, app: string, ep: string, calls: seq<Stmt>, f: Found): Found
    requires Ready(s, rank, level, h, calls)
    decreases level, |calls|
  {
    if calls == [] then f
    else HandleAll(s, rank, level, h, app, ep, calls[1..], Handle(s, rank, level, h, app, ep, calls[0], f))
  }

  function Handle(s: Setup, rank: Rank, level: nat, h: Handler, app: string, ep: string, c: Stmt, f: Found): Found
    requires Ready(s, rank, level, h, [c])
    decreases level, 0
  {
    match h
    case FromSeeds =>
      if !Taken(s, c) then f
      else
        var f1 := AddVisible(s.m, app, ep, c, f);
        var f2 := f1.(apps := f1.apps + [c.app]);
        if c.app !in s.passthroughs then f2
        else
          assert c in [c];
          HandleAll(s, rank, rank[c], h, c.app, c.ep, CallsAt(s.m, c.app, c.ep), f2)
    case Callers(seeds) =>
      if app in s.excludes || c.app !in seeds || IsHuman(s.m, c.app) then f
      else
        var f1 := AddVisible(s.m, app, ep, c, f);
        f1.(apps := f1.apps + [app])
    case Among(apps) =>
      if c.app !in apps || IsHuman(s.m, c.app) then f else AddVisible(s.m, app, ep, c, f)
  }

  lemma {:induction false} HandleConcat(s: Setup, rank: Rank, level: nat, h: Handler, app: string, ep: string, a: seq<Stmt>, b: seq<Stmt>, f: Found)
    requires Ready(s, rank, level, h, a + b)
    ensures Ready(s, rank, level, h, a) && Ready(s, rank, level, h, b)
    ensures HandleAll(s, rank, level, h, app, ep, a + b, f) == HandleAll(s, rank, level, h, app, ep, b, HandleAll(s, rank, level, h, app, ep, a, f))
    decreases |a|
  {
    assert forall c | c in a :: c in a + b;
    assert forall c | c in b :: c in a + b;
    if a == [] {
      assert a + b == b;
    } else {
      assert (a + b)[0] == a[0] && (a + b)[1..] == a[1..] + b;
      assert forall c | c in a[1..] + b :: c in a + b;
      HandleConcat(s, rank, level, h, app, ep, a[1..], b, Handle(s, rank, level, h, app, ep, a[0], f));
    }
  }

  // ---- walks -------------------------------------------------------------------

  /** Calls, each made by the passthrough endpoint the one before it leads to. */
  ghost predicate IsWalk(s: Setup, start: set<Stmt>, p: seq<Stmt>) {
    && p != [] && p[0] in start && (forall i | 0 <= i < |p| :: Taken(s, p[i]))
    && forall i | 0 <= i < |p| - 1 :: p[i].app in s.passthroughs && p[i + 1] in CallsAt(s.m, p[i].app, p[i].ep)
  }

  function Last<T>(p: seq<T>): T
    requires p != []
  {
    p[|p| - 1]
  }

  /** The call is at the end of a walk. */
  ghost predicate Reached(s: Setup, start: set<Stmt>, c: Stmt) {
    exists p :: IsWalk(s, start, p) && Last(p) == c
  }

  lemma ReachedFirst(s: Setup, start: set<Stmt>, c: Stmt)
    requires c in start && Taken(s, c)
    ensures Reached(s, start, c)
  {
    assert IsWalk(s, start, [c]) && Last([c]) == c;
  }

  lemma ReachedNext(s: Setup, start: set<Stmt>, c: Stmt, next: Stmt)
    requires Reached(s, start, c) && c.app in s.passthroughs && next in CallsAt(s.m, c.app, c.ep) && Taken(s, next)
    ensures Reached(s, start, next)
  {
    var p :| IsWalk(s, start, p) && Last(p) == c;
    assert IsWalk(s, start, p + [next]) && Last(p + [next]) == next;
  }

  // ---- what handling keeps -----------------------------------------------------

  ghost predicate DistinctKeys(deps: seq<Dep>) {
    forall i, j | 0 <= i < j < |deps| :: Key(deps[i]) != Key(deps[j])
  }

  /** The keys are those of the dependencies, each of which is listed once. */
  ghost predicate Consistent(f: Found) {
    && (forall k :: k in f.keys <==> exists d :: d in f.deps && Key(d) == k)
    && DistinctKeys(f.deps)
  }

  ghost predicate Grows(f: Found, g: Found) {
    (forall a | a in f.apps :: a in g.apps) && f.keys <= g.keys && (Consistent(f) ==> Consistent(g))
  }

  lemma AddCallGrows(app: string, ep: string, c: Stmt, f: Found)
    requires c.Call?
    ensures Grows(f, AddCall(app, ep, c, f)) && Key(Dep(app, ep, c.app, c.ep)) in AddCall(app, ep, c, f).keys
    ensures AddCall(app, ep, c, f).apps == f.apps
    ensures forall d | d in AddCall(app, ep, c, f).deps :: d in f.deps || d == Dep(app, ep, c.app, c.ep)
  {
    var d := Dep(app, ep, c.app, c.ep);
    var g := AddCall(app, ep, c, f);
    if Consistent(f) && Key(d) !in f.keys {
      assert forall x | x in f.deps :: Key(x) in f.keys;
      forall k ensures k in g.keys <==> exists x :: x in g.deps && Key(x) == k {
        if k in f.keys {
          var x :| x in f.deps && Key(x) == k;
          assert x in g.deps;
        } else if k == Key(d) {
          assert d in g.deps;
        }
      }
    }
  }

  lemma {:induction false} HandleAllGrows(s: Setup, rank: Rank, level: nat, h: Handler, app: string, ep: string, calls: seq<Stmt>, f: Found)
    requires Ready(s, rank, level, h, calls)
    ensures Grows(f, HandleAll(s, rank, level, h, app, ep, calls, f))
    ensures h.Among? ==> HandleAll(s, rank, level, h, app, ep, calls, f).apps == f.apps
    decreases level, |calls|
  {
    if calls != [] {
      HandleGrows(s, rank, level, h, app, ep, calls[0], f);
      HandleAllGrows(s, rank, level, h, app, ep, calls[1..], Handle(s, rank, level, h, app, ep, calls[0], f));
    }
  }

  lemma {:induction false} HandleGrows(s: Setup, rank: Rank, level: nat, h: Handler, app: string, ep: string, c: Stmt, f: Found)
    requires Ready(s, rank, level, h, [c])
    ensures Grows(f, Handle(s, rank, level, h, app, ep, c, f))
    ensures h.Among? ==> Handle(s, rank, level, h, app, ep, c, f).apps == f.apps
    decreases level, 0
  {
    assert c in [c];
    AddCallGrows(app, ep, c, f);
    if h.FromSeeds? && Walks(s, c) {
      var f1 := AddVisible(s.m, app, ep, c, f);
      HandleAllGrows(s, rank, rank[c], h, c.app, c.ep, CallsAt(s.m, c.app, c.ep), f1.(apps := f1.apps + [c.app]));
    }
  }

  predicate HasPlainNames(d: Dep) {
    ColonFree(d.app) && ColonFree(d.ep) && ColonFree(d.target)
  }

  /** A call between plain names is added unless it is listed itself. */
  lemma AddsUnlessListed(app: string, ep: string, c: Stmt, f: Found)
    requires c.Call? && Consistent(f) && HasPlainNames(Dep(app, ep, c.app, c.ep)) && forall d | d in f.deps :: HasPlainNames(d)
    ensures var d := Dep(app, ep, c.app, c.ep);
      AddCall(app, ep, c, f).deps == if d in f.deps then f.deps else f.deps + [d]
  {
    var d := Dep(app, ep, c.app, c.ep);
    forall e | e in f.deps ensures Key(d) == Key(e) <==> d == e { KeysTellApart(d, e); }
  }

  // ---- the walk from the seeds -------------------------------------------------

  /** The endpoint `app`, `ep` whose calls are handled: one of a seed, or one walked through. */
  ghost predicate Source(s: Setup, start: set<Stmt>, seeds: set<string>, app: string, ep: string) {
    (app in seeds && ep != Collector) || (app in s.passthroughs && Reached(s, start, Call(app, ep)))
  }

  /** A dependency found on the way. */
  ghost predicate OnWalk(s: Setup, start: set<Stmt>, seeds: set<string>, d: Dep) {
    && Source(s, start, seeds, d.app, d.ep) && Call(d.target, d.targetEp) in CallsAt(s.m, d.app, d.ep)
    && Reached(s, start, Call(d.target, d.targetEp)) && !IsHidden(s.m, d.target, d.targetEp)
  }

  ghost predicate FoundOnWalk(s: Setup, start: set<Stmt>, seeds: set<string>, f: Found) {
    && (forall a | a in f.apps :: a in seeds || exists c: Stmt :: Reached(s, start, c) && c.Call? && c.app == a)
    && (forall d | d in f.deps :: OnWalk(s, start, seeds, d))
  }

  /** All the calls of `calls` that are taken are on the walk. */
  ghost predicate AllReached(s: Setup, start: set<Stmt>, calls: seq<Stmt>) {
    forall c | c in calls && Taken(s, c) :: Reached(s, start, c)
  }

  lemma {:induction false} WalkIsSound(s: Setup, rank: Rank, level: nat, start: set<Stmt>, seeds: set<string>, app: string, ep: string, calls: seq<Stmt>, f: Found)
    requires Ready(s, rank, level, FromSeeds, calls) && FoundOnWalk(s, start, seeds, f)
    requires Source(s, start, seeds, app, ep) && AllReached(s, start, calls) && forall c | c in calls :: c in CallsAt(s.m, app, ep)
    ensures FoundOnWalk(s, start, seeds, HandleAll(s, rank, level, FromSeeds, app, ep, calls, f))
    decreases level, |calls|
  {
    if calls != [] {
      var c := calls[0];
      assert c in calls;
      StepIsSound(s, rank, level, start, seeds, app, ep, c, f);
      WalkIsSound(s, rank, level, start, seeds, app, ep, calls[1..], Handle(s, rank, level, FromSeeds, app, ep, c, f));
    }
  }

  lemma {:induction false} StepIsSound(s: Setup, rank: Rank, level: nat, start: set<Stmt>, seeds: set<string>, app: string, ep: string, c: Stmt, f: Found)
    requires Ready(s, rank, level, FromSeeds, [c]) && FoundOnWalk(s, start, seeds, f)
    requires Source(s, start, seeds, app, ep) && (Taken(s, c) ==> Reached(s, start, c)) && c in CallsAt(s.m, app, ep)
    ensures FoundOnWalk(s, start, seeds, Handle(s, rank, level, FromSeeds, app, ep, c, f))
    decreases level, 0
  {
    if Taken(s, c) {
      assert c in [c] && c == Call(c.app, c.ep);
      AddCallGrows(app, ep, c, f);
      var f1 := AddVisible(s.m, app, ep, c, f);
      var f2 := f1.(apps := f1.apps + [c.app]);
      assert FoundOnWalk(s, start, seeds, f2);
      if c.app in s.passthroughs {
        forall n | n in CallsAt(s.m, c.app, c.ep) && Taken(s, n) ensures Reached(s, start, n) { ReachedNext(s, start, c, n); }
        WalkIsSound(s, rank, rank[c], start, seeds, c.app, c.ep, CallsAt(s.m, c.app, c.ep), f2);
      }
    }
  }

  /** The end of the walk is found: the app it leads to, and the dependency, if it is visible. */
  ghost predicate EndFound(s: Setup, app: string, ep: string, p: seq<Stmt>, f: Found)
    requires p != [] && forall i | 0 <= i < |p| :: p[i].Call?
  {
    var c := Last(p);
    && c.app in f.apps
    && (!IsHidden(s.m, c.app, c.ep) ==> Key(if |p| == 1 then Dep(app, ep, c.app, c.ep) else Dep(p[|p| - 2].app, p[|p| - 2].ep, c.app, c.ep)) in f.keys)
  }

  lemma {:induction false} WalkIsComplete(s: Setup, rank: Rank, level: nat, app: string, ep: string, calls: seq<Stmt>, f: Found, start: set<Stmt>, p: seq<Stmt>)
    requires Ready(s, rank, level, FromSeeds, calls) && IsWalk(s, start, p) && p[0] in calls
    ensures EndFound(s, app, ep, p, HandleAll(s, rank, level, FromSeeds, app, ep, calls, f))
    decreases level, |calls|
  {
    var f1 := Handle(s, rank, level, FromSeeds, app, ep, calls[0], f);
    if p[0] == calls[0] {
      StepIsComplete(s, rank, level, app, ep, calls[0], f, start, p);
      HandleAllGrows(s, rank, level, FromSeeds, app, ep, calls[1..], f1);
    } else {
      WalkIsComplete(s, rank, level, app, ep, calls[1..], f1, start, p);
    }
  }

  lemma {:induction false} StepIsComplete(s: Setup, rank: Rank, level: nat, app: string, ep: string, c: Stmt, f: Found, start: set<Stmt>, p: seq<Stmt>)
    requires Ready(s, rank, level, FromSeeds, [c]) && IsWalk(s, start, p) && p[0] == c
    ensures EndFound(s, app, ep, p, Handle(s, rank, level, FromSeeds, app, ep, c, f))
    decreases level, 0
  {
    assert c in [c];
    AddCallGrows(app, ep, c, f);
    var f1 := AddVisible(s.m, app, ep, c, f);
    var f2 := f1.(apps := f1.apps + [c.app]);
    if c.app in s.passthroughs {
      HandleAllGrows(s, rank, rank[c], FromSeeds, c.app, c.ep, CallsAt(s.m, c.app, c.ep), f2);
    }
    if |p| > 1 {
      var rest := p[1..];
      assert forall i | 0 <= i < |rest| :: rest[i] == p[i + 1];
      assert IsWalk(s, {rest[0]}, rest);
      WalkIsComplete(s, rank, rank[c], c.app, c.ep, CallsAt(s.m, c.app, c.ep), f2, {rest[0]}, rest);
      assert |rest| > 1 ==> rest[|rest| - 2] == p[|p| - 2];
    }
  }
}
