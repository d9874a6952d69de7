/** Which endpoints of a collection a sequence diagram expands, and what it draws for the
    others (pkg/cmdutils/visitor.go). */
module SequenceCollections {
  import opened CallTree
  import opened SequenceDiagram
  import opened SequenceBalance
  import opened SequenceRuns
  import opened SequenceBlocks
  import opened SequenceTheorems

  // ---- which entries are marked ------------------------------------------------

  /** Some entry before the n-th is another endpoint. */
  predicate OtherUpTo(all: seq<Entry>, n: nat, key: string)
    requires n <= |all|
  {
    exists j :: 0 <= j < n && EntryKey(all[j]) != key
  }

  predicate OtherBefore(all: seq<Entry>, i: nat)
    requires i < |all|
  {
    OtherUpTo(all, i, EntryKey(all[i]))
  }

  lemma OneMoreOther(all: seq<Entry>, n: nat, key: string)
    requires n < |all|
    ensures OtherUpTo(all, n + 1, key) <==> EntryKey(all[n]) != key || OtherUpTo(all, n, key)
  {
  }

  lemma OneMoreMark(all: seq<Entry>, before: map<string, string>, e: Entry, own: Entry, key: string)
    requires own in all && EntryKey(own) == key
    ensures var after := WithOthers(before, all, e);
      if EntryKey(e) != key then key in after && after[key] == "see below"
      else (key in after <==> key in before) && (key in after ==> after[key] == before[key])
  {
  }

  /** The mark of `key` once some entries have been visited, and whether one was another endpoint. */
  predicate MarkIs(at: map<string, string>, uptos: map<string, string>, key: string, other: bool) {
    && (key in at <==> key in uptos || other)
    && (key in at ==> at[key] == if other then "see below" else uptos[key])
  }

  lemma MarkGoesOn(all: seq<Entry>, uptos: map<string, string>, before: map<string, string>, e: Entry, own: Entry, key: string, other: bool)
    requires own in all && EntryKey(own) == key && MarkIs(before, uptos, key, other)
    ensures MarkIs(WithOthers(before, all, e), uptos, key, EntryKey(e) != key || other)
  {
    OneMoreMark(all, before, e, own, key);
  }

  lemma {:induction false} MarkedIff(all: seq<Entry>, uptos: map<string, string>, n: nat, own: Entry, key: string)
    requires n <= |all| && own in all && EntryKey(own) == key
    ensures MarkIs(MarksAfter(all, uptos, n), uptos, key, OtherUpTo(all, n, key))
  {
    if n > 0 {
      MarkedIff(all, uptos, n - 1, own, key);
      OneMoreOther(all, n - 1, key);
      MarkGoesOn(all, uptos, MarksAfter(all, uptos, n - 1), all[n - 1], own, key, OtherUpTo(all, n - 1, key));
    }
  }

  /** An entry is under a mark while it is visited itself exactly when it was marked from the
      start or comes after another endpoint: the marks are never taken back. */
  lemma EntryIsCutIff(all: seq<Entry>, uptos: map<string, string>, i: nat)
    requires i < |all|
    ensures var key, at := EntryKey(all[i]), MarksAfter(all, uptos, i + 1);
      && (key in at <==> key in uptos || OtherBefore(all, i))
      && (key in at ==> at[key] == if OtherBefore(all, i) then "see below" else uptos[key])
  {
    MarkedIff(all, uptos, i + 1, all[i], EntryKey(all[i]));
    OneMoreOther(all, i, EntryKey(all[i]));
  }

  // ---- what is drawn -----------------------------------------------------------

  /** The first `n` entries; with all of them it is the collection. */
  function VisitsUpTo(d: Diagram, all: seq<Entry>, uptos: map<string, string>, n: nat, s: State): Out
    requires n <= |all|
  {
    Steps(EntryStep(d, all, uptos), n, s)
  }

  function PayloadOf(d: Diagram, e: Entry): string
    requires HasEndpoint(d.m, e.app, e.ep)
  {
    d.format(ReturnPayload(d.m[e.app].eps[e.ep].stmts))
  }

  /** An entry that is only noted: its header, its message, and a note, between an activation
      and a reply if it returns something; nothing of its statements. */
  function NotedTexts(d: Diagram, e: Entry, agent: Alias, comment: string): seq<Text>
    requires HasEndpoint(d.m, e.app, e.ep)
  {
    var hidden := d.m[e.app].eps[e.ep].hidden;
    [Header(e.app, e.ep)] + MessageOf(d, e, agent)
    + (if PayloadOf(d, e) == "" then [Note(agent, comment)]
       else
         [Activate(agent)] + (if comment == "" then [] else [Note(agent, comment)])
         + (if hidden then [] else [Reply(Outside, agent, PayloadOf(d, e))]) + [Deactivate(agent)])
  }

  function PutAll(s: State, texts: seq<Text>): State {
    s.(lines := s.lines + seq(|texts|, i requires 0 <= i < |texts| => Line(s.ind, texts[i])))
  }

  /** The state after it: its application is named, nothing is active that was not. */
  function NotedState(d: Diagram, e: Entry, s: State, comment: string): State
    requires HasEndpoint(d.m, e.app, e.ep)
  {
    PutAll(Named(s, e.app), NotedTexts(d, e, AliasOf(s, e.app), comment))
  }

  lemma PutOne(s: State, text: Text)
    ensures PutAll(s, [text]) == Put(s, text) && PutAll(s, []) == s
  {
  }

  lemma PutMore(s: State, a: seq<Text>, b: seq<Text>)
    ensures PutAll(PutAll(s, a), b) == PutAll(s, a + b)
  {
  }

  /** Activating and deactivating again leaves only the two lines. */
  lemma ActiveAgain(s: State, agent: Alias, texts: seq<Text>)
    requires forall a | a in s.active :: s.active[a] > 0
    ensures PutDeactivate(PutAll(PutActivate(s, agent), texts), agent) == PutAll(s, [Activate(agent)] + texts + [Deactivate(agent)])
  {
    var t := PutAll(PutActivate(s, agent), texts);
    var u := PutDeactivate(t, agent);
    assert t.active == s.active[agent := ActiveOf(s, agent) + 1];
    assert u.active == s.active;
    PutOne(s, Activate(agent));
    PutMore(s, [Activate(agent)], texts);
    PutMore(s, [Activate(agent)] + texts, [Deactivate(agent)]);
    PutOne(PutAll(s, [Activate(agent)] + texts), Deactivate(agent));
    assert t.lines == PutAll(s, [Activate(agent)] + texts).lines;
  }

  lemma CutDraws(v: Visit, hidden: bool, payload: string, uptos: map<string, string>, s: State)
    requires v.from == [] && KeyOf(v.app, v.ep) in uptos && forall a | a in s.active :: s.active[a] > 0
    ensures var agent, comment := AliasOf(s, v.app), uptos[KeyOf(v.app, v.ep)];
      Cut(v, hidden, payload, uptos, s) == PutAll(s, if payload == "" then [Note(agent, comment)]
        else [Activate(agent)] + ((if comment == "" then [] else [Note(agent, comment)]) + (if hidden then [] else [Reply(Outside, agent, payload)])) + [Deactivate(agent)])
  {
    var agent, comment := AliasOf(s, v.app), uptos[KeyOf(v.app, v.ep)];
    if payload == "" {
      PutOne(s, Note(agent, comment));
    } else {
      var notes := if comment == "" then [] else [Note(agent, comment)];
      var replies := if hidden then [] else [Reply(Outside, agent, payload)];
      var s1 := PutActivate(s, agent);
      PutOne(s1, Note(agent, comment));
      PutOne(PutAll(s1, notes), Reply(Outside, agent, payload));
      PutMore(s1, notes, replies);
      ActiveAgain(s, agent, notes + replies);
    }
  }

  lemma EntryAnswers(d: Diagram, uptos: map<string, string>, e: Entry, s: State)
    requires HasEndpoint(d.m, e.app, e.ep)
    ensures var v := Visit([], e.app, e.ep, false);
      var answer := Answer(d, uptos, v, PayloadOf(d, e), {}, Arrive(d, v, Named(Put(s, Header(e.app, e.ep)), e.app)));
      VisitEntry(d, uptos, e, s) == if answer.Panic? then Panic else Done(answer.s, NoShot)
  {
    var v, s1 := Visit([], e.app, e.ep, false), Put(s, Header(e.app, e.ep));
    assert Introduced(s1, v) == Named(s1, e.app);
    assert EndCaller(v, PayloadOf(d, e), Arrive(d, v, Named(s1, e.app)), NoShot) == Done(Arrive(d, v, Named(s1, e.app)), NoShot);
  }

  /** A marked entry with statements is only noted. */
  lemma MarkedIsNoted(d: Diagram, uptos: map<string, string>, e: Entry, s: State)
    requires HasEndpoint(d.m, e.app, e.ep) && d.m[e.app].eps[e.ep].stmts != [] && e.app + " <- " + e.ep in uptos
    requires forall a | a in s.active :: s.active[a] > 0
    ensures VisitEntry(d, uptos, e, s) == Done(NotedState(d, e, s, uptos[e.app + " <- " + e.ep]), NoShot)
  {
    var v := Visit([], e.app, e.ep, false);
    EntryAnswers(d, uptos, e, s);
    HeaderDraws(d, e, s);
    var s3 := Arrive(d, v, Named(Put(s, Header(e.app, e.ep)), e.app));
    CutDraws(v, d.m[e.app].eps[e.ep].hidden, PayloadOf(d, e), uptos, s3);
    NotedJoins(Named(s, e.app), d, e, AliasOf(s, e.app), uptos[EntryKey(e)], MessageOf(d, e, AliasOf(s, e.app)));
  }

  function MessageOf(d: Diagram, e: Entry, agent: Alias): seq<Text>
    requires HasEndpoint(d.m, e.app, e.ep)
  {
    if d.m[e.app].human || d.m[e.app].cron || d.m[e.app].eps[e.ep].hidden then [] else [Message(Outside, agent)]
  }

  lemma HeaderDraws(d: Diagram, e: Entry, s: State)
    requires HasEndpoint(d.m, e.app, e.ep)
    ensures var v, agent := Visit([], e.app, e.ep, false), AliasOf(s, e.app);
      var s3 := Arrive(d, v, Named(Put(s, Header(e.app, e.ep)), e.app));
      && s3 == PutAll(Named(s, e.app), [Header(e.app, e.ep)] + MessageOf(d, e, agent))
      && AliasOf(s3, e.app) == agent && s3.active == s.active
  {
    var named, agent := Named(s, e.app), AliasOf(s, e.app);
    var s2 := Named(Put(s, Header(e.app, e.ep)), e.app);
    PutOne(named, Header(e.app, e.ep));
    assert s2 == PutAll(named, [Header(e.app, e.ep)]);
    PutOne(s2, Message(Outside, agent));
    PutMore(named, [Header(e.app, e.ep)], MessageOf(d, e, agent));
  }

  lemma NotedJoins(named: State, d: Diagram, e: Entry, agent: Alias, comment: string, message: seq<Text>)
    requires HasEndpoint(d.m, e.app, e.ep) && message == MessageOf(d, e, agent)
    ensures var hidden, payload := d.m[e.app].eps[e.ep].hidden, PayloadOf(d, e);
      PutAll(PutAll(named, [Header(e.app, e.ep)] + message), if payload == "" then [Note(agent, comment)]
        else [Activate(agent)] + ((if comment == "" then [] else [Note(agent, comment)]) + (if hidden then [] else [Reply(Outside, agent, payload)])) + [Deactivate(agent)])
      == PutAll(named, NotedTexts(d, e, agent, comment))
  {
    var hidden, payload := d.m[e.app].eps[e.ep].hidden, PayloadOf(d, e);
    var notes: seq<Text> := if comment == "" then [] else [Note(agent, comment)];
    var replies: seq<Text> := if hidden then [] else [Reply(Outside, agent, payload)];
    var rest := if payload == "" then [Note(agent, comment)] else [Activate(agent)] + (notes + replies) + [Deactivate(agent)];
    PutMore(named, [Header(e.app, e.ep)] + message, rest);
    assert [Activate(agent)] + (notes + replies) + [Deactivate(agent)] == [Activate(agent)] + notes + replies + [Deactivate(agent)];
  }

  /** Any other entry with statements is expanded, under an activation of its own. */
  function ExpandedEntry(d: Diagram, uptos: map<string, string>, e: Entry, s: State): Out
    requires HasEndpoint(d.m, e.app, e.ep)
  {
    var v := Visit([], e.app, e.ep, false);
    var o := Expand(d, uptos, v, d.m[e.app].eps[e.ep].stmts, {}, Arrive(d, v, Named(Put(s, Header(e.app, e.ep)), e.app)));
    if o.Panic? then Panic else Done(o.s, NoShot)
  }

  lemma UnmarkedIsExpanded(d: Diagram, uptos: map<string, string>, e: Entry, s: State)
    requires HasEndpoint(d.m, e.app, e.ep) && d.m[e.app].eps[e.ep].stmts != [] && EntryKey(e) !in uptos
    ensures VisitEntry(d, uptos, e, s) == ExpandedEntry(d, uptos, e, s)
  {
    EntryAnswers(d, uptos, e, s);
  }

  /** The i-th entry of a collection: it is only noted, with the text "see below", as soon as
      another endpoint came before it; otherwise it is expanded, unless it was marked from the
      start. */
  lemma EntryIsDrawn(d: Diagram, all: seq<Entry>, uptos: map<string, string>, i: nat, start: State)
    requires i < |all| && Balanced(start) && VisitsUpTo(d, all, uptos, i, start).Done?
    requires HasEndpoint(d.m, all[i].app, all[i].ep) && d.m[all[i].app].eps[all[i].ep].stmts != []
    ensures var s, e := VisitsUpTo(d, all, uptos, i, start).s, all[i];
      VisitsUpTo(d, all, uptos, i + 1, start) ==
        if OtherBefore(all, i) then Done(NotedState(d, e, s, "see below"), NoShot)
        else if EntryKey(e) in uptos then Done(NotedState(d, e, s, uptos[EntryKey(e)]), NoShot)
        else ExpandedEntry(d, MarksAfter(all, uptos, i + 1), e, s)
  {
    var s := VisitsUpTo(d, all, uptos, i, start).s;
    CollectionReturns(d, all, uptos, i, start);
    EntryIsCutIff(all, uptos, i);
    NextVisit(d, all, uptos, i, start);
    MarkDecides(d, MarksAfter(all, uptos, i + 1), all[i], s);
  }

  lemma NextVisit(d: Diagram, all: seq<Entry>, uptos: map<string, string>, i: nat, start: State)
    requires i < |all| && HasEndpoint(d.m, all[i].app, all[i].ep) && VisitsUpTo(d, all, uptos, i, start).Done?
    ensures VisitsUpTo(d, all, uptos, i + 1, start) == VisitEntry(d, MarksAfter(all, uptos, i + 1), all[i], VisitsUpTo(d, all, uptos, i, start).s)
  {
    OneMoreVisit(d, all, uptos, i, start);
    EntryAnswers(d, MarksAfter(all, uptos, i + 1), all[i], VisitsUpTo(d, all, uptos, i, start).s);
  }

  lemma MarkDecides(d: Diagram, uptos: map<string, string>, e: Entry, s: State)
    requires HasEndpoint(d.m, e.app, e.ep) && d.m[e.app].eps[e.ep].stmts != [] && Balanced(s)
    ensures VisitEntry(d, uptos, e, s) ==
      if EntryKey(e) in uptos then Done(NotedState(d, e, s, uptos[EntryKey(e)]), NoShot) else ExpandedEntry(d, uptos, e, s)
  {
    if EntryKey(e) in uptos { MarkedIsNoted(d, uptos, e, s); } else { UnmarkedIsExpanded(d, uptos, e, s); }
  }

  // ---- a collection of two endpoints -------------------------------------------

  /** Of two different endpoints the second is never expanded: all that is drawn of it is its
      header, its message and the note that it is shown below. */
  lemma SecondIsNoted(d: Diagram, a: Entry, b: Entry)
    requires EntryKey(a) != EntryKey(b) && HasEndpoint(d.m, a.app, a.ep)
    requires HasEndpoint(d.m, b.app, b.ep) && d.m[b.app].eps[b.ep].stmts != []
    ensures var first := VisitEntry(d, WithOthers(map[], [a, b], a), a, Start);
      VisitCollection(d, [a, b], map[], Start) ==
        if first.Panic? then Panic else Done(NotedState(d, b, first.s, "see below"), NoShot)
  {
    var all := [a, b];
    assert all[0] == a && all[1] == b;
    assert MarksAfter(all, map[], 1) == WithOthers(MarksAfter(all, map[], 0), all, a);
    SecondVisit(d, all);
  }

  lemma SecondVisit(d: Diagram, all: seq<Entry>)
    requires |all| == 2 && EntryKey(all[0]) != EntryKey(all[1]) && HasEndpoint(d.m, all[0].app, all[0].ep)
    requires HasEndpoint(d.m, all[1].app, all[1].ep) && d.m[all[1].app].eps[all[1].ep].stmts != []
    ensures var first := VisitEntry(d, MarksAfter(all, map[], 1), all[0], Start);
      VisitsUpTo(d, all, map[], 2, Start) == if first.Panic? then Panic else Done(NotedState(d, all[1], first.s, "see below"), NoShot)
  {
    StartIsFine();
    assert Steps(EntryStep(d, all, map[]), 0, Start) == Done(Start, NoShot);
    NextVisit(d, all, map[], 0, Start);
    if VisitsUpTo(d, all, map[], 1, Start).Done? {
      assert OtherBefore(all, 1);
      EntryIsDrawn(d, all, map[], 1, Start);
    } else {
      PanicsStay(EntryStep(d, all, map[]), 1, 2, Start);
    }
  }

  const Work: Endpoint := Endpoint([Action("work")], false)

  /** An application with two endpoints that do the same. */
  const TwoEndpoints: Module := map["A" := App(false, false, map["x" := Work, "y" := Work])]

  lemma KeysDiffer()
    ensures KeyOf("A", "x") != KeyOf("A", "y") && KeyOf("A", "x") != ""
  {
    assert KeyOf("A", "x")[5] == 'x' && KeyOf("A", "y")[5] == 'y';
  }

  const X: Entry := Entry("A", "x", "")
  const Y: Entry := Entry("A", "y", "")

  const XLines: seq<Line> := [
    Line(0, Header("A", "x")), Line(0, Message(Outside, 0)), Line(0, Activate(0)), Line(0, Step(0, "work")), Line(0, Deactivate(0))]
  const YLines: seq<Line> := [Line(0, Header("A", "y")), Line(0, Message(Outside, 0)), Line(0, Note(0, "see below"))]

  predicate Draws(o: Out, lines: seq<Line>) {
    o.Done? && o.s.lines == lines
  }

  /** The work of the first is drawn, that of the second is not. */
  lemma TwoEndpointsDrawn(format: string -> string)
    requires format("") == ""
    ensures Draws(VisitCollection(Diagram(TwoEndpoints, format), [X, Y], map[], Start), XLines + YLines)
  {
    var d := Diagram(TwoEndpoints, format);
    KeysDiffer();
    FirstEndpointDrawn(d);
    SecondIsNoted(d, X, Y);
    SecondEndpointDrawn(d, VisitEntry(d, WithOthers(map[], [X, Y], X), X, Start).s);
  }

  lemma SecondEndpointDrawn(d: Diagram, s: State)
    requires d.m == TwoEndpoints && d.format("") == "" && s.ind == 0 && s.symbols == map["A" := 0] && s.lines == XLines
    ensures Draws(Done(NotedState(d, Y, s, "see below"), NoShot), XLines + YLines)
  {
    assert ReturnPayload(Work.stmts) == "" by { assert Work.stmts[1..] == []; }
    assert NotedTexts(d, Y, 0, "see below") == [Header("A", "y"), Message(Outside, 0), Note(0, "see below")];
  }

  lemma OneAction(d: Diagram, uptos: map<string, string>, v: Visit, text: string, visited: set<string>, s: State, shot: Shot)
    requires v.app in s.symbols && text != "..."
    ensures VisitStmts(d, uptos, v, [Action(text)], true, visited, s, shot) == Done(Put(s, Step(s.symbols[v.app], text)), shot)
  {
    var stmts := [Action(text)];
    assert stmts[1..] == [] && stmts[0] == Action(text);
    assert VisitStmt(d, uptos, v, Action(text), true, visited, s, shot) == Done(Put(s, Step(s.symbols[v.app], text)), shot);
  }

  lemma FirstEndpointDrawn(d: Diagram)
    requires d.m == TwoEndpoints && d.format("") == ""
    ensures var o := VisitEntry(d, WithOthers(map[], [X, Y], X), X, Start);
      && o.Done? && o.s.ind == 0 && o.s.symbols == map["A" := 0]
      && o.s.lines == XLines
  {
    var v, uptos := Visit([], "A", "x", false), WithOthers(map[], [X, Y], X);
    assert EntryKey(X) !in uptos by { KeysDiffer(); }
    UnmarkedIsExpanded(d, uptos, X, Start);
    var s1 := Arrive(d, v, Named(Put(Start, Header("A", "x")), "A"));
    assert s1 == State([Line(0, Header("A", "x")), Line(0, Message(Outside, 0))], 0, map[], map["A" := 0]);
    WorkDrawn(d, uptos, v, s1);
  }

  lemma WorkDrawn(d: Diagram, uptos: map<string, string>, v: Visit, s: State)
    requires d.m == TwoEndpoints && v == Visit([], "A", "x", false) && s.ind == 0 && s.active == map[] && s.symbols == map["A" := 0]
    ensures var o := Expand(d, uptos, v, Work.stmts, {}, s);
      o.Done? && o.s.ind == 0 && o.s.symbols == s.symbols && o.s.lines == s.lines + [Line(0, Activate(0)), Line(0, Step(0, "work")), Line(0, Deactivate(0))]
  {
    var begun := Begin(d.m["A"], s, 0);
    assert begun == Done(State(s.lines + [Line(0, Activate(0))], 0, map[0 := 1], s.symbols), Shot(0, true));
    OneAction(d, uptos, v, "work", {} + {KeyOf("A", "x")}, begun.s, begun.shot);
    var t := Put(begun.s, Step(0, "work"));
    assert Expand(d, uptos, v, Work.stmts, {}, s) == Fire(t, Shot(0, true));
    assert ActiveOf(t, 0) == 1;
  }
}
