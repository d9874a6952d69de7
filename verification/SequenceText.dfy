/** The text of a sequence diagram: the lines of the visitor, through the writer's bytes
    (pkg/cmdutils/visitor.go, writer.go). */
module SequenceText {
  import opened CallTree
  import opened SequenceDiagram
  import opened SequenceVisitor
  import opened SequenceBlocks
  import opened SequenceTheorems
  import opened SequenceMessages
  import opened SequenceCalls
  import LineWriter

  /** Each line in one chunk, with its newline, behind its own indent. */
  function Rendered(text: Text -> string, lines: seq<Line>): string {
    if lines == [] then ""
    else LineWriter.Indented(lines[0].ind, true, Ended(text, lines[0])).text + Rendered(text, lines[1..])
  }

  function Ended(text: Text -> string, line: Line): string {
    text(line.text) + [LineWriter.Newline]
  }

  lemma EndsLine(ind: nat, t: string)
    ensures LineWriter.Indented(ind, true, t + [LineWriter.Newline]).atBegin
    ensures LineWriter.OneLine(t) && t != "" ==>
      LineWriter.Indented(ind, true, t + [LineWriter.Newline]).text == LineWriter.Spaces(ind) + t + [LineWriter.Newline]
  {
    var n := [LineWriter.Newline];
    assert n[1..] == "";
    LineWriter.IndentedConcat(ind, true, t, n);
    if LineWriter.OneLine(t) { LineWriter.IndentedLine(ind, true, t); }
  }

  method Render(text: Text -> string, lines: seq<Line>) returns (w: LineWriter.Writer)
    ensures fresh(w) && w.body == Rendered(text, lines) && w.atBeginOfLine
  {
    w := new LineWriter.Writer();
    for i := 0 to |lines|
      invariant fresh(w) && w.atBeginOfLine && w.body + Rendered(text, lines[i..]) == Rendered(text, lines)
    {
      RenderedFrom(text, lines, i, w.body);
      EndsLine(lines[i].ind, text(lines[i].text));
      w.ind := lines[i].ind;
      var _ := w.Write(Ended(text, lines[i]));
    }
    assert w.body + "" == w.body;
  }

  lemma RenderedFrom(text: Text -> string, lines: seq<Line>, i: nat, before: string)
    requires i < |lines|
    ensures before + Rendered(text, lines[i..]) ==
      (before + LineWriter.Indented(lines[i].ind, true, Ended(text, lines[i])).text) + Rendered(text, lines[i + 1..])
  {
    assert lines[i..][0] == lines[i] && lines[i..][1..] == lines[i + 1..];
    LineWriter.Assoc(before, LineWriter.Indented(lines[i].ind, true, Ended(text, lines[i])).text, Rendered(text, lines[i + 1..]));
  }

  /** The visitor's diagram as text. */
  method DrawText(d: Diagram, text: Text -> string, entries: seq<Entry>, uptos: map<string, string>) returns (ok: bool, body: string)
    ensures var o := VisitCollection(d, entries, uptos, Start);
      ok == o.Done? && (ok ==> body == Rendered(text, o.s.lines) && AllTold(d, o.s))
  {
    body := "";
    var v := new Visitor(d);
    assert v.Now() == Start;
    ok := v.VisitEndpointCollection(entries, uptos);
    ArrowsAreCalls(d, entries, uptos);
    if ok {
      var w := Render(text, v.w.body);
      body := w.body;
    }
  }

  // ---- reading it back ---------------------------------------------------------

  /** Every text is a line of its own that shows where it begins. */
  predicate Plain(t: string) {
    LineWriter.OneLine(t) && t != "" && t[0] != ' '
  }

  function Shown(text: Text -> string, lines: seq<Line>): seq<string> {
    seq(|lines|, i requires 0 <= i < |lines| => LineWriter.Spaces(lines[i].ind) + text(lines[i].text))
  }

  lemma {:induction false} SplitLine(a: string, rest: string)
    requires LineWriter.OneLine(a)
    ensures LineWriter.Split(a + [LineWriter.Newline] + rest) == [a] + LineWriter.Split(rest)
  {
    var s := a + [LineWriter.Newline] + rest;
    if a == "" {
      assert s[1..] == rest;
    } else {
      assert a[0] in a && s[0] == a[0] && s[1..] == a[1..] + [LineWriter.Newline] + rest;
      SplitLine(a[1..], rest);
      assert [a[0]] + a[1..] == a;
    }
  }

  lemma {:induction false} SpacesAreOneLine(n: nat, t: string)
    requires LineWriter.OneLine(t)
    ensures LineWriter.OneLine(LineWriter.Spaces(n) + t)
  {
    if n > 0 {
      SpacesAreOneLine(n - 1, t);
      assert LineWriter.Spaces(n) + t == " " + (LineWriter.Spaces(n - 1) + t);
    }
  }

  /** Split at its newlines, the text has a line for every line of the diagram, behind as many
      spaces as its indent. */
  lemma {:induction false} TextHasLines(text: Text -> string, lines: seq<Line>)
    requires forall l | l in lines :: Plain(text(l.text))
    ensures LineWriter.Split(Rendered(text, lines)) == Shown(text, lines) + [""]
  {
    if lines != [] {
      var first, t := lines[0], text(lines[0].text);
      assert first in lines;
      TextHasLines(text, lines[1..]);
      EndsLine(first.ind, t);
      SpacesAreOneLine(first.ind, t);
      SplitLine(LineWriter.Spaces(first.ind) + t, Rendered(text, lines[1..]));
      assert Shown(text, lines) == [LineWriter.Spaces(first.ind) + t] + Shown(text, lines[1..]);
    }
  }

  lemma {:induction false} IndentIsRead(n: nat, t: string, m: nat, u: string)
    requires Plain(t) && Plain(u) && LineWriter.Spaces(n) + t == LineWriter.Spaces(m) + u
    ensures n == m && t == u
  {
    var a, b := LineWriter.Spaces(n) + t, LineWriter.Spaces(m) + u;
    assert a[0] == (if n == 0 then t[0] else ' ') && b[0] == (if m == 0 then u[0] else ' ');
    if n == 0 {
      assert a == t && b == u;
    } else {
      assert a[1..] == LineWriter.Spaces(n - 1) + t && b[1..] == LineWriter.Spaces(m - 1) + u;
      IndentIsRead(n - 1, t, m - 1, u);
    }
  }

  /** So the text determines the indent and the text of every line of the diagram. */
  lemma TextDeterminesLines(text: Text -> string, a: seq<Line>, b: seq<Line>)
    requires forall l | l in a + b :: Plain(text(l.text))
    requires Rendered(text, a) == Rendered(text, b)
    ensures |a| == |b| && forall i | 0 <= i < |a| :: a[i].ind == b[i].ind && text(a[i].text) == text(b[i].text)
  {
    assert forall l | l in a :: l in a + b;
    assert forall l | l in b :: l in a + b;
    TextHasLines(text, a);
    TextHasLines(text, b);
    var x, y := Shown(text, a), Shown(text, b);
    assert (x + [""])[..|x|] == x && (y + [""])[..|y|] == y;
    forall i | 0 <= i < |a| ensures a[i].ind == b[i].ind && text(a[i].text) == text(b[i].text) {
      assert x[i] == y[i] && a[i] in a && b[i] in b;
      IndentIsRead(a[i].ind, text(a[i].text), b[i].ind, text(b[i].text));
    }
  }
}
