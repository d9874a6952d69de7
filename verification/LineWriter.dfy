/** The text layer of the sequence diagram writer (pkg/cmdutils/writer.go): bytes go out in
    chunks, each line behind the current indent. */
module LineWriter {
  const Newline := '\n'

  function Spaces(n: nat): string {
    if n == 0 then "" else " " + Spaces(n - 1)
  }

  /** A text and whether it ends at the beginning of a line. */
  datatype Written = Written(text: string, atBegin: bool)

  /** Every line that is not blank behind `ind` spaces, from the middle of a line or its beginning. */
  function Indented(ind: nat, atBegin: bool, bytes: string): Written
    decreases |bytes|
  {
    if bytes == "" then Written("", atBegin)
    else
      var first := if bytes[0] != Newline && atBegin then Spaces(ind) + [bytes[0]] else [bytes[0]];
      var rest := Indented(ind, bytes[0] == Newline, bytes[1..]);
      Written(first + rest.text, rest.atBegin)
  }

  lemma {:induction false} IndentedConcat(ind: nat, atBegin: bool, a: string, b: string)
    ensures var r := Indented(ind, atBegin, a);
      var t := Indented(ind, r.atBegin, b);
      Indented(ind, atBegin, a + b) == Written(r.text + t.text, t.atBegin)
    decreases |a|
  {
    if a == "" {
      assert a + b == b;
    } else {
      assert (a + b)[0] == a[0] && (a + b)[1..] == a[1..] + b;
      var nl := a[0] == Newline;
      IndentedConcat(ind, nl, a[1..], b);
      var first := if !nl && atBegin then Spaces(ind) + [a[0]] else [a[0]];
      var rest := Indented(ind, nl, a[1..]);
      Assoc(first, rest.text, Indented(ind, rest.atBegin, b).text);
    }
  }

  lemma Assoc(a: string, b: string, c: string)
    ensures (a + b) + c == a + (b + c)
  {
  }

  predicate OneLine(s: string) {
    Newline !in s
  }

  lemma {:induction false} UnindentedLine(ind: nat, s: string)
    requires OneLine(s)
    ensures Indented(ind, false, s) == Written(s, false)
    decreases |s|
  {
    if s != "" {
      assert s[0] in s;
      UnindentedLine(ind, s[1..]);
      assert s == [s[0]] + s[1..];
    }
  }

  lemma IndentedLine(ind: nat, atBegin: bool, s: string)
    requires OneLine(s)
    ensures Indented(ind, atBegin, s) == if s == "" then Written("", atBegin) else Written((if atBegin then Spaces(ind) else "") + s, false)
  {
    if s != "" {
      assert s[0] in s;
      UnindentedLine(ind, s[1..]);
      assert s == [s[0]] + s[1..];
      Assoc(if atBegin then Spaces(ind) else "", [s[0]], s[1..]);
    }
  }

  // ---- splitting at newlines ---------------------------------------------------

  function Count(bytes: string): nat {
    if bytes == "" then 0 else (if bytes[0] == Newline then 1 else 0) + Count(bytes[1..])
  }

  /** bytes.SplitN at every newline. */
  function Split(bytes: string): (frags: seq<string>)
    ensures |frags| == Count(bytes) + 1
  {
    if bytes == "" then [""]
    else
      var rest := Split(bytes[1..]);
      if bytes[0] == Newline then [""] + rest else [[bytes[0]] + rest[0]] + rest[1..]
  }

  function Joined(frags: seq<string>): string
    requires frags != []
  {
    if |frags| == 1 then frags[0] else frags[0] + [Newline] + Joined(frags[1..])
  }

  lemma {:induction false} SplitJoins(bytes: string)
    ensures Joined(Split(bytes)) == bytes && forall i | 0 <= i < |Split(bytes)| :: OneLine(Split(bytes)[i])
  {
    if bytes != "" {
      SplitJoins(bytes[1..]);
      var rest, frags := Split(bytes[1..]), Split(bytes);
      assert bytes == [bytes[0]] + bytes[1..];
      if bytes[0] == Newline {
        assert frags[1..] == rest;
      } else {
        assert frags[1..] == rest[1..];
        if |rest| > 1 { assert Joined(rest) == rest[0] + [Newline] + Joined(rest[1..]); }
      }
    }
  }

  lemma JoinedFrom(frags: seq<string>, i: nat)
    requires i < |frags|
    ensures Joined(frags[i..]) == if i == |frags| - 1 then frags[i] else frags[i] + ([Newline] + Joined(frags[i + 1..]))
  {
    assert frags[i..][1..] == frags[i + 1..];
  }

  lemma OneLineWritten(ind: nat, atBegin: bool, p: string)
    requires Count(p) == 0
    ensures AfterWrite(ind, atBegin, p) == Written((if atBegin then Spaces(ind) else "") + p, false)
  {
    SplitJoins(p);
    assert Split(p)[0] == p;
    IndentedLine(ind, atBegin, p);
    assert p == "" ==> (if atBegin then Spaces(ind) else "") + p == if atBegin then Spaces(ind) else "";
  }

  // ---- the writer --------------------------------------------------------------

  /** What Write leaves: an empty chunk at the beginning of a line writes the indent alone. */
  function AfterWrite(ind: nat, atBegin: bool, p: string): Written {
    if p == "" then Written(if atBegin then Spaces(ind) else "", false) else Indented(ind, atBegin, p)
  }

  class Writer {
    var ind: nat
    var atBeginOfLine: bool
    var body: string

    constructor ()
      ensures ind == 0 && atBeginOfLine && body == ""
    {
      ind, atBeginOfLine, body := 0, true, "";
    }

    method WriteIndent()
      modifies this`body, this`atBeginOfLine
      ensures body == old(body) + (if old(atBeginOfLine) then Spaces(ind) else "") && !atBeginOfLine
    {
      if !atBeginOfLine { return; }
      body := body + Spaces(ind);
      atBeginOfLine := false;
    }

    /** Unlike Write, this indents a blank line. */
    method WriteByte(c: char)
      modifies this`body, this`atBeginOfLine
      ensures body == old(body) + (if old(atBeginOfLine) then Spaces(ind) else "") + [c] && atBeginOfLine == (c == Newline)
    {
      if atBeginOfLine { WriteIndent(); }
      body := body + [c];
      atBeginOfLine := c == Newline;
    }

    method WriteFrag(frag: string)
      requires OneLine(frag)
      modifies this`body, this`atBeginOfLine
      ensures body == old(body) + Indented(ind, old(atBeginOfLine), frag).text && !atBeginOfLine
    {
      IndentedLine(ind, atBeginOfLine, frag);
      if atBeginOfLine && frag != "" { WriteIndent(); }
      body := body + frag;
      atBeginOfLine := false;
    }

    method Write(p: string) returns (n: nat)
      modifies this`body, this`atBeginOfLine
      ensures n == |p|
      ensures var r := AfterWrite(ind, old(atBeginOfLine), p); body == old(body) + r.text && atBeginOfLine == r.atBegin
    {
      if Count(p) == 0 {
        OneLineWritten(ind, atBeginOfLine, p);
        n := WriteOneLine(p);
        return;
      }
      SplitJoins(p);
      var frags := Split(p);
      n := WriteFrags(frags);
    }

    method WriteOneLine(p: string) returns (n: nat)
      modifies this`body, this`atBeginOfLine
      ensures n == |p| && body == old(body) + ((if old(atBeginOfLine) then Spaces(ind) else "") + p) && !atBeginOfLine
    {
      Assoc(body, if atBeginOfLine then Spaces(ind) else "", p);
      if atBeginOfLine { WriteIndent(); }
      body := body + p;
      n, atBeginOfLine := |p|, false;
    }

    /** The fragments between newlines, and the newlines. */
    method WriteFrags(frags: seq<string>) returns (n: nat)
      requires |frags| > 1 && forall i | 0 <= i < |frags| :: OneLine(frags[i])
      modifies this`body, this`atBeginOfLine
      ensures n == |Joined(frags)|
      ensures var r := Indented(ind, old(atBeginOfLine), Joined(frags)); body == old(body) + r.text && atBeginOfLine == r.atBegin
    {
      n := 0;
      ghost var all := Indented(ind, atBeginOfLine, Joined(frags));
      for i := 0 to |frags| - 1
        invariant n + |Joined(frags[i..])| == |Joined(frags)| && (i > 0 ==> atBeginOfLine)
        invariant var r := Indented(ind, atBeginOfLine, Joined(frags[i..]));
          body + r.text == old(body) + all.text && r.atBegin == all.atBegin
      {
        JoinedFrom(frags, i);
        var written := WriteLineOf(frags[i], Joined(frags[i + 1..]));
        n := n + written;
      }
      JoinedFrom(frags, |frags| - 1);
      var written := WriteLast(frags[|frags| - 1]);
      n := n + written;
    }

    /** A fragment and the newline after it. */
    method WriteLineOf(frag: string, ghost rest: string) returns (n: nat)
      requires OneLine(frag)
      modifies this`body, this`atBeginOfLine
      ensures n == |frag| + 1 && atBeginOfLine
      ensures var r := Indented(ind, old(atBeginOfLine), frag + ([Newline] + rest));
        body + Indented(ind, true, rest).text == old(body) + r.text && r.atBegin == Indented(ind, true, rest).atBegin
    {
      LineThen(ind, atBeginOfLine, frag, rest, body);
      n := |frag|;
      WriteFrag(frag);
      WriteByte(Newline);
      n := n + 1;
    }

    method WriteLast(last: string) returns (n: nat)
      requires OneLine(last) && atBeginOfLine
      modifies this`body, this`atBeginOfLine
      ensures n == |last|
      ensures var r := Indented(ind, true, last); body == old(body) + r.text && atBeginOfLine == r.atBegin
    {
      IndentedLine(ind, true, last);
      WriteFrag(last);
      n := |last|;
      atBeginOfLine := |last| == 0;
    }

    /** Any chunks, one after the other. */
    method WriteAll(chunks: seq<string>)
      modifies this`body, this`atBeginOfLine
      ensures var r := AfterChunks(ind, old(atBeginOfLine), chunks); body == old(body) + r.text && atBeginOfLine == r.atBegin
    {
      for i := 0 to |chunks|
        invariant var r := AfterChunks(ind, old(atBeginOfLine), chunks[..i]); body == old(body) + r.text && atBeginOfLine == r.atBegin
      {
        assert chunks[..i + 1][..i] == chunks[..i];
        var _ := Write(chunks[i]);
      }
      assert chunks[..|chunks|] == chunks;
    }
  }

  lemma LineThen(ind: nat, atBegin: bool, line: string, rest: string, body: string)
    requires OneLine(line)
    ensures var r := Indented(ind, atBegin, line + ([Newline] + rest));
      var t := Indented(ind, true, rest);
      body + r.text == body + Indented(ind, atBegin, line).text + [Newline] + t.text && r.atBegin == t.atBegin
  {
    IndentedConcat(ind, atBegin, line, [Newline] + rest);
    assert ([Newline] + rest)[1..] == rest;
    var at := Indented(ind, atBegin, line).atBegin;
    assert Indented(ind, at, [Newline] + rest).text == [Newline] + Indented(ind, true, rest).text;
  }

  function AfterChunks(ind: nat, atBegin: bool, chunks: seq<string>): Written {
    if chunks == [] then Written("", atBegin)
    else
      var r := AfterChunks(ind, atBegin, chunks[..|chunks| - 1]);
      var t := AfterWrite(ind, r.atBegin, chunks[|chunks| - 1]);
      Written(r.text + t.text, t.atBegin)
  }

  function Concat(chunks: seq<string>): string {
    if chunks == [] then "" else Concat(chunks[..|chunks| - 1]) + chunks[|chunks| - 1]
  }

  // ---- chunk boundaries --------------------------------------------------------

  /** How many indents too many were written, and whether one was just written where the
      text is still at the beginning of a line. */
  datatype Strays = Strays(lost: nat, pending: bool)

  function StraysOf(ind: nat, atBegin: bool, chunks: seq<string>): Strays {
    if chunks == [] then Strays(0, false)
    else
      var init, last := chunks[..|chunks| - 1], chunks[|chunks| - 1];
      var r := StraysOf(ind, atBegin, init);
      if last == "" then Strays(r.lost, Indented(ind, atBegin, Concat(init)).atBegin)
      else if r.pending && last[0] == Newline then Strays(r.lost + 1, false)
      else Strays(r.lost, false)
  }

  lemma {:induction false} SpacesLength(n: nat)
    ensures |Spaces(n)| == n && forall i | 0 <= i < n :: Spaces(n)[i] == ' '
  {
    if n > 0 { SpacesLength(n - 1); }
  }

  /** `r` is written, and that is `pure` plus the stray indents. */
  ghost predicate Excess(ind: nat, r: Written, pure: Written, st: Strays) {
    && |r.text| == |pure.text| + ind * (st.lost + if st.pending then 1 else 0)
    && (st.lost == 0 ==> r.text == pure.text + if st.pending then Spaces(ind) else "")
    && r.atBegin == (pure.atBegin && !st.pending) && (st.pending ==> pure.atBegin)
  }

  /** The text written is that of the concatenation plus the stray indents. */
  ghost predicate Strayed(ind: nat, atBegin: bool, chunks: seq<string>) {
    Excess(ind, AfterChunks(ind, atBegin, chunks), Indented(ind, atBegin, Concat(chunks)), StraysOf(ind, atBegin, chunks))
  }

  lemma AfterIndent(ind: nat, last: string)
    requires last != ""
    ensures var a, b := Indented(ind, true, last), Indented(ind, false, last);
      a.atBegin == b.atBegin && a.text == if last[0] == Newline then b.text else Spaces(ind) + b.text
  {
    var b := Indented(ind, false, last);
    assert Spaces(ind) + [last[0]] + Indented(ind, last[0] == Newline, last[1..]).text == Spaces(ind) + b.text;
  }

  lemma {:induction false} ChunksStray(ind: nat, atBegin: bool, chunks: seq<string>)
    ensures Strayed(ind, atBegin, chunks)
    decreases |chunks|
  {
    if chunks != [] {
      var init, last := chunks[..|chunks| - 1], chunks[|chunks| - 1];
      assert init + [last] == chunks;
      ChunksStray(ind, atBegin, init);
      if last == "" { EmptyStrays(ind, atBegin, init); } else { ChunkStrays(ind, atBegin, init, last); }
    }
  }

  lemma EmptyStrays(ind: nat, atBegin: bool, init: seq<string>)
    requires Strayed(ind, atBegin, init)
    ensures Strayed(ind, atBegin, init + [""])
  {
    var chunks := init + [""];
    assert chunks[..|chunks| - 1] == init;
    assert Concat(init) + "" == Concat(init);
    EmptyExcess(ind, AfterChunks(ind, atBegin, init), Indented(ind, atBegin, Concat(init)), StraysOf(ind, atBegin, init));
  }

  /** An empty chunk adds an indent at the beginning of a line, and nothing elsewhere. */
  lemma EmptyExcess(ind: nat, r: Written, pure: Written, st: Strays)
    requires Excess(ind, r, pure, st)
    ensures var t := AfterWrite(ind, r.atBegin, ""); Excess(ind, Written(r.text + t.text, t.atBegin), pure, Strays(st.lost, pure.atBegin))
  {
    SpacesLength(ind);
    assert r.text + "" == r.text && pure.text + "" == pure.text;
    assert ind * (st.lost + 1) == ind * st.lost + ind;
  }

  lemma ChunkStrays(ind: nat, atBegin: bool, init: seq<string>, last: string)
    requires Strayed(ind, atBegin, init) && last != ""
    ensures Strayed(ind, atBegin, init + [last])
  {
    var chunks := init + [last];
    assert chunks[..|chunks| - 1] == init;
    IndentedConcat(ind, atBegin, Concat(init), last);
    ChunkExcess(ind, AfterChunks(ind, atBegin, init), Indented(ind, atBegin, Concat(init)), StraysOf(ind, atBegin, init), last);
  }

  /** The indent before a newline is lost, that before anything else is not a stray one. */
  lemma ChunkExcess(ind: nat, r: Written, pure: Written, st: Strays, last: string)
    requires Excess(ind, r, pure, st) && last != ""
    ensures var t, u := Indented(ind, r.atBegin, last), Indented(ind, pure.atBegin, last);
      Excess(ind, Written(r.text + t.text, t.atBegin), Written(pure.text + u.text, u.atBegin),
             Strays(if st.pending && last[0] == Newline then st.lost + 1 else st.lost, false))
  {
    if st.pending {
      AfterIndent(ind, last);
      SpacesLength(ind);
      var t, u := Indented(ind, false, last).text, Indented(ind, true, last).text;
      PendingStrays(ind, r.text, pure.text, t, u, st.lost, last[0] == Newline);
    }
  }

  /** An indent that was written too early is the right one if the line goes on. */
  lemma PendingStrays(ind: nat, r: string, pure: string, t: string, u: string, lost: nat, newline: bool)
    requires |r| == |pure| + ind * (lost + 1) && (lost == 0 ==> r == pure + Spaces(ind))
    requires |Spaces(ind)| == ind && u == if newline then t else Spaces(ind) + t
    ensures |r + t| == |pure + u| + ind * (if newline then lost + 1 else lost)
    ensures lost == 0 && !newline ==> r + t == pure + u
  {
    assert (pure + Spaces(ind)) + t == pure + (Spaces(ind) + t);
    assert ind * (lost + 1) == ind * lost + ind;
  }

  /** Chunk boundaries do not show exactly when no indent strays: never when all chunks are
      non-empty, and otherwise unless an empty chunk at the beginning of a line is followed
      by a newline or by nothing. */
  lemma BoundariesShowIff(ind: nat, atBegin: bool, chunks: seq<string>)
    ensures AfterChunks(ind, atBegin, chunks).text == Indented(ind, atBegin, Concat(chunks)).text <==>
      ind == 0 || StraysOf(ind, atBegin, chunks) == Strays(0, false)
    ensures (forall i | 0 <= i < |chunks| :: chunks[i] != "") ==>
      AfterChunks(ind, atBegin, chunks) == Indented(ind, atBegin, Concat(chunks))
  {
    ChunksStray(ind, atBegin, chunks);
    if ind > 0 { NoExcessIff(ind, AfterChunks(ind, atBegin, chunks), Indented(ind, atBegin, Concat(chunks)), StraysOf(ind, atBegin, chunks)); }
    if forall i | 0 <= i < |chunks| :: chunks[i] != "" { NoStrays(ind, atBegin, chunks); }
    if ind == 0 { WithoutIndent(atBegin, chunks); }
  }

  lemma NoExcessIff(ind: nat, r: Written, pure: Written, st: Strays)
    requires ind > 0 && Excess(ind, r, pure, st)
    ensures r.text == pure.text <==> st == Strays(0, false)
    ensures st == Strays(0, false) ==> r == pure
  {
    SpacesLength(ind);
    var n := st.lost + if st.pending then 1 else 0;
    if n > 0 { assert ind * n > 0; }
    assert pure.text + "" == pure.text;
  }

  lemma {:induction false} NoStrays(ind: nat, atBegin: bool, chunks: seq<string>)
    requires forall i | 0 <= i < |chunks| :: chunks[i] != ""
    ensures StraysOf(ind, atBegin, chunks) == Strays(0, false)
    decreases |chunks|
  {
    if chunks != [] { NoStrays(ind, atBegin, chunks[..|chunks| - 1]); }
  }

  lemma {:induction false} Unindented(atBegin: bool, bytes: string)
    ensures Indented(0, atBegin, bytes).text == bytes
    decreases |bytes|
  {
    if bytes != "" {
      Unindented(bytes[0] == Newline, bytes[1..]);
      assert bytes == [bytes[0]] + bytes[1..];
    }
  }

  lemma {:induction false} WithoutIndent(atBegin: bool, chunks: seq<string>)
    ensures AfterChunks(0, atBegin, chunks).text == Indented(0, atBegin, Concat(chunks)).text
    decreases |chunks|
  {
    Unindented(atBegin, Concat(chunks));
    if chunks != [] {
      var init, last := chunks[..|chunks| - 1], chunks[|chunks| - 1];
      WithoutIndent(atBegin, init);
      Unindented(atBegin, Concat(init));
      Unindented(AfterChunks(0, atBegin, init).atBegin, last);
    }
  }
}
