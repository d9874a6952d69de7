/** Templates as trees, what they mean, and that parsing their printed form gives it. */
module FormatTemplates {
  import opened FormatParser

  datatype Test = NonEmpty | Equal(value: string) | NotEqual(value: string)

  datatype Item = Var(name: string) | When(name: string, test: Test, yes: Template, no: Option)

  datatype Option = Missing | Given(template: Template)

  /** Text, references and text in turn. */
  datatype Template = Last(text: string) | Next(text: string, item: Item, rest: Template)

  // ---- what a template means ---------------------------------------------------

  predicate Holds(test: Test, value: string) {
    match test
    case NonEmpty => value != ""
    case Equal(v) => value == v
    case NotEqual(v) => value != v
  }

  function Meaning(t: Template, env: Env): string {
    match t
    case Last(text) => text
    case Next(text, item, rest) => text + ItemMeaning(item, env) + Meaning(rest, env)
  }

  function ItemMeaning(i: Item, env: Env): string {
    match i
    case Var(name) => ValueOf(env, name)
    case When(name, test, yes, no) =>
      if Holds(test, ValueOf(env, name)) then Meaning(yes, env)
      else if no.Given? then Meaning(no.template, env) else ""
  }

  // ---- how it is printed -------------------------------------------------------

  function Escaped(s: string): string {
    if s == "" then ""
    else (if s[0] in {'%', '|', ')'} then ['%', s[0]] else [s[0]]) + Escaped(s[1..])
  }

  function PrintTest(test: Test): string {
    match test
    case NonEmpty => ""
    case Equal(v) => "==" + "'" + v + "'"
    case NotEqual(v) => "!=" + "'" + v + "'"
  }

  function Print(t: Template): string {
    match t
    case Last(text) => Escaped(text)
    case Next(text, item, rest) => Escaped(text) + ("%(" + (PrintItem(item) + Print(rest)))
  }

  function PrintItem(i: Item): string {
    match i
    case Var(name) => name + ")"
    case When(name, test, yes, no) => name + (PrintTest(test) + ("?" + (Print(yes) + PrintNo(no))))
  }

  function PrintNo(no: Option): string {
    if no.Given? then "|" + (Print(no.template) + ")") else ")"
  }

  // ---- which templates can be written ------------------------------------------

  predicate IsName(name: string) {
    name != "" && (forall i | 0 <= i < |name| :: IsWord(name[i]) || (i == 0 && name[i] == '@')) && (name[0] == '@' ==> |name| > 1)
  }

  predicate IsValue(v: string) {
    v != "" && forall i | 0 <= i < |v| :: IsWord(v[i]) || v[i] == ' '
  }

  predicate TestWritable(test: Test) {
    match test
    case NonEmpty => true
    case Equal(v) => IsValue(v)
    case NotEqual(v) => IsValue(v)
  }

  /** Text has no byte 1, which the parser uses for itself. */
  predicate Writable(t: Template) {
    match t
    case Last(text) => '\U{1}' !in text
    case Next(text, item, rest) => '\U{1}' !in text && ItemWritable(item) && Writable(rest)
  }

  predicate ItemWritable(i: Item) {
    match i
    case Var(name) => IsName(name)
    case When(name, test, yes, no) => IsName(name) && TestWritable(test) && Writable(yes) && (no.Given? ==> Writable(no.template))
  }

  // ---- text --------------------------------------------------------------------

  lemma {:induction false} EscapedLength(s: string, tail: string, stop: Stop)
    requires AtStop(tail, stop)
    ensures TextLength(Escaped(s) + tail, stop) == |Escaped(s)|
  {
    if s == "" {
      assert Escaped(s) + tail == tail;
    } else {
      EscapedLength(s[1..], tail, stop);
      var rest := Escaped(s[1..]) + tail;
      EscapedFirst(s, tail);
      if s[0] in {'%', '|', ')'} { PairLength(s[0], rest, stop); } else { PlainLength(s[0], rest, stop); }
    }
  }

  lemma EscapedFirst(s: string, tail: string)
    requires s != ""
    ensures Escaped(s) + tail == (if s[0] in {'%', '|', ')'} then ['%', s[0]] else [s[0]]) + (Escaped(s[1..]) + tail)
    ensures |Escaped(s)| == |Escaped(s[1..])| + if s[0] in {'%', '|', ')'} then 2 else 1
  {
    var first := if s[0] in {'%', '|', ')'} then ['%', s[0]] else [s[0]];
    Grouped(first, Escaped(s[1..]), tail);
  }

  lemma Grouped(a: string, b: string, c: string)
    ensures (a + b) + c == a + (b + c)
  {
  }

  lemma PairLength(c: char, rest: string, stop: Stop)
    requires c in {'%', '|', ')'}
    ensures TextLength(['%', c] + rest, stop) == Further(2, TextLength(rest, stop))
  {
    var all := ['%', c] + rest;
    assert all[0] == '%' && all[2..] == rest && all[..2][1] == c;
    assert !AtStop(all, stop);
  }

  lemma PlainLength(c: char, rest: string, stop: Stop)
    requires c !in {'%', '|', ')'}
    ensures TextLength([c] + rest, stop) == Further(1, TextLength(rest, stop))
  {
    var all := [c] + rest;
    assert all[0] == c && all[1..] == rest && (|all| > 1 ==> all[..2][0] == c);
    assert !AtStop(all, stop);
  }

  /** Marked text is what the parser makes of escaped text before it restores the percents. */
  function Marked(s: string): string {
    if s == "" then "" else [if s[0] == '%' then '\U{1}' else s[0]] + Marked(s[1..])
  }

  lemma MarkPercent(rest: string)
    ensures ReplaceDoubled(['%', '%'] + rest) == ['\U{1}'] + ReplaceDoubled(rest)
  {
    var all := ['%', '%'] + rest;
    assert all[..2] == "%%" && all[2..] == rest;
  }

  lemma MarkPlain(c: char, rest: string)
    requires c != '%'
    ensures ReplaceDoubled([c] + rest) == [c] + ReplaceDoubled(rest)
  {
    var all := [c] + rest;
    assert all[1..] == rest && (|all| > 1 ==> all[..2][0] == c);
  }

  lemma MarkPair(c: char, rest: string)
    requires c != '%'
    ensures ReplaceDoubled(['%', c] + rest) == ['%', c] + ReplaceDoubled(rest)
  {
    var all := ['%', c] + rest;
    assert all[..2][1] == c && all[1..] == [c] + rest;
    MarkPlain(c, rest);
    assert ['%'] + ([c] + ReplaceDoubled(rest)) == ['%', c] + ReplaceDoubled(rest);
  }

  lemma WithoutFirst(c: char, rest: string)
    ensures Without([c] + rest, '%') == (if c == '%' then "" else [c]) + Without(rest, '%')
  {
    assert ([c] + rest)[1..] == rest;
  }

  lemma {:induction false} EscapedMarks(s: string)
    ensures Without(ReplaceDoubled(Escaped(s)), '%') == Marked(s)
  {
    if s != "" {
      EscapedMarks(s[1..]);
      var rest := Escaped(s[1..]);
      var done := ReplaceDoubled(rest);
      if s[0] == '%' {
        MarkPercent(rest);
        WithoutFirst('\U{1}', done);
      } else if s[0] in {'|', ')'} {
        MarkPair(s[0], rest);
        WithoutFirst(s[0], done);
        WithoutFirst('%', [s[0]] + done);
        assert ['%', s[0]] + done == ['%'] + ([s[0]] + done);
        assert "" + Without([s[0]] + done, '%') == Without([s[0]] + done, '%');
      } else {
        MarkPlain(s[0], rest);
        WithoutFirst(s[0], done);
      }
    }
  }

  /** Escaped text comes back exactly when it has no byte 1. */
  lemma {:induction false} TextReturnsIff(s: string)
    ensures RemovePercent(Escaped(s)) == s <==> '\U{1}' !in s
  {
    EscapedMarks(s);
    MarkedReturnsIff(s);
  }

  lemma {:induction false} MarkedReturnsIff(s: string)
    ensures Replaced(Marked(s), '\U{1}', "%") == s <==> '\U{1}' !in s
  {
    if s != "" {
      MarkedReturnsIff(s[1..]);
      var r := Replaced(Marked(s), '\U{1}', "%");
      var c := if s[0] == '\U{1}' then '%' else s[0];
      assert r == [c] + Replaced(Marked(s[1..]), '\U{1}', "%");
      assert s == [s[0]] + s[1..];
      assert r == s <==> r[0] == s[0] && r[1..] == s[1..];
    }
  }

  // ---- names, values and tests -------------------------------------------------

  lemma {:induction false} WordsEnd(w: string, tail: string)
    requires (forall i | 0 <= i < |w| :: IsWord(w[i])) && (tail == "" || !IsWord(tail[0]))
    ensures WordLength(w + tail) == |w|
  {
    if w == "" {
      assert w + tail == tail;
    } else {
      assert (w + tail)[1..] == w[1..] + tail;
      WordsEnd(w[1..], tail);
    }
  }

  lemma NameEnds(name: string, tail: string)
    requires IsName(name) && (tail == "" || !IsWord(tail[0]))
    ensures VarLength(name + tail) == |name|
  {
    if name[0] == '@' {
      assert (name + tail)[1..] == name[1..] + tail;
      WordsEnd(name[1..], tail);
    } else {
      WordsEnd(name, tail);
    }
  }

  lemma {:induction false} ValueEnds(v: string, tail: string)
    requires (forall i | 0 <= i < |v| :: IsWord(v[i]) || v[i] == ' ') && tail != "" && tail[0] == '\''
    ensures WordsLength(v + tail) == |v|
  {
    if v == "" {
      assert v + tail == tail;
    } else {
      assert (v + tail)[1..] == v[1..] + tail;
      ValueEnds(v[1..], tail);
    }
  }

  lemma QuotedEnds(v: string, tail: string)
    requires IsValue(v)
    ensures var s := "'" + (v + ("'" + tail)); QuotedLength(s) == |v| && s[1..|v| + 1] == v && s[|v| + 2..] == tail
  {
    var s := "'" + (v + ("'" + tail));
    assert s[1..] == v + ("'" + tail);
    ValueEnds(v, "'" + tail);
  }

  lemma NoSearch(t: Tested, env: Env, value: string)
    requires t.Tested? && t.rest != "" && t.rest[0] != '~'
    ensures Search(t, env, value) == t
  {
  }

  lemma NoTestReads(tail: string, env: Env, value: string)
    requires tail != "" && tail[0] in {'?', ')'}
    ensures TestOf(tail, env, value) == Tested(tail, false, true)
  {
    assert Compare(tail, value) == Tested(tail, false, true);
    NoSearch(Compare(tail, value), env, value);
  }

  lemma ComparisonReads(equal: bool, v: string, tail: string, env: Env, value: string)
    requires IsValue(v) && tail != "" && tail[0] == '?'
    ensures TestOf((if equal then "==" else "!=") + ("'" + (v + ("'" + tail))), env, value) == Tested(tail, equal == (value == v), false)
  {
    var sign, quoted := if equal then "==" else "!=", "'" + (v + ("'" + tail));
    var s := sign + quoted;
    assert s[2..] == quoted && s[..2] == sign;
    QuotedEnds(v, tail);
    assert s[3..|v| + 3] == quoted[1..|v| + 1] && s[|v| + 4..] == quoted[|v| + 2..];
    assert Compare(s, value) == Tested(tail, equal == (value == v), false);
    NoSearch(Compare(s, value), env, value);
  }

  /** The test is read as it was meant, up to the question mark. */
  lemma TestReads(test: Test, tail: string, env: Env, value: string)
    requires TestWritable(test) && tail != "" && tail[0] == '?'
    ensures TestOf(PrintTest(test) + tail, env, value) == Tested(tail, !test.NonEmpty? && Holds(test, value), test.NonEmpty?)
    ensures !IsWord((PrintTest(test) + tail)[0])
  {
    match test
    case NonEmpty =>
      assert PrintTest(test) + tail == tail;
      NoTestReads(tail, env, value);
    case Equal(v) =>
      ComparisonPrints("==", v, tail);
      ComparisonReads(true, v, tail, env, value);
    case NotEqual(v) =>
      ComparisonPrints("!=", v, tail);
      ComparisonReads(false, v, tail, env, value);
  }

  lemma ComparisonPrints(sign: string, v: string, tail: string)
    requires sign != ""
    ensures (sign + "'" + v + "'") + tail == sign + ("'" + (v + ("'" + tail)))
    ensures ((sign + "'" + v + "'") + tail)[0] == sign[0]
  {
  }

  // ---- templates ---------------------------------------------------------------

  /** What may follow a printed template: the end of the input, or the end of a statement. */
  predicate Follows(tail: string, stop: Stop) {
    if stop.Default? then tail == "" else tail != "" && (tail[0] == ')' || (stop.Statement? && tail[0] == '|'))
  }

  lemma TextExpands(text: string, tail: string, stop: Stop, env: Env, acc: string, result: string)
    requires '\U{1}' !in text && AtStop(tail, stop) && Escaped(text) + tail != ""
    ensures var s := Escaped(text) + tail;
      Expand(s, stop, env, acc, result) ==
        if !StartsWith(tail, "%(") then Done(tail, acc + text)
        else
          var item := Reference(tail[2..], env, result);
          if item.Panic? then Panic else Expand(item.rest, stop, env, (acc + text) + item.result, (acc + text) + item.result)
  {
    TextReads(text, tail, stop);
  }

  lemma TextReads(text: string, tail: string, stop: Stop)
    requires AtStop(tail, stop)
    ensures TextOf(Escaped(text) + tail, stop) == (RemovePercent(Escaped(text)), tail)
    ensures '\U{1}' !in text ==> RemovePercent(Escaped(text)) == text
  {
    var s := Escaped(text) + tail;
    EscapedLength(text, tail, stop);
    TextReturnsIff(text);
    assert s[0..] == s;
    assert ItemStart(s, stop) == 0;
    assert s[0..|Escaped(text)|] == Escaped(text) && s[|Escaped(text)|..] == tail;
  }

  lemma NextPrints(t: Template, tail: string)
    requires t.Next?
    ensures var s := "%(" + (PrintItem(t.item) + (Print(t.rest) + tail));
      Print(t) + tail == Escaped(t.text) + s && s[2..] == PrintItem(t.item) + (Print(t.rest) + tail) && StartsWith(s, "%(")
  {
    var s := "%(" + (PrintItem(t.item) + (Print(t.rest) + tail));
    assert s[..2] == "%(";
    assert Print(t) + tail == Escaped(t.text) + s;
  }

  /** Text, a reference that expands as it should, and a rest that does. */
  lemma NextExpands(text: string, s: string, after: string, stop: Stop, env: Env, acc: string, result: string, item: string, o: Out)
    requires '\U{1}' !in text && StartsWith(s, "%(") && Reference(s[2..], env, result) == Done(after, item)
    requires Expand(after, stop, env, (acc + text) + item, (acc + text) + item) == o
    ensures Expand(Escaped(text) + s, stop, env, acc, result) == o
  {
    TextExpands(text, s, stop, env, acc, result);
  }

  lemma EscapedEmpty(text: string, tail: string)
    requires Escaped(text) + tail == ""
    ensures text == "" && tail == ""
  {
  }

  lemma LastExpands(text: string, tail: string, stop: Stop, env: Env, acc: string, result: string)
    requires '\U{1}' !in text && Follows(tail, stop) && Escaped(text) + tail != ""
    ensures Expand(Escaped(text) + tail, stop, env, acc, result) == Done(tail, acc + text)
  {
    FollowsIsStop(tail, stop);
    TextExpands(text, tail, stop, env, acc, result);
  }

  lemma FollowsIsStop(tail: string, stop: Stop)
    requires Follows(tail, stop)
    ensures AtStop(tail, stop) && !StartsWith(tail, "%(")
  {
  }

  /** Parsing a printed template gives its meaning and stops right behind it. */
  lemma {:induction false} TemplateExpands(t: Template, tail: string, stop: Stop, env: Env, acc: string, result: string)
    requires Writable(t) && Follows(tail, stop) && (Print(t) + tail == "" ==> result == acc)
    ensures Expand(Print(t) + tail, stop, env, acc, result) == Done(tail, acc + Meaning(t, env))
    decreases t
  {
    match t
    case Last(text) =>
      if Escaped(text) + tail == "" {
        EscapedEmpty(text, tail);
        assert Escaped(text) + tail == "" && acc + "" == acc;
      } else {
        LastExpands(text, tail, stop, env, acc, result);
      }
    case Next(text, item, rest) =>
      var now := (acc + text) + ItemMeaning(item, env);
      var after := Print(rest) + tail;
      ItemExpands(item, after, env, result);
      TemplateExpands(rest, tail, stop, env, now, now);
      NextPrints(t, tail);
      NextMeans(t, env, acc);
      NextExpands(text, "%(" + (PrintItem(item) + after), after, stop, env, acc, result, ItemMeaning(item, env), Done(tail, now + Meaning(rest, env)));
  }

  lemma NextMeans(t: Template, env: Env, acc: string)
    requires t.Next?
    ensures ((acc + t.text) + ItemMeaning(t.item, env)) + Meaning(t.rest, env) == acc + Meaning(t, env)
  {
  }

  lemma VarExpands(name: string, tail: string, env: Env, result: string)
    requires IsName(name)
    ensures Reference(PrintItem(Var(name)) + tail, env, result) == Done(tail, ValueOf(env, name))
  {
    var after := ")" + tail;
    var s := name + after;
    assert PrintItem(Var(name)) + tail == s;
    NameEnds(name, after);
    assert s[..|name|] == name && s[|name|..] == after;
    NoTestReads(after, env, ValueOf(env, name));
    NoBranches(tail, ValueOf(env, name), env, result);
  }

  lemma NoBranches(tail: string, value: string, env: Env, result: string)
    ensures Branches(Tested(")" + tail, false, true), value, env, result) == Done(tail, value)
  {
    assert (")" + tail)[1..] == tail;
  }

  lemma {:induction false} ItemExpands(i: Item, tail: string, env: Env, result: string)
    requires ItemWritable(i)
    ensures Reference(PrintItem(i) + tail, env, result) == Done(tail, ItemMeaning(i, env))
    decreases i
  {
    match i
    case Var(name) => VarExpands(name, tail, env, result);
    case When(name, test, yes, no) =>
      var noPart := PrintNo(no) + tail;
      TemplateExpands(yes, noPart, Statement, env, "", result);
      if no.Given? { TemplateExpands(no.template, ")" + tail, Ending, env, "", Meaning(yes, env)); }
      WhenExpands(name, test, yes, no, tail, env, result);
  }

  lemma BranchIs(c: char, x: string, stop: Stop, env: Env, result: string, o: Out)
    requires Expand(x, stop, env, "", result) == o
    ensures Branch([c] + x, true, stop, env, result) == o
  {
    assert ([c] + x)[1..] == x;
  }

  /** A statement that expands as it should, behind its operator. */
  lemma StatementExpands(c: char, t: Template, tail: string, stop: Stop, env: Env, result: string)
    requires Expand(Print(t) + tail, stop, env, "", result) == Done(tail, "" + Meaning(t, env))
    ensures Branch([c] + (Print(t) + tail), true, stop, env, result) == Done(tail, Meaning(t, env))
  {
    assert "" + Meaning(t, env) == Meaning(t, env);
    BranchIs(c, Print(t) + tail, stop, env, result, Done(tail, Meaning(t, env)));
  }

  lemma NoPrints(no: Option, tail: string)
    ensures PrintNo(no) + tail == if no.Given? then ['|'] + (Print(no.template) + (")" + tail)) else ")" + tail
  {
    if no.Given? {
      var p := Print(no.template);
      assert (p + ")") + tail == p + (")" + tail);
      assert ("|" + (p + ")")) + tail == ['|'] + ((p + ")") + tail);
    }
  }

  /** The part after the first statement, up to the closing parenthesis. */
  lemma NoExpands(no: Option, tail: string, env: Env, result: string)
    requires no.Given? ==> Expand(Print(no.template) + (")" + tail), Ending, env, "", result) == Done(")" + tail, "" + Meaning(no.template, env))
    ensures var s := PrintNo(no) + tail;
      && s != "" && s[0] == (if no.Given? then '|' else ')')
      && Branch(s, no.Given?, Ending, env, result) == Done(")" + tail, if no.Given? then Meaning(no.template, env) else result)
  {
    NoPrints(no, tail);
    if no.Given? { StatementExpands('|', no.template, ")" + tail, Ending, env, result); }
  }

  lemma ReferenceReads(name: string, test: Test, after: string, env: Env)
    requires IsName(name) && TestWritable(test) && after != "" && after[0] == '?'
    ensures var s, value := name + (PrintTest(test) + after), ValueOf(env, name);
      && VarLength(s) == |name| && s[..|name|] == name
      && TestOf(s[|name|..], env, value) == Tested(after, !test.NonEmpty? && Holds(test, value), test.NonEmpty?)
  {
    var rest := PrintTest(test) + after;
    var s := name + rest;
    TestReads(test, after, env, ValueOf(env, name));
    NameEnds(name, rest);
    assert s[..|name|] == name && s[|name|..] == rest;
  }

  /** A conditional reference, from its pieces. */
  lemma ReferenceIs(s: string, t: Tested, yes: Out, no: Out, env: Env, result: string)
    requires VarLength(s) > 0 && t.Tested? && TestOf(s[VarLength(s)..], env, ValueOf(env, s[..VarLength(s)])) == t
    requires t.rest != "" && t.rest[0] == '?' && yes.Done? && Branch(t.rest, true, Statement, env, result) == yes
    requires yes.rest != "" && no.Done? && Branch(yes.rest, yes.rest[0] == '|', Ending, env, yes.result) == no
    requires no.rest != "" && no.rest[0] == ')'
    ensures Reference(s, env, result) == Done(no.rest[1..],
      Choose(t, true, ValueOf(env, s[..VarLength(s)]), yes.result, if yes.rest[0] == '|' then no.result else ""))
  {
  }

  lemma WhenExpands(name: string, test: Test, yes: Template, no: Option, tail: string, env: Env, result: string)
    requires IsName(name) && TestWritable(test)
    requires var noPart := PrintNo(no) + tail; Expand(Print(yes) + noPart, Statement, env, "", result) == Done(noPart, "" + Meaning(yes, env))
    requires no.Given? ==> Expand(Print(no.template) + (")" + tail), Ending, env, "", Meaning(yes, env)) == Done(")" + tail, "" + Meaning(no.template, env))
    ensures Reference(PrintItem(When(name, test, yes, no)) + tail, env, result) == Done(tail, ItemMeaning(When(name, test, yes, no), env))
  {
    var noPart := PrintNo(no) + tail;
    var after := ['?'] + (Print(yes) + noPart);
    WhenPrints(name, test, yes, no, tail);
    ReferenceReads(name, test, after, env);
    StatementExpands('?', yes, noPart, Statement, env, result);
    NoExpands(no, tail, env, Meaning(yes, env));
    WhenJoins(name + (PrintTest(test) + after), name, test, yes, no, noPart, after, ")" + tail, env, result);
    assert (")" + tail)[1..] == tail;
  }

  lemma WhenJoins(s: string, name: string, test: Test, yes: Template, no: Option, noPart: string, after: string, close: string, env: Env, result: string)
    requires name != "" && VarLength(s) == |name| && s[..|name|] == name && after != "" && after[0] == '?'
    requires TestOf(s[|name|..], env, ValueOf(env, name)) == Tested(after, !test.NonEmpty? && Holds(test, ValueOf(env, name)), test.NonEmpty?)
    requires Branch(after, true, Statement, env, result) == Done(noPart, Meaning(yes, env))
    requires noPart != "" && noPart[0] == (if no.Given? then '|' else ')') && close != "" && close[0] == ')'
    requires Branch(noPart, no.Given?, Ending, env, Meaning(yes, env)) == Done(close, if no.Given? then Meaning(no.template, env) else Meaning(yes, env))
    ensures Reference(s, env, result) == Done(close[1..], ItemMeaning(When(name, test, yes, no), env))
  {
    var t := Tested(after, !test.NonEmpty? && Holds(test, ValueOf(env, name)), test.NonEmpty?);
    ReferenceIs(s, t, Done(noPart, Meaning(yes, env)), Done(close, if no.Given? then Meaning(no.template, env) else Meaning(yes, env)), env, result);
  }

  lemma WhenPrints(name: string, test: Test, yes: Template, no: Option, tail: string)
    ensures PrintItem(When(name, test, yes, no)) + tail == name + (PrintTest(test) + ("?" + (Print(yes) + (PrintNo(no) + tail))))
  {
    var a, b := Print(yes) + PrintNo(no), Print(yes) + (PrintNo(no) + tail);
    assert a + tail == b;
    assert ("?" + a) + tail == "?" + b;
    assert (PrintTest(test) + ("?" + a)) + tail == PrintTest(test) + ("?" + b);
    assert (name + (PrintTest(test) + ("?" + a))) + tail == name + (PrintTest(test) + ("?" + b));
  }

  /** For every template that can be written, parsing its printed form consumes all of it
      and gives its meaning, with newlines written as two characters. */
  lemma TemplatesFormat(t: Template, env: Env)
    requires Writable(t)
    ensures Expand(Print(t), Default, env, "", "") == Done("", Meaning(t, env))
    ensures Format(Print(t), env) == Formatted(Replaced(Meaning(t, env), '\n', "\\n"))
  {
    assert Print(t) + "" == Print(t) && "" + Meaning(t, env) == Meaning(t, env);
    TemplateExpands(t, "", Default, env, "", "");
  }

  /** A stretch of plain text formats to itself exactly when it has no byte 1. */
  lemma TextFormatsIff(s: string, env: Env)
    ensures Expand(Escaped(s), Default, env, "", "") == Done("", s) <==> '\U{1}' !in s
  {
    if s != "" {
      var e := Escaped(s);
      assert e + "" == e;
      TextReads(s, "", Default);
      TextReturnsIff(s);
      assert "" + RemovePercent(e) == RemovePercent(e);
    }
  }
}
