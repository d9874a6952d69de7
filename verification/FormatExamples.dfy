/** The format strings one writes, and the text each of them gives (pkg/cmdutils/fmtparser.go). */
module FormatExamples {
  import opened FormatParser
  import opened FormatTemplates

  /** Text that means itself. */
  predicate IsPlain(s: string) {
    forall i | 0 <= i < |s| :: s[i] !in {'%', '|', ')', '\n', '\U{1}'}
  }

  lemma {:induction false} PlainIsNotEscaped(s: string)
    requires IsPlain(s)
    ensures Escaped(s) == s && '\U{1}' !in s && Replaced(s, '\n', "\\n") == s
  {
    if s != "" {
      PlainIsNotEscaped(s[1..]);
      assert s == [s[0]] + s[1..];
    }
  }

  // ---- newlines ----------------------------------------------------------------

  lemma {:induction false} ReplacedJoins(a: string, b: string)
    ensures Replaced(a + b, '\n', "\\n") == Replaced(a, '\n', "\\n") + Replaced(b, '\n', "\\n")
  {
    if a == "" {
      assert a + b == b;
    } else {
      assert (a + b)[0] == a[0] && (a + b)[1..] == a[1..] + b;
      ReplacedJoins(a[1..], b);
    }
  }

  lemma {:induction false} NoNewlines(s: string)
    ensures '\n' !in Replaced(s, '\n', "\\n")
  {
    if s != "" { NoNewlines(s[1..]); }
  }

  /** Newlines are written as a backslash and an n, and nothing else is changed. */
  lemma NewlinesAreShown(a: string, b: string)
    requires IsPlain(a)
    ensures Replaced(a + "\n" + b, '\n', "\\n") == a + "\\n" + Replaced(b, '\n', "\\n")
    ensures '\n' !in Replaced(b, '\n', "\\n")
  {
    PlainIsNotEscaped(a);
    ReplacedJoins(a, "\n" + b);
    assert a + "\n" + b == a + ("\n" + b) && ("\n" + b)[1..] == b;
    NoNewlines(b);
  }

  // ---- variables ---------------------------------------------------------------

  /** Words of letters, digits and underscores are names, and so they are behind an at sign. */
  lemma WordsAreNames(name: string)
    requires name != "" && forall i | 0 <= i < |name| :: 'a' <= name[i] <= 'z' || 'A' <= name[i] <= 'Z' || '0' <= name[i] <= '9' || name[i] == '_'
    ensures IsName(name) && IsName("@" + name)
  {
    var at := "@" + name;
    assert forall i | 0 < i < |at| :: at[i] == name[i - 1];
  }

  /** What the attribute says; nothing if there is none of the name. */
  ghost predicate IsValueOf(env: Env, name: string, value: string) {
    if name in env.attrs then env.attrs[name] == value else value == ""
  }

  lemma Formats(s: string, t: Template, env: Env, text: string)
    requires Writable(t) && Print(t) == s && Meaning(t, env) == text && IsPlain(text)
    ensures Format(s, env) == Formatted(text)
  {
    TemplatesFormat(t, env);
    PlainIsNotEscaped(text);
  }

  lemma Plus(a: string, b: string, c: string)
    ensures (a + b) + c == a + (b + c) && "" + a == a && a + "" == a
  {
  }

  lemma ThreePlain(a: string, b: string, c: string)
    requires IsPlain(a) && IsPlain(b) && IsPlain(c)
    ensures IsPlain(a + b + c)
  {
  }

  /** A reference gives the value of the attribute it names, between the texts around it. */
  lemma VariableFormats(before: string, name: string, after: string, env: Env, value: string)
    requires IsPlain(before) && IsName(name) && IsPlain(after) && IsPlain(value) && IsValueOf(env, name, value)
    ensures Format(before + ("%(" + ((name + ")") + after)), env) == Formatted(before + value + after)
  {
    var t := Next(before, Var(name), Last(after));
    PlainIsNotEscaped(before);
    PlainIsNotEscaped(after);
    ThreePlain(before, value, after);
    assert Print(Last(after)) == after && Meaning(Last(after), env) == after;
    Formats(before + ("%(" + ((name + ")") + after)), t, env, before + value + after);
  }

  // ---- conditionals ------------------------------------------------------------

  /** A reference with two texts to choose from. */
  function Conditional(name: string, test: string, yes: string, no: string): string {
    "%(" + (name + (test + ("?" + (yes + ("|" + (no + ")"))))))
  }

  function ConditionalTree(name: string, test: Test, yes: string, no: string): Template {
    Next("", When(name, test, Last(yes), Given(Last(no))), Last(""))
  }

  lemma ConditionalPrints(name: string, test: Test, yes: string, no: string)
    requires IsPlain(yes) && IsPlain(no)
    ensures Print(ConditionalTree(name, test, yes, no)) == Conditional(name, PrintTest(test), yes, no)
  {
    PlainIsNotEscaped(yes);
    PlainIsNotEscaped(no);
    var item := When(name, test, Last(yes), Given(Last(no)));
    assert Print(Last(yes)) == yes && Print(Last(no)) == no;
    assert PrintNo(Given(Last(no))) == "|" + (no + ")");
    assert PrintItem(item) == name + (PrintTest(test) + ("?" + (yes + ("|" + (no + ")")))));
    assert Print(Last("")) == "";
    Plus(PrintItem(item), "", "");
    Plus("%(" + PrintItem(item), "", "");
  }

  lemma ConditionalMeans(name: string, test: Test, yes: string, no: string, env: Env, value: string)
    requires IsValueOf(env, name, value)
    ensures Meaning(ConditionalTree(name, test, yes, no), env) == if Holds(test, value) then yes else no
  {
    assert Meaning(Last(""), env) == "" && Meaning(Last(yes), env) == yes && Meaning(Last(no), env) == no;
    assert ItemMeaning(When(name, test, Last(yes), Given(Last(no))), env) == if Holds(test, value) then yes else no;
    Plus(if Holds(test, value) then yes else no, "", "");
  }

  lemma ConditionalFormats(name: string, test: Test, yes: string, no: string, env: Env, value: string)
    requires IsName(name) && TestWritable(test) && IsPlain(yes) && IsPlain(no) && IsValueOf(env, name, value)
    ensures Format(Conditional(name, PrintTest(test), yes, no), env) == Formatted(if Holds(test, value) then yes else no)
  {
    ConditionalPrints(name, test, yes, no);
    ConditionalMeans(name, test, yes, no, env, value);
    PlainIsNotEscaped(yes);
    PlainIsNotEscaped(no);
    Formats(Conditional(name, PrintTest(test), yes, no), ConditionalTree(name, test, yes, no), env, if Holds(test, value) then yes else no);
  }

  /** A reference that compares the value with a quoted one: with two equal signs the first text
      is for equal values, with an exclamation mark for different ones; without a comparison it
      is for any value at all. */
  lemma ComparisonFormats(name: string, v: string, yes: string, no: string, env: Env, value: string)
    requires IsName(name) && IsValue(v) && IsPlain(yes) && IsPlain(no) && IsValueOf(env, name, value)
    ensures Format(Conditional(name, "==" + "'" + v + "'", yes, no), env) == Formatted(if value == v then yes else no)
    ensures Format(Conditional(name, "!=" + "'" + v + "'", yes, no), env) == Formatted(if value == v then no else yes)
    ensures Format(Conditional(name, "", yes, no), env) == Formatted(if value == "" then no else yes)
  {
    ConditionalFormats(name, Equal(v), yes, no, env, value);
    ConditionalFormats(name, NotEqual(v), yes, no, env, value);
    ConditionalFormats(name, NonEmpty, yes, no, env, value);
  }

  // ---- searches ----------------------------------------------------------------

  lemma {:induction false} PatternEnds(p: string, tail: string)
    requires '/' !in p && tail != "" && tail[0] == '/'
    ensures NoSlashLength(p + tail) == |p|
  {
    if p == "" {
      assert p + tail == tail;
    } else {
      assert p[0] in p && (p + tail)[1..] == p[1..] + tail && (p + tail)[0] == p[0];
      PatternEnds(p[1..], tail);
    }
  }

  /** A search between slashes behind a tilde holds if the value has a match of the pattern. */
  lemma SearchReads(p: string, tail: string, env: Env, value: string)
    requires p != "" && '/' !in p
    ensures TestOf("~/" + (p + ("/" + tail)), env, value) == Tested(tail, env.search(p, value), false)
  {
    var end := "/" + tail;
    var s := "~/" + (p + end);
    assert s[2..] == p + end && s[..2] == "~/";
    PatternEnds(p, end);
    assert s[2..|p| + 2] == p && s[|p| + 3..] == tail;
    assert Compare(s, value) == Tested(s, false, true);
  }
}
