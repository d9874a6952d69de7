/** The format-string parser (pkg/cmdutils/fmtparser.go): the regular expressions it matches
    with, what one run of it does to the rest of the input, and the parser as an object. */
module FormatParser {
  /** The three item patterns differ in what ends the text before a reference. */
  datatype Stop = Default | Statement | Ending

  /** The attributes of a run; `search` is the regular-expression search of a value. */
  datatype Env = Env(attrs: map<string, string>, search: (string, string) -> bool)

  function ValueOf(env: Env, name: string): string {
    if name in env.attrs then env.attrs[name] else ""
  }

  predicate StartsWith(s: string, prefix: string) {
    |prefix| <= |s| && s[..|prefix|] == prefix
  }

  // ---- the patterns ------------------------------------------------------------

  predicate AtStop(s: string, stop: Stop) {
    || s == "" || StartsWith(s, "%(")
    || (stop.Statement? && s[0] == '|') || (!stop.Default? && s[0] == ')')
  }

  /** How far the text of an item goes, matching from the beginning: a percent sign takes
      the next character along; -1 if it cannot. */
  function TextLength(s: string, stop: Stop): int
    ensures TextLength(s, stop) <= |s|
  {
    if AtStop(s, stop) then 0
    else if s[0] != '%' then Further(1, TextLength(s[1..], stop))
    else if |s| > 1 && s[1] != '\n' then Further(2, TextLength(s[2..], stop))
    else -1
  }

  function Further(n: nat, m: int): int {
    if m < 0 then -1 else n + m
  }

  /** The leftmost match: later than the beginning only if there is none there. */
  function ItemStart(s: string, stop: Stop): (i: nat)
    ensures i <= |s| && TextLength(s[i..], stop) >= 0
  {
    if TextLength(s, stop) >= 0 then assert s[0..] == s; 0
    else
      var i := ItemStart(s[1..], stop);
      assert s[1..][i..] == s[1 + i..];
      1 + i
  }

  predicate IsWord(c: char) {
    '0' <= c <= '9' || 'A' <= c <= 'Z' || 'a' <= c <= 'z' || c == '_'
  }

  function WordLength(s: string): (n: nat)
    ensures n <= |s|
  {
    if s == "" || !IsWord(s[0]) then 0 else 1 + WordLength(s[1..])
  }

  /** A variable: a word, perhaps after an at sign; 0 is no match. */
  function VarLength(s: string): (n: nat)
    ensures n <= |s|
  {
    if s != "" && s[0] == '@' then (if WordLength(s[1..]) == 0 then 0 else 1 + WordLength(s[1..])) else WordLength(s)
  }

  function WordsLength(s: string): (n: nat)
    ensures n <= |s|
  {
    if s == "" || !(IsWord(s[0]) || s[0] == ' ') then 0 else 1 + WordsLength(s[1..])
  }

  /** A value in quotes: its length without them; 0 is no match. */
  function QuotedLength(s: string): (n: nat)
    ensures n > 0 ==> n + 2 <= |s|
  {
    if s == "" || s[0] != '\'' then 0
    else
      var n := WordsLength(s[1..]);
      if n > 0 && n + 1 < |s| && s[n + 1] == '\'' then n else 0
  }

  function NoSlashLength(s: string): (n: nat)
    ensures n <= |s|
  {
    if s == "" || s[0] == '/' then 0 else 1 + NoSlashLength(s[1..])
  }

  /** A search between slashes after a tilde: the length of the pattern; 0 is no match. */
  function SearchLength(s: string): (n: nat)
    ensures n > 0 ==> n + 3 <= |s|
  {
    if !StartsWith(s, "~/") then 0
    else
      var n := NoSlashLength(s[2..]);
      if n > 0 && n + 2 < |s| then n else 0
  }

  /** RemovePercentSymbol: by way of a byte 1 that stands for a percent sign. */
  function ReplaceDoubled(s: string): string {
    if s == "" then ""
    else if StartsWith(s, "%%") then "\U{1}" + ReplaceDoubled(s[2..])
    else [s[0]] + ReplaceDoubled(s[1..])
  }

  function Without(s: string, c: char): string {
    if s == "" then "" else (if s[0] == c then "" else [s[0]]) + Without(s[1..], c)
  }

  function Replaced(s: string, c: char, put: string): string {
    if s == "" then "" else (if s[0] == c then put else [s[0]]) + Replaced(s[1..], c, put)
  }

  function RemovePercent(s: string): string {
    Replaced(Without(ReplaceDoubled(s), '%'), '\U{1}', "%")
  }

  // ---- one run -----------------------------------------------------------------

  /** What is left of the input, and the parser's Result. */
  datatype Out = Panic | Done(rest: string, result: string)

  datatype Tested = BadTest | Tested(rest: string, yes: bool, plain: bool)

  /** The comparison after a variable, if there is one. `plain` says there is none. */
  function Compare(s: string, value: string): Tested {
    if StartsWith(s, "==") || StartsWith(s, "!=") then
      var n := QuotedLength(s[2..]);
      if n == 0 then BadTest
      else
        var v := s[3..n + 3];
        Tested(s[n + 4..], (s[0] == '=') == (value == v), false)
    else Tested(s, false, true)
  }

  /** And the search, if there is one. */
  function Search(t: Tested, env: Env, value: string): Tested {
    if t.BadTest? then BadTest
    else
      var n := SearchLength(t.rest);
      if n == 0 then t else Tested(t.rest[n + 3..], t.yes || env.search(t.rest[2..n + 2], value), false)
  }

  function TestOf(s: string, env: Env, value: string): (t: Tested)
    ensures t.Tested? ==> |t.rest| <= |s|
  {
    Search(Compare(s, value), env, value)
  }

  /** The text an item matches. */
  function ItemText(s: string, stop: Stop): (text: string)
    ensures |text| <= |s|
  {
    var i := ItemStart(s, stop);
    s[i..i + TextLength(s[i..], stop)]
  }

  /** It without its percent signs, and what is left once as many characters have been
      consumed as were matched. */
  function TextOf(s: string, stop: Stop): (r: (string, string))
    ensures |r.1| <= |s|
  {
    var text := ItemText(s, stop);
    (RemovePercent(text), s[|text|..])
  }

  /** Expansions: `acc` is what this call has gathered, `result` the field Result. */
  function Expand(s: string, stop: Stop, env: Env, acc: string, result: string): (o: Out)
    ensures o.Done? ==> |o.rest| <= |s|
    decreases |s|, 1
  {
    if s == "" then Done("", result)
    else
      var (text, s1) := TextOf(s, stop);
      var acc1 := acc + text;
      if !StartsWith(s1, "%(") then Done(s1, acc1)
      else
        var item := Reference(s1[2..], env, result);
        if item.Panic? then Panic else Expand(item.rest, stop, env, acc1 + item.result, acc1 + item.result)
  }

  /** The statement after an operator, if the operator is there: Done with the parser's Result. */
  function Branch(s: string, there: bool, stop: Stop, env: Env, result: string): (o: Out)
    requires there ==> s != ""
    ensures o.Done? ==> |o.rest| <= |s|
    decreases |s|, 0
  {
    if there then Expand(s[1..], stop, env, "", result) else Done(s, result)
  }

  /** A reference, after its opening; the result is the text it expands to. */
  function Reference(s: string, env: Env, result: string): (o: Out)
    ensures o.Done? ==> |o.rest| < |s|
    decreases |s|, 2
  {
    var n := VarLength(s);
    if n == 0 then Panic
    else
      var value := ValueOf(env, s[..n]);
      var t := TestOf(s[n..], env, value);
      if t.BadTest? then Panic else Branches(t, value, env, result)
  }

  /** The statements of a reference, and its end. */
  function Branches(t: Tested, value: string, env: Env, result: string): (o: Out)
    requires t.Tested?
    ensures o.Done? ==> |o.rest| < |t.rest|
    decreases |t.rest|, 3
  {
    var have := t.rest != "" && t.rest[0] in {'=', '?'};
    var yes := Branch(t.rest, have, Statement, env, result);
    if yes.Panic? then Panic
    else
      var haveNot := yes.rest != "" && yes.rest[0] == '|';
      var no := Branch(yes.rest, haveNot, Ending, env, yes.result);
      if no.Panic? || no.rest == "" || no.rest[0] != ')' then Panic
      else Done(no.rest[1..], Choose(t, have, value, if have then yes.result else "", if haveNot then no.result else ""))
  }

  /** Which of the value and the two statements is used. */
  function Choose(t: Tested, have: bool, value: string, yes: string, no: string): string
    requires t.Tested?
  {
    if t.plain && !have then value
    else if t.yes || (t.plain && value != "") then yes
    else no
  }

  /** Parse: everything expanded, newlines written as two characters; None is a panic. */
  datatype Formatted = Failed | Formatted(text: string)

  function Format(s: string, env: Env): Formatted {
    var o := Expand(s, Default, env, "", "");
    if o.Panic? then Failed else Formatted(Replaced(o.result, '\n', "\\n"))
  }
}
