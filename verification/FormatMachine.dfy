/** The format-string parser as an object (pkg/cmdutils/fmtparser.go): a position in the
    input, a stack of matched texts, and the fields Result and Oper. */
module FormatMachine {
  import opened FormatParser
  import opened FormatTemplates

  datatype Pattern = Text(stop: Stop) | VarStart | VarName | CondOper | SearchFor | CondVal | StmtOper | NoStmtOper | StmtEnd

  /** A match without groups, with one, and with two, of which the second is only looked at. */
  datatype Match = NoMatch | Symbol(length: nat) | Word(length: nat, group: string) | Lookahead(group: string)

  function Matched(p: Pattern, s: string): (m: Match)
    ensures m.Symbol? || m.Word? ==> m.length <= |s|
    ensures m.Lookahead? ==> |m.group| <= |s|
  {
    match p
    case Text(stop) => Lookahead(ItemText(s, stop))
    case VarStart => if StartsWith(s, "%(") then Symbol(2) else NoMatch
    case VarName => if VarLength(s) > 0 then Word(VarLength(s), s[..VarLength(s)]) else NoMatch
    case CondOper => if StartsWith(s, "==") || StartsWith(s, "!=") then Symbol(2) else NoMatch
    case SearchFor => if SearchLength(s) > 0 then Word(SearchLength(s) + 3, s[2..SearchLength(s) + 2]) else NoMatch
    case CondVal => if QuotedLength(s) > 0 then Word(QuotedLength(s) + 2, s[1..QuotedLength(s) + 1]) else NoMatch
    case StmtOper => if s != "" && s[0] in {'=', '?'} then Symbol(1) else NoMatch
    case NoStmtOper => if s != "" && s[0] == '|' then Symbol(1) else NoMatch
    case StmtEnd => if s != "" && s[0] == ')' then Symbol(1) else NoMatch
  }

  // What each method of the parser makes of the rest of the input.

  function ExpansionsGive(s: string, stop: Stop, env: Env, result: string): Out { Expand(s, stop, env, "", result) }

  function ReferenceGives(s: string, env: Env, result: string): Out { Reference(s, env, result) }

  function BranchesGive(s: string, yes: bool, plain: bool, value: string, env: Env, result: string): Out {
    Branches(Tested(s, yes, plain), value, env, result)
  }

  function BranchGives(s: string, have: bool, stop: Stop, env: Env, result: string): Out
    requires have ==> s != ""
  {
    Branch(s, have, stop, env, result)
  }

  // One step of each function, as the methods take it.

  /** One item of Expansions: it is the last, or another may follow. */
  datatype Step = Final(o: Out) | Further(rest: string, acc: string)

  function ItemGives(s: string, stop: Stop, env: Env, acc: string, result: string): Step {
    if s == "" then Final(Done("", result))
    else
      var (text, rest) := TextOf(s, stop);
      AfterText(rest, env, acc + text, result)
  }

  function AfterText(s: string, env: Env, acc: string, result: string): Step {
    if !StartsWith(s, "%(") then Final(Done(s, acc))
    else
      var item := ReferenceGives(s[2..], env, result);
      if item.Panic? then Final(Panic) else Further(item.rest, acc + item.result)
  }

  lemma ExpandStarts(s: string, stop: Stop, env: Env, acc: string, result: string)
    ensures var step := ItemGives(s, stop, env, acc, result);
      ExpandGives(s, stop, env, acc, result) == if step.Final? then step.o else ExpandGives(step.rest, stop, env, step.acc, step.acc)
  {
  }

  function ExpandGives(s: string, stop: Stop, env: Env, acc: string, result: string): Out { Expand(s, stop, env, acc, result) }

  lemma ReferenceStarts(s: string, env: Env, result: string)
    ensures ReferenceGives(s, env, result) ==
      var n := VarLength(s);
      if n == 0 then Panic else AfterName(s[n..], env, ValueOf(env, s[..n]), result)
  {
  }

  /** A reference behind its variable. */
  function AfterName(s: string, env: Env, value: string, result: string): Out {
    var t := TestOf(s, env, value);
    if t.BadTest? then Panic else Branches(t, value, env, result)
  }

  lemma BranchesAre(t: Tested, value: string, env: Env, result: string)
    requires t.Tested?
    ensures Branches(t, value, env, result) ==
      var have := t.rest != "" && t.rest[0] in {'=', '?'};
      var yes := Branch(t.rest, have, Statement, env, result);
      if yes.Panic? then Panic
      else
        var haveNot := yes.rest != "" && yes.rest[0] == '|';
        var no := Branch(yes.rest, haveNot, Ending, env, yes.result);
        if no.Panic? || no.rest == "" || no.rest[0] != ')' then Panic
        else Done(no.rest[1..], Choose(t, have, value, if have then yes.result else "", if haveNot then no.result else ""))
  {
  }

  lemma QuotedAfterSign(s: string, n: nat)
    requires n + 4 <= |s|
    ensures s[2..][1..n + 1] == s[3..n + 3] && s[2..][n + 2..] == s[n + 4..]
  {
    var quoted, group, rest := s[2..], s[3..n + 3], s[n + 4..];
    assert |quoted[1..n + 1]| == |group| && forall i | 0 <= i < n :: quoted[1..n + 1][i] == group[i];
    assert |quoted[n + 2..]| == |rest| && forall i | 0 <= i < |rest| :: quoted[n + 2..][i] == rest[i];
  }

  lemma ComparisonIs(s: string, value: string)
    ensures Compare(s, value) ==
      if !(s != "" && Matched(CondOper, s).Symbol?) then Tested(s, false, true)
      else
        var oper, quoted := s[..2], s[2..];
        var m := Matched(CondVal, quoted);
        if quoted == "" || m.NoMatch? then BadTest
        else Tested(quoted[m.length..], (oper == "==" && value == m.group) || (oper == "!=" && value != m.group), false)
  {
    if StartsWith(s, "==") || StartsWith(s, "!=") {
      OperatorIs(s);
      var quoted := s[2..];
      var n := QuotedLength(quoted);
      if n > 0 { QuotedAfterSign(s, n); }
    }
  }

  lemma OperatorIs(s: string)
    requires StartsWith(s, "==") || StartsWith(s, "!=")
    ensures (s[..2] == "==" <==> s[0] == '=') && (s[..2] == "!=" <==> s[0] != '=')
  {
    assert s[..2][0] == s[0] && s[..2][1] == s[1];
    assert s[..2] == [s[0], s[1]];
  }

  class Parser {
    const self: string
    var curPos: nat
    var stk: seq<string>
    var result: string
    var oper: string

    constructor (fmtStr: string)
      ensures self == fmtStr && Cleared()
    {
      self, curPos, stk, result, oper := fmtStr, 0, [], "", "";
    }

    predicate Valid()
      reads this
    {
      curPos <= |self|
    }

    /** Ready for a run. */
    predicate Cleared()
      reads this
    {
      curPos == 0 && stk == [] && result == "" && oper == ""
    }

    function Left(): string
      reads this
      requires Valid()
    {
      self[curPos..]
    }

    /** Consumes a match; the position never moves back. */
    method Consume(m: Match) returns (eaten: bool)
      requires Valid() && (m.Symbol? || m.Word? ==> m.length <= |Left()|) && (m.Lookahead? ==> |m.group| <= |Left()|)
      modifies this`curPos, this`stk, this`oper
      ensures Valid() && curPos >= old(curPos) && eaten == !m.NoMatch?
      ensures Left() == match m { case NoMatch => old(Left()) case Symbol(n) => old(Left())[n..] case Word(n, _) => old(Left())[n..] case Lookahead(g) => old(Left())[|g|..] }
      ensures stk == match m { case Word(_, g) => old(stk) + [g] case Lookahead(g) => old(stk) + [g] case _ => old(stk) }
      ensures oper == if m.Symbol? then old(Left())[..m.length] else old(oper)
    {
      var matchStr := self[curPos..];
      eaten := true;
      match m
      case NoMatch => eaten := false;
      case Symbol(length) =>
        curPos := curPos + length;
        oper := matchStr[..length];
      case Word(length, group) =>
        stk := stk + [group];
        curPos := curPos + length;
      case Lookahead(group) =>
        stk := stk + [group];
        curPos := curPos + |group|;
    }

    method Pop() returns (popped: string)
      modifies this`stk
      ensures old(stk) == [] ==> popped == "" && stk == []
      ensures old(stk) != [] ==> popped == old(stk)[|old(stk)| - 1] && stk == old(stk)[..|old(stk)| - 1]
    {
      if |stk| == 0 { return ""; }
      popped := stk[|stk| - 1];
      stk := stk[..|stk| - 1];
    }

    /** A match without text. */
    method Eat(p: Pattern) returns (eaten: bool)
      requires Valid() && (Left() != "" ==> Matched(p, Left()).NoMatch? || Matched(p, Left()).Symbol?)
      modifies this`curPos, this`stk, this`oper
      ensures Valid() && curPos >= old(curPos) && stk == old(stk)
      ensures eaten == (old(Left()) != "" && Matched(p, old(Left())).Symbol?)
      ensures if eaten then Left() == old(Left())[Matched(p, old(Left())).length..] && oper == old(Left())[..Matched(p, old(Left())).length]
        else Left() == old(Left()) && oper == old(oper)
    {
      if Left() == "" { return false; }
      eaten := Consume(Matched(p, Left()));
    }

    /** A match with a text, taken off the stack again at once. */
    method EatText(p: Pattern) returns (eaten: bool, text: string)
      requires Valid() && (Left() != "" ==> !Matched(p, Left()).Symbol?)
      modifies this`curPos, this`stk, this`oper
      ensures Valid() && curPos >= old(curPos) && stk == old(stk) && oper == old(oper)
      ensures eaten == (old(Left()) != "" && !Matched(p, old(Left())).NoMatch?)
      ensures if !eaten then Left() == old(Left()) else
        var m := Matched(p, old(Left())); text == m.group && Left() == old(Left())[(if m.Word? then m.length else |m.group|)..]
    {
      text := "";
      if Left() == "" { return false, ""; }
      eaten := Consume(Matched(p, Left()));
      if eaten { text := Pop(); }
    }

    method Clear()
      modifies this
      ensures Cleared()
    {
      result, curPos, stk, oper := "", 0, [], "";
    }

    /** The comparison after a variable. */
    method ReadComparison(value: string) returns (ok: bool, yes: bool, plain: bool)
      requires Valid()
      modifies this`curPos, this`stk, this`oper
      ensures Valid() && curPos >= old(curPos) && stk == old(stk)
      ensures var t := Compare(old(Left()), value); ok == t.Tested? && (ok ==> t == Tested(Left(), yes, plain))
    {
      ok, yes, plain := true, false, true;
      ComparisonIs(Left(), value);
      var isCond := Eat(CondOper);
      if isCond {
        plain := false;
        ok, yes := ReadCompared(value);
      }
    }

    /** The quoted value behind the operator that was just read. */
    method ReadCompared(value: string) returns (ok: bool, yes: bool)
      requires Valid()
      modifies this`curPos, this`stk, this`oper
      ensures Valid() && curPos >= old(curPos) && stk == old(stk)
      ensures var m := Matched(CondVal, old(Left()));
        && (ok <==> old(Left()) != "" && !m.NoMatch?)
        && (ok ==> m.Word? && Left() == old(Left())[m.length..] && (yes <==> (old(oper) == "==" && value == m.group) || (old(oper) == "!=" && value != m.group)))
    {
      var conOper := oper;
      oper := "";
      var conVal;
      yes := false;
      ok, conVal := EatText(CondVal);
      if ok { yes := (conOper == "==" && value == conVal) || (conOper == "!=" && value != conVal); }
    }

    /** And the search. */
    method ReadSearch(env: Env, value: string, yes: bool, plain: bool) returns (yes': bool, plain': bool)
      requires Valid()
      modifies this`curPos, this`stk, this`oper
      ensures Valid() && curPos >= old(curPos) && stk == old(stk)
      ensures Search(Tested(old(Left()), yes, plain), env, value) == Tested(Left(), yes', plain')
    {
      yes', plain' := yes, plain;
      var isSearched, pattern := EatText(SearchFor);
      if isSearched {
        plain' := false;
        if env.search(pattern, value) { yes' := true; }
      }
    }

    method ReadTest(env: Env, value: string) returns (ok: bool, yes: bool, plain: bool)
      requires Valid()
      modifies this`curPos, this`stk, this`oper
      ensures Valid() && curPos >= old(curPos) && stk == old(stk)
      ensures var t := TestOf(old(Left()), env, value); ok == t.Tested? && (ok ==> t == Tested(Left(), yes, plain))
    {
      ok, yes, plain := ReadComparison(value);
      if !ok { return; }
      yes, plain := ReadSearch(env, value, yes, plain);
    }

    method ReadName() returns (ok: bool, name: string)
      requires Valid()
      modifies this`curPos, this`stk, this`oper
      ensures Valid() && curPos >= old(curPos) && stk == old(stk)
      ensures var s := old(Left()); var n := VarLength(s); ok == (n > 0) && (ok ==> name == s[..n] && Left() == s[n..])
    {
      ok, name := EatText(VarName);
    }

    /** The text before a reference, or before the end of the statement. */
    method ReadText(stop: Stop) returns (ok: bool, text: string)
      requires Valid()
      modifies this`curPos, this`stk, this`oper
      ensures Valid() && curPos >= old(curPos) && stk == old(stk) && ok == (old(Left()) != "")
      ensures ok ==> (text, Left()) == TextOf(old(Left()), stop)
      ensures !ok ==> Left() == old(Left())
    {
      var prefix;
      ok, prefix := EatText(Text(stop));
      text := RemovePercent(prefix);
    }

    method ReadOpening() returns (ok: bool)
      requires Valid()
      modifies this`curPos, this`stk, this`oper
      ensures Valid() && curPos >= old(curPos) && stk == old(stk)
      ensures var s := old(Left()); ok == StartsWith(s, "%(") && Left() == (if ok then s[2..] else s) && (ok ==> curPos > old(curPos))
    {
      ok := Eat(VarStart);
    }

    /** A statement, if its operator is there. */
    method ReadBranch(p: Pattern, stop: Stop, env: Env) returns (ok: bool, have: bool, stmt: string)
      requires Valid() && (p.StmtOper? || p.NoStmtOper?)
      modifies this
      ensures Valid() && curPos >= old(curPos)
      ensures have == (old(Left()) != "" && Matched(p, old(Left())).Symbol?)
      ensures var o := BranchGives(old(Left()), have, stop, env, old(result));
        ok == o.Done? && (ok ==> Left() == o.rest && result == o.result && stk == old(stk) && stmt == if have then o.result else "")
      decreases |self| - curPos, 0
    {
      ok, stmt := true, "";
      have := Eat(p);
      if have {
        ok := Expansions(stop, env);
        if ok { stmt := result; }
      }
    }

    /** A reference, behind its opening. */
    method ReadReference(env: Env) returns (ok: bool, text: string)
      requires Valid()
      modifies this
      ensures Valid() && curPos >= old(curPos)
      ensures var o := ReferenceGives(old(Left()), env, old(result)); ok == o.Done? && (ok ==> Left() == o.rest && text == o.result && stk == old(stk))
      decreases |self| - curPos, 4
    {
      text := "";
      ReferenceStarts(Left(), env, result);
      var varName;
      ok, varName := ReadName();
      if !ok { return; }
      ok, text := ReadAfterName(env, ValueOf(env, varName));
    }

    /** Its test, and what depends on it. */
    method ReadAfterName(env: Env, value: string) returns (ok: bool, text: string)
      requires Valid()
      modifies this
      ensures Valid() && curPos >= old(curPos)
      ensures var o := AfterName(old(Left()), env, value, old(result)); ok == o.Done? && (ok ==> Left() == o.rest && text == o.result && stk == old(stk))
      decreases |self| - curPos, 3
    {
      text := "";
      var yes, plain;
      ok, yes, plain := ReadTest(env, value);
      if !ok { return; }
      ok, text := ReadBranches(env, value, yes, plain);
    }

    /** Its statements, and its end. */
    method ReadBranches(env: Env, value: string, yes: bool, plain: bool) returns (ok: bool, text: string)
      requires Valid()
      modifies this
      ensures Valid() && curPos >= old(curPos)
      ensures var o := BranchesGive(old(Left()), yes, plain, value, env, old(result));
        ok == o.Done? && (ok ==> Left() == o.rest && text == o.result && stk == old(stk))
      decreases |self| - curPos, 2
    {
      text := "";
      BranchesAre(Tested(Left(), yes, plain), value, env, result);
      var have, yesStmt;
      ok, have, yesStmt := ReadBranch(StmtOper, Statement, env);
      if !ok { return; }
      ok, text := ReadNo(env, value, yes, plain, have, yesStmt);
    }

    method ReadNo(env: Env, value: string, yes: bool, plain: bool, have: bool, yesStmt: string) returns (ok: bool, text: string)
      requires Valid()
      modifies this
      ensures Valid() && curPos >= old(curPos)
      ensures var s := old(Left());
        var haveNot := s != "" && s[0] == '|';
        var no := BranchGives(s, haveNot, Ending, env, old(result));
        && ok == (no.Done? && no.rest != "" && no.rest[0] == ')')
        && (ok ==> Left() == no.rest[1..] && stk == old(stk))
        && (ok ==> text == Choose(Tested("", yes, plain), have, value, yesStmt, if haveNot then no.result else ""))
      decreases |self| - curPos, 1
    {
      text := "";
      var haveNot, noStmt;
      ok, haveNot, noStmt := ReadBranch(NoStmtOper, Ending, env);
      if !ok { return; }
      ok := Eat(StmtEnd);
      if !ok { return; }
      if plain && !have { text := value; }
      else if yes || (plain && value != "") { text := yesStmt; }
      else { text := noStmt; }
    }

    /** One item: text, and a reference if there is one. */
    method ReadItem(stop: Stop, env: Env, acc: string) returns (ok: bool, more: bool, acc': string)
      requires Valid()
      modifies this
      ensures Valid() && curPos >= old(curPos) && (ok && more ==> curPos > old(curPos))
      ensures var step := ItemGives(old(Left()), stop, env, acc, old(result));
        && (ok <==> step != Final(Panic)) && (ok ==> stk == old(stk) && more == step.Further?)
        && (ok && more ==> step == Step.Further(Left(), acc'))
        && (ok && !more ==> step == Final(Done(Left(), result)))
      decreases |self| - curPos, 6
    {
      ok, more, acc' := true, false, acc;
      var eaten, prefix := ReadText(stop);
      if !eaten { return; }
      ok, more, acc' := ReadAfterText(env, acc + prefix);
    }

    method ReadAfterText(env: Env, acc: string) returns (ok: bool, more: bool, acc': string)
      requires Valid()
      modifies this
      ensures Valid() && curPos >= old(curPos) && (ok && more ==> curPos > old(curPos))
      ensures var step := AfterText(old(Left()), env, acc, old(result));
        && (ok <==> step != Final(Panic)) && (ok ==> stk == old(stk) && more == step.Further?)
        && (ok && more ==> step == Step.Further(Left(), acc'))
        && (ok && !more ==> step == Final(Done(Left(), result)))
      decreases |self| - curPos, 5
    {
      ok, acc' := true, acc;
      more := ReadOpening();
      if !more {
        result := acc;
        return;
      }
      var text;
      ok, text := ReadReference(env);
      acc' := acc + text;
    }

    method Expansions(stop: Stop, env: Env) returns (ok: bool)
      requires Valid()
      modifies this
      ensures Valid() && curPos >= old(curPos)
      ensures var o := ExpansionsGive(old(Left()), stop, env, old(result)); ok == o.Done? && (ok ==> Left() == o.rest && result == o.result && stk == old(stk))
      decreases |self| - curPos, 7
    {
      ok := true;
      var acc, more := "", true;
      ghost var all := ExpandGives(Left(), stop, env, acc, result);
      while more
        invariant Valid() && curPos >= old(curPos) && stk == old(stk)
        invariant all == if more then ExpandGives(Left(), stop, env, acc, result) else Done(Left(), result)
        decreases |self| - curPos + if more then 1 else 0
      {
        ExpandStarts(Left(), stop, env, acc, result);
        ok, more, acc := ReadItem(stop, env, acc);
        if !ok { return; }
        if more { result := acc; }
      }
    }

    /** A run leaves the parser as it was, ready for the next. */
    method Parse(env: Env) returns (ok: bool, formatted: string)
      requires Cleared()
      modifies this
      ensures var f := Format(self, env); ok == f.Formatted? && (ok ==> formatted == f.text && Cleared())
    {
      formatted := "";
      assert self[0..] == self;
      ok := Expansions(Default, env);
      if !ok { return; }
      formatted := Replaced(result, '\n', "\\n");
      Clear();
    }
  }

  /** The printed form of a template, parsed: its meaning, however often it is run. */
  method FormatTemplate(t: Template, envs: seq<Env>) returns (texts: seq<string>)
    requires Writable(t)
    ensures |texts| == |envs| && forall i | 0 <= i < |envs| :: texts[i] == Replaced(Meaning(t, envs[i]), '\n', "\\n")
  {
    var parser := new Parser(Print(t));
    texts := [];
    for i := 0 to |envs|
      invariant parser.Cleared() && fresh(parser) && parser.self == Print(t)
      invariant |texts| == i && forall j | 0 <= j < i :: texts[j] == Replaced(Meaning(t, envs[j]), '\n', "\\n")
    {
      var text := FormatOnce(parser, t, envs[i]);
      texts := texts + [text];
    }
  }

  method FormatOnce(parser: Parser, t: Template, env: Env) returns (text: string)
    requires Writable(t) && parser.Cleared() && parser.self == Print(t)
    modifies parser
    ensures parser.Cleared() && text == Replaced(Meaning(t, env), '\n', "\\n")
  {
    TemplatesFormat(t, env);
    var ok;
    ok, text := parser.Parse(env);
  }
}
