/** The validator as an object (pkg/validate/validate.go): the messages of every view, and the
    names of attributes not accounted for, which the comparisons of one tuple share. */
module GrammarValidator {
  import opened Ordering
  import opened GrammarConformance
  import opened GrammarMeaning

  type Messages = map<string, seq<Message>>

  function Of(messages: Messages, viewName: string): seq<Message> {
    if viewName in messages then messages[viewName] else []
  }

  /** Only the messages of one view have changed. */
  ghost predicate OthersKept(viewName: string, before: Messages, after: Messages) {
    forall w | w != viewName :: Of(after, w) == Of(before, w)
  }

  /** A set of names passed by reference. */
  class NameSet {
    var names: set<string>

    constructor (names: set<string>)
      ensures this.names == names
    {
      this.names := names;
    }
  }

  class Validator {
    const v: Setup
    var messages: Messages
    var tick: nat

    constructor (v: Setup)
      ensures this.v == v && messages == map[] && tick == 0
    {
      this.v, messages, tick := v, map[], 0;
    }

    ghost function Now(implAttrNames: NameSet, viewName: string): State
      reads this, implAttrNames
    {
      State(implAttrNames.names, tick, Of(messages, viewName))
    }

    method AddMessage(viewName: string, m: Message)
      modifies this`messages
      ensures Of(messages, viewName) == Of(old(messages), viewName) + [m] && OthersKept(viewName, old(messages), messages)
    {
      messages := messages[viewName := Of(messages, viewName) + [m]];
    }

    /** The order in which the runtime ranges over the keys of a map. */
    method Range(specAttrs: Attrs, implTuple: Type, keys: set<string>) returns (r: seq<string>)
      modifies this`tick
      ensures r == Listing(v, specAttrs, implTuple, keys, old(tick)) && tick == old(tick) + 1
    {
      r := Listing(v, specAttrs, implTuple, keys, tick);
      tick := tick + 1;
    }

    method CompareTuple(specAttrs: Attrs, implTuple: Type, implAttrNames: NameSet, viewName: string, specTupleName: string, ghost rank: Rank, ghost level: nat)
      requires implTuple.Tuple? && Acyclic(v.g, rank) && Below(v.g, rank, specAttrs, level)
      modifies this, implAttrNames
      ensures Now(implAttrNames, viewName) == Compare(v, rank, level, specAttrs, implTuple, specTupleName, old(Now(implAttrNames, viewName)))
      ensures OthersKept(viewName, old(messages), messages)
      decreases implTuple, level, 4, 0
    {
      RangeNested(specAttrs, implTuple, implAttrNames, viewName, rank);
      RangeAttrs(specAttrs, implTuple, implAttrNames, viewName, specTupleName, rank, level);
      RangeExcess(specAttrs, implTuple, implAttrNames, viewName, specTupleName);
    }

    method RangeNested(specAttrs: Attrs, implTuple: Type, implAttrNames: NameSet, viewName: string, ghost rank: Rank)
      requires implTuple.Tuple? && Acyclic(v.g, rank)
      modifies this
      ensures Now(implAttrNames, viewName) == NestedInOrder(v, rank, specAttrs, implTuple, old(Now(implAttrNames, viewName)))
      ensures OthersKept(viewName, old(messages), messages)
      decreases implTuple, 0, 2, 0
    {
      var keys := Range(specAttrs, implTuple, implTuple.attrs.Keys);
      CompareNestedTuples(implTuple, keys, implAttrNames, viewName, rank);
    }

    method RangeAttrs(specAttrs: Attrs, implTuple: Type, implAttrNames: NameSet, viewName: string, specTupleName: string, ghost rank: Rank, ghost level: nat)
      requires implTuple.Tuple? && Acyclic(v.g, rank) && Below(v.g, rank, specAttrs, level)
      modifies this, implAttrNames
      ensures Now(implAttrNames, viewName) == AttrsInOrder(v, rank, level, specAttrs, implTuple, specTupleName, old(Now(implAttrNames, viewName)))
      ensures OthersKept(viewName, old(messages), messages)
      decreases implTuple, level, 3, 0
    {
      var keys := Range(specAttrs, implTuple, specAttrs.Keys);
      CompareSpecAttrs(specAttrs, implTuple, keys, implAttrNames, viewName, specTupleName, rank, level);
    }

    method RangeExcess(specAttrs: Attrs, implTuple: Type, implAttrNames: NameSet, viewName: string, specTupleName: string)
      modifies this, implAttrNames
      ensures Now(implAttrNames, viewName) == ExcessInOrder(v, specAttrs, implTuple, specTupleName, old(Now(implAttrNames, viewName)))
      ensures OthersKept(viewName, old(messages), messages)
    {
      var keys := Range(specAttrs, implTuple, implAttrNames.names);
      ReportExcessAttrs(keys, implAttrNames, viewName, specTupleName);
    }

    method CompareNestedTuples(implTuple: Type, keys: seq<string>, implAttrNames: NameSet, viewName: string, ghost rank: Rank)
      requires implTuple.Tuple? && Acyclic(v.g, rank) && forall k | k in keys :: k in implTuple.attrs
      modifies this
      ensures Now(implAttrNames, viewName) == CompareNested(v, rank, implTuple, keys, old(Now(implAttrNames, viewName)))
      ensures OthersKept(viewName, old(messages), messages)
      decreases implTuple, 0, 1, 1
    {
      ghost var all := CompareNested(v, rank, implTuple, keys, Now(implAttrNames, viewName));
      for i := 0 to |keys|
        invariant OthersKept(viewName, old(messages), messages)
        invariant all == CompareNested(v, rank, implTuple, keys[i..], Now(implAttrNames, viewName))
      {
        assert keys[i..][0] == keys[i] && keys[i..][1..] == keys[i + 1..];
        var ikey := keys[i];
        if IsNested(v.g, implTuple, ikey) { CompareNestedTuple(implTuple, ikey, implAttrNames, viewName, rank); }
      }
    }

    /** With a set of names of its own. */
    method CompareNestedTuple(implTuple: Type, ikey: string, implAttrNames: NameSet, viewName: string, ghost rank: Rank)
      requires implTuple.Tuple? && Acyclic(v.g, rank) && IsNested(v.g, implTuple, ikey)
      modifies this
      ensures Now(implAttrNames, viewName) == CompareOne(v, rank, implTuple, ikey, old(Now(implAttrNames, viewName)))
      ensures OthersKept(viewName, old(messages), messages)
      decreases implTuple, 0, 1, 0
    {
      var ival := implTuple.attrs[ikey];
      var names := new NameSet(ival.attrs.Keys);
      CompareTuple(AttrsOf(v.g, ikey), ival, names, viewName, ikey, rank, rank(ikey));
    }

    method CompareSpecAttrs(specAttrs: Attrs, implTuple: Type, keys: seq<string>, implAttrNames: NameSet, viewName: string, specTupleName: string, ghost rank: Rank, ghost level: nat)
      requires implTuple.Tuple? && Acyclic(v.g, rank) && Below(v.g, rank, specAttrs, level) && forall k | k in keys :: k in specAttrs
      modifies this, implAttrNames
      ensures Now(implAttrNames, viewName) == CompareAttrs(v, rank, level, specAttrs, implTuple, keys, specTupleName, old(Now(implAttrNames, viewName)))
      ensures OthersKept(viewName, old(messages), messages)
      decreases implTuple, level, 2, 0
    {
      ghost var all := CompareAttrs(v, rank, level, specAttrs, implTuple, keys, specTupleName, Now(implAttrNames, viewName));
      for i := 0 to |keys|
        invariant OthersKept(viewName, old(messages), messages)
        invariant all == CompareAttrs(v, rank, level, specAttrs, implTuple, keys[i..], specTupleName, Now(implAttrNames, viewName))
      {
        assert keys[i..][0] == keys[i] && keys[i..][1..] == keys[i + 1..];
        CompareSpecAttr(specAttrs, implTuple, keys[i], implAttrNames, viewName, specTupleName, rank, level);
      }
    }

    method CompareSpecAttr(specAttrs: Attrs, implTuple: Type, gk: string, implAttrNames: NameSet, viewName: string, specTupleName: string, ghost rank: Rank, ghost level: nat)
      requires implTuple.Tuple? && Acyclic(v.g, rank) && Below(v.g, rank, specAttrs, level) && gk in specAttrs
      modifies this, implAttrNames
      ensures Now(implAttrNames, viewName) == CompareAttr(v, rank, level, specAttrs, implTuple, gk, specTupleName, old(Now(implAttrNames, viewName)))
      ensures OthersKept(viewName, old(messages), messages)
      decreases implTuple, level, 1, 0
    {
      if IsUnion(v.g, gk) {
        CompareUnion(v.g[gk].options, implTuple, implAttrNames, viewName, specTupleName, rank, level);
      } else if gk !in implTuple.attrs {
        if !specAttrs[gk] { AddMessage(viewName, MissingReqField(gk, specTupleName)); }
      } else {
        implAttrNames.names := implAttrNames.names - {gk};
      }
    }

    method CompareUnion(options: seq<string>, implTuple: Type, implAttrNames: NameSet, viewName: string, specTupleName: string, ghost rank: Rank, ghost level: nat)
      requires implTuple.Tuple? && Acyclic(v.g, rank) && OptionsBelow(rank, options, level)
      modifies this, implAttrNames
      ensures Now(implAttrNames, viewName) ==
        CompareOneOf(v, rank, level, Decide(options, implTuple.attrs.Keys, true), implTuple, specTupleName, old(Now(implAttrNames, viewName)))
      ensures OthersKept(viewName, old(messages), messages)
      decreases implTuple, level, 0, 0
    {
      var matching := true;
      var i := 0;
      ghost var d := Decide(options, implTuple.attrs.Keys, true);
      while i < |options| && !Decides(options[i], implTuple.attrs.Keys)
        invariant i <= |options| && d == Decide(options[i..], implTuple.attrs.Keys, matching)
      {
        assert options[i..][0] == options[i] && options[i..][1..] == options[i + 1..];
        if !IsCombination(options[i]) { matching := false; }
        i := i + 1;
      }
      if i < |options| {
        var name := options[i];
        assert options[i..][0] == name;
        if IsCombination(name) {
          CompareTuple(AttrsOf(v.g, name), implTuple, implAttrNames, viewName, specTupleName, rank, rank(name));
        } else {
          matching := true;
          implAttrNames.names := implAttrNames.names - {name};
        }
      }
      if !matching { AddMessage(viewName, InvalidOption(specTupleName)); }
    }

    method ReportExcessAttrs(keys: seq<string>, implAttrNames: NameSet, viewName: string, specTupleName: string)
      requires forall k :: k in keys <==> k in implAttrNames.names
      modifies this, implAttrNames
      ensures Now(implAttrNames, viewName) == ReportExcess(keys, specTupleName, old(Now(implAttrNames, viewName)))
      ensures OthersKept(viewName, old(messages), messages)
    {
      for i := 0 to |keys|
        invariant tick == old(tick) && OthersKept(viewName, old(messages), messages)
        invariant Of(messages, viewName) == old(Of(messages, viewName)) + Excesses(keys[..i], specTupleName)
        invariant forall k | k in implAttrNames.names :: k in keys[i..]
      {
        assert keys[i..][0] == keys[i] && keys[i..][1..] == keys[i + 1..];
        assert Excesses(keys[..i + 1], specTupleName) == Excesses(keys[..i], specTupleName) + [ExcessAttr(keys[i], specTupleName)];
        AddMessage(viewName, ExcessAttr(keys[i], specTupleName));
        implAttrNames.names := implAttrNames.names - {keys[i]};
      }
      assert keys[..|keys|] == keys;
    }
  }

  /** The loop over options ends here. */
  predicate Decides(option: string, impl: set<string>) {
    if IsCombination(option) then |impl| != 1 else option in impl
  }

  /** A view whose type conforms gets no message, whatever the runtime does. */
  method ValidateView(v: Setup, specAttrs: Attrs, implTuple: Type, viewName: string, typeName: string, ghost rank: Rank, ghost level: nat)
    returns (validator: Validator)
    requires implTuple.Tuple? && Acyclic(v.g, rank) && Below(v.g, rank, specAttrs, level)
    ensures Conforms(v.g, rank, level, specAttrs, implTuple) ==> Of(validator.messages, viewName) == []
    ensures WithoutCombinations(v.g) && !Conforms(v.g, rank, level, specAttrs, implTuple) ==> Of(validator.messages, viewName) != []
    ensures NoUnions(v.g) ==> (Of(validator.messages, viewName) == [] <==> Fits(v.g, specAttrs, implTuple))
  {
    validator := new Validator(v);
    var names := new NameSet(implTuple.attrs.Keys);
    ghost var before := validator.Now(names, viewName);
    validator.CompareTuple(specAttrs, implTuple, names, viewName, typeName, rank, level);
    if Conforms(v.g, rank, level, specAttrs, implTuple) {
      ConformingIsSilent(v, rank, level, specAttrs, implTuple, typeName, before);
    } else if WithoutCombinations(v.g) {
      AnyOrderReports(v, rank, level, specAttrs, implTuple, typeName, before);
    }
    if NoUnions(v.g) { ConformsIsFits(v.g, rank, level, specAttrs, implTuple); }
  }
}
