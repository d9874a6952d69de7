/** Values of the transform language and the operators that compute on them
    without looking at any scope (pkg/eval/exprOp.go, unaryEval.go, valueType.go). */
module Values {
  import opened Ordering

  type Int64 = x: int | -0x8000_0000_0000_0000 <= x < 0x8000_0000_0000_0000

  /** Nil is Go's nil *Value: what a missing name or a skipped call yields. */
  datatype Value =
    | Nil
    | Null
    | Bool(b: bool)
    | Int(i: Int64)
    | Float(d: real)
    | Str(s: string)
    | Decimal(text: string)
    | List(items: seq<Value>)
    | Set(items: seq<Value>)
    | Map(entries: map<string, Value>)

  datatype ValueType =
    | NoArg | BoolType | IntType | FloatType | StringType | DecimalType
    | ListType | MapType | SetType | NullType

  /** What evaluating an expression came to. `Unhandled` is the error return for an
      expression kind the evaluator does not know, `Panic` any Go panic. */
  datatype Outcome = Ok(v: Value) | Unhandled | Panic | OutOfFuel

  datatype BinOp =
    | Add | Sub | Mul | Div | Mod | Eq | Ne | Lt | Le | Gt | Ge
    | And | In | NotIn | BitOr | Where | Flatten | OtherBin

  datatype UnOp = Neg | Single | ToText | OtherUn

  /** Library code this model does not look into: the JSON text that mapSet keys
      maps by, and the text UnaryString gives a value. */
  datatype Library = Library(json: map<string, Value> -> string, text: Value -> string)

  function TypeOf(v: Value): ValueType {
    match v
    case Nil => NoArg
    case Null => NullType
    case Bool(_) => BoolType
    case Int(_) => IntType
    case Float(_) => FloatType
    case Str(_) => StringType
    case Decimal(_) => DecimalType
    case List(_) => ListType
    case Set(_) => SetType
    case Map(_) => MapType
  }

  function ContainedType(v: Value): ValueType {
    if (v.List? || v.Set?) && v.items != [] then TypeOf(v.items[0]) else NoArg
  }

  // The protobuf getters: the zero value when the value is of another kind.
  function GetB(v: Value): bool { v.Bool? && v.b }
  function GetI(v: Value): Int64 { if v.Int? then v.i else 0 }
  function GetS(v: Value): string { if v.Str? then v.s else "" }

  /** Two's-complement wrap-around of int64 arithmetic. */
  function Wrap64(x: int): Int64 {
    (x + 0x8000_0000_0000_0000) % 0x1_0000_0000_0000_0000 - 0x8000_0000_0000_0000
  }

  /** Go's division truncates toward zero; Dafny's is Euclidean. */
  function TruncDiv(a: int, b: int): int
    requires b != 0
  {
    var q := (if a < 0 then -a else a) / (if b < 0 then -b else b);
    if (a < 0) == (b < 0) then q else -q
  }

  function TruncMod(a: int, b: int): int
    requires b != 0
  {
    var r := (if a < 0 then -a else a) % (if b < 0 then -b else b);
    if a < 0 then -r else r
  }

  predicate HasText(items: seq<Value>, s: string) {
    exists v :: v in items && GetS(v) == s
  }

  function IntSet(items: seq<Value>): set<int> {
    set v | v in items :: GetI(v) as int
  }

  function StringSet(items: seq<Value>): set<string> {
    set v | v in items :: GetS(v)
  }

  /** mapSet: the maps keyed by their JSON text, a later one winning. */
  function MapSet(lib: Library, items: seq<Value>): map<string, Value> {
    if items == [] then map[]
    else
      var last := items[|items| - 1];
      var rest := MapSet(lib, items[..|items| - 1]);
      // GetMap().Items of something that is not a map panics; setUnion checks first.
      if last.Map? then rest[lib.json(last.entries) := last] else rest
  }

  predicate AllMaps(items: seq<Value>) {
    forall v | v in items :: v.Map?
  }

  function IntValues(keys: seq<int>): seq<Value> {
    seq(|keys|, i requires 0 <= i < |keys| => Int(Wrap64(keys[i])))
  }

  function StrValues(keys: seq<string>): seq<Value> {
    seq(|keys|, i requires 0 <= i < |keys| => Str(keys[i]))
  }

  function ValuesAt(m: map<string, Value>, keys: seq<string>): seq<Value>
    requires forall k | k in keys :: k in m
  {
    seq(|keys|, i requires 0 <= i < |keys| => assert keys[i] in keys; m[keys[i]])
  }

  /** The maps kept under their texts, in the order of these. */
  function MapsOf(kept: map<string, Value>): Value {
    Set(ValuesAt(kept, SortedStrings(kept.Keys)))
  }

  function SetUnion(lib: Library, a: seq<Value>, b: seq<Value>): Outcome {
    var ta, tb := ContainedType(Set(a)), ContainedType(Set(b));
    var t := if ta == NoArg then tb else ta;
    match t
    case NoArg => Ok(Set([]))
    case IntType => Ok(Set(IntValues(SortedInts(IntSet(a) + IntSet(b)))))
    case StringType => Ok(Set(StrValues(SortedStrings(StringSet(a) + StringSet(b)))))
    case MapType =>
      if !AllMaps(a) || !AllMaps(b) then Panic
      else Ok(MapsOf(MapSet(lib, a) + MapSet(lib, b)))
    case _ => Panic
  }

  /** The operators that take two values: the table keyed by operator and both types. */
  function ApplyBinary(lib: Library, op: BinOp, l: Value, r: Value): Outcome {
    match (op, l, r)
    case (Add, Int(x), Int(y)) => Ok(Int(Wrap64(x + y)))
    case (Add, Str(x), Str(y)) => Ok(Str(x + y))
    case (Sub, Int(x), Int(y)) => Ok(Int(Wrap64(x - y)))
    case (Mul, Int(x), Int(y)) => Ok(Int(Wrap64(x * y)))
    case (Div, Int(x), Int(y)) => if y == 0 then Panic else Ok(Int(Wrap64(TruncDiv(x, y))))
    case (Mod, Int(x), Int(y)) => if y == 0 then Panic else Ok(Int(Wrap64(TruncMod(x, y))))
    case (And, Bool(x), Bool(y)) => Ok(Bool(x && y))
    case (BitOr, List(x), List(y)) => Ok(List(x + y))
    case (BitOr, List(x), Set(y)) => Ok(List(x + y))
    case (BitOr, Set(x), Set(y)) => SetUnion(lib, x, y)
    case (Eq, Bool(x), Bool(y)) => Ok(Bool(x == y))
    case (Eq, Int(x), Int(y)) => Ok(Bool(x == y))
    case (Eq, Str(x), Str(y)) => Ok(Bool(x == y))
    case (Eq, Null, Null) => Ok(Bool(true))
    case (Eq, Int(_), Null) => Ok(Bool(false))
    case (Eq, Null, Int(_)) => Ok(Bool(false))
    case (Eq, Null, Str(_)) => Ok(Bool(false))
    case (Eq, Str(_), Null) => Ok(Bool(false))
    case (Eq, List(_), Null) => Ok(Bool(false))
    case (Ge, Int(x), Int(y)) => Ok(Bool(x >= y))
    case (Gt, Int(x), Int(y)) => Ok(Bool(x > y))
    case (Le, Int(x), Int(y)) => Ok(Bool(x <= y))
    case (Lt, Int(x), Int(y)) => Ok(Bool(x < y))
    case (In, Str(x), List(y)) => Ok(Bool(HasText(y, x)))
    case (In, Str(x), Set(y)) => Ok(Bool(HasText(y, x)))
    case (In, Str(x), Map(y)) => Ok(Bool(x in y))
    case (In, Str(_), Null) => Ok(Bool(false))
    case (NotIn, Str(x), List(y)) => Ok(Bool(!HasText(y, x)))
    case (NotIn, Str(x), Set(y)) => Ok(Bool(!HasText(y, x)))
    case (NotIn, Str(x), Map(y)) => Ok(Bool(x !in y))
    case (NotIn, Str(_), Null) => Ok(Bool(true))
    case _ => Panic
  }

  function ApplyUnary(lib: Library, op: UnOp, v: Value): Outcome {
    match op
    case Neg =>
      (match v
       case Int(x) => Ok(Int(Wrap64(0 - (x as int))))
       case Bool(x) => Ok(Bool(!x))
       case _ => Panic)
    case Single => if (v.List? || v.Set?) && |v.items| == 1 then Ok(v.items[0]) else Panic
    case ToText => Ok(Str(lib.text(v)))
    case OtherUn => Panic
  }

  /** `!=` is the negation of the `==` table. */
  function ApplyDefault(lib: Library, op: BinOp, l: Value, r: Value): Outcome {
    if op == Ne then
      var eq := ApplyBinary(lib, Eq, l, r);
      if eq.Ok? then ApplyUnary(lib, Neg, eq.v) else eq
    else ApplyBinary(lib, op, l, r)
  }

  /** Attribute lookup, with the unwrapping of the {key, value} pairs that map
      iteration binds its scope variable to. */
  function GetAttribute(v: Value, attr: string): Outcome {
    if !v.Map? then Panic
    else if v.entries.Keys == {"key", "value"} then
      if attr == "key" || attr == "value" then Ok(v.entries[attr])
      else
        var inner := v.entries["value"];
        if !inner.Map? then Panic
        else if attr in inner.entries then Ok(inner.entries[attr]) else Ok(Null)
    else if attr in v.entries then Ok(v.entries[attr]) else Ok(Null)
  }

  /** `.count` of a collection. */
  function CountOf(v: Value): Outcome {
    match v
    case List(xs) => Ok(Int(Wrap64(|xs|)))
    case Set(xs) => Ok(Int(Wrap64(|xs|)))
    case Map(m) => Ok(Int(Wrap64(|m|)))
    case _ => Panic
  }

  function Pair(key: string, v: Value): Value {
    Map(map["key" := Str(key), "value" := v])
  }

  /** The entries of a map as {key, value} pairs in key order. */
  function SortedPairs(m: map<string, Value>): (r: seq<Value>)
    ensures |r| == |m|
  {
    var keys := SortedStrings(m.Keys);
    seq(|keys|, i requires 0 <= i < |keys| => assert keys[i] in m; Pair(keys[i], m[keys[i]]))
  }

  /** They are all the entries, the i-th that of the i-th key, and the keys ascend. */
  lemma SortedPairsAre(m: map<string, Value>)
    ensures var keys := SortedStrings(m.Keys);
      && Ascending(keys, StrLe) && Distinct(keys) && (forall k :: k in keys <==> k in m)
      && forall i | 0 <= i < |keys| :: SortedPairs(m)[i] == Pair(keys[i], m[keys[i]])
  {
    SortedStringsAscend(m.Keys, SortedStrings(m.Keys));
  }

  // How `flatten` reads its left operand, by the operand's type and its first item's type.

  predicate WhereSupported(v: Value) {
    match TypeOf(v)
    case ListType => ContainedType(v) in {NoArg, ListType, StringType, MapType}
    case SetType => ContainedType(v) in {NoArg, MapType, IntType, FloatType, StringType}
    case MapType => true
    case _ => false
  }

  predicate FlattenSupported(v: Value) {
    (v.List? || v.Set?) && ContainedType(v) in {NoArg, ListType, SetType, MapType}
  }

  /** The inner items one outer item contributes; None is the panic on an item of the wrong kind. */
  datatype Items = None | Some(items: seq<Value>)

  function Inner(outer: Value, item: Value): Items
    requires FlattenSupported(outer)
  {
    var inner := ContainedType(outer);
    if inner == MapType then (if outer.List? || item.Map? then Some([item]) else None)
    else if inner == ListType || (inner == NoArg && outer.List?) then
      (if item.List? then Some(item.items) else None)
    else
      (if item.Set? then Some(item.items) else None)
  }

  /** What one body result adds: flattenSetMap splices a set, every other form appends. */
  function Spliced(outer: Value, result: Value): Items
    requires FlattenSupported(outer)
  {
    if outer.Set? && ContainedType(outer) == MapType then
      (match result
       case Set(xs) => Some(xs)
       case Nil => None
       case _ => Some([result]))
    else Some([result])
  }
}
