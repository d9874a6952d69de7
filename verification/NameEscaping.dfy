/** Escaping names for Sysl source (pkg/importer/utils.go) and reading them back
    (pkg/parse/utils.go), over bytes. */
module NameEscaping {
  type Byte = n: nat | n < 256

  type Text = seq<Byte>

  const Percent: Byte := 0x25

  predicate IsAlphanumeric(b: Byte) {
    0x30 <= b <= 0x39 || 0x41 <= b <= 0x5A || 0x61 <= b <= 0x7A
  }

  /** url.PathEscape: which bytes it escapes (sections 2.2, 2.3 and 3.3 of RFC 3986). It
      leaves $ & + : = @ as they are, but not / ; , ? which delimit segments and parameters. */
  predicate ShouldEscape(b: Byte) {
    !IsAlphanumeric(b) && b !in {0x2D, 0x5F, 0x2E, 0x7E} && b !in {0x24, 0x26, 0x2B, 0x3A, 0x3D, 0x40}
  }

  function HexDigit(n: nat): Byte
    requires n < 16
  {
    if n < 10 then 0x30 + n else 0x41 + (n - 10)
  }

  /** A percent-encoding, with upper-case digits (section 2.1 of RFC 3986). */
  function Hex(b: Byte): Text {
    [Percent, HexDigit(b / 16), HexDigit(b % 16)]
  }

  /** `s` with the bytes of `escaped` percent-encoded. */
  function Encoded(s: Text, escaped: set<Byte>): Text {
    if s == [] then [] else (if s[0] in escaped then Hex(s[0]) else [s[0]]) + Encoded(s[1..], escaped)
  }

  function PathEscape(s: Text): Text {
    Encoded(s, set b: Byte | ShouldEscape(b))
  }

  // ---- replacing substrings ----------------------------------------------------

  predicate StartsWith(s: Text, prefix: Text) {
    |prefix| <= |s| && s[..|prefix|] == prefix
  }

  /** strings.ReplaceAll: from the left, without overlaps. */
  function ReplaceAll(s: Text, old_: Text, new_: Text): Text
    requires old_ != []
  {
    if s == [] then []
    else if StartsWith(s, old_) then new_ + ReplaceAll(s[|old_|..], old_, new_)
    else [s[0]] + ReplaceAll(s[1..], old_, new_)
  }

  lemma HexIsInjective(a: Byte, b: Byte)
    ensures Hex(a) == Hex(b) <==> a == b
  {
    assert Hex(a)[1] == HexDigit(a / 16) && Hex(a)[2] == HexDigit(a % 16);
    assert Hex(b)[1] == HexDigit(b / 16) && Hex(b)[2] == HexDigit(b % 16);
  }

  lemma EncodedFirst(s: Text, escaped: set<Byte>)
    requires s != []
    ensures Encoded(s, escaped)[0] == if s[0] in escaped then Percent else s[0]
    ensures s[0] in escaped ==> Encoded(s, escaped)[..3] == Hex(s[0]) && Encoded(s, escaped)[3..] == Encoded(s[1..], escaped)
    ensures s[0] !in escaped ==> Encoded(s, escaped)[1..] == Encoded(s[1..], escaped)
  {
  }

  /** Bytes that do not occur in a text pass over it. */
  lemma NoMatch(x: Byte, rest: Text, old_: Text, new_: Text)
    requires old_ != [] && x != old_[0]
    ensures ReplaceAll([x] + rest, old_, new_) == [x] + ReplaceAll(rest, old_, new_)
  {
    var s := [x] + rest;
    assert |s| >= |old_| ==> s[..|old_|][0] == x;
    assert s[1..] == rest;
  }

  lemma Match(old_: Text, rest: Text, new_: Text)
    requires old_ != []
    ensures ReplaceAll(old_ + rest, old_, new_) == new_ + ReplaceAll(rest, old_, new_)
  {
    var s := old_ + rest;
    assert s[..|old_|] == old_ && s[|old_|..] == rest;
  }

  lemma CodeWithout(b: Byte, rest: Text, c: Byte)
    requires c != Percent && !IsAlphanumeric(c)
    ensures ReplaceAll(Hex(b) + rest, [c], Hex(c)) == Hex(b) + ReplaceAll(rest, [c], Hex(c))
  {
    var d, e := HexDigit(b / 16), HexDigit(b % 16);
    NoMatch(e, rest, [c], Hex(c));
    NoMatch(d, [e] + rest, [c], Hex(c));
    NoMatch(Percent, [d] + ([e] + rest), [c], Hex(c));
    CodeInFront(b, rest);
    CodeInFront(b, ReplaceAll(rest, [c], Hex(c)));
  }

  lemma CodeInFront(b: Byte, rest: Text)
    ensures Hex(b) + rest == [Percent] + ([HexDigit(b / 16)] + ([HexDigit(b % 16)] + rest))
  {
  }

  /** Escaping one more byte, by replacing it where it stands. */
  lemma {:induction false} ReplacedByHex(s: Text, escaped: set<Byte>, c: Byte)
    requires c != Percent && !IsAlphanumeric(c) && c !in escaped
    ensures ReplaceAll(Encoded(s, escaped), [c], Hex(c)) == Encoded(s, escaped + {c})
  {
    if s != [] {
      var rest := Encoded(s[1..], escaped);
      ReplacedByHex(s[1..], escaped, c);
      if s[0] in escaped {
        CodeWithout(s[0], rest, c);
      } else if s[0] == c {
        Match([c], rest, Hex(c));
      } else {
        NoMatch(s[0], rest, [c], Hex(c));
      }
    }
  }

  /** Unescaping one byte, by replacing its code: codes stand only where a byte was escaped. */
  lemma {:induction false} HexReplaced(s: Text, escaped: set<Byte>, c: Byte)
    requires Percent in escaped && c != Percent
    ensures ReplaceAll(Encoded(s, escaped), Hex(c), [c]) == Encoded(s, escaped - {c})
  {
    if s != [] {
      var rest := Encoded(s[1..], escaped);
      HexReplaced(s[1..], escaped, c);
      var done := ReplaceAll(rest, Hex(c), [c]);
      if s[0] !in escaped {
        NoMatch(s[0], rest, Hex(c), [c]);
      } else if s[0] == c {
        Match(Hex(c), rest, [c]);
      } else {
        OtherCode(s[0], rest, c);
        assert Encoded(s, escaped) == Hex(s[0]) + rest;
      }
    }
  }

  lemma OtherCode(b: Byte, rest: Text, c: Byte)
    requires b != c
    ensures ReplaceAll(Hex(b) + rest, Hex(c), [c]) == Hex(b) + ReplaceAll(rest, Hex(c), [c])
  {
    var d, e := HexDigit(b / 16), HexDigit(b % 16);
    var text := Hex(b) + rest;
    HexIsInjective(b, c);
    assert text[..3] == Hex(b);
    assert text[1..] == [d] + ([e] + rest);
    NoMatch(d, [e] + rest, Hex(c), [c]);
    NoMatch(e, rest, Hex(c), [c]);
    var done := ReplaceAll(rest, Hex(c), [c]);
    assert [Percent] + ([d] + ([e] + done)) == Hex(b) + done;
  }

  // ---- the escaped name --------------------------------------------------------

  const CharsToReplace: set<Byte> := {0x2E, 0x3A, 0x2B}                  // . : +
  const CharsToKeep: set<Byte> := {0x2F, 0x7B, 0x7D, 0x3D, 0x3F, 0x26}   // / { } = ? &

  /** The bytes that are percent-encoded in a name. */
  function Unsafe(): set<Byte> {
    (set b: Byte | ShouldEscape(b)) + CharsToReplace - CharsToKeep
  }

  function SafeName(endpoint: Text): Text {
    Encoded(endpoint, Unsafe())
  }

  /** getSyslSafeName: whatever order the two maps come in, the same bytes end up escaped. */
  method GetSyslSafeName(endpoint: Text) returns (r: Text)
    ensures r == SafeName(endpoint)
  {
    r := PathEscape(endpoint);
    ghost var escaped := set b: Byte | ShouldEscape(b);
    var todo := CharsToReplace;
    while todo != {}
      invariant todo <= CharsToReplace && r == Encoded(endpoint, escaped)
      invariant escaped == (set b: Byte | ShouldEscape(b)) + (CharsToReplace - todo)
      decreases todo
    {
      var c :| c in todo; // the runtime's order
      todo := todo - {c};
      ReplacedByHex(endpoint, escaped, c);
      r := ReplaceAll(r, [c], Hex(c));
      escaped := escaped + {c};
    }
    todo := CharsToKeep;
    while todo != {}
      invariant todo <= CharsToKeep && r == Encoded(endpoint, escaped) && Percent in escaped
      invariant escaped == (set b: Byte | ShouldEscape(b)) + CharsToReplace - (CharsToKeep - todo)
      decreases todo
    {
      var c :| c in todo;
      todo := todo - {c};
      HexReplaced(endpoint, escaped, c);
      r := ReplaceAll(r, Hex(c), [c]);
      escaped := escaped - {c};
    }
    assert escaped == Unsafe();
  }

  // ---- reading it back ---------------------------------------------------------

  datatype Decoded = Ok(text: Text) | Invalid

  function Unhex(b: Byte): int {
    if 0x30 <= b <= 0x39 then b - 0x30
    else if 0x41 <= b <= 0x46 then b - 0x41 + 10
    else if 0x61 <= b <= 0x66 then b - 0x61 + 10
    else -1
  }

  function Prepend(b: Byte, d: Decoded): Decoded {
    if d.Ok? then Ok([b] + d.text) else Invalid
  }

  /** url.PathUnescape: an incomplete or malformed code is an error. */
  function PathUnescape(s: Text): Decoded {
    if s == [] then Ok([])
    else if s[0] != Percent then Prepend(s[0], PathUnescape(s[1..]))
    else if |s| < 3 || Unhex(s[1]) < 0 || Unhex(s[2]) < 0 then Invalid
    else Prepend(Unhex(s[1]) * 16 + Unhex(s[2]), PathUnescape(s[3..]))
  }

  /** MustUnescape, with the trimming of white space as a parameter; Invalid is a panic. */
  function MustUnescape(s: Text, trimSpace: Text -> Text): Decoded {
    var d := PathUnescape(s);
    if d.Ok? then Ok(trimSpace(d.text)) else Invalid
  }

  /** Whatever else is escaped, the original comes back if every percent sign is. */
  lemma {:induction false} EncodedDecodes(s: Text, escaped: set<Byte>)
    requires Percent in escaped
    ensures PathUnescape(Encoded(s, escaped)) == Ok(s)
  {
    if s != [] {
      EncodedFirst(s, escaped);
      EncodedDecodes(s[1..], escaped);
      assert [s[0]] + s[1..] == s;
    }
  }

  /** Escaping and reading back gives the name without outer white space, for every name. */
  lemma NamesRoundTrip(s: Text, trimSpace: Text -> Text)
    ensures MustUnescape(SafeName(s), trimSpace) == Ok(trimSpace(s))
  {
    EncodedDecodes(s, Unsafe());
  }

  /** A name that was not escaped reads back as something else, or not at all, exactly when
      it has a percent sign in it. */
  lemma {:induction false} RawNamesReadBackIff(s: Text)
    ensures PathUnescape(s) == Ok(s) <==> Percent !in s
    ensures PathUnescape(s).Ok? ==> |PathUnescape(s).text| <= |s| && (Percent in s ==> |PathUnescape(s).text| < |s|)
  {
    if s != [] {
      if s[0] != Percent {
        RawNamesReadBackIff(s[1..]);
        assert s == [s[0]] + s[1..];
      } else if |s| >= 3 {
        RawNamesReadBackIff(s[3..]);
      }
    }
  }

  // ---- which bytes a name keeps ------------------------------------------------

  /** A name keeps letters, digits and - _ ~ $ @ / { } = ? & as they are, and nothing else. */
  lemma KeptBytes(b: Byte)
    ensures b !in Unsafe() <==>
      || 0x30 <= b <= 0x39 || 0x41 <= b <= 0x5A || 0x61 <= b <= 0x7A
      || b in {0x2D, 0x5F, 0x7E, 0x24, 0x40, 0x2F, 0x7B, 0x7D, 0x3D, 0x3F, 0x26}
  {
    assert b in (set c: Byte | ShouldEscape(c)) <==> ShouldEscape(b);
  }

  lemma HexDigitsAreUpper(n: nat)
    requires n < 16
    ensures 0x30 <= HexDigit(n) <= 0x39 || 0x41 <= HexDigit(n) <= 0x46
    ensures Unhex(HexDigit(n)) == n
  {
  }

  /** The escaped name has only such bytes and percent signs in it. */
  lemma {:induction false} SafeNamesAreSafe(s: Text)
    ensures forall b | b in SafeName(s) :: b == Percent || b !in Unsafe()
    decreases |s|
  {
    if s != [] {
      SafeNamesAreSafe(s[1..]);
      KeptBytes(s[0]);
      if s[0] in Unsafe() {
        HexDigitsAreUpper(s[0] / 16);
        HexDigitsAreUpper(s[0] % 16);
        KeptBytes(HexDigit(s[0] / 16));
        KeptBytes(HexDigit(s[0] % 16));
      }
      assert SafeName(s) == (if s[0] in Unsafe() then Hex(s[0]) else [s[0]]) + SafeName(s[1..]);
    }
  }

  /** A name is left as it is exactly when it has only bytes that are kept. */
  lemma {:induction false} KeptNames(s: Text)
    ensures |SafeName(s)| >= |s|
    ensures SafeName(s) == s <==> forall b | b in s :: b !in Unsafe()
    decreases |s|
  {
    if s != [] {
      KeptNames(s[1..]);
      var rest := SafeName(s[1..]);
      assert SafeName(s) == (if s[0] in Unsafe() then Hex(s[0]) else [s[0]]) + rest;
      assert s == [s[0]] + s[1..];
      if s[0] in Unsafe() {
        assert |SafeName(s)| == 3 + |rest|;
      } else {
        assert SafeName(s)[1..] == rest;
      }
    }
  }
}
