/** The text encoding of diagrams in PlantUML links (pkg/diagrams/diagutil.go): three bytes in
    four characters of six bits each. The shifts and masks of bytes are divisions and
    remainders by powers of two here. */
module PlantUml {
  type Byte = n: nat | n < 256

  predicate IsChar6(c: char) {
    '0' <= c <= '9' || 'A' <= c <= 'Z' || 'a' <= c <= 'z' || c == '-' || c == '_'
  }

  /** The alphabet 0-9, A-Z, a-z, -, _. The panic above 63 is the precondition. */
  function Encode6Bit(b: Byte): char
    requires b <= 63
  {
    if b < 10 then '0' + b as char
    else if b < 36 then 'A' + (b - 10) as char
    else if b < 62 then 'a' + (b - 36) as char
    else if b == 62 then '-' else '_'
  }

  function Encode3Bytes(b1: Byte, b2: Byte, b3: Byte): string {
    [Encode6Bit(b1 / 4), Encode6Bit(b1 % 4 * 16 + b2 / 16), Encode6Bit(b2 % 16 * 4 + b3 / 64), Encode6Bit(b3 % 64)]
  }

  /** Triple by triple, the last one filled up with zeros. */
  function Encoded(data: seq<Byte>): string {
    if |data| >= 3 then Encode3Bytes(data[0], data[1], data[2]) + Encoded(data[3..])
    else if |data| == 2 then Encode3Bytes(data[0], data[1], 0)
    else if |data| == 1 then Encode3Bytes(data[0], 0, 0)
    else ""
  }

  method Encode(data: seq<Byte>) returns (r: string)
    ensures r == Encoded(data)
  {
    r := "";
    var i := 0;
    var wholeTripleBytes := |data| / 3 * 3;
    while i < wholeTripleBytes
      invariant 0 <= i <= wholeTripleBytes && i % 3 == 0 && r + Encoded(data[i..]) == Encoded(data)
    {
      WholeTriple(i, |data|);
      FirstTriple(data[i..], r);
      assert data[i..][3..] == data[i + 3..];
      r := r + Encode3Bytes(data[i], data[i + 1], data[i + 2]);
      i := i + 3;
    }
    LessThanTriple(|data|);
    match |data| - i
    case 1 => r := r + Encode3Bytes(data[i], 0, 0);
    case 2 => r := r + Encode3Bytes(data[i], data[i + 1], 0);
    case _ => assert r + "" == r;
  }

  lemma WholeTriple(i: nat, n: nat)
    requires i % 3 == 0 && i < n / 3 * 3
    ensures i + 3 <= n / 3 * 3 <= n && (i + 3) % 3 == 0
  {
  }

  lemma LessThanTriple(n: nat)
    ensures n / 3 * 3 <= n < n / 3 * 3 + 3
  {
  }

  lemma FirstTriple(data: seq<Byte>, before: string)
    requires |data| >= 3
    ensures before + Encoded(data) == (before + Encode3Bytes(data[0], data[1], data[2])) + Encoded(data[3..])
  {
  }

  // ---- the decoder -------------------------------------------------------------

  function Decode6Bit(c: char): (b: Byte)
    requires IsChar6(c)
    ensures b <= 63
  {
    if '0' <= c <= '9' then c as int - '0' as int
    else if 'A' <= c <= 'Z' then c as int - 'A' as int + 10
    else if 'a' <= c <= 'z' then c as int - 'a' as int + 36
    else if c == '-' then 62
    else 63
  }

  function Decode3Bytes(s: string): seq<Byte>
    requires |s| == 4 && forall i | 0 <= i < 4 :: IsChar6(s[i])
  {
    var a, b, c, d := Decode6Bit(s[0]), Decode6Bit(s[1]), Decode6Bit(s[2]), Decode6Bit(s[3]);
    [a * 4 + b / 16, b % 16 * 16 + c / 4, c % 4 * 64 + d]
  }

  predicate AllChar6(s: string) {
    forall i | 0 <= i < |s| :: IsChar6(s[i])
  }

  function Decode(s: string): seq<Byte>
    requires AllChar6(s)
  {
    if |s| < 4 then [] else Decode3Bytes(s[..4]) + Decode(s[4..])
  }

  lemma SixBitsReturn(b: Byte)
    requires b <= 63
    ensures IsChar6(Encode6Bit(b)) && Decode6Bit(Encode6Bit(b)) == b
  {
  }

  /** The bits of three bytes in groups of six, and put together again. */
  lemma BytesPart(b1: Byte, b2: Byte, b3: Byte)
    ensures b1 / 4 <= 63 && b1 % 4 * 16 + b2 / 16 <= 63 && b2 % 16 * 4 + b3 / 64 <= 63 && b3 % 64 <= 63
    ensures b1 / 4 * 4 + (b1 % 4 * 16 + b2 / 16) / 16 == b1
    ensures (b1 % 4 * 16 + b2 / 16) % 16 * 16 + (b2 % 16 * 4 + b3 / 64) / 4 == b2
    ensures (b2 % 16 * 4 + b3 / 64) % 4 * 64 + b3 % 64 == b3
  {
  }

  /** What four characters of six bits decode to. */
  lemma SextetsDecode(a: Byte, b: Byte, c: Byte, d: Byte)
    requires a <= 63 && b <= 63 && c <= 63 && d <= 63
    ensures var s := [Encode6Bit(a), Encode6Bit(b), Encode6Bit(c), Encode6Bit(d)];
      AllChar6(s) && Decode3Bytes(s) == [a * 4 + b / 16, b % 16 * 16 + c / 4, c % 4 * 64 + d]
  {
    SixBitsReturn(a);
    SixBitsReturn(b);
    SixBitsReturn(c);
    SixBitsReturn(d);
  }

  lemma TripleReturns(b1: Byte, b2: Byte, b3: Byte)
    ensures var s := Encode3Bytes(b1, b2, b3); AllChar6(s) && Decode3Bytes(s) == [b1, b2, b3]
  {
    BytesPart(b1, b2, b3);
    SextetsDecode(b1 / 4, b1 % 4 * 16 + b2 / 16, b2 % 16 * 4 + b3 / 64, b3 % 64);
  }

  lemma FirstDecoded(t: string, s: string)
    requires |t| == 4 && AllChar6(t) && AllChar6(s)
    ensures AllChar6(t + s) && Decode(t + s) == Decode3Bytes(t) + Decode(s)
  {
    assert (t + s)[..4] == t && (t + s)[4..] == s;
  }

  /** The zeros that complete the last triple. */
  function Padding(data: seq<Byte>): seq<Byte> {
    if |data| >= 3 then Padding(data[3..]) else if |data| == 2 then [0] else if |data| == 1 then [0, 0] else []
  }

  /** How many triples are begun. */
  function Triples(n: nat): nat {
    if n == 0 then 0 else if n <= 3 then 1 else 1 + Triples(n - 3)
  }

  lemma {:induction false} TriplesAre(n: nat)
    ensures Triples(n) == (n + 2) / 3
  {
    if n > 3 { TriplesAre(n - 3); }
  }

  lemma {:induction false} LengthsAre(data: seq<Byte>)
    ensures |Encoded(data)| == 4 * Triples(|data|) && |data + Padding(data)| == 3 * Triples(|data|)
  {
    if |data| >= 3 {
      LengthsAre(data[3..]);
    }
  }

  lemma {:induction false} DecodedAre(data: seq<Byte>)
    ensures AllChar6(Encoded(data)) && Decode(Encoded(data)) == data + Padding(data)
  {
    if |data| >= 3 {
      DecodedAre(data[3..]);
      TripleReturns(data[0], data[1], data[2]);
      FirstDecoded(Encode3Bytes(data[0], data[1], data[2]), Encoded(data[3..]));
      assert [data[0], data[1], data[2]] + (data[3..] + Padding(data[3..])) == data + Padding(data);
    } else if |data| > 0 {
      TailDecoded(data);
    }
  }

  lemma OneDecoded(b1: Byte, b2: Byte, b3: Byte)
    ensures var t := Encode3Bytes(b1, b2, b3); AllChar6(t) && Decode(t) == [b1, b2, b3]
  {
    var t := Encode3Bytes(b1, b2, b3);
    TripleReturns(b1, b2, b3);
    FirstDecoded(t, "");
    assert t + "" == t;
  }

  lemma TailPadded(data: seq<Byte>)
    requires 0 < |data| < 3
    ensures data + Padding(data) == [data[0], if |data| == 2 then data[1] else 0, 0]
  {
  }

  lemma TailDecoded(data: seq<Byte>)
    requires 0 < |data| < 3
    ensures AllChar6(Encoded(data)) && Decode(Encoded(data)) == data + Padding(data)
  {
    OneDecoded(data[0], if |data| == 2 then data[1] else 0, 0);
    TailPadded(data);
  }

  /** Four characters for every three bytes begun; decoding gives the data back, followed by
      the zeros that complete the last triple. */
  lemma EncodingReturns(data: seq<Byte>)
    ensures |Encoded(data)| == 4 * ((|data| + 2) / 3) && |data + Padding(data)| == 3 * ((|data| + 2) / 3)
    ensures AllChar6(Encoded(data)) && Decode(Encoded(data)) == data + Padding(data)
  {
    TriplesAre(|data|);
    LengthsAre(data);
    DecodedAre(data);
  }

  /** Two texts are the same exactly when the data are the same up to these zeros; so of two
      data of one length, exactly when they are equal. */
  lemma EncodingIsInjective(a: seq<Byte>, b: seq<Byte>)
    ensures Encoded(a) == Encoded(b) <==> a + Padding(a) == b + Padding(b)
    ensures |a| == |b| ==> (Encoded(a) == Encoded(b) <==> a == b)
  {
    EncodingReturns(a);
    EncodingReturns(b);
    if a + Padding(a) == b + Padding(b) {
      EncodedPadded(a);
      EncodedPadded(b);
    }
    if |a| == |b| && a + Padding(a) == b + Padding(b) {
      assert (a + Padding(a))[..|a|] == a && (b + Padding(b))[..|b|] == b;
    }
  }

  lemma {:induction false} EncodedPadded(data: seq<Byte>)
    ensures Encoded(data + Padding(data)) == Encoded(data)
  {
    var p := data + Padding(data);
    if |data| >= 3 {
      assert p[3..] == data[3..] + Padding(data[3..]);
      EncodedPadded(data[3..]);
    } else if |data| > 0 {
      assert |p| == 3 && p[3..] == [];
      assert Encode3Bytes(p[0], p[1], p[2]) + "" == Encode3Bytes(p[0], p[1], p[2]);
    }
  }

  // ---- the digits themselves ---------------------------------------------------

  const Decimal: string := "0123456789"
  const Upper: string := "ABCDEFGHIJKLMNOPQRSTUVWXYZ"
  const Lower: string := "abcdefghijklmnopqrstuvwxyz"

  /** The digits, in the order of their values. */
  const Alphabet: string := Decimal + Upper + Lower + "-_"

  lemma DecimalDigit(n: nat)
    requires n < 10
    ensures |Decimal| == 10 && Decimal[n] == '0' + n as char
  {
    assert n == 0 || n == 1 || n == 2 || n == 3 || n == 4 || n == 5 || n == 6 || n == 7 || n == 8 || n == 9;
  }

  lemma UpperDigit(n: nat)
    requires n < 26
    ensures |Upper| == 26 && Upper[n] == 'A' + n as char
  {
    assert n < 13 ==> n == 0 || n == 1 || n == 2 || n == 3 || n == 4 || n == 5 || n == 6 || n == 7 || n == 8 || n == 9 || n == 10 || n == 11 || n == 12;
    assert n >= 13 ==> n == 13 || n == 14 || n == 15 || n == 16 || n == 17 || n == 18 || n == 19 || n == 20 || n == 21 || n == 22 || n == 23 || n == 24 || n == 25;
  }

  lemma LowerDigit(n: nat)
    requires n < 26
    ensures |Lower| == 26 && Lower[n] == 'a' + n as char
  {
    assert n < 13 ==> n == 0 || n == 1 || n == 2 || n == 3 || n == 4 || n == 5 || n == 6 || n == 7 || n == 8 || n == 9 || n == 10 || n == 11 || n == 12;
    assert n >= 13 ==> n == 13 || n == 14 || n == 15 || n == 16 || n == 17 || n == 18 || n == 19 || n == 20 || n == 21 || n == 22 || n == 23 || n == 24 || n == 25;
  }

  /** The digit for b is the b-th of the alphabet. */
  lemma DigitsOfTheAlphabet(b: Byte)
    requires b <= 63
    ensures |Alphabet| == 64 && Encode6Bit(b) == Alphabet[b]
  {
    DecimalDigit(if b < 10 then b else 0);
    UpperDigit(if 10 <= b < 36 then b - 10 else 0);
    LowerDigit(if 36 <= b < 62 then b - 36 else 0);
    assert b < 10 ==> Alphabet[b] == Decimal[b];
    assert 10 <= b < 36 ==> Alphabet[b] == Upper[b - 10];
    assert 36 <= b < 62 ==> Alphabet[b] == Lower[b - 36];
  }

  /** Three bytes and their four digits are the same number, to the bases 256 and 64. */
  lemma TripleIsOneNumber(b1: Byte, b2: Byte, b3: Byte)
    ensures var s := Encode3Bytes(b1, b2, b3);
      && |s| == 4 && AllChar6(s)
      && ((Decode6Bit(s[0]) * 64 + Decode6Bit(s[1])) * 64 + Decode6Bit(s[2])) * 64 + Decode6Bit(s[3]) == (b1 * 256 + b2) * 256 + b3
  {
    BytesPart(b1, b2, b3);
    SixBitsReturn(b1 / 4);
    SixBitsReturn(b1 % 4 * 16 + b2 / 16);
    SixBitsReturn(b2 % 16 * 4 + b3 / 64);
    SixBitsReturn(b3 % 64);
  }
}
