/** The strict DER codec of an ECDSA signature and the low-s rule (packages/kms-signer/src/der.ts).

    SEQUENCE { INTEGER r, INTEGER s } as in section 2.2.3 of RFC 3279, with the minimal integers of section 8.3.2
    and the short definite lengths of section 10.1 of ITU-T X.690. A byte is an integer below 256, so the source's
    `b & 0x80` is `b >= 128` and its `(v << 8n) | b` is `v * 256 + b`. */
module DerCodec {
  type Byte = x: int | 0 <= x < 256

  const SECP256K1_N: nat := 0xfffffffffffffffffffffffffffffffebaaedce6af48a03bbfd25e8cd0364141

  const FIELD_BYTES: nat := 32

  const FIELD_LIMIT: nat := 0x1_00000000_00000000_00000000_00000000_00000000_00000000_00000000_00000000

  datatype Error =
    | NotASequence
    | SequenceLength
    | NotAnInteger
    | BadIntegerLength
    | NegativeInteger
    | NotMinimal
    | TrailingBytes
    | OutsideOrder

  datatype Result<+T> = Ok(value: T) | Err(error: Error)

  datatype Integer = Integer(value: nat, end: nat)

  datatype Signature = Signature(r: nat, s: nat)

  /** The number that big-endian bytes spell. */
  function BigEndian(bytes: seq<Byte>): nat {
    if bytes == [] then 0 else BigEndian(bytes[..|bytes| - 1]) * 256 + bytes[|bytes| - 1]
  }

  /** The shortest big-endian bytes of a number; zero is one zero byte. */
  function Digits(value: nat): (d: seq<Byte>)
    ensures |d| > 0
  {
    if value < 256 then [value] else Digits(value / 256) + [value % 256]
  }

  /** The body of a DER integer: the shortest bytes, behind a zero byte if the first of them is 128 or more. */
  function IntegerBody(value: nat): seq<Byte> {
    var d := Digits(value);
    if d[0] >= 128 then [0] + d else d
  }

  // What the parser computes, as functions

  function IntegerAt(der: seq<Byte>, offset: nat): Result<Integer> {
    if offset >= |der| || der[offset] != 0x02 then Err(NotAnInteger)
    else
      var length := if offset + 1 < |der| then der[offset + 1] else 0;
      var start := offset + 2;
      if length < 1 || length > 33 || start + length > |der| then Err(BadIntegerLength)
      else if der[start] >= 128 then Err(NegativeInteger)
      else if length > 1 && der[start] == 0 && der[start + 1] < 128 then Err(NotMinimal)
      else Ok(Integer(BigEndian(der[start..start + length]), start + length))
  }

  function Parse(der: seq<Byte>): Result<Signature> {
    if |der| < 8 || der[0] != 0x30 then Err(NotASequence)
    else if der[1] != |der| - 2 then Err(SequenceLength)
    else
      match IntegerAt(der, 2)
      case Err(e) => Err(e)
      case Ok(r) =>
        match IntegerAt(der, r.end)
        case Err(e) => Err(e)
        case Ok(s) =>
          if s.end != |der| then Err(TrailingBytes)
          else if r.value == 0 || r.value >= SECP256K1_N || s.value == 0 || s.value >= SECP256K1_N then
            Err(OutsideOrder)
          else Ok(Signature(r.value, s.value))
  }

  predicate InOrder(sig: Signature) { 0 < sig.r < SECP256K1_N && 0 < sig.s < SECP256K1_N }

  /** A length is kept in one byte. */
  function Tlv(tag: Byte, body: seq<Byte>): seq<Byte> { [tag, |body| % 256] + body }

  /** Both numbers fit the 32 bytes the printer pads them to; every signature in order does. */
  predicate Fits(sig: Signature) { sig.r < FIELD_LIMIT && sig.s < FIELD_LIMIT }

  /** The number whose bytes are printed. Hex text longer than the padding is read in pairs of digits, and one left over at
      the end is lost. */
  function Printed(value: nat): nat { if value >= FIELD_LIMIT && Digits(value)[0] < 16 then value / 16 else value }

  function Encode(sig: Signature): seq<Byte> {
    Tlv(0x30, Tlv(0x02, IntegerBody(Printed(sig.r))) + Tlv(0x02, IntegerBody(Printed(sig.s))))
  }

  // Digits and BigEndian are inverse

  lemma {:induction false} BigEndianOfDigits(value: nat)
    ensures BigEndian(Digits(value)) == value
  {
    if value >= 256 {
      BigEndianOfDigits(value / 256);
      var d := Digits(value);
      assert d[..|d| - 1] == Digits(value / 256);
    } else {
      assert Digits(value)[..0] == [];
    }
  }

  lemma {:induction false} BigEndianIsPositive(bytes: seq<Byte>)
    requires |bytes| > 0 && bytes[0] != 0
    ensures BigEndian(bytes) > 0
  {
    if |bytes| > 1 {
      BigEndianIsPositive(bytes[..|bytes| - 1]);
    }
  }

  lemma {:induction false} DigitsOfBigEndian(bytes: seq<Byte>)
    requires |bytes| > 0 && (bytes[0] != 0 || |bytes| == 1)
    ensures Digits(BigEndian(bytes)) == bytes
  {
    var front, last := bytes[..|bytes| - 1], bytes[|bytes| - 1];
    if |bytes| == 1 {
      assert front == [];
    } else {
      assert front[0] == bytes[0];
      DigitsOfBigEndian(front);
      BigEndianIsPositive(front);
      assert front + [last] == bytes;
    }
  }

  lemma {:induction false} LeadingZero(bytes: seq<Byte>)
    ensures BigEndian([0] + bytes) == BigEndian(bytes)
  {
    var all := [0] + bytes;
    if bytes == [] {
      assert all[..0] == [];
    } else {
      LeadingZero(bytes[..|bytes| - 1]);
      assert all[..|all| - 1] == [0] + bytes[..|bytes| - 1];
    }
  }

  lemma BigEndianOfBody(value: nat)
    ensures BigEndian(IntegerBody(value)) == value
  {
    BigEndianOfDigits(value);
    LeadingZero(Digits(value));
  }

  /** A minimal, non-negative body is the body its own value prints as. */
  lemma BodyOfBigEndian(body: seq<Byte>)
    requires |body| > 0 && body[0] < 128
    requires |body| > 1 && body[0] == 0 ==> body[1] >= 128
    ensures IntegerBody(BigEndian(body)) == body
  {
    if |body| > 1 && body[0] == 0 {
      assert body == [0] + body[1..];
      LeadingZero(body[1..]);
      DigitsOfBigEndian(body[1..]);
    } else {
      DigitsOfBigEndian(body);
    }
  }

  function Pow256(n: nat): nat { if n == 0 then 1 else 256 * Pow256(n - 1) }

  lemma {:induction false} DigitsLength(value: nat, n: nat)
    requires n > 0 && value < Pow256(n)
    ensures |Digits(value)| <= n
  {
    if value >= 256 {
      DigitsLength(value / 256, n - 1);
    }
  }

  lemma Pow256Of32()
    ensures Pow256(FIELD_BYTES) == FIELD_LIMIT
  {
    assert Pow256(4) == 0x1_0000_0000;
    assert Pow256(8) == 0x1_0000_0000_0000_0000;
    assert Pow256(12) == 0x1_0000_0000_0000_0000_0000_0000;
    assert Pow256(16) == 0x1_0000_0000_0000_0000_0000_0000_0000_0000;
    assert Pow256(20) == 0x1_0000_0000_0000_0000_0000_0000_0000_0000_0000_0000;
    assert Pow256(24) == 0x1_0000_0000_0000_0000_0000_0000_0000_0000_0000_0000_0000_0000;
    assert Pow256(28) == 0x1_0000_0000_0000_0000_0000_0000_0000_0000_0000_0000_0000_0000_0000_0000;
  }

  lemma BodyIsShort(value: nat)
    requires value < FIELD_LIMIT
    ensures 1 <= |IntegerBody(value)| <= 33
  {
    Pow256Of32();
    DigitsLength(value, FIELD_BYTES);
  }

  // The round trips

  lemma ReadsBackInteger(value: nat, before: seq<Byte>, after: seq<Byte>)
    requires value < FIELD_LIMIT
    ensures IntegerAt(before + Tlv(0x02, IntegerBody(value)) + after, |before|)
         == Ok(Integer(value, |before| + 2 + |IntegerBody(value)|))
  {
    BodyIsShort(value);
    BigEndianOfBody(value);
    var body := IntegerBody(value);
    var der := before + Tlv(0x02, body) + after;
    var start := |before| + 2;
    assert der[start..start + |body|] == body;
    assert der[start] == body[0];
    if |body| > 1 && body[0] == 0 {
      assert der[start + 1] == body[1];
      if Digits(value)[0] < 128 {
        BigEndianOfDigits(value);
        TopDigit(value);
      }
    }
  }

  lemma {:induction false} TopDigit(value: nat)
    ensures |Digits(value)| > 1 ==> Digits(value)[0] != 0
  {
    if value >= 256 {
      TopDigit(value / 256);
    }
  }

  /** Parsing what was printed gives the signature back exactly when both numbers are in the curve's order; numbers that
      fit the padding and are not are refused for that. */
  lemma ParseAfterEncode(sig: Signature)
    ensures Parse(Encode(sig)) == Ok(sig) <==> InOrder(sig)
    ensures Fits(sig) && !InOrder(sig) ==> Parse(Encode(sig)) == Err(OutsideOrder)
  {
    if Fits(sig) { FittingReadsBack(sig); }
  }

  lemma FittingReadsBack(sig: Signature)
    requires Fits(sig)
    ensures Parse(Encode(sig)) == if InOrder(sig) then Ok(sig) else Err(OutsideOrder)
  {
    hide IntegerBody, IntegerAt;
    BodyIsShort(sig.r);
    BodyIsShort(sig.s);
    var r, s := Tlv(0x02, IntegerBody(sig.r)), Tlv(0x02, IntegerBody(sig.s));
    var der := [0x30, |r| + |s|] + r + s;
    EncodeFitting(sig);
    ReadsBackInteger(sig.r, [0x30, |r| + |s|], s);
    assert der == ([0x30, |r| + |s|] + r) + s + [];
    ReadsBackInteger(sig.s, [0x30, |r| + |s|] + r, []);
  }

  lemma EncodeFitting(sig: Signature)
    requires Fits(sig)
    ensures var r, s := Tlv(0x02, IntegerBody(sig.r)), Tlv(0x02, IntegerBody(sig.s));
            Encode(sig) == [0x30, |r| + |s|] + r + s
  {
    hide IntegerBody, Digits;
    BodyIsShort(sig.r);
    BodyIsShort(sig.s);
  }

  lemma IntegerIsItsEncoding(der: seq<Byte>, offset: nat)
    requires IntegerAt(der, offset).Ok?
    ensures var i := IntegerAt(der, offset).value;
            && offset + 2 < i.end <= |der|
            && |IntegerBody(i.value)| < 256
            && der[offset..i.end] == Tlv(0x02, IntegerBody(i.value))
  {
    var i := IntegerAt(der, offset).value;
    var body := der[offset + 2..i.end];
    BodyOfBigEndian(body);
    assert der[offset..i.end] == [der[offset], der[offset + 1]] + body;
  }

  /** Printing what was parsed gives the same bytes back: a signature has exactly one accepted encoding. */
  lemma EncodeAfterParse(der: seq<Byte>)
    requires Parse(der).Ok?
    ensures InOrder(Parse(der).value)
    ensures Encode(Parse(der).value) == der
  {
    hide IntegerBody, IntegerAt, Digits;
    var r := IntegerAt(der, 2).value;
    var s := IntegerAt(der, r.end).value;
    assert s.end == |der| && Parse(der).value == Signature(r.value, s.value);
    IntegerIsItsEncoding(der, 2);
    IntegerIsItsEncoding(der, r.end);
    SequenceSplits(der, r.end);
  }

  lemma SequenceSplits(der: seq<Byte>, at: nat)
    requires 2 <= at <= |der| && der[0] == 0x30 && der[1] == |der| - 2
    ensures der == [0x30, |der[2..at] + der[at..|der|]|] + (der[2..at] + der[at..|der|])
  {
  }

  /** The accepted byte strings are exactly the encodings of signatures in order. */
  lemma AcceptedIffEncoding(der: seq<Byte>)
    ensures Parse(der).Ok? <==> exists sig :: InOrder(sig) && Encode(sig) == der
  {
    if Parse(der).Ok? {
      EncodeAfterParse(der);
      assert InOrder(Parse(der).value) && Encode(Parse(der).value) == der;
    }
    forall sig | InOrder(sig) && Encode(sig) == der ensures Parse(der).Ok? {
      ParseAfterEncode(sig);
    }
  }

  // The code, with its loops

  method ReadInteger(der: seq<Byte>, offset: nat) returns (r: Result<Integer>)
    ensures r == IntegerAt(der, offset)
  {
    if offset >= |der| || der[offset] != 0x02 {
      return Err(NotAnInteger);
    }
    var length := if offset + 1 < |der| then der[offset + 1] else 0;
    var start := offset + 2;
    var end := start + length;
    if length < 1 || length > 33 || end > |der| {
      return Err(BadIntegerLength);
    }
    var first := der[start];
    if first >= 128 {
      return Err(NegativeInteger);
    }
    if length > 1 && first == 0 && der[start + 1] < 128 {
      return Err(NotMinimal);
    }
    var value: nat := 0;
    for i := start to end
      invariant value == BigEndian(der[start..i])
    {
      assert der[start..i + 1][..i - start] == der[start..i];
      value := value * 256 + der[i];
    }
    return Ok(Integer(value, end));
  }

  /** parseDerSignature accepts exactly the encodings of signatures in order, and returns the encoded one. */
  method ParseDerSignature(der: seq<Byte>) returns (result: Result<Signature>)
    ensures result == Parse(der)
    ensures result.Ok? ==> InOrder(result.value) && Encode(result.value) == der
    ensures result.Err? ==> !exists sig :: InOrder(sig) && Encode(sig) == der
  {
    AcceptedIffEncoding(der);
    if Parse(der).Ok? {
      EncodeAfterParse(der);
    }
    if |der| < 8 || der[0] != 0x30 {
      return Err(NotASequence);
    }
    if der[1] != |der| - 2 {
      return Err(SequenceLength);
    }
    var r := ReadInteger(der, 2);
    if r.Err? {
      return Err(r.error);
    }
    var s := ReadInteger(der, r.value.end);
    if s.Err? {
      return Err(s.error);
    }
    if s.value.end != |der| {
      return Err(TrailingBytes);
    }
    var values := [r.value.value, s.value.value];
    for k := 0 to 2
      invariant forall j :: 0 <= j < k ==> 0 < values[j] < SECP256K1_N
    {
      if values[k] == 0 || values[k] >= SECP256K1_N {
        return Err(OutsideOrder);
      }
    }
    assert 0 < values[0] < SECP256K1_N && 0 < values[1] < SECP256K1_N;
    return Ok(Signature(r.value.value, s.value.value));
  }

  /** `value.toString(16).padStart(64, '0')` read as bytes. */
  function Padded(value: nat, n: nat): (bytes: seq<Byte>)
    ensures |bytes| == n
  {
    if n == 0 then [] else Padded(value / 256, n - 1) + [value % 256]
  }

  lemma {:induction false} PaddedKeepsValue(value: nat, n: nat)
    requires value < Pow256(n)
    ensures BigEndian(Padded(value, n)) == value
  {
    if n > 0 {
      PaddedKeepsValue(value / 256, n - 1);
      var p := Padded(value, n);
      assert p[..|p| - 1] == Padded(value / 256, n - 1);
    }
  }

  /** The bytes of the padded hex text. */
  function HexBytes(value: nat): seq<Byte> {
    if value < FIELD_LIMIT then Padded(value, FIELD_BYTES) else Digits(Printed(value))
  }

  lemma HexBytesSpell(value: nat)
    ensures HexBytes(value) != [] && BigEndian(HexBytes(value)) == Printed(value)
  {
    hide Padded, Digits, BigEndian, Pow256;
    Pow256Of32();
    if value < FIELD_LIMIT { PaddedKeepsValue(value, FIELD_BYTES); } else { BigEndianOfDigits(Printed(value)); }
  }

  method EncodeInteger(value: nat) returns (bytes: seq<Byte>)
    ensures bytes == Tlv(0x02, IntegerBody(Printed(value)))
  {
    hide Padded, Digits, BigEndian, Pow256, Printed, HexBytes;
    HexBytesSpell(value);
    var padded := HexBytes(value);
    var start := 0;
    assert padded[0..] == padded;
    while start < |padded| - 1 && padded[start] == 0
      invariant start < |padded|
      invariant BigEndian(padded[start..]) == Printed(value)
    {
      SkipZero(padded, start);
      start := start + 1;
    }
    var digits := padded[start..];
    DigitsOfBigEndian(digits);
    var body := if digits[0] >= 128 then [0] + digits else digits;
    bytes := [0x02, |body| % 256] + body;
  }

  lemma SkipZero(bytes: seq<Byte>, start: nat)
    requires start < |bytes| && bytes[start] == 0
    ensures BigEndian(bytes[start + 1..]) == BigEndian(bytes[start..])
  {
    assert bytes[start..] == [0] + bytes[start + 1..];
    LeadingZero(bytes[start + 1..]);
  }

  /** encodeDerSignature prints the one byte string that parses back to a signature in order. */
  method EncodeDerSignature(r: nat, s: nat) returns (der: seq<Byte>)
    ensures der == Encode(Signature(r, s))
    ensures InOrder(Signature(r, s)) ==> forall d :: Parse(d) == Ok(Signature(r, s)) <==> d == der
    ensures !InOrder(Signature(r, s)) ==> Parse(der) != Ok(Signature(r, s))
    ensures !InOrder(Signature(r, s)) && Fits(Signature(r, s)) ==> Parse(der) == Err(OutsideOrder)
  {
    hide Parse, IntegerBody, Printed;
    var first := EncodeInteger(r);
    var second := EncodeInteger(s);
    var body := first + second;
    der := [0x30, |body| % 256] + body;
    ParseAfterEncode(Signature(r, s));
    forall d | Parse(d) == Ok(Signature(r, s)) ensures d == der {
      EncodeAfterParse(d);
    }
  }

  lemma {:induction false} PowerBeginsWithOne(n: nat)
    ensures Digits(Pow256(n))[0] == 1
  {
    if n > 0 { PowerBeginsWithOne(n - 1); }
  }

  /** Past the padding, what is printed can be another signature: 2^256 has 65 hex digits, and the last is lost. */
  lemma TooLargeReadsAsAnother()
    ensures Parse(Encode(Signature(FIELD_LIMIT, 1))) == Ok(Signature(FIELD_LIMIT / 16, 1))
  {
    hide Digits, Pow256, IntegerBody, Parse;
    Pow256Of32();
    PowerBeginsWithOne(FIELD_BYTES);
    FittingReadsBack(Signature(FIELD_LIMIT / 16, 1));
  }

  // EIP-2

  function ToLowS(s: int): int {
    if s > SECP256K1_N / 2 then SECP256K1_N - s else s
  }

  /** toLowS picks, from s and its negation, the one in the lower half; it is idempotent and blind to which of the
      two it was given. */
  lemma ToLowSIsCanonical(s: nat, t: int)
    requires 0 < s < SECP256K1_N
    ensures 1 <= ToLowS(s) <= SECP256K1_N / 2
    ensures (t == s || t == SECP256K1_N - s) && t <= SECP256K1_N / 2 <==> t == ToLowS(s)
    ensures ToLowS(ToLowS(s)) == ToLowS(s) == ToLowS(SECP256K1_N - s)
  {
  }
}
