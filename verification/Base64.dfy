/**
 Base64 (RFC 4648, sections 3.2, 4 and 5). The encoder works on groups of three
 bytes, the decoder keeps one rolling digit; both are proved against the plain bit
 string of the data. A character is its 8-bit code.
 */
module Base64 {
  import opened Sequences
  import opened Wrappers

  datatype Alphabet = Auto | Standard | UrlSafe
  datatype Behavior = Moderate | Loose

  const PAD: bv8 := 61  // '='

  // ----- the reference: bit strings

  function Bits8(b: bv8): seq<bool> {
    [b & 128 != 0, b & 64 != 0, b & 32 != 0, b & 16 != 0, b & 8 != 0, b & 4 != 0, b & 2 != 0, b & 1 != 0]
  }

  function Bits6(v: bv8): seq<bool> {
    [v & 32 != 0, v & 16 != 0, v & 8 != 0, v & 4 != 0, v & 2 != 0, v & 1 != 0]
  }

  function Flat8(bytes: seq<bv8>): (bits: seq<bool>)
    ensures |bits| == 8 * |bytes|
  {
    if bytes == [] then [] else Bits8(bytes[0]) + Flat8(bytes[1..])
  }

  function Flat6(digits: seq<bv8>): (bits: seq<bool>)
    ensures |bits| == 6 * |digits|
  {
    if digits == [] then [] else Bits6(digits[0]) + Flat6(digits[1..])
  }

  function If(bit: bool, weight: bv8): bv8 { if bit then weight else 0 }

  function Digit(bits: seq<bool>): (v: bv8)
    requires |bits| >= 6
    ensures v < 64
  {
    If(bits[0], 32) | If(bits[1], 16) | If(bits[2], 8) | If(bits[3], 4) | If(bits[4], 2) | If(bits[5], 1)
  }

  function Byte(bits: seq<bool>): bv8
    requires |bits| >= 8
  {
    (Digit(bits) << 2) | If(bits[6], 2) | If(bits[7], 1)
  }

  predicate AreDigits(digits: seq<bv8>) { forall i :: 0 <= i < |digits| ==> digits[i] < 64 }

  function Zeros(n: nat): seq<bool> { seq(n, _ => false) }

  /** The bytes of a bit string; what does not fill a byte is dropped. */
  function ToBytes(bits: seq<bool>): (bytes: seq<bv8>)
    ensures |bytes| == |bits| / 8
    decreases |bits|
  {
    if |bits| < 8 then [] else [Byte(bits)] + ToBytes(bits[8..])
  }

  /** The digits of a bit string; zero bits fill the last one. */
  function ToDigits(bits: seq<bool>): (digits: seq<bv8>)
    ensures |digits| == (|bits| + 5) / 6
    ensures AreDigits(digits)
    decreases |bits|
  {
    if bits == [] then []
    else if |bits| < 6 then [Digit(bits + Zeros(6 - |bits|))]
    else [Digit(bits)] + ToDigits(bits[6..])
  }

  lemma ByteOfBits(b: bv8, rest: seq<bool>)
    ensures Byte(Bits8(b) + rest) == b
  {
    var bits := Bits8(b) + rest;
    assert forall i :: 0 <= i < 8 ==> bits[i] == Bits8(b)[i];
    assert b == (((If(b & 128 != 0, 32) | If(b & 64 != 0, 16) | If(b & 32 != 0, 8) | If(b & 16 != 0, 4) | If(b & 8 != 0, 2) | If(b & 4 != 0, 1)) << 2)
                 | If(b & 2 != 0, 2) | If(b & 1 != 0, 1));
  }

  lemma BitsOfDigit(bits: seq<bool>)
    requires |bits| >= 6
    ensures Bits6(Digit(bits)) == bits[..6]
  {
    var v := Digit(bits);
    assert forall i :: 0 <= i < 6 ==> Bits6(v)[i] == bits[i];
  }

  lemma {:induction false} BytesOfFlat(bytes: seq<bv8>, rest: seq<bool>)
    requires |rest| < 8
    ensures ToBytes(Flat8(bytes) + rest) == bytes
  {
    if bytes != [] {
      var bits := Flat8(bytes) + rest;
      assert bits == Bits8(bytes[0]) + (Flat8(bytes[1..]) + rest);
      assert bits[8..] == Flat8(bytes[1..]) + rest;
      ByteOfBits(bytes[0], Flat8(bytes[1..]) + rest);
      BytesOfFlat(bytes[1..], rest);
    }
  }

  /** How many zero bits complete the last digit. */
  function Fill(n: nat): (k: nat)
    ensures k < 6 && (n + k) % 6 == 0
  {
    (6 - n % 6) % 6
  }

  lemma FlatOfLast(bits: seq<bool>)
    requires 0 < |bits| < 6
    ensures Flat6(ToDigits(bits)) == bits + Zeros(6 - |bits|)
  {
    var padded := bits + Zeros(6 - |bits|);
    var v := Digit(padded);
    assert ToDigits(bits) == [v];
    hide Zeros, Digit, ToDigits, Flat6, AreDigits;
    BitsOfDigit(padded);
    FlatDigits(v, []);
    FlatNone6();
    assert [v] + [] == [v];
    hide Bits6;
    assert padded[..6] == padded == padded + [];
  }

  lemma FlatNone6()
    ensures Flat6([]) == []
  {
  }

  /** Splitting a bit string into digits loses nothing and adds fewer than six zero bits. */
  lemma {:induction false} FlatOfDigits(bits: seq<bool>)
    ensures Flat6(ToDigits(bits)) == bits + Zeros(Fill(|bits|))
    decreases |bits|
  {
    hide *;
    if bits == [] {
      NoDigits();
    } else if |bits| < 6 {
      FlatOfLast(bits);
      FillIs(|bits|);
    } else {
      FirstDigit(bits);
      FlatOfDigits(bits[6..]);
      FlatDigits(Digit(bits), ToDigits(bits[6..]));
      FillIs(|bits|);
      Assoc(bits[..6], bits[6..], Zeros(Fill(|bits|)));
      assert bits[..6] + bits[6..] == bits;
    }
  }

  lemma FirstDigit(bits: seq<bool>)
    requires |bits| >= 6
    ensures ToDigits(bits) == [Digit(bits)] + ToDigits(bits[6..]) && Bits6(Digit(bits)) == bits[..6]
  {
    BitsOfDigit(bits);
    hide Digit, Bits6, AreDigits;
  }

  lemma FillIs(n: nat)
    ensures 0 < n < 6 ==> Fill(n) == 6 - n
    ensures n >= 6 ==> Fill(n - 6) == Fill(n)
  {
  }

  lemma NoDigits()
    ensures Flat6(ToDigits([])) == [] + Zeros(Fill(0))
  {
  }

  // ----- digits and characters

  /** `alpha[v]`. */
  function Char(a: Alphabet, v: bv8): bv8
    requires v < 64
  {
    if v < 26 then v + 65             // A..Z
    else if v < 52 then v + 71        // a..z
    else if v < 62 then v - 4         // 0..9
    else if v == 62 then (if a == UrlSafe then 45 else 43)  // - or +
    else (if a == UrlSafe then 95 else 47)                  // _ or /
  }

  /** `_base64_value`: the digit of a character and the alphabet known afterwards. */
  function Value(a: Alphabet, c: bv8): Option<(bv8, Alphabet)> {
    if 65 <= c <= 90 then Some((c - 65, a))
    else if 97 <= c <= 122 then Some((c - 97 + 26, a))
    else if 48 <= c <= 57 then Some((c - 48 + 52, a))
    else if a == Standard then (if c == 43 then Some((62, a)) else if c == 47 then Some((63, a)) else None)
    else if a == UrlSafe then (if c == 45 then Some((62, a)) else if c == 95 then Some((63, a)) else None)
    else if c == 43 then Some((62, Standard))
    else if c == 47 then Some((63, Standard))
    else if c == 45 then Some((62, UrlSafe))
    else if c == 95 then Some((63, UrlSafe))
    else None
  }

  function Concrete(a: Alphabet): Alphabet { if a == UrlSafe then UrlSafe else Standard }

  lemma ValueOfChar(a: Alphabet, d: Alphabet, v: bv8)
    requires v < 64 && (d == Auto || d == Concrete(a))
    ensures Char(a, v) != PAD
    ensures var r := Value(d, Char(a, v)); r.Some? && r.value.0 == v && (r.value.1 == d || r.value.1 == Concrete(a))
  {
  }

  lemma ValueBound(a: Alphabet, c: bv8)
    ensures Value(a, c).Some? ==> Value(a, c).value.0 < 64 && c != PAD
  {
  }

  function Chars(a: Alphabet, digits: seq<bv8>): (cs: seq<bv8>)
    requires AreDigits(digits)
    ensures |cs| == |digits|
  {
    if digits == [] then [] else [Char(a, digits[0])] + Chars(a, digits[1..])
  }

  /** The digits of a run of characters, detecting the alphabet on the way. */
  function Digits(a: Alphabet, cs: seq<bv8>): Option<seq<bv8>>
    decreases |cs|
  {
    if cs == [] then Some([])
    else
      match Value(a, cs[0])
      case None => None
      case Some(p) =>
        match Digits(p.1, cs[1..])
        case None => None
        case Some(ds) => Some([p.0] + ds)
  }

  lemma {:induction false} DigitsOfChars(a: Alphabet, d: Alphabet, digits: seq<bv8>)
    requires AreDigits(digits) && (d == Auto || d == Concrete(a))
    ensures Digits(d, Chars(a, digits)) == Some(digits)
    ensures PAD !in Chars(a, digits)
    decreases |digits|
  {
    hide Value, Char;
    if digits != [] {
      ValueOfChar(a, d, digits[0]);
      var r := Value(d, Char(a, digits[0]));
      assert Chars(a, digits)[1..] == Chars(a, digits[1..]);
      DigitsOfChars(a, r.value.1, digits[1..]);
      assert digits == [digits[0]] + digits[1..];
    }
  }

  // ----- what a text stands for

  function PadAt(text: seq<bv8>): (k: nat)
    ensures k <= |text|
    ensures PAD !in text[..k] && (k < |text| ==> text[k] == PAD)
  {
    if text == [] || text[0] == PAD then 0
    else
      var k := 1 + PadAt(text[1..]);
      assert text[..k] == [text[0]] + text[1..][..k - 1];
      k
  }

  /** The code of a byte string: its bits in groups of six, padded to a multiple of four characters. */
  function Encoded(bytes: seq<bv8>, a: Alphabet): seq<bv8> {
    Chars(a, ToDigits(Flat8(bytes))) + Padding(|bytes|)
  }

  function Padding(n: nat): seq<bv8> {
    if n % 3 == 0 then [] else if n % 3 == 1 then [PAD, PAD] else [PAD]
  }

  /** The bytes of a text, if it is one: digits up to the padding, and only padding after it unless that is ignored. */
  function Decoded(text: seq<bv8>, a: Alphabet, behavior: Behavior): Option<seq<bv8>> {
    var k := PadAt(text);
    match Digits(a, text[..k])
    case None => None
    case Some(ds) =>
      if behavior == Moderate && exists i :: k <= i < |text| && text[i] != PAD then None
      else Some(ToBytes(Flat6(ds)))
  }

  /** The character of a digit, as table 1 and table 2 of RFC 4648 have them. */
  lemma AlphabetIs(a: Alphabet, v: bv8)
    requires v < 64
    ensures v < 26 ==> Char(a, v) as int == 'A' as int + v as int
    ensures 26 <= v < 52 ==> Char(a, v) as int == 'a' as int + (v as int - 26)
    ensures 52 <= v < 62 ==> Char(a, v) as int == '0' as int + (v as int - 52)
    ensures v == 62 ==> Char(a, v) as int == (if a == UrlSafe then '-' else '+') as int
    ensures v == 63 ==> Char(a, v) as int == (if a == UrlSafe then '_' else '/') as int
  {
  }

  lemma {:induction false} PadBefore(text: seq<bv8>, i: nat)
    requires i < |text| && text[i] == PAD
    ensures PadAt(text) <= i
  {
    if text[0] != PAD {
      PadBefore(text[1..], i - 1);
    }
  }

  /** Behind the first padding character the moderate decoder takes only padding; the loose one takes anything and ignores it. */
  lemma BehindPadding(text: seq<bv8>, a: Alphabet, i: nat, j: nat)
    requires i < j < |text| && text[i] as int == '=' as int && text[j] as int != '=' as int
    ensures Decoded(text, a, Moderate) == None
    ensures PAD !in text[..i] ==> Decoded(text, a, Loose) == Decoded(text[..i], a, Loose)
  {
    PadBefore(text, i);
    if PAD !in text[..i] {
      PadAtIs(text[..i], text);
      PadAtIs(text[..i], text[..i]);
      assert text[..i][..i] == text[..i];
    }
  }

  function RequiredEncodeSize(size: nat): nat { (size / 3 + if size % 3 != 0 then 1 else 0) * 4 }

  function MaxDecodeSize(size: nat): nat { (size / 4 + if size % 4 != 0 then 1 else 0) * 3 }

  lemma {:induction false} PadAtIs(front: seq<bv8>, text: seq<bv8>)
    requires front <= text && PAD !in front && (|front| < |text| ==> text[|front|] == PAD)
    ensures PadAt(text) == |front|
  {
    if front != [] {
      PadAtIs(front[1..], text[1..]);
    }
  }

  lemma DecodedPadded(chars: seq<bv8>, pads: seq<bv8>, digits: seq<bv8>, d: Alphabet, behavior: Behavior)
    requires PAD !in chars && Digits(d, chars) == Some(digits)
    requires forall i :: 0 <= i < |pads| ==> pads[i] == PAD
    ensures Decoded(chars + pads, d, behavior) == Some(ToBytes(Flat6(digits)))
  {
    hide ToBytes, Flat6, Digits, PadAt;
    var text := chars + pads;
    PadAtIs(chars, text);
    assert text[..|chars|] == chars;
    assert forall i :: |chars| <= i < |text| ==> text[i] == pads[i - |chars|];
  }

  /** The digits of a byte string stand for it however much padding follows them. */
  lemma AnyPadding(bytes: seq<bv8>, a: Alphabet, pads: seq<bv8>, d: Alphabet, behavior: Behavior)
    requires (d == Auto || d == Concrete(a)) && forall i :: 0 <= i < |pads| ==> pads[i] == PAD
    ensures Decoded(Chars(a, ToDigits(Flat8(bytes))) + pads, d, behavior) == Some(bytes)
  {
    hide ToDigits, ToBytes, Flat8, Flat6, Chars, Digits, Concrete, Decoded;
    var bits := Flat8(bytes);
    var digits := ToDigits(bits);
    DigitsOfChars(a, d, digits);
    DecodedPadded(Chars(a, digits), pads, digits, d, behavior);
    FlatOfDigits(bits);
    BytesOfFlat(bytes, Zeros(Fill(|bits|)));
  }

  /** Decoding undoes encoding, in both alphabets and when the alphabet is detected, whatever is done about errors. */
  lemma RoundTrip(bytes: seq<bv8>, a: Alphabet, d: Alphabet, behavior: Behavior)
    requires d == Auto || d == Concrete(a)
    ensures Decoded(Encoded(bytes, a), d, behavior) == Some(bytes)
  {
    hide Decoded;
    AnyPadding(bytes, a, Padding(|bytes|), d, behavior);
  }

  /** Detection accepts exactly the texts of one of the two alphabets, and reads them as that alphabet does. */
  lemma {:induction false} Detection(cs: seq<bv8>)
    ensures Digits(Auto, cs) == if Digits(Standard, cs).Some? then Digits(Standard, cs) else Digits(UrlSafe, cs)
    decreases |cs|
  {
    if cs != [] {
      Detection(cs[1..]);
    }
  }

  /** Two byte strings never share a code. */
  lemma EncodedInjective(x: seq<bv8>, y: seq<bv8>, a: Alphabet)
    requires Encoded(x, a) == Encoded(y, a)
    ensures x == y
  {
    RoundTrip(x, a, Auto, Moderate);
    RoundTrip(y, a, Auto, Moderate);
  }

  lemma EncodedSize(bytes: seq<bv8>, a: Alphabet)
    ensures |Encoded(bytes, a)| == RequiredEncodeSize(|bytes|)
  {
  }

  lemma {:induction false} DigitsCount(a: Alphabet, cs: seq<bv8>)
    ensures Digits(a, cs).Some? ==> |Digits(a, cs).value| == |cs|
    ensures Digits(a, cs).Some? ==> AreDigits(Digits(a, cs).value)
    decreases |cs|
  {
    if cs != [] && Value(a, cs[0]).Some? {
      ValueBound(a, cs[0]);
      DigitsCount(Value(a, cs[0]).value.1, cs[1..]);
    }
  }

  /** Characters before the padding carry six bits each; only whole bytes come out. */
  lemma DecodedSize(text: seq<bv8>, a: Alphabet, behavior: Behavior)
    requires Decoded(text, a, behavior).Some?
    ensures |Decoded(text, a, behavior).value| == 6 * PadAt(text) / 8 <= MaxDecodeSize(|text|)
  {
    DigitsCount(a, text[..PadAt(text)]);
  }

  // ----- the encoder

  // A byte is cut after its first six, its first four or its first two bits.

  function Low2(b: bv8): seq<bool> { [b & 2 != 0, b & 1 != 0] }
  function Top4(b: bv8): seq<bool> { [b & 128 != 0, b & 64 != 0, b & 32 != 0, b & 16 != 0] }
  function Low4(b: bv8): seq<bool> { [b & 8 != 0, b & 4 != 0, b & 2 != 0, b & 1 != 0] }
  function Top2(b: bv8): seq<bool> { [b & 128 != 0, b & 64 != 0] }

  function First(i0: bv8): (v: bv8)
    ensures v < 64 && Bits8(i0) == Bits6(v) + Low2(i0)
  {
    (i0 >> 2) & 0x3f
  }

  function Second(i0: bv8, i1: bv8): (v: bv8)
    ensures v < 64 && Bits6(v) == Low2(i0) + Top4(i1)
  {
    ((i0 & 0x3) << 4) | ((i1 >> 4) & 0x0f)
  }

  function Third(i1: bv8, i2: bv8): (v: bv8)
    ensures v < 64 && Bits6(v) == Low4(i1) + Top2(i2)
  {
    ((i1 & 0xf) << 2) | ((i2 >> 6) & 0x03)
  }

  function Fourth(i2: bv8): (v: bv8)
    ensures v < 64 && Bits8(i2) == Top2(i2) + Bits6(v)
  {
    i2 & 0x3f
  }

  lemma Halves(b: bv8)
    ensures Bits8(b) == Top4(b) + Low4(b)
  {
  }

  lemma DigitFirst(v: bv8, rest: seq<bool>)
    requires v < 64
    ensures ToDigits(Bits6(v) + rest) == [v] + ToDigits(rest)
  {
    var bits := Bits6(v) + rest;
    assert bits[6..] == rest;
    assert bits[0] == (v & 32 != 0) && bits[1] == (v & 16 != 0) && bits[2] == (v & 8 != 0);
    assert bits[3] == (v & 4 != 0) && bits[4] == (v & 2 != 0) && bits[5] == (v & 1 != 0);
    SumOfWeights(v);
  }

  lemma SumOfWeights(v: bv8)
    requires v < 64
    ensures v == If(v & 32 != 0, 32) | If(v & 16 != 0, 16) | If(v & 8 != 0, 8) | If(v & 4 != 0, 4) | If(v & 2 != 0, 2) | If(v & 1 != 0, 1)
  {
  }

  lemma DigitLast(v: bv8, bits: seq<bool>)
    requires v < 64 && 0 < |bits| < 6 && Bits6(v) == bits + Zeros(6 - |bits|)
    ensures ToDigits(bits) == [v]
  {
    DigitFirst(v, []);
    assert Bits6(v) + [] == Bits6(v);
    assert ToDigits(Bits6(v)) == [Digit(Bits6(v))] + ToDigits(Bits6(v)[6..]);
  }

  lemma GroupOfThree(i0: bv8, i1: bv8, i2: bv8, rest: seq<bool>)
    ensures ToDigits(Bits8(i0) + (Bits8(i1) + (Bits8(i2) + rest))) == [First(i0), Second(i0, i1), Third(i1, i2), Fourth(i2)] + ToDigits(rest)
  {
    hide *;
    Halves(i1);
    var d0, d1, d2, d3 := First(i0), Second(i0, i1), Third(i1, i2), Fourth(i2);
    var r := Bits6(d3) + rest;
    Assoc(Top2(i2), Bits6(d3), rest);
    Assoc(Top4(i1), Low4(i1), Top2(i2) + r);
    Assoc(Low4(i1), Top2(i2), r);
    Assoc(Bits6(d0), Low2(i0), Top4(i1) + (Bits6(d2) + r));
    Assoc(Low2(i0), Top4(i1), Bits6(d2) + r);
    assert Bits8(i0) + (Bits8(i1) + (Bits8(i2) + rest)) == Bits6(d0) + (Bits6(d1) + (Bits6(d2) + r));
    DigitFirst(d3, rest);
    DigitFirst(d2, Bits6(d3) + rest);
    DigitFirst(d1, Bits6(d2) + (Bits6(d3) + rest));
    DigitFirst(d0, Bits6(d1) + (Bits6(d2) + (Bits6(d3) + rest)));
    Four(d0, d1, d2, d3, ToDigits(rest));
  }

  lemma LastTwo(i0: bv8, i1: bv8)
    ensures ToDigits(Bits8(i0) + Bits8(i1)) == [First(i0), Second(i0, i1), Third(i1, 0)]
  {
    var d0, d1, d2 := First(i0), Second(i0, i1), Third(i1, 0);
    assert Top2(0) == Zeros(2) && |Low4(i1)| == 4;
    hide *;
    Halves(i1);
    Assoc(Bits6(d0), Low2(i0), Top4(i1) + Low4(i1));
    Assoc(Low2(i0), Top4(i1), Low4(i1));
    assert Bits8(i0) + Bits8(i1) == Bits6(d0) + (Bits6(d1) + Low4(i1));
    DigitLast(d2, Low4(i1));
    DigitFirst(d1, Low4(i1));
    DigitFirst(d0, Bits6(d1) + Low4(i1));
  }

  lemma LastOne(i0: bv8)
    ensures ToDigits(Bits8(i0)) == [First(i0), Second(i0, 0)]
  {
    var d0, d1 := First(i0), Second(i0, 0);
    assert Top4(0) == Zeros(4) && |Low2(i0)| == 2;
    hide *;
    DigitLast(d1, Low2(i0));
    DigitFirst(d0, Low2(i0));
  }

  lemma FlatCons(b: bv8, rest: seq<bv8>)
    ensures Flat8([b] + rest) == Bits8(b) + Flat8(rest)
  {
    assert ([b] + rest)[1..] == rest;
  }

  lemma EncodedGroup(i0: bv8, i1: bv8, i2: bv8, rest: seq<bv8>, a: Alphabet)
    ensures Encoded([i0, i1, i2] + rest, a) ==
              [Char(a, First(i0)), Char(a, Second(i0, i1)), Char(a, Third(i1, i2)), Char(a, Fourth(i2))] + Encoded(rest, a)
  {
    var all := [i0, i1, i2] + rest;
    hide ToDigits, Flat8, Bits8, Bits6, First, Second, Third, Fourth, Chars, Char;
    FlatCons(i2, rest);
    FlatCons(i1, [i2] + rest);
    FlatCons(i0, [i1] + ([i2] + rest));
    assert all == [i0] + ([i1] + ([i2] + rest));
    GroupOfThree(i0, i1, i2, Flat8(rest));
    CharsOfFour(a, ToDigits(Flat8(all)), First(i0), Second(i0, i1), Third(i1, i2), Fourth(i2), ToDigits(Flat8(rest)));
  }

  lemma CharsOfFour(a: Alphabet, ds: seq<bv8>, v0: bv8, v1: bv8, v2: bv8, v3: bv8, rest: seq<bv8>)
    requires v0 < 64 && v1 < 64 && v2 < 64 && v3 < 64 && AreDigits(rest) && ds == [v0, v1, v2, v3] + rest
    ensures AreDigits(ds) && Chars(a, ds) == [Char(a, v0), Char(a, v1), Char(a, v2), Char(a, v3)] + Chars(a, rest)
  {
    hide *;
    Four(v0, v1, v2, v3, rest);
    Four(Char(a, v0), Char(a, v1), Char(a, v2), Char(a, v3), Chars(a, rest));
    CharsCons(a, v3, rest);
    CharsCons(a, v2, [v3] + rest);
    CharsCons(a, v1, [v2] + ([v3] + rest));
    CharsCons(a, v0, [v1] + ([v2] + ([v3] + rest)));
  }

  lemma Four(a: bv8, b: bv8, c: bv8, d: bv8, rest: seq<bv8>)
    ensures [a] + ([b] + ([c] + ([d] + rest))) == [a, b, c, d] + rest
  {
  }

  lemma CharsCons(a: Alphabet, v: bv8, rest: seq<bv8>)
    requires v < 64 && AreDigits(rest)
    ensures AreDigits([v] + rest) && Chars(a, [v] + rest) == [Char(a, v)] + Chars(a, rest)
  {
    assert ([v] + rest)[1..] == rest;
  }

  lemma CharsOne(a: Alphabet, ds: seq<bv8>)
    requires AreDigits(ds) && ds != []
    ensures Chars(a, ds) == [Char(a, ds[0])] + Chars(a, ds[1..])
  {
  }

  lemma EncodedTwo(i0: bv8, i1: bv8, a: Alphabet)
    ensures Encoded([i0, i1], a) == [Char(a, First(i0)), Char(a, Second(i0, i1)), Char(a, Third(i1, 0)), PAD]
  {
    hide ToDigits, Flat8, Bits8, Bits6, First, Second, Third, Char;
    FlatCons(i1, []);
    FlatCons(i0, [i1]);
    assert [i1] + [] == [i1] && [i0] + [i1] == [i0, i1];
    FlatNone();
    assert Bits8(i1) + [] == Bits8(i1);
    LastTwo(i0, i1);
    var ds := ToDigits(Flat8([i0, i1]));
    CharsOne(a, ds);
    CharsOne(a, ds[1..]);
    CharsOne(a, ds[1..][1..]);
    assert Chars(a, ds[1..][1..][1..]) == [];
  }

  lemma FlatNone()
    ensures Flat8([]) == []
  {
  }

  lemma EncodedOne(i0: bv8, a: Alphabet)
    ensures Encoded([i0], a) == [Char(a, First(i0)), Char(a, Second(i0, 0)), PAD, PAD]
  {
    hide ToDigits, Flat8, Bits8, Bits6, First, Second, Char;
    FlatCons(i0, []);
    assert [i0] + [] == [i0];
    FlatNone();
    assert Bits8(i0) + [] == Bits8(i0);
    LastOne(i0);
    var ds := ToDigits(Flat8([i0]));
    CharsOne(a, ds);
    CharsOne(a, ds[1..]);
    assert Chars(a, ds[1..][1..]) == [];
  }

  /** The encoder; at the end of the data the bits of the missing bytes are zero. */
  method Encode(src: seq<bv8>, a: Alphabet) returns (out: seq<bv8>)
    ensures out == Encoded(src, a)
  {
    hide Encoded, Char, First, Second, Third, Fourth;
    out := [];
    var i := 0;
    assert src[0..] == src;
    while i < |src|
      invariant i <= |src| && out + Encoded(src[i..], a) == Encoded(src, a)
      decreases |src| - i
    {
      ghost var before, rest := out, src[i..];
      var i0 := src[i];
      i := i + 1;
      out := out + [Char(a, First(i0))];
      if i == |src| {
        out := out + [Char(a, Second(i0, 0))];
        out := out + [PAD];
        out := out + [PAD];
        EncodedOne(i0, a);
        assert rest == [i0];
        return;
      }
      var i1 := src[i];
      i := i + 1;
      out := out + [Char(a, Second(i0, i1))];
      if i == |src| {
        out := out + [Char(a, Third(i1, 0))];
        out := out + [PAD];
        EncodedTwo(i0, i1, a);
        assert rest == [i0, i1];
        return;
      }
      var i2 := src[i];
      i := i + 1;
      out := out + [Char(a, Third(i1, i2))];
      out := out + [Char(a, Fourth(i2))];
      EncodedGroup(i0, i1, i2, src[i..], a);
      assert rest == [i0, i1, i2] + src[i..];
      Assoc(before, [Char(a, First(i0)), Char(a, Second(i0, i1)), Char(a, Third(i1, i2)), Char(a, Fourth(i2))], Encoded(src[i..], a));
    }
    EncodedNone(a);
    assert src[i..] == [];
  }

  lemma EncodedNone(a: Alphabet)
    ensures Encoded([], a) == []
  {
  }

  /** Test vectors of section 10 of RFC 4648: "", "f" as "Zg==", "fo" as "Zm8=", "foo" as "Zm9v". */
  lemma TestVectors()
    ensures Encoded([], Standard) == []
    ensures Encoded([0x66], Standard) == [90, 103, 61, 61]
    ensures Encoded([0x66, 0x6f], Standard) == [90, 109, 56, 61]
    ensures Encoded([0x66, 0x6f, 0x6f], Standard) == [90, 109, 57, 118]
  {
    hide Encoded;
    EncodedNone(Standard);
    EncodedOne(0x66, Standard);
    EncodedTwo(0x66, 0x6f, Standard);
    EncodedGroup(0x66, 0x6f, 0x6f, [], Standard);
    var foo: seq<bv8> := [0x66, 0x6f, 0x6f];
    assert foo + [] == foo;
    assert First(0x66) == 25 && Second(0x66, 0x6f) == 38 && Third(0x6f, 0x6f) == 61 && Fourth(0x6f) == 47;
  }

  // ----- the decoder

  /** The bits of the last digit that no byte has taken yet. */
  function Tail(last: bv8, bits: nat): seq<bool>
    requires bits in {0, 2, 4, 6}
  {
    Bits6(last)[6 - bits..]
  }

  /** The byte made of the waiting bits and the top of the next digit; an 8-bit shift drops what is older. */
  function Join(last: bv8, part: bv8, bits: nat): bv8
    requires 2 <= bits <= 6
  {
    (last << (8 - bits)) | (part >> (bits - 2))
  }

  function Top(part: bv8, n: nat): seq<bool>
    requires n <= 6
  {
    Bits6(part)[..n]
  }

  lemma JoinTwo(last: bv8, part: bv8)
    requires part < 64
    ensures Bits8((last << 6) | (part >> 0)) == Low2(last) + Bits6(part)
  {
  }

  lemma JoinFour(last: bv8, part: bv8)
    requires part < 64
    ensures Bits8((last << 4) | (part >> 2)) == Low4(last) + Top(part, 4)
  {
  }

  lemma JoinSix(last: bv8, part: bv8)
    requires last < 64 && part < 64
    ensures Bits8((last << 2) | (part >> 4)) == Bits6(last) + Top(part, 2)
  {
  }

  lemma TopAndLow(part: bv8)
    ensures Bits6(part) == Top(part, 4) + Low2(part) == Top(part, 2) + Low4(part)
  {
  }

  lemma Shifts(last: bv8, part: bv8)
    ensures Join(last, part, 2) == (last << 6) | (part >> 0)
    ensures Join(last, part, 4) == (last << 4) | (part >> 2)
    ensures Join(last, part, 6) == (last << 2) | (part >> 4)
  {
  }

  lemma Tails(v: bv8)
    ensures Tail(v, 0) == [] && Tail(v, 2) == Low2(v) && Tail(v, 4) == Low4(v) && Tail(v, 6) == Bits6(v)
  {
  }

  lemma JoinBits(last: bv8, part: bv8, bits: nat)
    requires last < 64 && part < 64 && bits in {2, 4, 6}
    ensures Tail(last, bits) + Bits6(part) == Bits8(Join(last, part, bits)) + Tail(part, bits - 2)
  {
    hide Bits6, Bits8, Tail, Low2, Low4, Join, Top;
    Shifts(last, part);
    TopAndLow(part);
    Tails(last);
    Tails(part);
    if bits == 2 {
      JoinTwo(last, part);
    } else if bits == 4 {
      JoinFour(last, part);
      Assoc(Low4(last), Top(part, 4), Low2(part));
    } else {
      JoinSix(last, part);
      Assoc(Bits6(last), Top(part, 2), Low4(part));
    }
  }

  /** The bytes still to come from a run of characters. */
  function Rest(a: Alphabet, last: bv8, bits: nat, cs: seq<bv8>): Option<seq<bv8>>
    requires bits in {0, 2, 4, 6}
  {
    match Digits(a, cs)
    case None => None
    case Some(ds) => Some(ToBytes(Tail(last, bits) + Flat6(ds)))
  }

  function Prepend(front: seq<bv8>, r: Option<seq<bv8>>): Option<seq<bv8>> {
    match r
    case None => None
    case Some(bytes) => Some(front + bytes)
  }

  lemma BytesStep(last: bv8, bits: nat, part: bv8, ds: seq<bv8>)
    requires bits in {0, 2, 4, 6} && last < 64 && part < 64
    ensures ToBytes(Tail(last, bits) + Flat6([part] + ds)) ==
              if bits + 6 >= 8 then [Join(last, part, bits)] + ToBytes(Tail(part, bits - 2) + Flat6(ds))
              else ToBytes(Tail(part, bits + 6) + Flat6(ds))
  {
    hide Bits6, Bits8, Tail, Flat6, Join, ToBytes;
    FlatDigits(part, ds);
    if bits >= 2 {
      JoinBits(last, part, bits);
      BytesCons(Join(last, part, bits), Tail(part, bits - 2) + Flat6(ds));
      Assoc(Tail(last, bits), Bits6(part), Flat6(ds));
      Assoc(Bits8(Join(last, part, bits)), Tail(part, bits - 2), Flat6(ds));
    } else {
      Tails(last);
      Tails(part);
      assert [] + (Bits6(part) + Flat6(ds)) == Bits6(part) + Flat6(ds);
    }
  }

  lemma RestStep(a: Alphabet, last: bv8, bits: nat, c: bv8, cs: seq<bv8>)
    requires bits in {0, 2, 4, 6} && last < 64
    ensures Rest(a, last, bits, [c] + cs) ==
              match Value(a, c)
              case None => None
              case Some(p) =>
                if bits + 6 >= 8 then Prepend([Join(last, p.0, bits)], Rest(p.1, p.0, bits - 2, cs))
                else Rest(p.1, p.0, bits + 6, cs)
  {
    hide Tail, Flat6, Join, ToBytes;
    assert ([c] + cs)[1..] == cs;
    ValueBound(a, c);
    if Value(a, c).Some? && Digits(Value(a, c).value.1, cs).Some? {
      BytesStep(last, bits, Value(a, c).value.0, Digits(Value(a, c).value.1, cs).value);
    }
  }

  lemma FlatDigits(part: bv8, ds: seq<bv8>)
    ensures Flat6([part] + ds) == Bits6(part) + Flat6(ds)
  {
    assert ([part] + ds)[1..] == ds;
  }

  lemma BytesCons(b: bv8, rest: seq<bool>)
    ensures ToBytes(Bits8(b) + rest) == [b] + ToBytes(rest)
  {
    ByteOfBits(b, rest);
    assert (Bits8(b) + rest)[8..] == rest;
  }

  /** What stands behind the first padding character is padding. */
  method OnlyPadding(src: array<bv8>, from: nat, n: nat) returns (clean: bool)
    requires from <= n <= src.Length
    ensures clean == forall j :: from <= j < n ==> src[j] == PAD
  {
    var i := from;
    while i < n
      invariant from <= i <= n
      invariant forall j :: from <= j < i ==> src[j] == PAD
    {
      var c := src[i];
      i := i + 1;
      if c != PAD {
        return false;
      }
    }
    return true;
  }

  /** The decoder after `i` characters: what it has written, and what it keeps, stand for what it has read. */
  ghost predicate Reading(text: seq<bv8>, alphabet: Alphabet, i: nat, out: seq<bv8>, a: Alphabet, last: bv8, bits: nat) {
    var k := PadAt(text);
    && i <= k && last < 64
    && bits in {0, 2, 4, 6} && 8 * |out| + bits == 6 * i
    && Rest(alphabet, 0, 0, text[..k]) == Prepend(out, Rest(a, last, bits, text[i..k]))
  }

  /** The text is no code: a character before the padding is wrong. */
  ghost predicate Wrong(text: seq<bv8>, alphabet: Alphabet) { Rest(alphabet, 0, 0, text[..PadAt(text)]) == None }

  lemma ReadingStarts(text: seq<bv8>, alphabet: Alphabet)
    ensures Reading(text, alphabet, 0, [], alphabet, 0, 0)
  {
    var k := PadAt(text);
    RestNone(Rest(alphabet, 0, 0, text[..k]));
    assert text[0..k] == text[..k];
  }

  /** What a character that is not padding does: the decoder fails, or goes on reading. */
  lemma ReadingStep(text: seq<bv8>, alphabet: Alphabet, i: nat, out: seq<bv8>, a: Alphabet, last: bv8, bits: nat)
    requires Reading(text, alphabet, i, out, a, last, bits) && i < |text| && text[i] != PAD
    ensures var v := Value(a, text[i]);
            && (v == None ==> Wrong(text, alphabet))
            && (v.Some? && bits >= 2 ==> Reading(text, alphabet, i + 1, out + [Join(last, v.value.0, bits)], v.value.1, v.value.0, bits - 2))
            && (v.Some? && bits == 0 ==> Reading(text, alphabet, i + 1, out, v.value.1, v.value.0, 6))
  {
    hide *;
    var v := Value(a, text[i]);
    ReadingFacts(text, alphabet, i, out, a, last, bits);
    var rest := text[i + 1..PadAt(text)];
    ValueBound(a, text[i]);
    if v == None {
      PrependNone(out);
      WrongIs(text, alphabet);
    } else if bits >= 2 {
      PrependTwice(out, [Join(last, v.value.0, bits)], Rest(v.value.1, v.value.0, bits - 2, rest));
      ReadingIs(text, alphabet, i + 1, out + [Join(last, v.value.0, bits)], v.value.1, v.value.0, bits - 2);
    } else {
      ReadingIs(text, alphabet, i + 1, out, v.value.1, v.value.0, 6);
    }
  }

  lemma WrongIs(text: seq<bv8>, alphabet: Alphabet)
    ensures Wrong(text, alphabet) <==> Rest(alphabet, 0, 0, text[..PadAt(text)]) == None
  {
    hide Rest, PadAt;
  }

  lemma ReadingIs(text: seq<bv8>, alphabet: Alphabet, i: nat, out: seq<bv8>, a: Alphabet, last: bv8, bits: nat)
    requires i <= PadAt(text) && last < 64 && bits in {0, 2, 4, 6} && 8 * |out| + bits == 6 * i
    requires Rest(alphabet, 0, 0, text[..PadAt(text)]) == Prepend(out, Rest(a, last, bits, text[i..PadAt(text)]))
    ensures Reading(text, alphabet, i, out, a, last, bits)
  {
    hide Rest, Prepend, PadAt;
  }

  lemma ReadingFacts(text: seq<bv8>, alphabet: Alphabet, i: nat, out: seq<bv8>, a: Alphabet, last: bv8, bits: nat)
    requires Reading(text, alphabet, i, out, a, last, bits) && i < |text| && text[i] != PAD
    ensures var k := PadAt(text);
            && i < k && last < 64 && bits in {0, 2, 4, 6} && 8 * |out| + bits == 6 * i
            && Rest(alphabet, 0, 0, text[..k]) == Prepend(out,
                 var v := Value(a, text[i]);
                 if v == None then None
                 else if bits >= 2 then Prepend([Join(last, v.value.0, bits)], Rest(v.value.1, v.value.0, bits - 2, text[i + 1..k]))
                 else Rest(v.value.1, v.value.0, 6, text[i + 1..k]))
  {
    hide PadAt, Rest, Join, Value, Prepend;
    var k := PadAt(text);
    assert text[i..k] == [text[i]] + text[i + 1..k];
    RestStep(a, last, bits, text[i], text[i + 1..k]);
  }

  lemma ReadingEnds(text: seq<bv8>, alphabet: Alphabet, i: nat, out: seq<bv8>, a: Alphabet, last: bv8, bits: nat)
    requires Reading(text, alphabet, i, out, a, last, bits) && (i == |text| || text[i] == PAD)
    ensures i == PadAt(text) && Rest(alphabet, 0, 0, text[..i]) == Some(out)
  {
    assert text[i..i] == [];
    NothingLeft(a, last, bits);
    PrependNothing(out);
  }

  /** One digit: a byte is written as soon as eight bits are there. */
  method Accept(dst: array<bv8>, w: nat, last: bv8, bits: nat, part: bv8) returns (w': nat, bits': nat)
    requires bits in {0, 2, 4, 6} && (bits >= 2 ==> w < dst.Length) && w <= dst.Length
    modifies dst
    ensures bits' == (if bits >= 2 then bits - 2 else 6) && w' == (if bits >= 2 then w + 1 else w)
    ensures dst[..w'] == if bits >= 2 then old(dst[..w]) + [Join(last, part, bits)] else old(dst[..w])
    ensures forall j :: 0 <= j < dst.Length && j != w ==> dst[j] == old(dst[j])
    ensures bits == 0 ==> dst[..] == old(dst[..])
  {
    if bits + 6 >= 8 {
      dst[w] := Join(last, part, bits);
      return w + 1, bits - 2;
    } else {
      return w, bits + 6;
    }
  }

  /** The first loop: the bytes of the digits before the padding, and where reading stopped. */
  method DecodeDigits(src: array<bv8>, n: nat, dst: array<bv8>, alphabet: Alphabet) returns (ok: bool, i: nat, w: nat)
    requires n <= src.Length && 6 * n / 8 <= dst.Length
    modifies dst
    ensures var text := old(src[..n]);
            var k := PadAt(text);
            && i <= n && w <= dst.Length
            && (ok ==> i == if k < n then k + 1 else n)
            && (forall j :: i <= j < n ==> src[j] == text[j])
            && (forall j :: w <= j < dst.Length ==> dst[j] == old(dst[j]))
            && Rest(alphabet, 0, 0, text[..k]) == if ok then Some(dst[..w]) else None
  {
    hide *;
    var a, last: bv8, bits := alphabet, 0, 0;
    i, w := 0, 0;
    ghost var text := src[..n];
    ReadingStarts(text, alphabet);
    WrongIs(text, alphabet);
    assert dst[..0] == [];
    ok := true;
    while ok && i < n && src[i] != PAD
      invariant i <= n && w <= dst.Length
      invariant bits in {0, 2, 4, 6} && 8 * w + bits == 6 * i
      invariant ok ==> Reading(text, alphabet, i, dst[..w], a, last, bits)
      invariant !ok ==> Wrong(text, alphabet)
      invariant forall j :: i <= j < n ==> src[j] == text[j]
      invariant forall j :: w <= j < dst.Length ==> dst[j] == old(dst[j])
      decreases n - i, ok
    {
      var p := Value(a, src[i]);
      ReadingStep(text, alphabet, i, dst[..w], a, last, bits);
      if p.Some? {
        i := i + 1;
        w, bits := Accept(dst, w, last, bits, p.value.0);
        a, last := p.value.1, p.value.0;
      } else {
        ok := false;
      }
    }
    if ok {
      ReadingEnds(text, alphabet, i, dst[..w], a, last, bits);
      if i < n {
        i := i + 1;
      }
    }
  }

  /**
   Decoding from one buffer to another, which may be the same one: a byte is written
   only where a character has been read. What lies behind the result is left alone.
   */
  method Decode(src: array<bv8>, n: nat, dst: array<bv8>, alphabet: Alphabet, behavior: Behavior) returns (r: Option<nat>)
    requires n <= src.Length && 6 * n / 8 <= dst.Length
    modifies dst
    ensures var d := Decoded(old(src[..n]), alphabet, behavior);
            && (r.Some? <==> d.Some?)
            && (r.Some? ==> r.value == |d.value| <= dst.Length && dst[..] == d.value + old(dst[..])[r.value..])
  {
    ghost var text := src[..n];
    DecodedIs(text, alphabet, behavior);
    hide Decoded, Rest;
    var ok, i, w := DecodeDigits(src, n, dst, alphabet);
    if !ok {
      return None;
    }
    if behavior != Loose {
      var clean := OnlyPadding(src, i, n);
      if !clean {
        return None;
      }
    }
    return Some(w);
  }

  lemma DecodedIs(text: seq<bv8>, a: Alphabet, behavior: Behavior)
    ensures var r, k := Rest(a, 0, 0, text[..PadAt(text)]), PadAt(text);
            Decoded(text, a, behavior) ==
              if behavior == Moderate && exists i :: k <= i < |text| && text[i] != PAD then None else r
  {
    var k := PadAt(text);
    if Digits(a, text[..k]).Some? {
      var ds := Digits(a, text[..k]).value;
      assert Tail(0, 0) + Flat6(ds) == Flat6(ds);
    }
  }

  lemma PrependNothing(front: seq<bv8>)
    ensures Prepend(front, Some([])) == Some(front)
  {
    assert front + [] == front;
  }

  lemma NothingLeft(a: Alphabet, last: bv8, bits: nat)
    requires bits in {0, 2, 4, 6}
    ensures Rest(a, last, bits, []) == Some([])
  {
  }

  lemma RestNone(r: Option<seq<bv8>>)
    ensures Prepend([], r) == r
  {
    assert r.Some? ==> [] + r.value == r.value;
  }

  lemma PrependNone(front: seq<bv8>)
    ensures Prepend(front, None) == None
  {
  }

  lemma PrependTwice(x: seq<bv8>, y: seq<bv8>, r: Option<seq<bv8>>)
    ensures Prepend(x, Prepend(y, r)) == Prepend(x + y, r)
  {
    assert r.Some? ==> x + (y + r.value) == (x + y) + r.value;
  }

  method DecodeInPlace(str: array<bv8>, n: nat, alphabet: Alphabet, behavior: Behavior) returns (r: Option<nat>)
    requires n <= str.Length
    modifies str
    ensures var d := Decoded(old(str[..n]), alphabet, behavior);
            && (r.Some? <==> d.Some?)
            && (r.Some? ==> r.value == |d.value| <= n && str[..] == d.value + old(str[..])[r.value..])
  {
    ghost var text := str[..n];
    if Decoded(text, alphabet, behavior).Some? {
      DecodedSize(text, alphabet, behavior);
    }
    hide Decoded;
    r := Decode(str, n, str, alphabet, behavior);
  }

  method DecodeText(text: seq<bv8>, alphabet: Alphabet, behavior: Behavior) returns (r: Option<seq<bv8>>)
    ensures r == Decoded(text, alphabet, behavior)
  {
    hide Decoded;
    var src := new bv8[|text|](i requires 0 <= i < |text| => text[i]);
    var dst := new bv8[MaxDecodeSize(|text|)];
    assert src[..|text|] == text;
    var n := Decode(src, |text|, dst, alphabet, behavior);
    if n == None {
      return None;
    }
    return Some(dst[..n.value]);
  }
}
