/**
 The two conversions of decimal/bcd.go are inverse to each other exactly on canonical texts and
 canonical buffers.
 */
module BcdRoundTrip {
  import opened Common
  import opened Bcd

  // ----- the normal form of a decimal number -----

  function Chars(digits: seq<Nibble>): (text: Text)
    ensures |text| == |digits|
  {
    if digits == [] then [] else [digits[0] + ZERO] + Chars(digits[1..])
  }

  /** The digits with the point in front of the last `scale` ones, if there are as many. */
  function Pointed(digits: seq<Nibble>, scale: nat): Text {
    if 0 < scale <= |digits| then Chars(digits[..|digits| - scale]) + [POINT] + Chars(digits[|digits| - scale..])
    else Chars(digits)
  }

  function Magnitude(digits: seq<Nibble>, scale: nat): Text {
    Lead(|digits|, scale) + Pointed(digits, scale)
  }

  /** The text of a number given by its sign, its significant digits and its scale. */
  function Number(neg: bool, digits: seq<Nibble>, scale: nat): Text {
    Signed(neg, Magnitude(digits, scale))
  }

  ghost predicate AllDigits(text: Text) {
    forall i :: 0 <= i < |text| ==> IsDigit(text[i])
  }

  /** A text without a minus in front. */
  function Body(s: Text): Text {
    if |s| > 0 && s[0] == MINUS then s[1..] else s
  }

  /** A text in normal form: an optional minus, digits without a leading zero, and optionally a point
      with at least one digit behind it. */
  ghost predicate Canonical(s: Text) {
    var body := Body(s);
    var p := PointAt(body);
    && 0 < p
    && AllDigits(body[..p])
    && (body[0] == ZERO ==> p == 1)
    && (p < |body| ==> p + 1 < |body| && AllDigits(body[p + 1..]))
  }

  // ----- decoding gives a normal form -----

  lemma {:induction false} CharsSplit(digits: seq<Nibble>, k: nat)
    requires k <= |digits|
    ensures Chars(digits) == Chars(digits[..k]) + Chars(digits[k..])
  {
    if k == 0 {
      assert digits[0..] == digits;
    } else {
      CharsSplit(digits[1..], k - 1);
      assert digits[..k][1..] == digits[1..][..k - 1];
      assert digits[1..][k - 1..] == digits[k..];
    }
  }

  ghost predicate Decimal(digits: seq<Nibble>) {
    forall i :: 0 <= i < |digits| ==> digits[i] <= 9
  }

  lemma CharsHead(digits: seq<Nibble>)
    requires |digits| > 0
    ensures Chars(digits) == [digits[0] + ZERO] + Chars(digits[1..])
  {
  }

  /** The next digit stands before the point, or the point before it. */
  lemma PointedBefore(digits: seq<Nibble>, scale: nat)
    requires 0 < scale < |digits|
    ensures Pointed(digits, scale) == [digits[0] + ZERO] + Pointed(digits[1..], scale)
  {
    hide Chars;
    var k := |digits| - scale;
    CharsHead(digits[..k]);
    assert digits[1..][..k - 1] == digits[..k][1..];
    assert digits[1..][k - 1..] == digits[k..];
    Associate([digits[0] + ZERO], Chars(digits[..k][1..]), [POINT]);
    Associate([digits[0] + ZERO], Chars(digits[..k][1..]) + [POINT], Chars(digits[k..]));
  }

  lemma PointedFirst(digits: seq<Nibble>)
    requires |digits| > 0
    ensures Pointed(digits, |digits|) == [POINT] + [digits[0] + ZERO] + Pointed(digits[1..], |digits|)
  {
    assert digits[0..] == digits && Chars(digits[..0]) == [];
    hide Chars;
    CharsHead(digits);
    Associate([POINT], [digits[0] + ZERO], Chars(digits[1..]));
  }

  lemma PointedStep(digits: seq<Nibble>, scale: nat)
    requires |digits| > 0
    ensures Pointed(digits, scale) ==
              (if |digits| == scale then [POINT] else []) + [digits[0] + ZERO] + Pointed(digits[1..], scale)
  {
    hide Chars;
    if |digits| == scale {
      PointedFirst(digits);
    } else {
      assert [] + [digits[0] + ZERO] == [digits[0] + ZERO];
      if 0 < scale < |digits| {
        PointedBefore(digits, scale);
      } else {
        CharsHead(digits);
      }
    }
  }

  /** The digits as they are emitted in front of a sign nibble. */
  lemma {:induction false} EmittedDigits(digits: seq<Nibble>, sign: Nibble, scale: nat)
    requires Decimal(digits) && sign > 9
    ensures Emitted(digits + [sign], |digits|, scale) == Pointed(digits, scale)
  {
    if digits != [] {
      EmittedDigits(digits[1..], sign, scale);
      assert (digits + [sign])[1..] == digits[1..] + [sign];
      PointedStep(digits, scale);
    }
  }

  lemma UnpaddedIs(digits: seq<Nibble>, sign: Nibble)
    requires Significand(digits) && sign > 9
    ensures |Packed(digits, sign)| > 0 && Unpadded(Packed(digits, sign)) == digits + [sign]
    ensures Packed(digits, sign)[|Packed(digits, sign)| - 1] % 16 == sign
  {
    var nibbles := Padding(|digits|) + digits + [sign];
    PaddedIsOdd(digits);
    assert |nibbles| == |Padding(|digits|) + digits| + 1;
    UnpackPack(nibbles);
    UnpackEnds(Pack(nibbles));
    assert nibbles[|nibbles| - 1] == sign;
    if Even(|digits|) {
      assert nibbles[0] == 0 && nibbles[1..] == digits + [sign];
    } else {
      assert nibbles == digits + [sign] && nibbles[0] == digits[0];
    }
  }

  lemma {:induction false} UnpackEnds(bytes: seq<Byte>)
    requires |bytes| > 0
    ensures Unpack(bytes)[0] == bytes[0] / 16
    ensures Unpack(bytes)[2 * |bytes| - 1] == bytes[|bytes| - 1] % 16
  {
    if |bytes| > 1 {
      UnpackEnds(bytes[1..]);
    }
  }

  /** Packed significant digits decode to the number. */
  lemma DecodedIsNumber(digits: seq<Nibble>, sign: Nibble, scale: Byte)
    requires Significand(digits) && sign > 9
    ensures |[scale] + Packed(digits, sign)| >= 2
    ensures Decoded([scale] + Packed(digits, sign)) == Number(IsNegative(sign), digits, scale)
  {
    var packed := Packed(digits, sign);
    UnpaddedIs(digits, sign);
    EmittedDigits(digits, sign, scale);
    DecodedParts([scale] + packed, packed, digits + [sign], scale, sign);
  }

  lemma DecodedParts(buf: seq<Byte>, packed: seq<Byte>, nibbles: seq<Nibble>, scale: Byte, sign: Nibble)
    requires buf == [scale] + packed && |packed| > 0
    requires Unpadded(packed) == nibbles && packed[|packed| - 1] % 16 == sign
    ensures Decoded(buf) == Signed(IsNegative(sign), Lead(|nibbles| - 1, scale) + Emitted(nibbles, |nibbles| - 1, scale))
  {
    assert buf[1..] == packed && buf[|buf| - 1] == packed[|packed| - 1];
  }

  // ----- reading a text in pieces -----

  /** Digits, and optionally a point with digits behind it. */
  function Unsigned(whole: Text, point: bool, fraction: Text): Text {
    whole + if point then [POINT] + fraction else []
  }

  function Plain(neg: bool, whole: Text, point: bool, fraction: Text): Text {
    Signed(neg, Unsigned(whole, point, fraction))
  }

  ghost predicate Proper(whole: Text, point: bool, fraction: Text) {
    && |whole| > 0 && AllDigits(whole) && AllDigits(fraction)
    && (whole[0] == ZERO ==> |whole| == 1)
    && (if point then |fraction| > 0 else fraction == [])
  }

  function AcceptAll(digits: seq<Nibble>, text: Text): seq<Nibble>
    decreases |text|
  {
    if text == [] then digits else AcceptAll(Accepted(digits, text[0]), text[1..])
  }

  lemma {:induction false} SignificantAppend(x: Text, y: Text)
    ensures Significant(x + y) == AcceptAll(Significant(x), y)
    decreases |y|
  {
    if y == [] {
      assert x + y == x;
    } else {
      var z := x + [y[0]];
      assert z[..|z| - 1] == x;
      assert z + y[1..] == x + y;
      SignificantAppend(z, y[1..]);
    }
  }

  lemma SignificantOfPlain(neg: bool, whole: Text, point: bool, fraction: Text)
    requires Proper(whole, point, fraction)
    ensures Significant(Plain(neg, whole, point, fraction)) == AcceptAll(AcceptAll([], whole), fraction)
  {
    var sign := if neg then [MINUS] else [];
    var text := Unsigned(whole, point, fraction);
    assert Plain(neg, whole, point, fraction) == sign + text;
    assert sign != [] ==> sign[..0] == [];
    SignificantAppend(sign, text);
    AcceptUnsigned(whole, point, fraction);
  }

  lemma AcceptUnsigned(whole: Text, point: bool, fraction: Text)
    requires Proper(whole, point, fraction)
    ensures AcceptAll([], Unsigned(whole, point, fraction)) == AcceptAll(AcceptAll([], whole), fraction)
  {
    if point {
      assert ([POINT] + fraction)[1..] == fraction;
      AcceptAppend([], whole, [POINT] + fraction);
    } else {
      assert Unsigned(whole, point, fraction) == whole;
    }
  }

  /** Where the point of a plain text is, and that nothing in it is bad. */
  lemma PlainReads(neg: bool, whole: Text, point: bool, fraction: Text)
    requires Proper(whole, point, fraction)
    ensures var s := Plain(neg, whole, point, fraction);
            && |s| > 0 && FirstBad(s, 0) == |s| && Scale(s) == |fraction|
            && (s[0] == MINUS <==> neg)
  {
    var s := Plain(neg, whole, point, fraction);
    var start := if neg then 1 else 0;
    var p := start + |whole|;
    assert neg ==> s[0] == MINUS;
    assert forall i :: start <= i < p ==> s[i] == whole[i - start];
    assert point ==> s[p] == POINT;
    assert forall i :: p < i < |s| ==> s[i] == fraction[i - p - 1];
    assert PointAt(s) == p;
    assert forall i :: 0 <= i < |s| ==> !Bad(s, i);
  }

  lemma PlainIsCanonical(neg: bool, whole: Text, point: bool, fraction: Text)
    requires Proper(whole, point, fraction)
    ensures Canonical(Plain(neg, whole, point, fraction))
  {
    hide FirstBad, Scale;
    var body := Unsigned(whole, point, fraction);
    PlainReads(neg, whole, point, fraction);
    assert Body(Plain(neg, whole, point, fraction)) == body;
    var p := |whole|;
    assert body[..p] == whole;
    assert point ==> body[p] == POINT && body[p + 1..] == fraction;
    assert PointAt(body) == p;
  }

  /** The pieces of a canonical text. */
  lemma CanonicalIsPlain(s: Text) returns (whole: Text, point: bool, fraction: Text)
    requires Canonical(s)
    ensures |s| > 0 && Proper(whole, point, fraction) && s == Plain(s[0] == MINUS, whole, point, fraction)
  {
    whole, point, fraction := Pieces(Body(s));
    assert s == Signed(s[0] == MINUS, Body(s));
  }

  lemma Pieces(body: Text) returns (whole: Text, point: bool, fraction: Text)
    requires Canonical(body) && Body(body) == body
    ensures Proper(whole, point, fraction) && body == Unsigned(whole, point, fraction)
  {
    var p := PointAt(body);
    whole, point := body[..p], p < |body|;
    if point {
      fraction := body[p + 1..];
      assert body == whole + ([POINT] + fraction);
    } else {
      fraction := [];
    }
  }

  // ----- plain texts are numbers -----

  lemma {:induction false} AcceptChars(before: seq<Nibble>, digits: seq<Nibble>)
    requires Decimal(digits) && (before == [] ==> Significand(digits))
    ensures AcceptAll(before, Chars(digits)) == before + digits
    decreases |digits|
  {
    if digits != [] {
      AcceptChars(before + [digits[0]], digits[1..]);
      Regroup(before, digits[0], digits[1..]);
      assert [digits[0]] + digits[1..] == digits;
    }
  }

  lemma {:induction false} AcceptZeros(k: nat)
    ensures AcceptAll([], Zeros(k)) == [] && AllDigits(Zeros(k)) && |Zeros(k)| == k
  {
    if k > 0 {
      AcceptZeros(k - 1);
    }
  }

  lemma {:induction false} AcceptAppend(digits: seq<Nibble>, x: Text, y: Text)
    ensures AcceptAll(digits, x + y) == AcceptAll(AcceptAll(digits, x), y)
    decreases |x|
  {
    if x == [] {
      assert x + y == y;
    } else {
      assert (x + y)[1..] == x[1..] + y;
      AcceptAppend(Accepted(digits, x[0]), x[1..], y);
    }
  }

  lemma Regroup(a: seq<Nibble>, x: Nibble, b: seq<Nibble>)
    ensures a + [x] + b == a + ([x] + b)
  {
  }

  function Values(text: Text): (digits: seq<Nibble>)
    requires AllDigits(text)
    ensures |digits| == |text|
  {
    if text == [] then [] else [text[0] - ZERO] + Values(text[1..])
  }

  lemma {:induction false} CharsOfValues(text: Text)
    requires AllDigits(text)
    ensures Chars(Values(text)) == text && Decimal(Values(text))
  {
    if text != [] {
      CharsOfValues(text[1..]);
      assert Values(text)[1..] == Values(text[1..]);
      assert [text[0]] + text[1..] == text;
    }
  }

  lemma AcceptDigits(before: seq<Nibble>, text: Text)
    requires AllDigits(text)
    requires before == [] ==> text == [] || text[0] != ZERO
    ensures AcceptAll(before, text) == before + Values(text) && Chars(Values(text)) == text
  {
    CharsOfValues(text);
    AcceptChars(before, Values(text));
  }

  /** Digits are the leading zeroes and the significant ones. */
  lemma {:induction false} Stripped(text: Text)
    requires AllDigits(text)
    ensures var digits := AcceptAll([], text);
            |digits| <= |text| && text == Zeros(|text| - |digits|) + Chars(digits)
    decreases |text|
  {
    if text != [] && text[0] == ZERO {
      Stripped(text[1..]);
      assert text == [ZERO] + text[1..];
    } else {
      AcceptDigits([], text);
      assert [] + Values(text) == Values(text);
    }
  }

  lemma AllBehind(digits: seq<Nibble>, k: nat)
    requires |digits| < k
    ensures Magnitude(digits, k) == [ZERO] + ([POINT] + (Zeros(k - |digits|) + Chars(digits)))
  {
    ZeroPoint(Zeros(k - |digits|), Chars(digits));
  }

  lemma ZeroPoint(zeros: Text, chars: Text)
    ensures [ZERO] + ([POINT] + (zeros + chars)) == [ZERO, POINT] + zeros + chars
  {
  }

  lemma JustBehind(digits: seq<Nibble>)
    requires |digits| > 0
    ensures Magnitude(digits, |digits|) == [ZERO] + ([POINT] + Chars(digits))
  {
    assert digits[0..] == digits && digits[..0] == [];
    assert Pointed(digits, |digits|) == [POINT] + Chars(digits);
  }

  lemma Between(a: seq<Nibble>, b: seq<Nibble>)
    requires |a| > 0 && |b| > 0
    ensures Magnitude(a + b, |b|) == Chars(a) + ([POINT] + Chars(b))
  {
    var digits := a + b;
    assert digits[..|digits| - |b|] == a && digits[|digits| - |b|..] == b;
    assert Lead(|digits|, |b|) == [];
    assert Pointed(digits, |b|) == Chars(a) + [POINT] + Chars(b);
  }

  lemma Integral(digits: seq<Nibble>)
    requires |digits| > 0
    ensures Magnitude(digits, 0) == Chars(digits)
  {
    assert Lead(|digits|, 0) == [];
  }

  lemma BelowOne(digits: seq<Nibble>, fraction: Text)
    requires 0 < |fraction| && |digits| <= |fraction|
    requires fraction == Zeros(|fraction| - |digits|) + Chars(digits)
    ensures Unsigned([ZERO], true, fraction) == Magnitude(digits, |fraction|)
  {
    if |digits| < |fraction| {
      AllBehind(digits, |fraction|);
    } else {
      JustBehind(digits);
      assert fraction == Chars(digits);
    }
  }

  lemma FromOne(whole: Text, point: bool, fraction: Text)
    requires Proper(whole, point, fraction) && whole[0] != ZERO
    ensures Unsigned(whole, point, fraction) == Magnitude(Values(whole) + Values(fraction), |fraction|)
  {
    CharsOfValues(whole);
    CharsOfValues(fraction);
    if point {
      Between(Values(whole), Values(fraction));
    } else {
      assert Values(whole) + Values(fraction) == Values(whole);
      Integral(Values(whole));
    }
  }

  lemma PlainIsNumber(neg: bool, whole: Text, point: bool, fraction: Text)
    requires Proper(whole, point, fraction)
    ensures Plain(neg, whole, point, fraction) == Number(neg, AcceptAll(AcceptAll([], whole), fraction), |fraction|)
  {
    if whole[0] != ZERO {
      AcceptDigits([], whole);
      assert [] + Values(whole) == Values(whole);
      AcceptDigits(Values(whole), fraction);
      FromOne(whole, point, fraction);
    } else {
      assert whole == [ZERO] && whole[1..] == [];
      assert AcceptAll([], whole) == [];
      if point {
        Stripped(fraction);
        BelowOne(AcceptAll([], fraction), fraction);
      } else {
        assert Unsigned(whole, point, fraction) == [ZERO];
      }
    }
  }

  // ----- numbers are plain texts -----

  lemma AcceptZero()
    ensures AcceptAll([], [ZERO]) == []
  {
    assert [ZERO][1..] == [];
  }

  lemma {:induction false} CharsAreDigits(digits: seq<Nibble>)
    requires Decimal(digits)
    ensures AllDigits(Chars(digits))
  {
    if digits != [] {
      CharsAreDigits(digits[1..]);
    }
  }

  ghost predicate PiecesOf(digits: seq<Nibble>, scale: nat, whole: Text, point: bool, fraction: Text) {
    && Proper(whole, point, fraction) && Unsigned(whole, point, fraction) == Magnitude(digits, scale)
    && |fraction| == scale && AcceptAll(AcceptAll([], whole), fraction) == digits
  }

  lemma IntegralPieces(digits: seq<Nibble>)
    requires Significand(digits)
    ensures PiecesOf(digits, 0, if |digits| == 0 then [ZERO] else Chars(digits), false, [])
  {
    AcceptZero();
    if |digits| == 0 {
      assert Unsigned([ZERO], false, []) == [ZERO];
    } else {
      CharsAreDigits(digits);
      AcceptChars([], digits);
      assert [] + digits == digits;
      Integral(digits);
      assert Unsigned(Chars(digits), false, []) == Chars(digits);
    }
  }

  lemma SmallPieces(digits: seq<Nibble>, scale: nat)
    requires Significand(digits) && 0 < scale && |digits| <= scale
    ensures PiecesOf(digits, scale, [ZERO], true, Zeros(scale - |digits|) + Chars(digits))
  {
    AcceptZero();
    CharsAreDigits(digits);
    AcceptChars([], digits);
    assert [] + digits == digits;
    AcceptZeros(scale - |digits|);
    AcceptAppend([], Zeros(scale - |digits|), Chars(digits));
    BelowOne(digits, Zeros(scale - |digits|) + Chars(digits));
  }

  lemma LargePieces(a: seq<Nibble>, b: seq<Nibble>)
    requires Significand(a) && Decimal(b) && |a| > 0 && |b| > 0
    ensures PiecesOf(a + b, |b|, Chars(a), true, Chars(b))
  {
    CharsAreDigits(a);
    CharsAreDigits(b);
    AcceptChars([], a);
    assert [] + a == a;
    AcceptChars(a, b);
    Between(a, b);
  }

  /** The pieces of a number, which scan back to its digits. */
  lemma NumberPieces(digits: seq<Nibble>, scale: nat) returns (whole: Text, point: bool, fraction: Text)
    requires Significand(digits)
    ensures PiecesOf(digits, scale, whole, point, fraction)
  {
    point := scale > 0;
    if scale == 0 {
      whole, fraction := if |digits| == 0 then [ZERO] else Chars(digits), [];
      IntegralPieces(digits);
    } else if |digits| <= scale {
      whole, fraction := [ZERO], Zeros(scale - |digits|) + Chars(digits);
      SmallPieces(digits, scale);
    } else {
      var a, b := digits[..|digits| - scale], digits[|digits| - scale..];
      whole, fraction := Chars(a), Chars(b);
      LargePieces(a, b);
      assert digits == a + b;
    }
  }

  /** A number is canonical, and reading it gives its sign, digits and scale back. */
  lemma NumberReads(neg: bool, digits: seq<Nibble>, scale: nat)
    requires Significand(digits)
    ensures var s := Number(neg, digits, scale);
            && Canonical(s) && |s| > 0 && (s[0] == MINUS <==> neg)
            && FirstBad(s, 0) == |s| && Significant(s) == digits && Scale(s) == scale
  {
    var whole, point, fraction := NumberPieces(digits, scale);
    PlainReads(neg, whole, point, fraction);
    SignificantOfPlain(neg, whole, point, fraction);
    PlainIsCanonical(neg, whole, point, fraction);
  }

  /** A canonical text is the number it reads as. */
  lemma CanonicalIsNumber(s: Text)
    requires Canonical(s)
    ensures |s| > 0 && s == Number(s[0] == MINUS, Significant(s), Scale(s))
  {
    var whole, point, fraction := CanonicalIsPlain(s);
    PlainReads(s[0] == MINUS, whole, point, fraction);
    SignificantOfPlain(s[0] == MINUS, whole, point, fraction);
    PlainIsNumber(s[0] == MINUS, whole, point, fraction);
  }

  // ----- text to bytes and back -----

  lemma EncodedThenDecoded(s: Text)
    requires s != [] && Encoded(s).Ok?
    ensures var digits := Significant(s);
            && |Encoded(s).value| >= 2
            && Decoded(Encoded(s).value) == Number(|digits| > 0 && s[0] == MINUS, digits, Scale(s) % 256)
  {
    EncodedIs(s);
    SignificantIs(s);
    DecodedIsNumber(Significant(s), if |Significant(s)| == 0 then BYTE_PLUS else SignOf(s), Scale(s) % 256);
  }

  lemma SurvivorIsCanonical(s: Text)
    requires s != [] && Encoded(s).Ok? && |Encoded(s).value| >= 2 && Decoded(Encoded(s).value) == s
    ensures Canonical(s) && Scale(s) <= 255 && !(s[0] == MINUS && |Significant(s)| == 0)
  {
    EncodedThenDecoded(s);
    SignificantIs(s);
    NumberReads(|Significant(s)| > 0 && s[0] == MINUS, Significant(s), Scale(s) % 256);
  }

  function SignFor(neg: bool, digits: seq<Nibble>): Nibble {
    if |digits| > 0 && neg then BYTE_MINUS else BYTE_PLUS
  }

  lemma NumberEncodes(neg: bool, digits: seq<Nibble>, scale: Byte)
    requires Significand(digits)
    ensures Encoded(Number(neg, digits, scale)) == Ok([scale] + Packed(digits, SignFor(neg, digits)))
  {
    hide Number, Canonical, FirstBad, Significant, Scale, Packed, Encoded, Significand;
    var s := Number(neg, digits, scale);
    NumberReads(neg, digits, scale);
    EncodedIs(s);
    assert Scale(s) % 256 == scale;
  }

  lemma CanonicalSurvives(s: Text)
    requires Canonical(s) && Scale(s) <= 255 && |s| > 0 && !(s[0] == MINUS && |Significant(s)| == 0)
    ensures Encoded(s).Ok? ==> |Encoded(s).value| >= 2
    ensures Encoded(s).Ok? && |Encoded(s).value| >= 2 && Decoded(Encoded(s).value) == s
  {
    var neg, digits, scale := s[0] == MINUS, Significant(s), Scale(s);
    CanonicalIsNumber(s);
    SignificantIs(s);
    NumberEncodes(neg, digits, scale);
    DecodedIsNumber(digits, SignFor(neg, digits), scale);
  }

  /** The texts that survive encoding and decoding are exactly the canonical ones that have at most
      255 digits behind the point and are not a negative zero. */
  lemma TextRoundTrip(s: Text)
    ensures Encoded(s).Ok? ==> |Encoded(s).value| >= 2
    ensures Encoded(s).Ok? && |Encoded(s).value| >= 2 && Decoded(Encoded(s).value) == s
            <==> Canonical(s) && Scale(s) <= 255 && !(s[0] == MINUS && |Significant(s)| == 0)
  {
    if s != [] {
      if Encoded(s).Ok? {
        EncodedThenDecoded(s);
        if Decoded(Encoded(s).value) == s {
          SurvivorIsCanonical(s);
        }
      }
      if Canonical(s) && Scale(s) <= 255 && !(s[0] == MINUS && |Significant(s)| == 0) {
        CanonicalSurvives(s);
      }
    }
  }

  /** The text "-0" is canonical and comes back as "0". */
  lemma NegativeZeroIsLost()
    ensures Canonical([MINUS, ZERO]) && !(Encoded([MINUS, ZERO]).Ok? && |Encoded([MINUS, ZERO]).value| >= 2
              && Decoded(Encoded([MINUS, ZERO]).value) == [MINUS, ZERO])
  {
    assert Number(true, [], 0) == [MINUS, ZERO];
    NumberReads(true, [], 0);
    TextRoundTrip([MINUS, ZERO]);
  }

  /** The sign nibbles that mean minus. */
  lemma SignIsRead(digits: seq<Nibble>, sign: Nibble, scale: Byte)
    requires Significand(digits) && sign > 9
    ensures |[scale] + Packed(digits, sign)| >= 2 && |Decoded([scale] + Packed(digits, sign))| > 0
    ensures Decoded([scale] + Packed(digits, sign))[0] == MINUS <==> sign == 0x0b || sign == 0x0d
  {
    DecodedIsNumber(digits, sign, scale);
    NumberReads(IsNegative(sign), digits, scale);
  }

  lemma PackedSamples()
    ensures Packed([1, 2, 3, 4], 0x0d) == [0x01, 0x23, 0x4d] && Packed([1], 0x0c) == [0x1c] && Packed([], 0x0c) == [0x0c]
  {
    var four: seq<Nibble> := [0, 1, 2, 3, 4, 0x0d];
    assert Padding(4) + [1, 2, 3, 4] + [0x0d] == four;
    assert four[2..] == [2, 3, 4, 0x0d] && four[2..][2..] == [4, 0x0d] && four[2..][2..][2..] == [];
    var one: seq<Nibble> := [1, 0x0c];
    assert Padding(1) + [1] + [0x0c] == one && one[2..] == [];
    SignAlone(0x0c);
  }

  /** "-12.34", "0.1" and "0", byte by byte. */
  lemma SamplesAre()
    ensures Encoded([45, 49, 50, 46, 51, 52]) == Ok([0x02, 0x01, 0x23, 0x4d])
    ensures Encoded([48, 46, 49]) == Ok([0x01, 0x1c]) && Encoded([48]) == Ok([0x00, 0x0c])
  {
    SampleNumbers();
    PackedSamples();
    hide Number, Packed, Encoded;
    NumberEncodes(true, [1, 2, 3, 4], 2);
    NumberEncodes(false, [1], 1);
    NumberEncodes(false, [], 0);
    assert [2] + [0x01, 0x23, 0x4d] == [0x02, 0x01, 0x23, 0x4d];
    assert [1] + [0x1c] == [0x01, 0x1c] && [0] + [0x0c] == [0x00, 0x0c];
  }

  lemma SampleNumbers()
    ensures Number(true, [1, 2, 3, 4], 2) == [45, 49, 50, 46, 51, 52]
    ensures Number(false, [1], 1) == [48, 46, 49] && Number(false, [], 0) == [48]
  {
    var digits: seq<Nibble> := [1, 2, 3, 4];
    Between([1, 2], [3, 4]);
    assert [1, 2] + [3, 4] == digits;
    assert Chars([1, 2]) == [49, 50] && Chars([3, 4]) == [51, 52];
    JustBehind([1]);
  }

  // ----- bytes to text and back -----

  /** The buffers the encoder can produce: a scale, decimal digits with a zero nibble in front only to
      fill the first byte, and the sign nibble of the encoder; zero has a plus. */
  ghost predicate CanonicalBuffer(b: seq<Byte>) {
    && |b| >= 2
    && var nibbles := Unpack(b[1..]);
       var last := |nibbles| - 1;
       && (nibbles[last] == BYTE_PLUS || (nibbles[last] == BYTE_MINUS && b[1..] != [BYTE_MINUS]))
       && (forall i :: 0 <= i < last ==> nibbles[i] <= 9)
       && (nibbles[0] == 0 && last > 1 ==> nibbles[1] != 0)
  }

  lemma {:induction false} EvenTwice(n: nat)
    ensures Even(2 * n)
  {
    if n > 0 {
      EvenTwice(n - 1);
    }
  }

  /** A canonical buffer is packed from significant digits and a sign. */
  lemma CanonicalIsPacked(b: seq<Byte>) returns (digits: seq<Nibble>, sign: Nibble)
    requires CanonicalBuffer(b)
    ensures Significand(digits) && (sign == BYTE_PLUS || (sign == BYTE_MINUS && digits != []))
    ensures b == [b[0]] + Packed(digits, sign)
  {
    var nibbles := Unpack(b[1..]);
    var last := |nibbles| - 1;
    sign := nibbles[last];
    digits := if nibbles[0] == 0 then nibbles[1..last] else nibbles[..last];
    EvenTwice(|b[1..]|);
    assert Even(last + 1);
    assert nibbles == Padding(|digits|) + digits + [sign];
    PackUnpack(b[1..]);
    if digits == [] {
      assert b[1..] == [sign] by {
        assert |b| == 2 && b[1] / 16 == 0 && b[1] % 16 == sign;
      }
    }
    assert b == [b[0]] + b[1..];
  }

  /** What is packed from significant digits and a sign is canonical. */
  lemma PackedIsCanonical(digits: seq<Nibble>, sign: Nibble, scale: Byte)
    requires Significand(digits) && (sign == BYTE_PLUS || (sign == BYTE_MINUS && digits != []))
    ensures CanonicalBuffer([scale] + Packed(digits, sign))
  {
    var b := [scale] + Packed(digits, sign);
    var nibbles := Padding(|digits|) + digits + [sign];
    assert b[1..] == Packed(digits, sign);
    PaddedIsOdd(digits);
    assert |nibbles| == |Padding(|digits|) + digits| + 1;
    UnpackPack(nibbles);
    assert Unpack(b[1..]) == nibbles;
  }

  lemma CanonicalBufferSurvives(b: seq<Byte>)
    requires CanonicalBuffer(b)
    ensures Encoded(Decoded(b)) == Ok(b)
  {
    var digits, sign := CanonicalIsPacked(b);
    DecodedIsNumber(digits, sign, b[0]);
    NumberEncodes(IsNegative(sign), digits, b[0]);
  }

  lemma EncodedIsCanonical(s: Text)
    requires Encoded(s).Ok?
    ensures CanonicalBuffer(Encoded(s).value)
  {
    EncodedIs(s);
    SignificantIs(s);
    PackedIsCanonical(Significant(s), if |Significant(s)| == 0 then BYTE_PLUS else SignOf(s), Scale(s) % 256);
  }

  /** The buffers that survive decoding and encoding are exactly the canonical ones. */
  lemma BufferRoundTrip(b: seq<Byte>)
    requires |b| >= 2
    ensures Encoded(Decoded(b)) == Ok(b) <==> CanonicalBuffer(b)
  {
    if CanonicalBuffer(b) {
      CanonicalBufferSurvives(b);
    }
    if Encoded(Decoded(b)) == Ok(b) {
      EncodedIsCanonical(Decoded(b));
    }
  }

  // ----- the size of the result -----

  lemma {:induction false} PackedLength(nibbles: seq<Nibble>)
    ensures |Pack(nibbles)| == (|nibbles| + 1) / 2
  {
    if |nibbles| > 1 {
      PackedLength(nibbles[2..]);
    }
  }

  /** The encoder fails exactly if the text is empty or has a symbol that is no digit, no sign in
      front and no first point; otherwise it gives 2 + l / 2 bytes for a number of l digits, the last
      of which ends in the sign. */
  lemma EncodedShape(s: Text)
    ensures Encoded(s).Ok? <==> s != [] && forall i :: 0 <= i < |s| ==> !Bad(s, i)
    ensures Encoded(s).Ok? ==>
              var b := Encoded(s).value;
              && |b| == 2 + NumberLength(s) / 2
              && b[|b| - 1] % 16 == (if s[0] == MINUS && Significant(s) != [] then BYTE_MINUS else BYTE_PLUS)
  {
    if s != [] {
      EncodedIs(s);
      var digits := Significant(s);
      var sign := if |digits| == 0 then BYTE_PLUS else SignOf(s);
      SignificantIs(s);
      UnpaddedIs(digits, sign);
      EvenIs(|digits|);
      PackedLength(Padding(|digits|) + digits + [sign]);
    }
  }
}
