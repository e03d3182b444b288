/**
 Packed BCD decimals (decimal/bcd.go): the two conversions between the text of a decimal number and
 a scale byte followed by packed nibbles, the last of which is the sign.
 */
module Bcd {
  import opened Common

  type Nibble = n: int | 0 <= n < 16

  const PLUS: Byte := 43
  const MINUS: Byte := 45
  const POINT: Byte := 46
  const ZERO: Byte := 48
  const NINE: Byte := 57

  const BYTE_PLUS: Nibble := 0x0c
  const BYTE_MINUS: Nibble := 0x0d

  datatype Error = EmptyNumber | TwoPoints | BadSymbol(symbol: Byte)
  datatype Result<+T> = Ok(value: T) | Err(error: Error)

  predicate IsDigit(ch: Byte) {
    ZERO <= ch <= NINE
  }

  // ----- reading a text -----

  /** One more symbol: leading zeroes and what is no digit do not count. */
  function Accepted(digits: seq<Nibble>, ch: Byte): seq<Nibble> {
    if IsDigit(ch) && !(|digits| == 0 && ch == ZERO) then digits + [ch - ZERO] else digits
  }

  /** The values of the digits of a text from the first that is not zero on. */
  function Significant(buf: Text): (digits: seq<Nibble>)
    ensures |digits| <= |buf|
  {
    if buf == [] then [] else Accepted(Significant(buf[..|buf| - 1]), buf[|buf| - 1])
  }

  ghost predicate Significand(digits: seq<Nibble>) {
    && (forall i :: 0 <= i < |digits| ==> digits[i] <= 9)
    && (digits != [] ==> digits[0] != 0)
  }

  lemma {:induction false} SignificantIs(buf: Text)
    ensures Significand(Significant(buf))
  {
    if buf != [] {
      SignificantIs(buf[..|buf| - 1]);
    }
  }

  function PointFrom(buf: Text, i: nat): (p: nat)
    requires i <= |buf|
    ensures i <= p <= |buf| && (p < |buf| ==> buf[p] == POINT)
    ensures forall j :: i <= j < p ==> buf[j] != POINT
    decreases |buf| - i
  {
    if i == |buf| || buf[i] == POINT then i else PointFrom(buf, i + 1)
  }

  /** The position of the first point, or the length of the text. */
  function PointAt(buf: Text): nat {
    PointFrom(buf, 0)
  }

  function Scale(buf: Text): nat {
    if PointAt(buf) < |buf| then |buf| - PointAt(buf) - 1 else 0
  }

  /** A symbol that is no digit, no sign in front and no first point. */
  predicate Bad(buf: Text, i: nat)
    requires i < |buf|
  {
    if buf[i] == POINT then PointAt(buf) < i
    else !IsDigit(buf[i]) && !(i == 0 && (buf[i] == MINUS || buf[i] == PLUS))
  }

  function FirstBad(buf: Text, i: nat): (k: nat)
    requires i <= |buf|
    ensures i <= k <= |buf| && (k < |buf| ==> Bad(buf, k))
    ensures forall j :: i <= j < k ==> !Bad(buf, j)
    decreases |buf| - i
  {
    if i == |buf| || Bad(buf, i) then i else FirstBad(buf, i + 1)
  }

  function Fault(symbol: Byte): Error {
    if symbol == POINT then TwoPoints else BadSymbol(symbol)
  }

  // ----- nibbles -----

  predicate Even(n: nat) {
    n == 0 || !Even(n - 1)
  }

  lemma {:induction false} EvenIs(n: nat)
    ensures Even(n) <==> n % 2 == 0
  {
    if n > 0 {
      EvenIs(n - 1);
    }
  }

  /** Bitwise or. */
  function Or(x: nat, y: nat): nat {
    if x == 0 && y == 0 then 0
    else 2 * Or(x / 2, y / 2) + if x % 2 == 1 || y % 2 == 1 then 1 else 0
  }

  lemma {:induction false} OrZero(x: nat)
    ensures Or(x, 0) == x
  {
    if x > 0 {
      OrZero(x / 2);
    }
  }

  lemma OrDouble(x: nat, n: nat)
    requires Or(x, n / 2) == x + n / 2
    ensures Or(2 * x, n) == 2 * x + n
  {
  }

  /** A nibble goes into the empty low half of a byte. */
  lemma OrFillsLow(b: Byte, n: Nibble)
    requires b % 16 == 0
    ensures Or(b, n) == b + n
  {
    OrZero(b / 16);
    OrHalves(b / 16, n, n / 2, n / 2 / 2, n / 2 / 2 / 2);
  }

  lemma OrHalves(h: nat, n: nat, n1: nat, n2: nat, n3: nat)
    requires n1 == n / 2 && n2 == n1 / 2 && n3 == n2 / 2 && n3 / 2 == 0 && Or(h, 0) == h
    ensures Or(16 * h, n) == 16 * h + n
  {
    OrDouble(h, n3);
    OrDouble(2 * h, n2);
    OrDouble(4 * h, n1);
    OrDouble(8 * h, n);
  }

  /** The byte of two nibbles. */
  function Join(high: Nibble, low: Nibble): Byte {
    16 * high + low
  }

  /** Two nibbles a byte, the last low nibble zero if their number is odd. */
  function Pack(nibbles: seq<Nibble>): (bytes: seq<Byte>)
    ensures |nibbles| > 0 ==> |bytes| > 0
  {
    if nibbles == [] then []
    else if |nibbles| == 1 then [Join(nibbles[0], 0)]
    else [Join(nibbles[0], nibbles[1])] + Pack(nibbles[2..])
  }

  function Unpack(bytes: seq<Byte>): (nibbles: seq<Nibble>)
    ensures |nibbles| == 2 * |bytes|
  {
    if bytes == [] then [] else [bytes[0] / 16, bytes[0] % 16] + Unpack(bytes[1..])
  }

  lemma {:induction false} UnpackPack(nibbles: seq<Nibble>)
    requires Even(|nibbles|)
    ensures Unpack(Pack(nibbles)) == nibbles
  {
    if nibbles != [] {
      UnpackPack(nibbles[2..]);
    }
  }

  lemma {:induction false} PackUnpack(bytes: seq<Byte>)
    ensures Pack(Unpack(bytes)) == bytes
  {
    if bytes != [] {
      PackUnpack(bytes[1..]);
      assert Unpack(bytes)[2..] == Unpack(bytes[1..]);
    }
  }

  function FillLow(b: Byte, n: Nibble): Byte {
    b / 16 * 16 + n
  }

  /** What the encoder does with one nibble: a new byte for a high one, an update of the last byte,
      made first if there is none, for a low one. */
  function AddNibble(bytes: seq<Byte>, high: bool, n: Nibble): (r: seq<Byte>)
    ensures |r| >= 1
  {
    if high then bytes + [16 * n]
    else if |bytes| == 0 then [n]
    else bytes[|bytes| - 1 := FillLow(bytes[|bytes| - 1], n)]
  }

  lemma {:induction false} PackOneMore(nibbles: seq<Nibble>, n: Nibble)
    ensures Pack(nibbles + [n]) == AddNibble(Pack(nibbles), Even(|nibbles|), n)
  {
    if |nibbles| > 1 {
      PackOneMore(nibbles[2..], n);
      assert (nibbles + [n])[2..] == nibbles[2..] + [n];
    }
  }

  method OrByte(b: Byte, n: Nibble) returns (r: Byte)
    requires b % 16 == 0
    ensures r == FillLow(b, n)
  {
    OrFillsLow(b, n);
    r := Or(b, n);
  }

  /** The update of the last byte in place, whose low half is still empty. */
  method OrInto(byteBuf: seq<Byte>, n: Nibble) returns (bytes: seq<Byte>)
    requires |byteBuf| > 0 && byteBuf[|byteBuf| - 1] % 16 == 0
    ensures bytes == AddNibble(byteBuf, false, n)
  {
    var lowByteIdx := |byteBuf| - 1;
    var joined := OrByte(byteBuf[lowByteIdx], n);
    bytes := byteBuf[lowByteIdx := joined];
  }

  // ----- encoding -----

  /** The zero nibble in front of an even number of digits. */
  function Padding(count: nat): seq<Nibble> {
    if Even(count) then [0] else []
  }

  lemma PaddedIsOdd(digits: seq<Nibble>)
    ensures !Even(|Padding(|digits|) + digits|)
  {
  }

  function Packed(digits: seq<Nibble>, sign: Nibble): seq<Byte> {
    Pack(Padding(|digits|) + digits + [sign])
  }

  /** The scan of the encoder: the significant digits and the scale so far, or the first fault. */
  datatype Scanned = Fine(digits: seq<Nibble>, scale: nat) | Failed(error: Error)

  function ScanSymbol(digits: seq<Nibble>, scale: nat, ch: Byte, i: nat, length: nat): Scanned
    requires i < length
  {
    if IsDigit(ch) then Fine(Accepted(digits, ch), scale)
    else if i == 0 && (ch == MINUS || ch == PLUS) then Fine(digits, scale)
    else if ch == POINT && scale == 0 then Fine(digits, length - i - 1)
    else Failed(Fault(ch))
  }

  function Scan(st: Scanned, buf: Text, i: nat): Scanned
    requires i <= |buf|
    decreases |buf| - i
  {
    if i == |buf| || st.Failed? then st
    else Scan(ScanSymbol(st.digits, st.scale, buf[i], i, |buf|), buf, i + 1)
  }

  function SignOf(buf: Text): Nibble {
    if |buf| > 0 && buf[0] == MINUS then BYTE_MINUS else BYTE_PLUS
  }

  /** The bytes for what was scanned; a zero is never negative. */
  function Sealed(st: Scanned, sign: Nibble): Result<seq<Byte>> {
    match st
    case Failed(error) => Err(error)
    case Fine(digits, scale) => Ok([scale % 256] + Packed(digits, if |digits| == 0 then BYTE_PLUS else sign))
  }

  function Encoded(buf: Text): Result<seq<Byte>> {
    if buf == [] then Err(EmptyNumber) else Sealed(Scan(Fine([], 0), buf, 0), SignOf(buf))
  }

  function NumberLength(buf: Text): nat {
    if buf == [] then 0 else if Significant(buf) == [] then 1 else |Significant(buf)|
  }

  method GetNumberLength(buf: Text) returns (n: nat)
    ensures n == NumberLength(buf)
  {
    if |buf| == 0 {
      return 0;
    }
    n := 0;
    for i := 0 to |buf|
      invariant n == |Significant(buf[..i])|
    {
      assert buf[..i + 1][..i] == buf[..i];
      var ch := buf[i];
      if ZERO + 1 <= ch <= NINE {
        n := n + 1;
      } else if ch == ZERO && n != 0 {
        n := n + 1;
      }
    }
    assert buf[..|buf|] == buf;
    if n == 0 {
      n := 1;
    }
  }

  /** The bytes for the digits so far, out of l digits in all. */
  function Held(digits: seq<Nibble>, l: nat): (bytes: seq<Byte>)
    ensures |bytes| == 0 <==> |digits| == 0
  {
    if |digits| == 0 then []
    else AddNibble(Held(digits[..|digits| - 1], l), Even(|digits| - 1) != Even(l), digits[|digits| - 1])
  }

  lemma {:induction false} HeldIsPacked(digits: seq<Nibble>, l: nat)
    requires |digits| > 0
    ensures Held(digits, l) == Pack(Padding(l) + digits)
  {
    var before, last := digits[..|digits| - 1], digits[|digits| - 1];
    assert Padding(l) + digits == (Padding(l) + before) + [last];
    PackOneMore(Padding(l) + before, last);
    if |before| > 0 {
      HeldIsPacked(before, l);
    }
  }

  /** The state of the encoder after the given digits out of l. */
  ghost predicate Writing(byteBuf: seq<Byte>, highNibble: bool, digits: seq<Nibble>, l: nat) {
    && byteBuf == Held(digits, l)
    && (!highNibble && |byteBuf| > 0 ==> byteBuf[|byteBuf| - 1] % 16 == 0)
    && highNibble == (Even(|digits|) != Even(l))
  }

  /** The part of the loop that writes a digit. */
  method WriteDigit(byteBuf: seq<Byte>, highNibble: bool, ch: Byte, ghost digits: seq<Nibble>, ghost l: nat)
    returns (bytes: seq<Byte>, high: bool)
    requires Writing(byteBuf, highNibble, digits, l) && IsDigit(ch) && !(|digits| == 0 && ch == ZERO)
    ensures Writing(bytes, high, Accepted(digits, ch), l)
  {
    var digit := ch - ZERO;
    assert Accepted(digits, ch)[..|digits|] == digits;
    bytes := byteBuf;
    if highNibble {
      bytes := bytes + [16 * digit];
      high := false;
    } else {
      if |bytes| == 0 {
        bytes := [0];
      }
      bytes := OrInto(bytes, digit);
      high := true;
    }
  }

  lemma OneMoreSymbol(buf: Text, i: nat)
    requires i < |buf|
    ensures Significant(buf[..i + 1]) == Accepted(Significant(buf[..i]), buf[i])
  {
    assert buf[..i + 1][..i] == buf[..i];
  }

  lemma PointSeen(buf: Text, i: nat)
    requires i < |buf| && buf[i] == POINT
    ensures if PointAt(buf) < i then Scale(buf) != 0 else PointAt(buf) == i && Scale(buf) == |buf| - i - 1
  {
  }

  lemma StillFine(buf: Text, i: nat)
    requires i < |buf|
    ensures FirstBad(buf, 0) >= i ==> (Bad(buf, i) <==> FirstBad(buf, 0) == i)
  {
  }

  /** The scan finds the first bad symbol, and otherwise the digits and the scale. */
  lemma {:induction false} ScanIs(buf: Text, i: nat)
    requires i <= |buf| && FirstBad(buf, 0) >= i
    ensures Scan(Fine(Significant(buf[..i]), if PointAt(buf) < i then Scale(buf) else 0), buf, i) ==
              if FirstBad(buf, 0) < |buf| then Failed(Fault(buf[FirstBad(buf, 0)]))
              else Fine(Significant(buf[..|buf|]), if PointAt(buf) < |buf| then Scale(buf) else 0)
    decreases |buf| - i
  {
    if i < |buf| {
      OneMoreSymbol(buf, i);
      StillFine(buf, i);
      if buf[i] == POINT {
        PointSeen(buf, i);
      }
      if !Bad(buf, i) {
        ScanIs(buf, i + 1);
      }
    }
  }

  lemma ScanDigits(buf: Text)
    ensures var st := Scan(Fine([], 0), buf, 0);
            st.Fine? ==> st.digits == Significant(buf)
  {
    ScanIs(buf, 0);
    assert buf[..|buf|] == buf && buf[..0] == [];
  }

  /** The encoder fails exactly on a bad symbol, with the fault of the first one; otherwise the
      bytes are the scale and the packed digits and sign. */
  lemma EncodedIs(buf: Text)
    requires buf != []
    ensures var bad := FirstBad(buf, 0);
            Encoded(buf) ==
              if bad < |buf| then Err(Fault(buf[bad]))
              else Ok([Scale(buf) % 256] + Packed(Significant(buf), if |Significant(buf)| == 0 then BYTE_PLUS else SignOf(buf)))
  {
    ScanIs(buf, 0);
    assert buf[..|buf|] == buf && buf[..0] == [];
  }

  /** The sign nibble ends the bytes of the digits. */
  lemma SignEnds(digits: seq<Nibble>, sign: Nibble)
    requires |digits| > 0
    ensures Packed(digits, sign) == AddNibble(Held(digits, |digits|), false, sign)
  {
    PaddedIsOdd(digits);
    HeldIsPacked(digits, |digits|);
    PackOneMore(Padding(|digits|) + digits, sign);
  }

  /** A zero has only a sign. */
  lemma SignAlone(sign: Nibble)
    ensures Packed([], sign) == [sign]
  {
    var nibbles: seq<Nibble> := [0, sign];
    assert Padding(0) + [] + [sign] == nibbles;
    assert Pack(nibbles) == [Join(0, sign)] + Pack(nibbles[2..]);
  }

  /** The part behind the loop that writes the sign; a zero is never negative. */
  method WriteSign(byteBuf: seq<Byte>, highNibble: bool, sign: Nibble, ghost digits: seq<Nibble>) returns (bytes: seq<Byte>)
    requires Writing(byteBuf, highNibble, digits, if |digits| == 0 then 1 else |digits|)
    ensures bytes == Packed(digits, if |digits| == 0 then BYTE_PLUS else sign)
  {
    var signByte := sign;
    if |byteBuf| == 0 {
      signByte := BYTE_PLUS;
    }
    if highNibble {
      SignAlone(signByte);
      bytes := byteBuf + [signByte];
    } else {
      SignEnds(digits, signByte);
      bytes := OrInto(byteBuf, signByte);
    }
  }

  /** The loop body of the encoder, or the error it returns. */
  method ReadSymbol(ch: Byte, i: nat, length: nat, byteBuf: seq<Byte>, highNibble: bool, scale: nat,
      ghost digits: seq<Nibble>, ghost l: nat)
    returns (fault: Option<Error>, bytes: seq<Byte>, high: bool, newScale: nat)
    requires i < length && Writing(byteBuf, highNibble, digits, l)
    ensures ScanSymbol(digits, scale, ch, i, length)
            == if fault.Some? then Failed(fault.value) else Fine(Accepted(digits, ch), newScale)
    ensures fault.None? ==> Writing(bytes, high, Accepted(digits, ch), l)
  {
    fault, bytes, high, newScale := None, byteBuf, highNibble, scale;
    if |byteBuf| == 0 && ch == ZERO {
      return;
    }
    if i == 0 && (ch == MINUS || ch == PLUS) {
      return;
    }
    if ch == POINT {
      if scale != 0 {
        fault := Some(TwoPoints);
        return;
      }
      newScale := length - i - 1;
      return;
    }
    if ch < ZERO || ch > NINE {
      fault := Some(BadSymbol(ch));
      return;
    }
    bytes, high := WriteDigit(byteBuf, highNibble, ch, digits, l);
  }

  method EncodeStringToBCD(buf: Text) returns (r: Result<seq<Byte>>)
    ensures r == Encoded(buf)
  {
    if |buf| == 0 {
      return Err(EmptyNumber);
    }
    var signByte := BYTE_PLUS;
    if buf[0] == MINUS {
      signByte := BYTE_MINUS;
    }
    var highNibble := true;
    var l := GetNumberLength(buf);
    EvenIs(l);
    if l % 2 == 0 {
      highNibble := false;
    }
    var scale: nat := 0;
    var byteBuf: seq<Byte> := [];
    ghost var digits: seq<Nibble> := [];
    ghost var result := Scan(Fine([], 0), buf, 0);
    for i := 0 to |buf|
      invariant Scan(Fine(digits, scale), buf, i) == result
      invariant Writing(byteBuf, highNibble, digits, l)
    {
      var ch := buf[i];
      var fault;
      ghost var st := ScanSymbol(digits, scale, ch, i, |buf|);
      fault, byteBuf, highNibble, scale := ReadSymbol(ch, i, |buf|, byteBuf, highNibble, scale, digits, l);
      assert Scan(st, buf, i + 1) == result;
      if fault.Some? {
        return Err(fault.value);
      }
      digits := Accepted(digits, ch);
    }
    ScanDigits(buf);
    byteBuf := WriteSign(byteBuf, highNibble, signByte, digits);
    var scaleByte: Byte := scale % 256;
    byteBuf := [scaleByte] + byteBuf;
    r := Ok(byteBuf);
  }

  // ----- decoding -----

  predicate IsNegative(sign: Nibble) {
    sign == 0x0b || sign == 0x0d
  }

  function Zeros(k: nat): Text {
    if k == 0 then [] else [ZERO] + Zeros(k - 1)
  }

  /** Digits, the first of which has ndigits - 1 behind it, with the point in front of the last
      `scale` ones; what is no digit is left out. */
  function Emitted(nibbles: seq<Nibble>, ndigits: int, scale: nat): Text {
    if nibbles == [] then []
    else if nibbles[0] > 9 then Emitted(nibbles[1..], ndigits, scale)
    else (if ndigits == scale then [POINT] else []) + [nibbles[0] + ZERO] + Emitted(nibbles[1..], ndigits - 1, scale)
  }

  /** What stands in front of the digits when all of them are behind the point. */
  function Lead(ndigits: nat, scale: nat): Text {
    if scale > ndigits then [ZERO, POINT] + Zeros(scale - ndigits)
    else if scale == ndigits then [ZERO]
    else []
  }

  /** The nibbles without a first high one that is zero. */
  function Unpadded(bytes: seq<Byte>): (nibbles: seq<Nibble>)
    requires |bytes| > 0
    ensures |nibbles| == if bytes[0] / 16 == 0 then 2 * |bytes| - 1 else 2 * |bytes|
  {
    if bytes[0] / 16 == 0 then Unpack(bytes)[1..] else Unpack(bytes)
  }

  function Signed(neg: bool, text: Text): Text {
    if neg then [MINUS] + text else text
  }

  function Decoded(buf: seq<Byte>): Text
    requires |buf| >= 2
  {
    var nibbles := Unpadded(buf[1..]);
    Signed(IsNegative(buf[|buf| - 1] % 16), Lead(|nibbles| - 1, buf[0]) + Emitted(nibbles, |nibbles| - 1, buf[0]))
  }

  method ProcessNibble(bld: Text, nibble: Nibble, ndigits: int, scale: nat, ghost rest: seq<Nibble>)
    returns (text: Text, left: int)
    ensures text + Emitted(rest, left, scale) == bld + Emitted([nibble] + rest, ndigits, scale)
  {
    text, left := bld, ndigits;
    assert ([nibble] + rest)[1..] == rest;
    if nibble <= 9 {
      if ndigits == scale {
        text := text + [POINT];
      }
      text := text + [nibble + ZERO];
      left := left - 1;
    }
  }

  /** The loop body: both nibbles of a byte, or the low one only. */
  method ProcessByte(bld: Text, high: Nibble, low: Nibble, both: bool, ndigits: int, scale: nat, ghost rest: seq<Nibble>)
    returns (text: Text, left: int)
    ensures text + Emitted(rest, left, scale)
            == bld + Emitted((if both then [high] else []) + ([low] + rest), ndigits, scale)
  {
    text, left := bld, ndigits;
    if both {
      text, left := ProcessNibble(text, high, left, scale, [low] + rest);
    } else {
      assert [] + ([low] + rest) == [low] + rest;
    }
    text, left := ProcessNibble(text, low, left, scale, rest);
  }

  /** The source indexes the first two bytes without a check. */
  method DecodeStringFromBCD(buf: seq<Byte>) returns (text: Text)
    requires |buf| >= 2
    ensures text == Decoded(buf)
  {
    var scale: nat := buf[0];
    var bcdBuf := buf[1..];
    var bufLen := |bcdBuf|;
    var ndigits: int := bufLen * 2 - 1;
    if bcdBuf[0] / 16 == 0 {
      ndigits := ndigits - 1;
    }
    var negative := IsNegative(bcdBuf[bufLen - 1] % 16);
    text := [];
    if negative {
      text := [MINUS];
    }
    DecodedIs(buf, bcdBuf, ndigits, negative);
    var lead := WriteLead(ndigits, scale);
    text := text + lead;
    text := WriteDigits(text, bcdBuf, ndigits, scale);
  }

  lemma DecodedIs(buf: seq<Byte>, bcdBuf: seq<Byte>, ndigits: nat, negative: bool)
    requires |buf| >= 2 && bcdBuf == buf[1..] && ndigits == |Unpadded(bcdBuf)| - 1
    requires negative == IsNegative(buf[|buf| - 1] % 16)
    ensures Decoded(buf) == (if negative then [MINUS] else []) + Lead(ndigits, buf[0])
                            + Emitted(Unpadded(bcdBuf), ndigits, buf[0])
  {
    SignedAppend(negative, Lead(ndigits, buf[0]), Emitted(Unpadded(bcdBuf), ndigits, buf[0]));
  }

  lemma SignedAppend(neg: bool, lead: Text, digits: Text)
    ensures (if neg then [MINUS] else []) + lead + digits == Signed(neg, lead + digits)
  {
  }

  method WriteDigits(bld: Text, bcdBuf: seq<Byte>, count: int, scale: nat) returns (text: Text)
    requires |bcdBuf| > 0
    ensures text == bld + Emitted(Unpadded(bcdBuf), count, scale)
  {
    text := bld;
    var ndigits := count;
    for i := 0 to |bcdBuf|
      invariant text + Emitted(Remaining(bcdBuf, i), ndigits, scale) == bld + Emitted(Unpadded(bcdBuf), count, scale)
    {
      var highNibble, lowNibble := bcdBuf[i] / 16, bcdBuf[i] % 16;
      SplitFirst(bcdBuf, i);
      text, ndigits := ProcessByte(text, highNibble, lowNibble, i != 0 || highNibble != 0, ndigits, scale, Unpack(bcdBuf[i + 1..]));
    }
    assert Emitted(Remaining(bcdBuf, |bcdBuf|), ndigits, scale) == [];
  }

  method WriteLead(ndigits: nat, scale: nat) returns (lead: Text)
    ensures lead == Lead(ndigits, scale)
  {
    lead := [];
    if scale > ndigits {
      lead := [ZERO, POINT];
      var diff: nat := scale - ndigits;
      while diff > 0
        invariant lead + Zeros(diff) == [ZERO, POINT] + Zeros(scale - ndigits)
      {
        lead := lead + [ZERO];
        diff := diff - 1;
      }
    } else if scale == ndigits {
      lead := [ZERO];
    }
  }

  /** The nibbles from byte i on. */
  ghost function Remaining(bytes: seq<Byte>, i: nat): seq<Nibble>
    requires |bytes| > 0 && i <= |bytes|
  {
    if i == 0 then Unpadded(bytes) else Unpack(bytes[i..])
  }

  lemma SplitFirst(bytes: seq<Byte>, i: nat)
    requires i < |bytes|
    ensures var high, low := bytes[i] / 16, bytes[i] % 16;
            Remaining(bytes, i) == (if i != 0 || high != 0 then [high] else []) + ([low] + Unpack(bytes[i + 1..]))
    ensures Remaining(bytes, i + 1) == Unpack(bytes[i + 1..])
  {
    var high, low := bytes[i] / 16, bytes[i] % 16;
    assert bytes[i..][1..] == bytes[i + 1..];
    assert Unpack(bytes[i..]) == [high] + ([low] + Unpack(bytes[i + 1..]));
    if i == 0 {
      assert bytes[0..] == bytes;
    }
  }
}
