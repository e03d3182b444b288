/**
 The part of the MessagePack format that frames and errors are made of ("Formats" in the MessagePack
 specification: nil, int, str, map and array families, and the sizes of the others for skipping).
 A parser takes the unread bytes and gives a value and the bytes behind it.
 */
module MsgPack {
  import opened Common

  datatype Parsed<+T> = Got(value: T, rest: seq<Byte>) | Bad

  // ----- big-endian numbers -----

  function U16(v: nat): seq<Byte>
    requires v < TWO_TO_THE_16
  {
    [v / 256, v % 256]
  }

  function U32(v: nat): (bytes: seq<Byte>)
    requires v < TWO_TO_THE_32
    ensures |bytes| == 4
  {
    U16(v / TWO_TO_THE_16) + U16(v % TWO_TO_THE_16)
  }

  function U64(v: nat): (bytes: seq<Byte>)
    requires v < TWO_TO_THE_64
    ensures |bytes| == 8
  {
    U32(v / TWO_TO_THE_32) + U32(v % TWO_TO_THE_32)
  }

  function N16(b: seq<Byte>): (v: nat)
    requires |b| >= 2
    ensures v < TWO_TO_THE_16
  {
    var high: int := b[0];
    256 * high + b[1]
  }

  function N32(b: seq<Byte>): (v: nat)
    requires |b| >= 4
    ensures v < TWO_TO_THE_32
  {
    TWO_TO_THE_16 * N16(b) + N16(b[2..])
  }

  function N64(b: seq<Byte>): (v: nat)
    requires |b| >= 8
    ensures v < TWO_TO_THE_64
  {
    TWO_TO_THE_32 * N32(b) + N32(b[4..])
  }

  lemma ReadU16(v: nat, rest: seq<Byte>)
    requires v < TWO_TO_THE_16
    ensures N16(U16(v) + rest) == v && (U16(v) + rest)[2..] == rest
  {
  }

  lemma ReadU32(v: nat, rest: seq<Byte>)
    requires v < TWO_TO_THE_32
    ensures N32(U32(v) + rest) == v && (U32(v) + rest)[4..] == rest
  {
    var high, low := v / TWO_TO_THE_16, v % TWO_TO_THE_16;
    assert U32(v) + rest == U16(high) + (U16(low) + rest);
    ReadU16(high, U16(low) + rest);
    ReadU16(low, rest);
  }

  lemma ReadU64(v: nat, rest: seq<Byte>)
    requires v < TWO_TO_THE_64
    ensures N64(U64(v) + rest) == v && (U64(v) + rest)[8..] == rest
  {
    var high, low := v / TWO_TO_THE_32, v % TWO_TO_THE_32;
    assert U64(v) + rest == U32(high) + (U32(low) + rest);
    ReadU32(high, U32(low) + rest);
    ReadU32(low, rest);
  }

  // ----- integers -----

  /** A number of the given range, whose upper half is negative if it is signed. */
  function Interpreted(v: nat, range: nat, signed: bool): int {
    if signed && 2 * v >= range then v - range else v
  }

  /** A number that n more bytes spell out. */
  function Sized(b: seq<Byte>, n: nat, signed: bool): (r: Parsed<int>)
    requires n == 1 || n == 2 || n == 4 || n == 8
    ensures r.Got? ==> |r.rest| < |b|
    ensures r.Got? && !signed ==> r.value >= 0 && (n < 8 ==> r.value < TWO_TO_THE_32)
  {
    if |b| < n then Bad
    else if n == 1 then Got(Interpreted(b[0], 0x100, signed), b[1..])
    else if n == 2 then Got(Interpreted(N16(b), TWO_TO_THE_16, signed), b[2..])
    else if n == 4 then Got(Interpreted(N32(b), TWO_TO_THE_32, signed), b[4..])
    else Got(Interpreted(N64(b), TWO_TO_THE_64, signed), b[8..])
  }

  /** Any format of the int family; nil counts as 0. */
  function ReadInt(b: seq<Byte>): (r: Parsed<int>)
    ensures r.Got? ==> |r.rest| < |b|
  {
    if b == [] then Bad
    else if b[0] < 0x80 then Got(b[0], b[1..])
    else if b[0] >= 0xe0 then Got(Interpreted(b[0], 0x100, true), b[1..])
    else if b[0] == 0xc0 then Got(0, b[1..])
    else if 0xcc <= b[0] <= 0xd3 then Sized(b[1..], Width(b[0]), b[0] >= 0xd0)
    else Bad
  }

  /** The bytes of the number behind the codes 0xcc to 0xcf (unsigned) and 0xd0 to 0xd3 (signed). */
  function Width(code: Byte): nat {
    if code == 0xcc || code == 0xd0 then 1
    else if code == 0xcd || code == 0xd1 then 2
    else if code == 0xce || code == 0xd2 then 4
    else 8
  }

  /** The same read as an unsigned 64-bit number. */
  function ReadUint64(b: seq<Byte>): (r: Parsed<nat>)
    ensures r.Got? ==> |r.rest| < |b| && r.value < TWO_TO_THE_64
  {
    match ReadInt(b)
    case Bad => Bad
    case Got(v, rest) => Got(v % TWO_TO_THE_64, rest)
  }

  lemma IntFromFixint(v: nat, rest: seq<Byte>)
    requires v < 0x80
    ensures ReadInt([v] + rest) == Got(v, rest)
  {
  }

  lemma IntFromU32(v: nat, rest: seq<Byte>)
    requires v < TWO_TO_THE_32
    ensures ReadInt([0xce] + U32(v) + rest) == Got(v, rest)
  {
    ReadU32(v, rest);
    assert ([0xce] + U32(v) + rest)[1..] == U32(v) + rest;
  }

  lemma IntFromU64(v: nat, rest: seq<Byte>)
    requires v < TWO_TO_THE_64
    ensures ReadInt([0xcf] + U64(v) + rest) == Got(v, rest)
  {
    ReadU64(v, rest);
    assert ([0xcf] + U64(v) + rest)[1..] == U64(v) + rest;
  }

  lemma Uint64FromU64(v: nat, rest: seq<Byte>)
    requires v < TWO_TO_THE_64
    ensures ReadUint64([0xcf] + U64(v) + rest) == Got(v, rest)
  {
    IntFromU64(v, rest);
  }

  // ----- lengths -----

  /** A length in a code of the given family: fixed codes, then one for 16 and one for 32 bits.
      A nil counts as length -1. */
  function ReadLength(b: seq<Byte>, fixed: Byte, count: nat, code16: Byte): (r: Parsed<int>)
    requires fixed + count <= 0x100 && code16 < 0xff
    ensures r.Got? ==> |r.rest| < |b| && -1 <= r.value < TWO_TO_THE_32
  {
    if b == [] then Bad
    else if b[0] == 0xc0 then Got(-1, b[1..])
    else if fixed <= b[0] < fixed + count then Got(b[0] - fixed, b[1..])
    else if b[0] == code16 then Sized(b[1..], 2, false)
    else if b[0] == code16 + 1 then Sized(b[1..], 4, false)
    else Bad
  }

  function ReadMapLen(b: seq<Byte>): (r: Parsed<int>)
    ensures r.Got? ==> |r.rest| < |b| && -1 <= r.value < TWO_TO_THE_32
  {
    ReadLength(b, 0x80, 16, 0xde)
  }

  function ReadArrayLen(b: seq<Byte>): (r: Parsed<int>)
    ensures r.Got? ==> |r.rest| < |b| && -1 <= r.value < TWO_TO_THE_32
  {
    ReadLength(b, 0x90, 16, 0xdc)
  }

  /** The length of a str or bin value. */
  function ReadBytesLen(b: seq<Byte>): (r: Parsed<int>)
    ensures r.Got? ==> |r.rest| < |b| && -1 <= r.value < TWO_TO_THE_32
  {
    if b != [] && (b[0] == 0xd9 || b[0] == 0xc4) then Sized(b[1..], 1, false)
    else if b != [] && 0xc5 <= b[0] <= 0xc6 then ReadLength(b, 0xa0, 32, 0xc5)
    else ReadLength(b, 0xa0, 32, 0xda)
  }

  function ReadString(b: seq<Byte>): (r: Parsed<seq<Byte>>)
    ensures r.Got? ==> |r.rest| < |b|
  {
    match ReadBytesLen(b)
    case Bad => Bad
    case Got(n, rest) =>
      if n == -1 then Got([], rest)
      else if n <= |rest| then Got(rest[..n], rest[n..])
      else Bad
  }

  function LengthBytes(n: nat, fixed: Byte, count: nat, code16: Byte): seq<Byte>
    requires n < TWO_TO_THE_32 && fixed + count <= 0x100 && code16 < 0xff
  {
    if n < count then [fixed + n]
    else if n < TWO_TO_THE_16 then [code16] + U16(n)
    else [code16 + 1] + U32(n)
  }

  function MapLenBytes(n: nat): seq<Byte>
    requires n < TWO_TO_THE_32
  {
    LengthBytes(n, 0x80, 16, 0xde)
  }

  function ArrayLenBytes(n: nat): seq<Byte>
    requires n < TWO_TO_THE_32
  {
    LengthBytes(n, 0x90, 16, 0xdc)
  }

  function StringBytes(s: seq<Byte>): seq<Byte>
    requires |s| < TWO_TO_THE_32
  {
    (if 32 <= |s| < 0x100 then [0xd9, |s|] else LengthBytes(|s|, 0xa0, 32, 0xda)) + s
  }

  lemma LengthRoundTrip(n: nat, fixed: Byte, count: nat, code16: Byte, rest: seq<Byte>)
    requires n < TWO_TO_THE_32 && fixed + count <= 0xc0 && 0xc0 < code16 < 0xff
    ensures ReadLength(LengthBytes(n, fixed, count, code16) + rest, fixed, count, code16) == Got(n, rest)
  {
    if n < count {
      assert ([fixed + n] + rest)[1..] == rest;
    } else if n < TWO_TO_THE_16 {
      ReadU16(n, rest);
      assert ([code16] + U16(n) + rest)[1..] == U16(n) + rest;
    } else {
      ReadU32(n, rest);
      assert ([code16 + 1] + U32(n) + rest)[1..] == U32(n) + rest;
    }
  }

  lemma MapLenRoundTrip(n: nat, rest: seq<Byte>)
    requires n < TWO_TO_THE_32
    ensures ReadMapLen(MapLenBytes(n) + rest) == Got(n, rest)
  {
    LengthRoundTrip(n, 0x80, 16, 0xde, rest);
  }

  lemma ArrayLenRoundTrip(n: nat, rest: seq<Byte>)
    requires n < TWO_TO_THE_32
    ensures ReadArrayLen(ArrayLenBytes(n) + rest) == Got(n, rest)
  {
    LengthRoundTrip(n, 0x90, 16, 0xdc, rest);
  }

  lemma StringRoundTrip(s: seq<Byte>, rest: seq<Byte>)
    requires |s| < TWO_TO_THE_32
    ensures ReadString(StringBytes(s) + rest) == Got(s, rest)
  {
    StringLength(s, rest);
    assert (s + rest)[..|s|] == s && (s + rest)[|s|..] == rest;
  }

  lemma ShortLength(s: seq<Byte>, rest: seq<Byte>)
    requires 32 <= |s| < 0x100
    ensures ReadBytesLen([0xd9, |s|] + s + rest) == Got(|s|, s + rest)
  {
    var b := [0xd9, |s|] + s + rest;
    assert b[1..] == [|s|] + (s + rest);
    assert b[1..][1..] == s + rest;
  }

  lemma StringLength(s: seq<Byte>, rest: seq<Byte>)
    requires |s| < TWO_TO_THE_32
    ensures ReadBytesLen(StringBytes(s) + rest) == Got(|s|, s + rest)
  {
    if 32 <= |s| < 0x100 {
      ShortLength(s, rest);
    } else {
      var length := LengthBytes(|s|, 0xa0, 32, 0xda);
      LengthRoundTrip(|s|, 0xa0, 32, 0xda, s + rest);
      assert length + s + rest == length + (s + rest);
      FirstOfLength(|s|, s + rest);
    }
  }

  lemma FirstOfLength(n: nat, rest: seq<Byte>)
    requires n < TWO_TO_THE_32
    ensures var first := (LengthBytes(n, 0xa0, 32, 0xda) + rest)[0];
            first != 0xd9 && !(0xc4 <= first <= 0xc6)
  {
  }

  // ----- skipping -----

  /** How many bytes follow a code that stands for itself, if it is one. */
  function FixedSize(code: Byte): int {
    if code < 0x80 || code >= 0xe0 || code == 0xc0 || code == 0xc2 || code == 0xc3 then 0
    else if code == 0xcc || code == 0xd0 then 1
    else if code == 0xcd || code == 0xd1 then 2
    else if code == 0xce || code == 0xd2 || code == 0xca then 4
    else if code == 0xcf || code == 0xd3 || code == 0xcb then 8
    else if 0xd4 <= code <= 0xd8 then [2, 3, 5, 9, 17][code - 0xd4]
    else -1
  }

  /** What follows the first bytes of a value: so many values, or so many bytes. */
  datatype Content = Values(count: nat) | Bytes(size: nat)

  function ReadContent(b: seq<Byte>): (r: Parsed<Content>)
    ensures r.Got? ==> |r.rest| < |b|
  {
    if b == [] then Bad
    else if FixedSize(b[0]) >= 0 then Got(Bytes(FixedSize(b[0])), b[1..])
    else if 0x80 <= b[0] < 0x90 || b[0] == 0xde || b[0] == 0xdf then Counted(ReadMapLen(b), 2)
    else if 0x90 <= b[0] < 0xa0 || b[0] == 0xdc || b[0] == 0xdd then Counted(ReadArrayLen(b), 1)
    else if 0xc7 <= b[0] <= 0xc9 then ReadExtension(b[0], b[1..])
    else
      match ReadBytesLen(b)
      case Bad => Bad
      case Got(n, rest) => Got(Bytes(if n < 0 then 0 else n), rest)
  }

  function Counted(length: Parsed<int>, each: nat): (r: Parsed<Content>)
    ensures r.Got? ==> length.Got? && r.rest == length.rest
  {
    match length
    case Bad => Bad
    case Got(n, rest) => Got(Values(if n < 0 then 0 else each * n), rest)
  }

  /** An extension of 8, 16 or 32 bits length; a type byte precedes the data. */
  function ReadExtension(code: Byte, b: seq<Byte>): (r: Parsed<Content>)
    ensures r.Got? ==> |r.rest| <= |b|
  {
    match Sized(b, if code == 0xc7 then 1 else if code == 0xc8 then 2 else 4, false)
    case Bad => Bad
    case Got(n, rest) => Got(Bytes(n + 1), rest)
  }

  /** The bytes behind one value of any format. */
  function Skip(b: seq<Byte>): (r: Parsed<()>)
    ensures r.Got? ==> |r.rest| < |b|
    decreases |b|, 0
  {
    match ReadContent(b)
    case Bad => Bad
    case Got(Bytes(n), rest) => Drop(rest, n)
    case Got(Values(n), rest) => SkipAll(rest, n)
  }

  /** The bytes of one value of any format: what an interface{} is made from. */
  function ReadValue(b: seq<Byte>): (r: Parsed<seq<Byte>>)
    ensures r.Got? ==> |r.rest| < |b|
  {
    match Skip(b)
    case Bad => Bad
    case Got(_, rest) => Got(b[..|b| - |rest|], rest)
  }

  function Drop(b: seq<Byte>, n: nat): Parsed<()> {
    if n <= |b| then Got((), b[n..]) else Bad
  }

  function SkipAll(b: seq<Byte>, n: nat): (r: Parsed<()>)
    ensures r.Got? ==> |r.rest| <= |b|
    decreases |b|, n + 1
  {
    if n == 0 then Got((), b)
    else match Skip(b)
      case Bad => Bad
      case Got(_, rest) => SkipAll(rest, n - 1)
  }

  lemma SkipAllIs(b: seq<Byte>, n: nat)
    ensures SkipAll(b, n) == if n == 0 then Got((), b) else if Skip(b).Got? then SkipAll(Skip(b).rest, n - 1) else Bad
  {
  }

  lemma SkipU32(v: nat, rest: seq<Byte>)
    requires v < TWO_TO_THE_32
    ensures Skip([0xce] + U32(v) + rest) == Got((), rest)
  {
    assert ([0xce] + U32(v) + rest)[1..] == U32(v) + rest;
    assert (U32(v) + rest)[4..] == rest;
  }

  lemma SkipU64(v: nat, rest: seq<Byte>)
    requires v < TWO_TO_THE_64
    ensures Skip([0xcf] + U64(v) + rest) == Got((), rest)
  {
    assert ([0xcf] + U64(v) + rest)[1..] == U64(v) + rest;
    assert (U64(v) + rest)[8..] == rest;
  }

  // ----- a parser leaves the end of its input -----

  ghost predicate Suffix(rest: seq<Byte>, b: seq<Byte>) {
    |rest| <= |b| && rest == b[|b| - |rest|..]
  }

  lemma SuffixOfTail(rest: seq<Byte>, b: seq<Byte>, n: nat)
    requires n <= |b| && Suffix(rest, b[n..])
    ensures Suffix(rest, b)
  {
  }

  lemma SuffixOfSuffix(a: seq<Byte>, b: seq<Byte>, c: seq<Byte>)
    requires Suffix(a, b) && Suffix(b, c)
    ensures Suffix(a, c)
  {
  }

  lemma SizedSuffix(b: seq<Byte>, n: nat, signed: bool)
    requires n == 1 || n == 2 || n == 4 || n == 8
    ensures Sized(b, n, signed).Got? ==> Suffix(Sized(b, n, signed).rest, b)
  {
  }

  lemma IntSuffix(b: seq<Byte>)
    ensures ReadInt(b).Got? ==> Suffix(ReadInt(b).rest, b)
  {
    if b != [] && ReadInt(b).Got? {
      SizedSuffix(b[1..], Width(b[0]), b[0] >= 0xd0);
      SuffixOfTail(ReadInt(b).rest, b, 1);
    }
  }

  lemma LengthSuffix(b: seq<Byte>, fixed: Byte, count: nat, code16: Byte)
    requires fixed + count <= 0x100 && code16 < 0xff
    ensures var r := ReadLength(b, fixed, count, code16);
            r.Got? ==> Suffix(r.rest, b)
  {
    var r := ReadLength(b, fixed, count, code16);
    if r.Got? {
      if b[0] == 0xc0 || fixed <= b[0] < fixed + count {
      } else {
        SizedSuffix(b[1..], if b[0] == code16 then 2 else 4, false);
        SuffixOfTail(r.rest, b, 1);
      }
    }
  }

  lemma BytesLenSuffix(b: seq<Byte>)
    ensures ReadBytesLen(b).Got? ==> Suffix(ReadBytesLen(b).rest, b)
  {
    if b != [] && ReadBytesLen(b).Got? {
      if b[0] == 0xd9 || b[0] == 0xc4 {
        SizedSuffix(b[1..], 1, false);
        SuffixOfTail(ReadBytesLen(b).rest, b, 1);
      } else if 0xc5 <= b[0] <= 0xc6 {
        LengthSuffix(b, 0xa0, 32, 0xc5);
      } else {
        LengthSuffix(b, 0xa0, 32, 0xda);
      }
    }
  }

  lemma ExtensionSuffix(code: Byte, b: seq<Byte>)
    ensures ReadExtension(code, b).Got? ==> Suffix(ReadExtension(code, b).rest, b)
  {
    SizedSuffix(b, if code == 0xc7 then 1 else if code == 0xc8 then 2 else 4, false);
  }

  lemma ContentSuffix(b: seq<Byte>)
    ensures ReadContent(b).Got? ==> Suffix(ReadContent(b).rest, b)
  {
    if b != [] && FixedSize(b[0]) < 0 {
      if 0xc7 <= b[0] <= 0xc9 {
        ExtensionSuffix(b[0], b[1..]);
        if ReadContent(b).Got? {
          SuffixOfTail(ReadContent(b).rest, b, 1);
        }
      } else {
        LengthSuffix(b, 0x80, 16, 0xde);
        LengthSuffix(b, 0x90, 16, 0xdc);
        BytesLenSuffix(b);
      }
    }
  }

  lemma {:induction false} SkipSuffix(b: seq<Byte>)
    ensures Skip(b).Got? ==> Suffix(Skip(b).rest, b)
    decreases |b|, 0
  {
    if Skip(b).Got? {
      ContentSuffix(b);
      var content := ReadContent(b);
      match content.value
      case Bytes(n) =>
        SuffixOfSuffix(Skip(b).rest, content.rest, b);
      case Values(n) =>
        SkipAllSuffix(content.rest, n);
        SuffixOfSuffix(Skip(b).rest, content.rest, b);
    }
  }

  lemma {:induction false} SkipAllSuffix(b: seq<Byte>, n: nat)
    ensures SkipAll(b, n).Got? ==> Suffix(SkipAll(b, n).rest, b)
    decreases |b|, n + 1
  {
    hide Skip, SkipAll;
    SkipAllIs(b, n);
    if n > 0 && SkipAll(b, n).Got? {
      SkipSuffix(b);
      SkipAllSuffix(Skip(b).rest, n - 1);
      SuffixOfSuffix(SkipAll(b, n).rest, Skip(b).rest, b);
    }
  }

  lemma StringSuffix(b: seq<Byte>)
    ensures ReadString(b).Got? ==> Suffix(ReadString(b).rest, b)
  {
    if ReadString(b).Got? {
      BytesLenSuffix(b);
      SuffixOfSuffix(ReadString(b).rest, ReadBytesLen(b).rest, b);
    }
  }

  // ----- a value delimits itself -----

  lemma TailAppend(b: seq<Byte>, n: nat, x: seq<Byte>)
    requires n <= |b|
    ensures (b + x)[n..] == b[n..] + x
  {
  }

  lemma SizedAppend(b: seq<Byte>, n: nat, signed: bool, x: seq<Byte>)
    requires (n == 1 || n == 2 || n == 4 || n == 8) && Sized(b, n, signed).Got?
    ensures Sized(b + x, n, signed) == Got(Sized(b, n, signed).value, Sized(b, n, signed).rest + x)
  {
    TailAppend(b, n, x);
    if n >= 4 {
      TailAppend(b, 2, x);
      assert N32(b + x) == N32(b);
    }
    if n == 8 {
      TailAppend(b, 4, x);
      assert (b[4..] + x)[2..] == b[4..][2..] + x;
      assert N32(b[4..] + x) == N32(b[4..]);
    }
  }

  lemma LengthAppend(b: seq<Byte>, fixed: Byte, count: nat, code16: Byte, x: seq<Byte>)
    requires fixed + count <= 0x100 && code16 < 0xff && ReadLength(b, fixed, count, code16).Got?
    ensures var r := ReadLength(b, fixed, count, code16);
            ReadLength(b + x, fixed, count, code16) == Got(r.value, r.rest + x)
  {
    TailAppend(b, 1, x);
    if b[0] == 0xc0 || fixed <= b[0] < fixed + count {
    } else if b[0] == code16 {
      SizedAppend(b[1..], 2, false, x);
    } else {
      SizedAppend(b[1..], 4, false, x);
    }
  }

  lemma BytesLenAppend(b: seq<Byte>, x: seq<Byte>)
    requires ReadBytesLen(b).Got?
    ensures ReadBytesLen(b + x) == Got(ReadBytesLen(b).value, ReadBytesLen(b).rest + x)
  {
    assert b != [] && (b + x)[0] == b[0];
    if b[0] == 0xd9 || b[0] == 0xc4 {
      TailAppend(b, 1, x);
      SizedAppend(b[1..], 1, false, x);
    } else if 0xc5 <= b[0] <= 0xc6 {
      LengthAppend(b, 0xa0, 32, 0xc5, x);
    } else {
      LengthAppend(b, 0xa0, 32, 0xda, x);
    }
  }

  lemma ContentAppend(b: seq<Byte>, x: seq<Byte>)
    requires ReadContent(b).Got?
    ensures ReadContent(b + x) == Got(ReadContent(b).value, ReadContent(b).rest + x)
  {
    assert b != [] && (b + x)[0] == b[0];
    TailAppend(b, 1, x);
    if FixedSize(b[0]) >= 0 {
    } else if 0x80 <= b[0] < 0x90 || b[0] == 0xde || b[0] == 0xdf {
      LengthAppend(b, 0x80, 16, 0xde, x);
    } else if 0x90 <= b[0] < 0xa0 || b[0] == 0xdc || b[0] == 0xdd {
      LengthAppend(b, 0x90, 16, 0xdc, x);
    } else if 0xc7 <= b[0] <= 0xc9 {
      SizedAppend(b[1..], if b[0] == 0xc7 then 1 else if b[0] == 0xc8 then 2 else 4, false, x);
    } else {
      BytesLenAppend(b, x);
    }
  }

  /** What follows a value does not change how it is skipped. */
  lemma {:induction false} SkipAppend(b: seq<Byte>, x: seq<Byte>)
    requires Skip(b).Got?
    ensures Skip(b + x) == Got((), Skip(b).rest + x)
    decreases |b|, 0
  {
    ContentAppend(b, x);
    var content := ReadContent(b);
    match content.value
    case Bytes(n) => TailAppend(content.rest, n, x);
    case Values(n) => SkipAllAppend(content.rest, n, x);
  }

  lemma {:induction false} SkipAllAppend(b: seq<Byte>, n: nat, x: seq<Byte>)
    requires SkipAll(b, n).Got?
    ensures SkipAll(b + x, n) == Got((), SkipAll(b, n).rest + x)
    decreases |b|, n + 1
  {
    hide Skip, SkipAll;
    SkipAllIs(b, n);
    SkipAllIs(b + x, n);
    if n > 0 {
      SkipAppend(b, x);
      SkipAllAppend(Skip(b).rest, n - 1, x);
    }
  }

  /** The bytes of exactly one value. */
  predicate IsValue(v: seq<Byte>) {
    Skip(v) == Got((), [])
  }

  lemma ValueRoundTrip(v: seq<Byte>, rest: seq<Byte>)
    requires IsValue(v)
    ensures ReadValue(v + rest) == Got(v, rest)
  {
    SkipAppend(v, rest);
    assert [] + rest == rest;
    assert (v + rest)[..|v|] == v;
  }

  // ----- what a value is made of -----

  /** Bytes of values, one behind the other. */
  function Joined(vs: seq<seq<Byte>>): seq<Byte> {
    if vs == [] then [] else vs[0] + Joined(vs[1..])
  }

  lemma {:induction false} SkipJoined(vs: seq<seq<Byte>>, rest: seq<Byte>)
    requires forall v :: v in vs ==> IsValue(v)
    ensures SkipAll(Joined(vs) + rest, |vs|) == Got((), rest)
  {
    hide Skip, SkipAll;
    SkipAllIs(Joined(vs) + rest, |vs|);
    if vs == [] {
      assert Joined(vs) + rest == rest;
    } else {
      assert IsValue(vs[0]);
      Associate(vs[0], Joined(vs[1..]), rest);
      SkipAppend(vs[0], Joined(vs[1..]) + rest);
      assert [] + (Joined(vs[1..]) + rest) == Joined(vs[1..]) + rest;
      SkipJoined(vs[1..], rest);
    }
  }

  lemma ContentOfMap(n: nat, rest: seq<Byte>)
    requires n < TWO_TO_THE_32
    ensures ReadContent(MapLenBytes(n) + rest) == Got(Values(2 * n), rest)
  {
    MapLenRoundTrip(n, rest);
  }

  lemma ContentOfArray(n: nat, rest: seq<Byte>)
    requires n < TWO_TO_THE_32
    ensures ReadContent(ArrayLenBytes(n) + rest) == Got(Values(n), rest)
  {
    ArrayLenRoundTrip(n, rest);
  }

  lemma ContentOfString(s: seq<Byte>, rest: seq<Byte>)
    requires |s| < TWO_TO_THE_32
    ensures ReadContent(StringBytes(s) + rest) == Got(Bytes(|s|), s + rest)
  {
    StringLength(s, rest);
  }

  /** A map of n entries is skipped with its n keys and n values, and nothing behind them. */
  lemma MapIsSkipped(n: nat, vs: seq<seq<Byte>>, rest: seq<Byte>)
    requires n < TWO_TO_THE_32 && |vs| == 2 * n && forall v :: v in vs ==> IsValue(v)
    ensures Skip(MapLenBytes(n) + (Joined(vs) + rest)) == Got((), rest)
  {
    hide ReadContent, MapLenBytes;
    ContentOfMap(n, Joined(vs) + rest);
    SkipJoined(vs, rest);
  }

  /** An array of n elements is skipped with them. */
  lemma ArrayIsSkipped(vs: seq<seq<Byte>>, rest: seq<Byte>)
    requires |vs| < TWO_TO_THE_32 && forall v :: v in vs ==> IsValue(v)
    ensures Skip(ArrayLenBytes(|vs|) + (Joined(vs) + rest)) == Got((), rest)
  {
    hide ReadContent, ArrayLenBytes;
    ContentOfArray(|vs|, Joined(vs) + rest);
    SkipJoined(vs, rest);
  }

  /** A string is skipped whole. */
  lemma StringIsSkipped(s: seq<Byte>, rest: seq<Byte>)
    requires |s| < TWO_TO_THE_32
    ensures Skip(StringBytes(s) + rest) == Got((), rest)
  {
    hide ReadContent, StringBytes;
    ContentOfString(s, rest);
    assert (s + rest)[|s|..] == rest;
  }

  /** What is read as a number is skipped as that number. */
  lemma IntIsSkipped(b: seq<Byte>)
    requires ReadInt(b).Got?
    ensures Skip(b) == Got((), ReadInt(b).rest)
  {
    assert b[1..][0..] == b[1..];
  }

  function Power(k: nat): nat {
    if k == 0 then 1 else 2 * Power(k - 1)
  }

  /** The sizes of the numbers double with their codes, and so do those of the fixed extensions, which
      have a type byte besides. */
  lemma SizesDouble(k: nat)
    ensures k < 4 ==> Width(0xcc + k) == Power(k) && Width(0xd0 + k) == Power(k)
    ensures k < 4 ==> FixedSize(0xcc + k) == Power(k) && FixedSize(0xd0 + k) == Power(k)
    ensures k < 2 ==> FixedSize(0xca + k) == Power(k + 2)
    ensures k < 5 ==> FixedSize(0xd4 + k) == Power(k) + 1
  {
    assert Power(0) == 1 && Power(1) == 2 && Power(2) == 4 && Power(3) == 8 && Power(4) == 16;
  }

  // ----- every format of a number, a length and a text -----

  /** The number that bytes spell, the highest first. */
  function Spelled(bytes: seq<Byte>): nat {
    if bytes == [] then 0 else 256 * Spelled(bytes[..|bytes| - 1]) + bytes[|bytes| - 1]
  }

  lemma SpelledIs(b: seq<Byte>)
    ensures |b| >= 1 ==> Spelled(b[..1]) == b[0]
    ensures |b| >= 2 ==> Spelled(b[..2]) == N16(b)
    ensures |b| >= 4 ==> Spelled(b[..4]) == N32(b)
    ensures |b| >= 8 ==> Spelled(b[..8]) == N64(b)
  {
    SpelledStep(b, 0);
    SpelledStep(b, 1);
    SpelledStep(b, 2);
    SpelledStep(b, 3);
    SpelledStep(b, 4);
    SpelledStep(b, 5);
    SpelledStep(b, 6);
    SpelledStep(b, 7);
    hide Spelled;
  }

  lemma SpelledStep(b: seq<Byte>, k: nat)
    ensures Spelled(b[..0]) == 0
    ensures k < |b| ==> Spelled(b[..k + 1]) == 256 * Spelled(b[..k]) + b[k]
  {
    if k < |b| {
      assert b[..k + 1][..k] == b[..k];
    }
  }

  /** How many numbers there are of so many bytes. */
  function Range(bytes: nat): nat {
    if bytes == 0 then 1 else 256 * Range(bytes - 1)
  }

  lemma RangesAre()
    ensures Range(1) == 0x100 && Range(2) == TWO_TO_THE_16 && Range(4) == TWO_TO_THE_32 && Range(8) == TWO_TO_THE_64
  {
    assert Range(2) == 256 * Range(1) && Range(3) == 256 * Range(2) && Range(4) == 256 * Range(3);
    assert Range(5) == 256 * Range(4) && Range(6) == 256 * Range(5) && Range(7) == 256 * Range(6) && Range(8) == 256 * Range(7);
  }

  lemma SizedIs(b: seq<Byte>, n: nat, signed: bool)
    requires (n == 1 || n == 2 || n == 4 || n == 8) && |b| >= n
    ensures var v := Spelled(b[..n]);
            Sized(b, n, signed) == Got(if signed && 2 * v >= Range(n) then v - Range(n) else v, b[n..])
  {
    SpelledIs(b);
    RangesAre();
    hide Spelled, Range, N16, N32, N64;
  }

  /** Each format of one to eight bytes is read as the number its bytes spell, big-endian, and in the signed
      ones in two's complement. */
  lemma NumbersRead(k: nat, bytes: seq<Byte>, rest: seq<Byte>)
    requires k < 4 && |bytes| == Power(k)
    ensures ReadInt([0xcc + k] + (bytes + rest)) == Got(Spelled(bytes), rest)
    ensures var v := Spelled(bytes);
            ReadInt([0xd0 + k] + (bytes + rest)) == Got(if 2 * v < Range(|bytes|) then v else v - Range(|bytes|), rest)
  {
    PowersAre();
    SizesDouble(k);
    hide Spelled, Range, Sized, Power, Width, FixedSize;
    var b := bytes + rest;
    assert b[..|bytes|] == bytes && b[|bytes|..] == rest;
    assert ([0xcc + k] + b)[1..] == b && ([0xd0 + k] + b)[1..] == b;
    SizedIs(b, |bytes|, false);
    SizedIs(b, |bytes|, true);
  }

  lemma PowersAre()
    ensures Power(0) == 1 && Power(1) == 2 && Power(2) == 4 && Power(3) == 8
  {
  }

  /** And in one byte, from -32 to 127; a nil is 0. */
  lemma FixintReads(v: int, rest: seq<Byte>)
    requires -32 <= v < 128
    ensures ReadInt([if v < 0 then 256 + v else v] + rest) == Got(v, rest) && ReadInt([0xc0] + rest) == Got(0, rest)
  {
    assert ([if v < 0 then 256 + v else v] + rest)[1..] == rest && ([0xc0] + rest)[1..] == rest;
  }

  /** Nothing else is read as a number, a length of a map or an array, or a text. */
  lemma HeadsAre(b: seq<Byte>)
    requires |b| > 0
    ensures ReadInt(b).Got? ==> b[0] < 0x80 || b[0] >= 0xe0 || b[0] == 0xc0 || 0xcc <= b[0] <= 0xd3
    ensures ReadMapLen(b).Got? ==> 0x80 <= b[0] <= 0x8f || b[0] == 0xc0 || b[0] == 0xde || b[0] == 0xdf
    ensures ReadArrayLen(b).Got? ==> 0x90 <= b[0] <= 0x9f || b[0] == 0xc0 || b[0] == 0xdc || b[0] == 0xdd
    ensures ReadString(b).Got? ==> 0xa0 <= b[0] <= 0xbf || 0xd9 <= b[0] <= 0xdb || b[0] == 0xc0 || 0xc4 <= b[0] <= 0xc6
  {
  }

  /** Binary data is read as a text. */
  lemma BinaryReads(s: seq<Byte>, rest: seq<Byte>)
    ensures |s| < 0x100 ==> ReadString([0xc4, |s|] + (s + rest)) == Got(s, rest)
    ensures |s| < TWO_TO_THE_16 ==> ReadString([0xc5] + U16(|s|) + (s + rest)) == Got(s, rest)
    ensures |s| < TWO_TO_THE_32 ==> ReadString([0xc6] + U32(|s|) + (s + rest)) == Got(s, rest)
  {
    var x := s + rest;
    assert x[..|s|] == s && x[|s|..] == rest;
    hide ReadBytesLen;
    if |s| < 0x100 {
      BinaryLength8(|s|, x);
    }
    if |s| < TWO_TO_THE_16 {
      BinaryLength16(|s|, x);
    }
    if |s| < TWO_TO_THE_32 {
      BinaryLength32(|s|, x);
    }
  }

  lemma BinaryLength8(n: nat, x: seq<Byte>)
    requires n < 0x100
    ensures ReadBytesLen([0xc4, n] + x) == Got(n, x)
  {
    assert ([0xc4, n] + x)[1..] == [n] + x && ([n] + x)[1..] == x;
  }

  lemma BinaryLength16(n: nat, x: seq<Byte>)
    requires n < TWO_TO_THE_16
    ensures ReadBytesLen([0xc5] + U16(n) + x) == Got(n, x)
  {
    ReadU16(n, x);
    assert ([0xc5] + U16(n) + x)[1..] == U16(n) + x;
  }

  lemma BinaryLength32(n: nat, x: seq<Byte>)
    requires n < TWO_TO_THE_32
    ensures ReadBytesLen([0xc6] + U32(n) + x) == Got(n, x)
  {
    ReadU32(n, x);
    assert ([0xc6] + U32(n) + x)[1..] == U32(n) + x;
  }
}
