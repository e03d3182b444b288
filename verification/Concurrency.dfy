/**
 The rounding of Opts.Concurrency in Connect (connection.go).
 */
module Concurrency {
  import opened Common

  predicate IsPowerOfTwo(c: bv32) {
    c != 0 && c & (c - 1) == 0
  }

  /** The value of c after the shifts by 1, 2, .. of the rounding loop. */
  function Smear1(c: bv32): bv32 { c | (c >> 1) }
  function Smear2(c: bv32): bv32 { var x := Smear1(c); x | (x >> 2) }
  function Smear4(c: bv32): bv32 { var x := Smear2(c); x | (x >> 4) }
  function Smear8(c: bv32): bv32 { var x := Smear4(c); x | (x >> 8) }
  function Smear16(c: bv32): bv32 { var x := Smear8(c); x | (x >> 16) }

  /** All five shifts fill every bit below the top one. */
  lemma SmearFills(c: bv32)
    requires c != 0
    ensures Smear16(c) & (Smear16(c) + 1) == 0
    ensures c <= Smear16(c) && Smear16(c) >> 1 < c
  {
  }

  /** r is a power of two not below c, and its half is below c. */
  predicate Rounds(c: bv32, r: bv32) {
    IsPowerOfTwo(r) && c <= r && r >> 1 < c
  }

  lemma NextPower(c: bv32, s: bv32)
    requires 0 < c <= 0x8000_0000 && !IsPowerOfTwo(c)
    requires s & (s + 1) == 0 && c <= s && s >> 1 < c
    ensures Rounds(c, s + 1)
  {
  }

  lemma PowerRoundsToItself(c: bv32)
    requires c != 0 && c & (c - 1) == 0
    ensures Rounds(c, c)
  {
  }

  /** Such an r is the smallest power of two not below c. */
  lemma SmallestPower(c: bv32, r: bv32, p: bv32)
    requires Rounds(c, r) && IsPowerOfTwo(p) && c <= p
    ensures r <= p
  {
  }

  lemma Shift1(i: bv32, c: bv32, c0: bv32)
    requires i == 1 && c == c0
    ensures i * 2 == 2 && c | (c >> i) == Smear1(c0)
  {
  }

  lemma Shift2(i: bv32, c: bv32, c0: bv32)
    requires i == 2 && c == Smear1(c0)
    ensures i * 2 == 4 && c | (c >> i) == Smear2(c0)
  {
  }

  lemma Shift4(i: bv32, c: bv32, c0: bv32)
    requires i == 4 && c == Smear2(c0)
    ensures i * 2 == 8 && c | (c >> i) == Smear4(c0)
  {
  }

  lemma Shift8(i: bv32, c: bv32, c0: bv32)
    requires i == 8 && c == Smear4(c0)
    ensures i * 2 == 16 && c | (c >> i) == Smear8(c0)
  {
  }

  lemma Shift16(i: bv32, c: bv32, c0: bv32)
    requires i == 16 && c == Smear8(c0)
    ensures i * 2 == 32 && c | (c >> i) == Smear16(c0)
  {
  }

  /** Loop state after n shifts. */
  ghost predicate Stage(n: nat, i: bv32, c: bv32, c0: bv32) {
    match n
    case 0 => i == 1 && c == c0
    case 1 => i == 2 && c == Smear1(c0)
    case 2 => i == 4 && c == Smear2(c0)
    case 3 => i == 8 && c == Smear4(c0)
    case 4 => i == 16 && c == Smear8(c0)
    case _ => i == 32 && c == Smear16(c0)
  }

  lemma Advance(n: nat, i: bv32, c: bv32, c0: bv32)
    requires n < 5 && Stage(n, i, c, c0)
    ensures i <= 16 && Stage(n + 1, i * 2, c | (c >> i), c0)
  {
    match n
    case 0 => Shift1(i, c, c0);
    case 1 => Shift2(i, c, c0);
    case 2 => Shift4(i, c, c0);
    case 3 => Shift8(i, c, c0);
    case 4 => Shift16(i, c, c0);
  }

  /** The loop of the rounding: every bit below the top one is filled. */
  method FillBits(concurrency: bv32) returns (c: bv32)
    requires concurrency != 0
    ensures c & (c + 1) == 0 && concurrency <= c && c >> 1 < concurrency
  {
    c := concurrency;
    var i: bv32 := 1;
    ghost var n: nat := 0;
    while i < 32
      invariant n <= 5 && Stage(n, i, c, concurrency)
      decreases 5 - n
    {
      Advance(n, i, c, concurrency);
      c := c | (c >> i);
      i := i * 2;
      n := n + 1;
    }
    SmearFills(concurrency);
  }

  /** The rounding in Connect.  The caller has already replaced 0 and values above
      maxprocs * 128. */
  method RoundConcurrency(concurrency: bv32) returns (r: bv32)
    requires 0 < concurrency <= 0x8000_0000
    ensures Rounds(concurrency, r)
  {
    if concurrency & (concurrency - 1) != 0 {
      var c := FillBits(concurrency);
      NextPower(concurrency, c);
      return c + 1;
    }
    PowerRoundsToItself(concurrency);
    return concurrency;
  }

  // ----- words as numbers -----

  /** The number that a word stands for. */
  function Value(b: bv32): nat
    decreases b
  {
    if b == 0 then 0
    else
      Smaller(b);
      2 * Value(b >> 1) + if b & 1 == 1 then 1 else 0
  }

  lemma Smaller(b: bv32)
    requires b != 0
    ensures b >> 1 < b
  {
  }

  lemma ValueIs(b: bv32)
    ensures Value(b) == 2 * Value(b >> 1) + if b & 1 == 1 then 1 else 0
  {
    if b == 0 {
      assert b >> 1 == 0 && b & 1 == 0;
    }
  }

  lemma OneMoreBit(x: nat, m: nat, b: nat)
    requires m > 0 && b < 2
    ensures (2 * x + b) % (2 * m) == 2 * (x % m) + b && (2 * x + b) / (2 * m) == x / m
  {
    var q, r := x / m, x % m;
    assert x == q * m + r;
    DivMod(2 * x + b, q, 2 * r + b, 2 * m);
  }

  lemma MaskHalves(id: bv32, c: bv32)
    requires IsPowerOfTwo(c) && c != 1
    ensures IsPowerOfTwo(c >> 1) && c & 1 == 0 && c >> 1 < c
    ensures (id & (c - 1)) >> 1 == (id >> 1) & ((c >> 1) - 1) && (id & (c - 1)) & 1 == id & 1
  {
  }

  /** Masking with a power of two less one is the remainder. */
  lemma {:induction false} MaskIsRemainder(id: bv32, c: bv32)
    requires IsPowerOfTwo(c)
    ensures Value(c) > 0 && Value(id & (c - 1)) == Value(id) % Value(c)
    decreases c
  {
    if c == 1 {
      ValueIs(1);
      assert id & 0 == 0;
    } else {
      MaskHalves(id, c);
      MaskIsRemainder(id >> 1, c >> 1);
      ValueIs(id);
      ValueIs(c);
      ValueIs(id & (c - 1));
      OneMoreBit(Value(id >> 1), Value(c >> 1), if id & 1 == 1 then 1 else 0);
    }
  }

  lemma ValueOf128()
    ensures Value(128) == 128
  {
    ValueIs(128);
    ValueIs(64);
    ValueIs(32);
    ValueIs(16);
    ValueIs(8);
    ValueIs(4);
    ValueIs(2);
    ValueIs(1);
  }
}
