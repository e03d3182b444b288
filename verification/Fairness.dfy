/**
 Fairness of GetNextConnection (connection_pool/round_robin.go) with fixed membership: how often
 each position is returned by k * n consecutive calls on a pool of n connections, for every
 starting value of the counter.  The counter is taken modulo an arbitrary w > 0 until the end,
 where w is 2^64.
 */
module Fairness {
  import opened Common
  import opened RoundRobin

  /** The counter after t calls of GetNextConnection. */
  function CounterAfter(w: nat, current: nat, t: nat): (c: nat)
    requires current < w
    ensures c < w
  {
    if t == 0 then current else Increment(w, CounterAfter(w, current, t - 1))
  }

  /** How many of the first `calls` calls return position i of n. */
  function Hits(w: nat, current: nat, n: nat, calls: nat, i: nat): nat
    requires current < w && n > 0
  {
    if calls == 0 then 0
    else Hits(w, current, n, calls - 1, i) + Bit(CounterAfter(w, current, calls - 1) % n == i)
  }

  /** Every one of n positions is returned exactly k times by k * n calls. */
  ghost predicate Fair(w: nat, current: nat, n: nat, k: nat)
    requires current < w && n > 0
  {
    forall i :: 0 <= i < n ==> Hits(w, current, n, k * n, i) == k
  }

  // ----- division -----

  lemma DivModStep(x: nat, n: nat)
    requires n > 0
    ensures if x % n == n - 1 then (x + 1) % n == 0 && (x + 1) / n == x / n + 1
            else (x + 1) % n == x % n + 1 && (x + 1) / n == x / n
  {
    assert x == (x / n) * n + x % n;
    NextMultiple(x, x / n, x % n, n);
  }

  lemma NextMultiple(x: nat, q: nat, r: nat, n: nat)
    requires r < n && x == q * n + r
    ensures if r == n - 1 then (x + 1) % n == 0 && (x + 1) / n == q + 1
            else (x + 1) % n == r + 1 && (x + 1) / n == q
  {
    if r == n - 1 {
      OneMore(q, n);
      DivMod(x + 1, q + 1, 0, n);
    } else {
      DivMod(x + 1, q, r + 1, n);
    }
  }

  lemma OneMore(q: nat, n: nat)
    ensures (q + 1) * n == q * n + n
  {
  }

  // ----- counting residues -----

  lemma {:induction false} CounterIsSum(w: nat, current: nat, t: nat)
    requires current < w
    ensures CounterAfter(w, current, t) == (current + t) % w
  {
    if t == 0 {
      DivMod(current, 0, current, w);
    } else {
      CounterIsSum(w, current, t - 1);
      DivModStep(current + (t - 1), w);
      var c := (current + (t - 1)) % w;
      if c == w - 1 {
        DivMod(c + 1, 1, 0, w);
      } else {
        DivMod(c + 1, 0, c + 1, w);
      }
    }
  }

  /** How many of 0 .. x - 1 have residue i modulo n. */
  function Below(x: nat, n: nat, i: nat): nat
    requires n > 0
  {
    x / n + Bit(i < x % n)
  }

  lemma BelowStep(x: nat, n: nat, i: nat)
    requires i < n
    ensures Below(x + 1, n, i) == Below(x, n, i) + Bit(x % n == i)
    ensures Below(0, n, i) == 0
  {
    DivModStep(x, n);
    DivMod(0, 0, 0, n);
  }

  lemma {:induction false} HitsWithoutWrap(w: nat, current: nat, n: nat, calls: nat, i: nat)
    requires current < w && i < n && current + calls <= w
    ensures Hits(w, current, n, calls, i) == Below(current + calls, n, i) - Below(current, n, i)
  {
    if calls > 0 {
      HitsWithoutWrap(w, current, n, calls - 1, i);
      CounterIsSum(w, current, calls - 1);
      DivMod(current + (calls - 1), 0, current + (calls - 1), w);
      BelowStep(current + (calls - 1), n, i);
      assert current + (calls - 1) + 1 == current + calls;
    }
  }

  lemma {:induction false} CounterSplit(w: nat, current: nat, a: nat, b: nat)
    requires current < w
    ensures CounterAfter(w, current, a + b) == CounterAfter(w, CounterAfter(w, current, a), b)
  {
    if b > 0 {
      CounterSplit(w, current, a, b - 1);
      assert a + b - 1 == a + (b - 1);
    }
  }

  /** The calls split at any point, where the counter stands at its value there. */
  lemma {:induction false} HitsSplit(w: nat, current: nat, n: nat, a: nat, b: nat, i: nat)
    requires current < w && n > 0
    ensures Hits(w, current, n, a + b, i) == Hits(w, current, n, a, i) + Hits(w, CounterAfter(w, current, a), n, b, i)
  {
    if b > 0 {
      HitsSplit(w, current, n, a, b - 1, i);
      CounterSplit(w, current, a, b - 1);
      assert a + b - 1 == a + (b - 1);
    }
  }

  lemma OneLess(t: nat, x: nat)
    requires t > 0
    ensures t * x == (t - 1) * x + x
  {
  }

  /** From counter 0, one more whole turn of the counter. */
  lemma HitsOneMoreTurn(w: nat, n: nat, calls: nat, i: nat)
    requires i < n && w > 0
    ensures Hits(w, 0, n, w + calls, i) == Below(w, n, i) + Hits(w, 0, n, calls, i)
  {
    BelowStep(0, n, i);
    HitsWithoutWrap(w, 0, n, w, i);
    CounterIsSum(w, 0, w);
    DivMod(w, 1, 0, w);
    HitsSplit(w, 0, n, w, calls, i);
  }

  /** From counter 0, whole turns of the counter and a rest. */
  lemma {:induction false} HitsOverTurns(w: nat, n: nat, turns: nat, rest: nat, calls: nat, i: nat)
    requires i < n && rest < w && calls == turns * w + rest
    ensures Hits(w, 0, n, calls, i) == turns * Below(w, n, i) + Below(rest, n, i)
  {
    if turns == 0 {
      BelowStep(0, n, i);
      HitsWithoutWrap(w, 0, n, rest, i);
    } else {
      OneLess(turns, w);
      OneLess(turns, Below(w, n, i));
      HitsOverTurns(w, n, turns - 1, rest, calls - w, i);
      HitsOneMoreTurn(w, n, calls - w, i);
    }
  }

  function Scaled(q: nat, b: bool): nat { if b then q else 0 }

  /** The count for q whole turns and final counter value a. */
  lemma HitsInGeneral(w: nat, current: nat, n: nat, calls: nat, i: nat, q: nat, a: nat)
    requires current < w && i < n && a < w && current + calls == q * w + a
    ensures Hits(w, current, n, calls, i)
            == (q * (w / n) + a / n - current / n) + Scaled(q, i < w % n) + Bit(i < a % n) - Bit(i < current % n)
  {
    HitsSplit(w, 0, n, current, calls, i);
    CounterIsSum(w, 0, current);
    DivMod(current, 0, current, w);
    HitsWithoutWrap(w, 0, n, current, i);
    BelowStep(0, n, i);
    HitsOverTurns(w, n, q, a, current + calls, i);
    ScaledSum(q, w / n, i < w % n);
  }

  lemma ScaledSum(q: nat, x: nat, b: bool)
    ensures q * (x + Bit(b)) == q * x + Scaled(q, b)
  {
  }

  // ----- fairness -----

  /** What k * n calls do to the quotients and residues of the counter. */
  lemma WindowShape(w: nat, current: nat, n: nat, k: nat, q: nat, a: nat, whole: int)
    requires current < w && n > 0 && a < w && current + k * n == q * w + a
    requires whole == q * (w / n) + a / n - current / n
    ensures (whole - k) * n == current % n - q * (w % n) - a % n
  {
    assert w == (w / n) * n + w % n;
    assert a == (a / n) * n + a % n;
    assert current == (current / n) * n + current % n;
    Distribute(q, w / n, w % n, n);
    FactorOut(q * (w / n), a / n, current / n, k, n);
  }

  lemma Distribute(q: int, x: int, r: int, n: int)
    ensures q * (x * n + r) == (q * x) * n + q * r
  {
    assert q * (x * n + r) == q * (x * n) + q * r;
  }

  lemma FactorOut(x: int, y: int, z: int, k: int, n: int)
    ensures (x + y - z - k) * n == x * n + y * n - z * n - k * n
  {
  }

  lemma Turns(e: nat, w: nat, q: nat, a: nat)
    requires a < w && e == q * w + a
    ensures (e < w <==> q == 0) && (e < 2 * w <==> q <= 1)
  {
    MultipleIsFar(q, w);
    MultipleIsFar(q - 1, w);
    assert q * w == (q - 1) * w + w;
  }

  lemma Residues(x: int, q: nat, r: nat, b: nat, c: nat, n: nat)
    requires r < n && b < n && c < n && x * n == c - q * r - b
    requires q == 0 || r == 0 || (q == 1 && c == r)
    ensures x == 0 && if q == 0 || r == 0 then b == c else b == 0
  {
    assert q == 0 || r == 0 ==> q * r == 0;
    MultipleIsFar(x, n);
  }

  /** The count of one position against the quotients and residues of the window. */
  ghost predicate Counts(w: nat, current: nat, n: nat, calls: nat, whole: int, q: nat, b: nat, i: nat)
    requires current < w && n > 0
  {
    Hits(w, current, n, calls, i) == whole + Scaled(q, i < w % n) + Bit(i < b) - Bit(i < current % n)
  }

  lemma BalanceDecides(w: nat, current: nat, n: nat, k: nat, whole: int, q: nat, b: nat)
    requires current < w && n > 0 && b < n
    requires forall i :: 0 <= i < n ==> Counts(w, current, n, k * n, whole, q, b, i)
    requires q == 0 || w % n == 0 || (q == 1 && current % n == w % n) ==>
               whole == k && if q == 0 || w % n == 0 then b == current % n else b == 0
    ensures Fair(w, current, n, k) <==> q == 0 || w % n == 0 || (q == 1 && current % n == w % n)
  {
    var r, c := w % n, current % n;
    if q == 0 || r == 0 || (q == 1 && c == r) {
      forall i | 0 <= i < n ensures Hits(w, current, n, k * n, i) == k {
        assert Counts(w, current, n, k * n, whole, q, b, i);
      }
    } else {
      assert Counts(w, current, n, k * n, whole, q, b, n - 1);
      assert Counts(w, current, n, k * n, whole, q, b, 0);
      assert Counts(w, current, n, k * n, whole, q, b, r);
      assert Counts(w, current, n, k * n, whole, q, b, c);
    }
  }

  lemma WindowCounts(w: nat, current: nat, n: nat, calls: nat, q: nat, a: nat, whole: int)
    requires current < w && n > 0 && a < w && current + calls == q * w + a
    requires whole == q * (w / n) + a / n - current / n
    ensures forall i :: 0 <= i < n ==> Counts(w, current, n, calls, whole, q, a % n, i)
  {
    var b := a % n;
    forall i | 0 <= i < n ensures Counts(w, current, n, calls, whole, q, b, i) {
      HitsInGeneral(w, current, n, calls, i, q, a);
    }
  }

  /** Fairness in terms of the turns q of the counter and its final value a. */
  lemma FairByTurns(w: nat, current: nat, n: nat, k: nat, q: nat, a: nat, whole: int)
    requires current < w && n > 0 && a < w && current + k * n == q * w + a
    requires whole == q * (w / n) + a / n - current / n
    ensures Fair(w, current, n, k) <==> q == 0 || w % n == 0 || (q == 1 && current % n == w % n)
  {
    WindowShape(w, current, n, k, q, a, whole);
    WindowCounts(w, current, n, k * n, q, a, whole);
    var r, b, c := w % n, a % n, current % n;
    if q == 0 || r == 0 || (q == 1 && c == r) {
      Residues(whole - k, q, r, b, c, n);
    }
    BalanceDecides(w, current, n, k, whole, q, b);
  }

  /** The window is fair exactly if the counter does not wrap in it, or the number of positions
      divides the range of the counter, or it wraps once from a start congruent to that range. */
  lemma FairExactly(w: nat, current: nat, n: nat, k: nat)
    requires current < w && n > 0
    ensures Fair(w, current, n, k) <==>
            current + k * n < w || w % n == 0 || (current + k * n < 2 * w && current % n == w % n)
  {
    var e := current + k * n;
    assert e == (e / w) * w + e % w;
    Turns(e, w, e / w, e % w);
    FairByTurns(w, current, n, k, e / w, e % w, (e / w) * (w / n) + (e % w) / n - current / n);
  }

  /** The 64-bit counter of the source. */
  lemma FairWithoutWrap(current: nat, n: nat, k: nat)
    requires n > 0 && current + k * n < TWO_TO_THE_64
    ensures Fair(TWO_TO_THE_64, current, n, k)
  {
    assert k * n >= 0;
    FairExactly(TWO_TO_THE_64, current, n, k);
  }

  /** Three connections and a counter one below its end: three calls return position 0 twice. */
  lemma UnfairAcrossWrap()
    ensures !Fair(TWO_TO_THE_64, TWO_TO_THE_64 - 1, 3, 1)
  {
    FairExactly(TWO_TO_THE_64, TWO_TO_THE_64 - 1, 3, 1);
  }
}
