/**
 The read and write buffers (smallbuf.go), with what the decoder of the MessagePack library takes off
 a read buffer.
 */
module Buffers {
  import opened Common
  import opened MsgPack

  /** The read buffer: bytes and a cursor. */
  class SmallBuf {
    const b: seq<Byte>
    var p: nat

    ghost predicate Valid()
      reads this
    {
      p <= |b|
    }

    /** The unread bytes. */
    ghost function Rest(): seq<Byte>
      reads this
      requires Valid()
    {
      b[p..]
    }

    constructor (bytes: seq<Byte>)
      ensures Valid() && b == bytes && p == 0
    {
      b, p := bytes, 0;
    }

    /** Up to n bytes, or nothing at the end of the buffer. */
    method Read(n: nat) returns (r: Parsed<seq<Byte>>)
      requires Valid()
      modifies this`p
      ensures Valid()
      ensures r.Bad? <==> n > 0 && old(Rest()) == []
      ensures r.Bad? ==> p == old(p)
      ensures r.Got? ==> old(Rest()) == r.value + Rest() && r.rest == Rest()
      ensures r.Got? ==> |r.value| == if n <= |old(Rest())| then n else |old(Rest())|
    {
      var l := |b| - p;
      if l == 0 && n > 0 {
        return Bad;
      }
      if l > n {
        l := n;
      }
      var start := p;
      p := p + l;
      assert b[start..] == b[start..p] + b[p..];
      r := Got(b[start..p], b[p..]);
    }

    method ReadByte() returns (r: Parsed<Byte>)
      requires Valid()
      modifies this`p
      ensures Valid()
      ensures if old(Rest()) == [] then r.Bad? && p == old(p)
              else r == Got(old(Rest())[0], Rest()) && Rest() == old(Rest())[1..] && p == old(p) + 1
    {
      if p == |b| {
        return Bad;
      }
      var c := b[p];
      p := p + 1;
      r := Got(c, b[p..]);
    }

    /** Undoes ReadByte. */
    method UnreadByte() returns (ok: bool)
      requires Valid()
      modifies this`p
      ensures Valid() && ok == (old(p) > 0)
      ensures p == if ok then old(p) - 1 else old(p)
    {
      if p == 0 {
        return false;
      }
      p := p - 1;
      ok := true;
    }

    method Seek(offset: int) returns (ok: bool)
      requires Valid()
      modifies this`p
      ensures Valid() && ok == (0 <= offset <= |b|)
      ensures p == if ok then offset else old(p)
    {
      if offset < 0 {
        return false;
      }
      if offset > |b| {
        return false;
      }
      p := offset;
      ok := true;
    }

    /** A value read by the decoder of the library: the cursor moves behind it. */
    method Consume<T>(parsed: Parsed<T>)
      requires Valid() && (parsed.Got? ==> Suffix(parsed.rest, Rest()))
      modifies this`p
      ensures Valid() && Rest() == if parsed.Got? then parsed.rest else old(Rest())
    {
      if parsed.Got? {
        p := |b| - |parsed.rest|;
      }
    }

    method DecodeInt() returns (r: Parsed<int>)
      requires Valid()
      modifies this`p
      ensures Valid() && r == ReadInt(old(Rest())) && (r.Got? ==> Rest() == r.rest)
    {
      IntSuffix(Rest());
      r := ReadInt(b[p..]);
      Consume(r);
    }

    method DecodeUint64() returns (r: Parsed<nat>)
      requires Valid()
      modifies this`p
      ensures Valid() && r == ReadUint64(old(Rest())) && (r.Got? ==> Rest() == r.rest)
    {
      IntSuffix(Rest());
      r := ReadUint64(b[p..]);
      Consume(r);
    }

    method DecodeMapLen() returns (r: Parsed<int>)
      requires Valid()
      modifies this`p
      ensures Valid() && r == ReadMapLen(old(Rest())) && (r.Got? ==> Rest() == r.rest)
    {
      LengthSuffix(Rest(), 0x80, 16, 0xde);
      r := ReadMapLen(b[p..]);
      Consume(r);
    }

    method DecodeArrayLen() returns (r: Parsed<int>)
      requires Valid()
      modifies this`p
      ensures Valid() && r == ReadArrayLen(old(Rest())) && (r.Got? ==> Rest() == r.rest)
    {
      LengthSuffix(Rest(), 0x90, 16, 0xdc);
      r := ReadArrayLen(b[p..]);
      Consume(r);
    }

    method DecodeString() returns (r: Parsed<seq<Byte>>)
      requires Valid()
      modifies this`p
      ensures Valid() && r == ReadString(old(Rest())) && (r.Got? ==> Rest() == r.rest)
    {
      StringSuffix(Rest());
      r := ReadString(b[p..]);
      Consume(r);
    }

    method DecodeInterface() returns (r: Parsed<seq<Byte>>)
      requires Valid()
      modifies this`p
      ensures Valid() && r == ReadValue(old(Rest())) && (r.Got? ==> Rest() == r.rest)
    {
      SkipSuffix(Rest());
      r := ReadValue(b[p..]);
      Consume(r);
    }

    method SkipValue() returns (r: Parsed<()>)
      requires Valid()
      modifies this`p
      ensures Valid() && r == Skip(old(Rest())) && (r.Got? ==> Rest() == r.rest)
    {
      SkipSuffix(Rest());
      r := Skip(b[p..]);
      Consume(r);
    }

    /** Exactly n bytes. */
    method ReadFull(n: nat) returns (r: Parsed<seq<Byte>>)
      requires Valid()
      modifies this`p
      ensures Valid()
      ensures if n <= |old(Rest())| then r == Got(old(Rest())[..n], Rest()) && Rest() == old(Rest())[n..] else r.Bad?
    {
      r := Bad;
      if n <= |b| - p {
        var start := p;
        p := p + n;
        assert b[start..][..n] == b[start..p] && b[start..][n..] == b[p..];
        r := Got(b[start..p], b[p..]);
      }
    }
  }

  /** The write buffer with the running average that decides about its capacity. */
  class SmallWBuf {
    var b: seq<Byte>
    var sum: nat
    var n: nat
    var cap: nat

    ghost predicate Valid()
      reads this
    {
      |b| <= cap && n <= 16
    }

    constructor ()
      ensures Valid() && b == [] && sum == n == cap == 0
    {
      b, sum, n, cap := [], 0, 0, 0;
    }

    /** Appends; the capacity grows as the runtime likes, if it has to. */
    method Write(bytes: seq<Byte>)
      modifies this`b, this`cap
      ensures b == old(b) + bytes && old(cap) <= cap
      ensures old(Valid()) ==> Valid()
    {
      b := b + bytes;
      if cap < |b| {
        var grown :| grown >= |b|;
        cap := grown;
      }
    }

    method Trunc(k: nat)
      requires k <= |b|
      modifies this`b
      ensures b == old(b)[..k]
      ensures old(Valid()) ==> Valid()
    {
      b := b[..k];
    }

    /** Empties the buffer; the average is over one to sixteen uses, and a buffer much larger than it
        is given up. */
    method Reset()
      requires Valid()
      modifies this
      ensures Valid() && b == [] && 1 <= n && n == if old(n) < 16 then old(n) + 1 else old(n)
      ensures sum == old(sum) * 15 / 16 + |old(b)|
      ensures cap == if old(cap) > 1024 && sum / n < old(cap) / 4 then sum / n else old(cap)
    {
      sum := sum * 15 / 16 + |b|;
      if n < 16 {
        n := n + 1;
      }
      var average := sum / n;
      if cap > 1024 && average < cap / 4 {
        b, cap := [], average;
      } else {
        b := [];
      }
    }
  }
}
