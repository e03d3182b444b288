/**
 Framing of requests: pack and read (connection.go) and the header parser of responses (response.go).
 */
module Frames {
  import opened Common
  import opened Buffers
  import opened MsgPack

  const KEY_CODE: Byte := 0x00
  const KEY_SYNC: Byte := 0x01
  const KEY_STREAM_ID: Byte := 0x0a
  const IGNORE_STREAM_ID: nat := 0

  // ----- writing -----

  /** A request: its code as an unsigned word, the bytes its body writes, and whether it then fails. */
  datatype Request = Request(id: nat, code: nat, streamId: nat, body: seq<Byte>, fails: bool)

  predicate Wide(r: Request) {
    r.id < TWO_TO_THE_32 && r.streamId < TWO_TO_THE_64
  }

  function StreamBytes(streamId: nat): seq<Byte>
    requires streamId < TWO_TO_THE_64
  {
    if streamId == IGNORE_STREAM_ID then []
    else if streamId < TWO_TO_THE_32 then [KEY_STREAM_ID, 0xce] + U32(streamId)
    else [KEY_STREAM_ID, 0xcf] + U64(streamId)
  }

  /** The header map and the body. */
  function Payload(r: Request): seq<Byte>
    requires Wide(r)
  {
    [if r.streamId == IGNORE_STREAM_ID then 0x82 else 0x83, KEY_CODE, r.code % 256, KEY_SYNC, 0xce]
    + U32(r.id) + StreamBytes(r.streamId) + r.body
  }

  /** A frame: the length of the payload in 32 bits, and the payload. */
  function Frame(r: Request): seq<Byte>
    requires Wide(r)
  {
    [0xce] + U32(|Payload(r)| % TWO_TO_THE_32) + Payload(r)
  }

  /** The four shifts and casts to a byte that spell a 32-bit number. */
  function Shifted(v: nat): seq<Byte> {
    [v / 0x100_0000 % 256, v / 0x1_0000 % 256, v / 0x100 % 256, v % 256]
  }

  lemma FourBytes(v: nat, a: Byte, b: Byte, c: Byte, d: Byte)
    requires v == 0x100_0000 * a + 0x1_0000 * b + 0x100 * c + d
    ensures Shifted(v) == [a, b, c, d]
  {
    assert v / 0x100_0000 == a;
    assert v / 0x1_0000 == 0x100 * a + b;
    assert v / 0x100 == 0x1_0000 * a + 0x100 * b + c;
  }

  lemma ShiftedIsU32(v: nat)
    requires v < TWO_TO_THE_32
    ensures Shifted(v) == U32(v)
  {
    var high, low := v / TWO_TO_THE_16, v % TWO_TO_THE_16;
    FourBytes(v, high / 256, high % 256, low / 256, low % 256);
  }

  /** Writes a frame behind what the buffer holds; if the body fails, a part of one. */
  method Pack(h: SmallWBuf, r: Request) returns (ok: bool)
    requires Wide(r)
    modifies h`b, h`cap
    ensures ok == !r.fails
    ensures old(h.Valid()) ==> h.Valid()
    ensures ok ==> h.b == old(h.b) + Frame(r)
    ensures !ok ==> old(h.b) <= h.b
  {
    var hl := |h.b|;
    ghost var before := h.b;
    var hMapLen: Byte := 0x82;
    var streamBytes: seq<Byte> := [];
    if r.streamId != IGNORE_STREAM_ID {
      hMapLen := 0x83;
      if r.streamId > TWO_TO_THE_32 - 1 {
        streamBytes := [KEY_STREAM_ID, 0xcf] + U64(r.streamId);
      } else {
        streamBytes := [KEY_STREAM_ID, 0xce] + U32(r.streamId);
      }
    }
    ShiftedIsU32(r.id);
    var fields := [hMapLen, KEY_CODE, r.code % 256, KEY_SYNC, 0xce] + Shifted(r.id) + streamBytes;
    h.Write([0xce, 0, 0, 0, 0] + fields);
    h.Write(r.body);
    Laid(before, fields, r.body);
    assert fields + r.body == Payload(r);
    if r.fails {
      return false;
    }
    var l := (|h.b| - 5 - hl) % TWO_TO_THE_32;
    PatchLength(h, hl, l, before, Payload(r));
    ok := true;
  }

  lemma Laid(before: seq<Byte>, fields: seq<Byte>, body: seq<Byte>)
    ensures before + ([0xce, 0, 0, 0, 0] + fields) + body == before + [0xce, 0, 0, 0, 0] + (fields + body)
  {
  }

  /** The length goes into the gap left for it. */
  method PatchLength(h: SmallWBuf, hl: nat, l: nat, ghost before: seq<Byte>, ghost payload: seq<Byte>)
    requires hl == |before| && h.b == before + [0xce, 0, 0, 0, 0] + payload && l == |payload| % TWO_TO_THE_32
    modifies h`b
    ensures h.b == before + ([0xce] + U32(l) + payload) && |h.b| == |old(h.b)|
  {
    ShiftedIsU32(l);
    ghost var s := Shifted(l);
    h.b := h.b[hl + 1 := l / 0x100_0000 % 256];
    h.b := h.b[hl + 2 := l / 0x1_0000 % 256];
    h.b := h.b[hl + 3 := l / 0x100 % 256];
    h.b := h.b[hl + 4 := l % 256];
    Patched(before, payload, s[0], s[1], s[2], s[3]);
  }

  lemma Patched(before: seq<Byte>, payload: seq<Byte>, a: Byte, b: Byte, c: Byte, d: Byte)
    ensures var gap, k := before + [0xce, 0, 0, 0, 0] + payload, |before|;
            gap[k + 1 := a][k + 2 := b][k + 3 := c][k + 4 := d] == before + ([0xce] + [a, b, c, d] + payload)
  {
  }

  /** The part of putFuture under the buffer lock: a failed body leaves no trace.  The shard becomes
      dirty when the buffer gets its first frame. */
  method PutRequest(h: SmallWBuf, r: Request) returns (dirty: bool)
    requires Wide(r) && h.Valid()
    modifies h`b, h`cap
    ensures h.Valid() && h.b == old(h.b) + Effect(r)
    ensures dirty <==> old(h.b) == [] && h.b != []
  {
    var firstWritten := |h.b| == 0;
    if h.cap == 0 {
      h.b, h.cap := [], 128;
    }
    var blen := |h.b|;
    var ok := Pack(h, r);
    if !ok {
      h.Trunc(blen);
      return false;
    }
    dirty := firstWritten;
  }

  // ----- reading -----

  /** One frame off a stream. */
  function ReadFrame(stream: seq<Byte>): (r: Parsed<seq<Byte>>)
    ensures r.Got? ==> |r.rest| + 5 < |stream|
  {
    if |stream| < 5 || stream[0] != 0xce then Bad
    else
      var length := N32(stream[1..]);
      if length == 0 || |stream| - 5 < length then Bad
      else Got(stream[5..][..length], stream[5..][length..])
  }

  method Read(r: SmallBuf) returns (response: Parsed<seq<Byte>>)
    requires r.Valid()
    modifies r`p
    ensures r.Valid()
    ensures var frame := ReadFrame(old(r.Rest()));
            if frame.Got? then response == frame && r.Rest() == frame.rest else response.Bad?
  {
    ghost var stream := r.Rest();
    var header := r.ReadFull(5);
    if header.Bad? {
      return Bad;
    }
    var lenbuf := header.value;
    if lenbuf[0] != 0xce {
      return Bad;
    }
    var b1: int, b2: int, b3: int := lenbuf[1], lenbuf[2], lenbuf[3];
    var length: nat := 0x100_0000 * b1 + 0x1_0000 * b2 + 0x100 * b3 + lenbuf[4];
    assert length == N32(stream[1..]);
    if length == 0 {
      return Bad;
    }
    response := r.ReadFull(length);
  }

  datatype Header = Header(requestId: nat, code: nat)

  /** One entry of a header map: the request id and the code are kept, others are skipped. */
  function HeaderEntry(b: seq<Byte>, h: Header): (r: Parsed<Header>)
    ensures r.Got? ==> |r.rest| < |b|
  {
    match ReadInt(b)
    case Bad => Bad
    case Got(key, rest) =>
      if key == KEY_SYNC then
        match ReadUint64(rest)
        case Bad => Bad
        case Got(v, after) => Got(h.(requestId := v % TWO_TO_THE_32), after)
      else if key == KEY_CODE then
        match ReadUint64(rest)
        case Bad => Bad
        case Got(v, after) => Got(h.(code := v % TWO_TO_THE_32), after)
      else
        match Skip(rest)
        case Bad => Bad
        case Got(_, after) => Got(h, after)
  }

  function HeaderEntries(b: seq<Byte>, l: int, h: Header): Parsed<Header>
    decreases |b|
  {
    if l <= 0 then Got(h, b)
    else match HeaderEntry(b, h)
      case Bad => Bad
      case Got(g, rest) => HeaderEntries(rest, l - 1, g)
  }

  lemma Unrolled(b: seq<Byte>, l: int, h: Header, entry: Parsed<Header>)
    requires l > 0 && HeaderEntry(b, h) == entry
    ensures HeaderEntries(b, l, h) == if entry.Got? then HeaderEntries(entry.rest, l - 1, entry.value) else Bad
  {
  }

  lemma NoMoreEntries(b: seq<Byte>, l: int, h: Header)
    requires l <= 0
    ensures HeaderEntries(b, l, h) == Got(h, b)
  {
  }

  function ParseHeader(b: seq<Byte>, h: Header): Parsed<Header> {
    match ReadMapLen(b)
    case Bad => Bad
    case Got(l, rest) => HeaderEntries(rest, l, h)
  }

  class Response {
    const buf: SmallBuf
    var requestId: nat
    var code: nat

    ghost predicate Valid()
      reads this, buf
    {
      buf.Valid()
    }

    ghost function State(): Header
      reads this
    {
      Header(requestId, code)
    }

    constructor (bytes: seq<Byte>)
      ensures Valid() && fresh(buf) && buf.Rest() == bytes && State() == Header(0, 0)
    {
      buf := new SmallBuf(bytes);
      requestId, code := 0, 0;
    }

    /** A small number is read without the decoder, with the same result. */
    method SmallInt() returns (r: Parsed<int>)
      requires Valid()
      modifies buf`p
      ensures Valid() && r == ReadInt(old(buf.Rest()))
      ensures r.Got? ==> buf.Rest() == r.rest
    {
      ghost var bytes := buf.Rest();
      var first := buf.ReadByte();
      if first.Bad? {
        return Bad;
      }
      if first.value <= 127 {
        return Got(first.value, first.rest);
      }
      var _ := buf.UnreadByte();
      assert buf.Rest() == bytes;
      r := buf.DecodeInt();
    }

    /** Reads the header map; the cursor then stands at the body. */
    method DecodeHeader() returns (ok: bool)
      requires Valid()
      modifies this, buf`p
      ensures Valid()
      ensures var h := ParseHeader(old(buf.Rest()), old(State()));
              ok == h.Got? && (ok ==> State() == h.value && buf.Rest() == h.rest)
    {
      var length := buf.DecodeMapLen();
      if length.Bad? {
        return false;
      }
      ok := DecodeEntries(length.value);
    }

    /** The loop of DecodeHeader. */
    method DecodeEntries(count: int) returns (ok: bool)
      requires Valid()
      modifies this, buf`p
      ensures Valid()
      ensures HeaderEntries(old(buf.Rest()), count, old(State())) == if ok then Got(State(), buf.Rest()) else Bad
    {
      hide HeaderEntries, HeaderEntry;
      ghost var h := HeaderEntries(buf.Rest(), count, State());
      var l := count;
      while l > 0
        invariant Valid() && HeaderEntries(buf.Rest(), l, State()) == h
      {
        ok := DecodeEntry(l);
        if !ok {
          return false;
        }
        l := l - 1;
      }
      NoMoreEntries(buf.Rest(), l, State());
      ok := true;
    }

    /** The loop body of DecodeHeader. */
    method DecodeEntry(ghost l: int) returns (ok: bool)
      requires Valid() && l > 0
      modifies this, buf`p
      ensures Valid()
      ensures HeaderEntries(old(buf.Rest()), l, old(State())) ==
                if ok then HeaderEntries(buf.Rest(), l - 1, State()) else Bad
    {
      var key := SmallInt();
      if key.Bad? {
        return false;
      }
      if key.value == KEY_SYNC {
        var rid := buf.DecodeUint64();
        if rid.Bad? {
          return false;
        }
        requestId := rid.value % TWO_TO_THE_32;
      } else if key.value == KEY_CODE {
        var rcode := buf.DecodeUint64();
        if rcode.Bad? {
          return false;
        }
        code := rcode.value % TWO_TO_THE_32;
      } else {
        var skipped := buf.SkipValue();
        if skipped.Bad? {
          return false;
        }
      }
      ok := true;
    }
  }

  // ----- what is written is what is read -----

  lemma PayloadLength(r: Request)
    requires Wide(r)
    ensures |Payload(r)| >= 9 && |Frame(r)| == 5 + |Payload(r)|
  {
  }

  /** A length and that many bytes, or not. */
  lemma LengthReads(l: nat, payload: seq<Byte>, rest: seq<Byte>)
    requires 0 < l < TWO_TO_THE_32 || (l == 0 && |payload| > 0)
    ensures ReadFrame([0xce] + U32(l) + payload + rest) == Got(payload, rest) <==> |payload| == l
  {
    var stream := [0xce] + U32(l) + payload + rest;
    Tail(U32(l), payload, rest);
    assert stream[1..] == U32(l) + (payload + rest);
    assert stream[5..] == payload + rest;
    ReadU32(l, payload + rest);
    if |payload| == l {
      assert (payload + rest)[..l] == payload && (payload + rest)[l..] == rest;
    }
  }

  lemma Tail(a: seq<Byte>, b: seq<Byte>, c: seq<Byte>)
    ensures [0xce] + a + b + c == [0xce] + (a + (b + c))
  {
  }

  /** A frame is read back whole exactly if its length fits 32 bits. */
  lemma FrameReads(r: Request, rest: seq<Byte>)
    requires Wide(r)
    ensures ReadFrame(Frame(r) + rest) == Got(Payload(r), rest) <==> |Payload(r)| < TWO_TO_THE_32
  {
    PayloadLength(r);
    LengthReads(|Payload(r)| % TWO_TO_THE_32, Payload(r), rest);
  }

  /** A body of 2^32 bytes: its frame says that it is as long as its header alone. */
  lemma LongFrameIsMisread()
    ensures var r := Request(0, 0, IGNORE_STREAM_ID, seq(TWO_TO_THE_32, _ => 0), false);
            ReadFrame(Frame(r) + []) != Got(Payload(r), [])
  {
    FrameReads(Request(0, 0, IGNORE_STREAM_ID, seq(TWO_TO_THE_32, _ => 0), false), []);
  }

  /** A stream id is skipped. */
  lemma StreamRead(id: nat, rest: seq<Byte>, h: Header)
    requires id != IGNORE_STREAM_ID && id < TWO_TO_THE_64
    ensures HeaderEntry(StreamBytes(id) + rest, h) == Got(h, rest)
  {
    var value := if id < TWO_TO_THE_32 then [0xce] + U32(id) else [0xcf] + U64(id);
    assert StreamBytes(id) + rest == [KEY_STREAM_ID] + (value + rest);
    IntFromFixint(KEY_STREAM_ID, value + rest);
    if id < TWO_TO_THE_32 {
      SkipU32(id, rest);
    } else {
      SkipU64(id, rest);
    }
  }

  lemma SyncRead(id: nat, rest: seq<Byte>, h: Header)
    requires id < TWO_TO_THE_32
    ensures HeaderEntry([KEY_SYNC, 0xce] + U32(id) + rest, h) == Got(h.(requestId := id), rest)
  {
    assert [KEY_SYNC, 0xce] + U32(id) + rest == [KEY_SYNC] + ([0xce] + U32(id) + rest);
    IntFromFixint(KEY_SYNC, [0xce] + U32(id) + rest);
    IntFromU32(id, rest);
  }

  /** The codes of one byte in MessagePack: 0 to 127, and -32 to -1 as unsigned words. */
  predicate Fixint(code: nat) {
    code < 0x80 || TWO_TO_THE_32 - 0x20 <= code < TWO_TO_THE_32
  }

  lemma FixintRead(code: nat, rest: seq<Byte>)
    requires Fixint(code)
    ensures ReadUint64([code % 256] + rest).Got?
    ensures ReadUint64([code % 256] + rest).value % TWO_TO_THE_32 == code
    ensures ReadUint64([code % 256] + rest).rest == rest
  {
    assert ([code % 256] + rest)[1..] == rest;
  }

  /** The key of the code and what the decoder makes of what follows. */
  lemma CodeEntry(rest: seq<Byte>, h: Header)
    ensures HeaderEntry([KEY_CODE] + rest, h) ==
              match ReadUint64(rest)
              case Bad => Bad
              case Got(v, after) => Got(h.(code := v % TWO_TO_THE_32), after)
  {
    IntFromFixint(KEY_CODE, rest);
  }

  lemma CodeRead(code: nat, rest: seq<Byte>, h: Header)
    requires Fixint(code)
    ensures HeaderEntry([KEY_CODE, code % 256] + rest, h) == Got(h.(code := code), rest)
  {
    hide HeaderEntry, ReadUint64;
    assert [KEY_CODE, code % 256] + rest == [KEY_CODE] + ([code % 256] + rest);
    CodeEntry([code % 256] + rest, h);
    FixintRead(code, rest);
  }

  lemma StreamEntry(streamId: nat, body: seq<Byte>, h: Header)
    requires streamId < TWO_TO_THE_64
    ensures HeaderEntries(StreamBytes(streamId) + body, if streamId == IGNORE_STREAM_ID then 0 else 1, h) == Got(h, body)
  {
    if streamId == IGNORE_STREAM_ID {
      assert StreamBytes(streamId) + body == body;
    } else {
      StreamRead(streamId, body, h);
      Unrolled(StreamBytes(streamId) + body, 1, h, Got(h, body));
    }
  }

  /** The header of a payload is read back, for every 64-bit stream id, and the body is left. */
  lemma HeaderReads(r: Request, h: Header)
    requires Wide(r) && Fixint(r.code)
    ensures ParseHeader(Payload(r), h) == Got(Header(r.id, r.code), r.body)
  {
    var count := if r.streamId == IGNORE_STREAM_ID then 2 else 3;
    var stream := StreamBytes(r.streamId) + r.body;
    var sync := [KEY_SYNC, 0xce] + U32(r.id) + stream;
    var entries := [KEY_CODE, r.code % 256] + sync;
    PayloadIs(r, count, entries);
    CodeRead(r.code, sync, h);
    Unrolled(entries, count, h, Got(h.(code := r.code), sync));
    SyncRead(r.id, stream, h.(code := r.code));
    Unrolled(sync, count - 1, h.(code := r.code), Got(Header(r.id, r.code), stream));
    StreamEntry(r.streamId, r.body, Header(r.id, r.code));
  }

  lemma PayloadIs(r: Request, count: nat, entries: seq<Byte>)
    requires Wide(r)
    requires count == if r.streamId == IGNORE_STREAM_ID then 2 else 3
    requires entries == [KEY_CODE, r.code % 256] + ([KEY_SYNC, 0xce] + U32(r.id) + (StreamBytes(r.streamId) + r.body))
    ensures ReadMapLen(Payload(r)) == Got(count, entries)
  {
    assert Payload(r) == [0x80 + count] + entries;
    assert Payload(r)[1..] == entries;
  }

  // ----- which codes survive -----

  /** What a peer reads from a request without stream and body. */
  function Probed(code: nat): Parsed<Header> {
    ParseHeader(Payload(Request(2, code, IGNORE_STREAM_ID, [], false)), Header(0, 0))
  }

  /** What follows the code in that request. */
  const SYNC_OF_TWO: seq<Byte> := [KEY_SYNC, 0xce, 0, 0, 0, 2]

  lemma SyncOfTwo(h: Header)
    ensures HeaderEntries(SYNC_OF_TWO, 1, h) == Got(h.(requestId := 2), [])
  {
    hide HeaderEntry;
    assert [KEY_SYNC, 0xce] + U32(2) + [] == SYNC_OF_TWO;
    SyncRead(2, [], h);
    Unrolled(SYNC_OF_TWO, 1, h, Got(h.(requestId := 2), []));
  }

  /** The first byte of the code is read as one byte, and the id behind it as it was written. */
  lemma ReadAsOne(c: Byte, v: nat, h: Header)
    requires ReadUint64([c] + SYNC_OF_TWO) == Got(v, SYNC_OF_TWO)
    ensures HeaderEntries([KEY_CODE] + ([c] + SYNC_OF_TWO), 2, h) == Got(Header(2, v % TWO_TO_THE_32), [])
  {
    hide HeaderEntry, ReadUint64, HeaderEntries;
    var g := h.(code := v % TWO_TO_THE_32);
    CodeEntry([c] + SYNC_OF_TWO, h);
    Unrolled([KEY_CODE] + ([c] + SYNC_OF_TWO), 2, h, Got(g, SYNC_OF_TWO));
    SyncOfTwo(g);
  }

  /** It is read as the head of a longer number, which takes in what follows. */
  lemma LongerNumber(c: Byte)
    requires 0xcc <= c <= 0xd3
    ensures var r := ReadUint64([c] + SYNC_OF_TWO);
            if c == 0xcf || c == 0xd3 then r == Bad
            else r.Got? && r.rest == if c == 0xcc || c == 0xd0 then [0xce, 0, 0, 0, 2]
                                     else if c == 0xcd || c == 0xd1 then [0, 0, 0, 2] else [0, 2]
  {
    assert [c] + SYNC_OF_TWO == [c, KEY_SYNC, 0xce, 0, 0, 0, 2];
  }

  /** Then the second entry is not the id. */
  lemma SecondEntry(b: seq<Byte>, h: Header)
    requires b == [0xce, 0, 0, 0, 2] || b == [0, 0, 0, 2] || b == [0, 2]
    ensures HeaderEntry(b, h).Got? ==> HeaderEntry(b, h).value.requestId == h.requestId
  {
    if b == [0xce, 0, 0, 0, 2] {
      assert [0xce] + U32(2) + [] == b;
      IntFromU32(2, []);
    } else {
      assert b == [KEY_CODE] + b[1..];
      CodeEntry(b[1..], h);
    }
  }

  lemma ReadAsMore(c: Byte, h: Header)
    requires 0xcc <= c <= 0xd3 && h.requestId == 0
    ensures HeaderEntries([KEY_CODE] + ([c] + SYNC_OF_TWO), 2, h).Got? ==>
              HeaderEntries([KEY_CODE] + ([c] + SYNC_OF_TWO), 2, h).value.requestId == 0
  {
    hide HeaderEntry, ReadUint64, HeaderEntries;
    var b := [c] + SYNC_OF_TWO;
    LongerNumber(c);
    CodeEntry(b, h);
    var first := HeaderEntry([KEY_CODE] + b, h);
    Unrolled([KEY_CODE] + b, 2, h, first);
    if first.Got? {
      SecondEntry(first.rest, first.value);
      var second := HeaderEntry(first.rest, first.value);
      Unrolled(first.rest, 1, first.value, second);
      if second.Got? {
        NoMoreEntries(second.rest, 0, second.value);
      }
    }
  }

  lemma ReadAsNothing(c: Byte, h: Header)
    requires 0x80 <= c < 0xe0 && c != 0xc0 && !(0xcc <= c <= 0xd3)
    ensures HeaderEntries([KEY_CODE] + ([c] + SYNC_OF_TWO), 2, h) == Bad
  {
    CodeEntry([c] + SYNC_OF_TWO, h);
    Unrolled([KEY_CODE] + ([c] + SYNC_OF_TWO), 2, h, Bad);
  }

  /** The number of a code of one byte. */
  function OfOneByte(c: Byte): nat {
    if c < 0x80 then c else if c == 0xc0 then 0 else TWO_TO_THE_64 - 0x100 + c
  }

  lemma OneByte(c: Byte)
    requires c < 0x80 || c >= 0xe0 || c == 0xc0
    ensures ReadUint64([c] + SYNC_OF_TWO) == Got(OfOneByte(c), SYNC_OF_TWO)
  {
    assert ([c] + SYNC_OF_TWO)[1..] == SYNC_OF_TWO;
  }

  lemma ProbedIs(code: nat)
    requires code < TWO_TO_THE_32
    ensures Probed(code) == HeaderEntries([KEY_CODE] + ([code % 256] + SYNC_OF_TWO), 2, Header(0, 0))
  {
    hide HeaderEntries;
    var entries := [KEY_CODE] + ([code % 256] + SYNC_OF_TWO);
    assert [KEY_CODE, code % 256] + ([KEY_SYNC, 0xce] + U32(2) + ([] + [])) == entries;
    PayloadIs(Request(2, code, IGNORE_STREAM_ID, [], false), 2, entries);
  }

  /** The request with the id 2 is misread for every other code. */
  lemma OthersAreMisread(code: nat)
    requires code < TWO_TO_THE_32 && !Fixint(code)
    ensures Probed(code) != Got(Header(2, code), [])
  {
    hide HeaderEntries, HeaderEntry, ReadUint64, Probed;
    var c: Byte := code % 256;
    ProbedIs(code);
    if 0xcc <= c <= 0xd3 {
      ReadAsMore(c, Header(0, 0));
    } else if 0x80 <= c < 0xe0 && c != 0xc0 {
      ReadAsNothing(c, Header(0, 0));
    } else {
      OneByte(c);
      ReadAsOne(c, OfOneByte(c), Header(0, 0));
    }
  }

  /** A request with this code is read back, with its body left. */
  ghost predicate Survives(code: nat, id: nat, streamId: nat, body: seq<Byte>) {
    id < TWO_TO_THE_32 && streamId < TWO_TO_THE_64 ==>
      ParseHeader(Payload(Request(id, code, streamId, body, false)), Header(0, 0)) == Got(Header(id, code), body)
  }

  /** A code survives in every request exactly if it is one byte of MessagePack. */
  lemma CodesSurviveExactly(code: nat)
    requires code < TWO_TO_THE_32
    ensures Fixint(code) <==>
              forall id: nat, streamId: nat, body: seq<Byte> :: Survives(code, id, streamId, body)
  {
    if Fixint(code) {
      forall id: nat, streamId: nat, body: seq<Byte> ensures Survives(code, id, streamId, body) {
        if id < TWO_TO_THE_32 && streamId < TWO_TO_THE_64 {
          HeaderReads(Request(id, code, streamId, body, false), Header(0, 0));
        }
      }
    } else {
      OthersAreMisread(code);
      assert !Survives(code, 2, IGNORE_STREAM_ID, []);
    }
  }

  // ----- what the peer of a request reads -----

  /** Pairs of a key and an unsigned number, as a reader that knows every key takes them off. */
  function ReadPairs(b: seq<Byte>, n: int): Parsed<seq<(int, nat)>>
    decreases |b|
  {
    if n <= 0 then Got([], b)
    else match ReadInt(b)
      case Bad => Bad
      case Got(key, rest) =>
        match ReadUint64(rest)
        case Bad => Bad
        case Got(v, after) =>
          match ReadPairs(after, n - 1)
          case Bad => Bad
          case Got(pairs, end) => Got([(key, v)] + pairs, end)
  }

  function ReadHeaderMap(b: seq<Byte>): Parsed<seq<(int, nat)>> {
    match ReadMapLen(b)
    case Bad => Bad
    case Got(n, rest) => ReadPairs(rest, n)
  }

  /** A code of one byte as the unsigned number that byte stands for. */
  function OnWire(code: nat): nat
    requires Fixint(code)
  {
    if code < 0x80 then code else TWO_TO_THE_64 - TWO_TO_THE_32 + code
  }

  lemma OnePair(key: nat, value: seq<Byte>, v: nat, after: seq<Byte>, n: nat, pairs: seq<(int, nat)>, end: seq<Byte>)
    requires key < 0x80 && n > 0 && ReadUint64(value + after) == Got(v, after) && ReadPairs(after, n - 1) == Got(pairs, end)
    ensures ReadPairs([key] + (value + after), n) == Got([(key, v)] + pairs, end)
  {
    IntFromFixint(key, value + after);
  }

  lemma StreamPair(streamId: nat, body: seq<Byte>)
    requires streamId < TWO_TO_THE_64
    ensures ReadPairs(StreamBytes(streamId) + body, if streamId == 0 then 0 else 1) ==
              Got(if streamId == 0 then [] else [(0x0a, streamId)], body)
  {
    if streamId == 0 {
      assert StreamBytes(streamId) + body == body;
    } else {
      var value := if streamId < TWO_TO_THE_32 then [0xce] + U32(streamId) else [0xcf] + U64(streamId);
      assert StreamBytes(streamId) + body == [KEY_STREAM_ID] + (value + body);
      if streamId < TWO_TO_THE_32 {
        IntFromU32(streamId, body);
      } else {
        Uint64FromU64(streamId, body);
      }
      var none: seq<(int, nat)> := [];
      assert ReadPairs(body, 0) == Got(none, body);
      OnePair(KEY_STREAM_ID, value, streamId, body, 1, none, body);
      assert [(0x0a, streamId)] + none == [(0x0a, streamId)];
    }
  }

  /** The header map of a request: its code, its id, and its stream id unless that is 0; then the body. */
  lemma HeaderMapIs(r: Request)
    requires Wide(r) && Fixint(r.code)
    ensures ReadHeaderMap(Payload(r)) ==
              Got([(0x00, OnWire(r.code)), (0x01, r.id)] + (if r.streamId == 0 then [] else [(0x0a, r.streamId)]), r.body)
  {
    hide ReadPairs, ReadUint64, StreamBytes;
    var count := if r.streamId == IGNORE_STREAM_ID then 2 else 3;
    var stream := StreamBytes(r.streamId) + r.body;
    var last: seq<(int, nat)> := if r.streamId == 0 then [] else [(0x0a, r.streamId)];
    StreamPair(r.streamId, r.body);
    IdRead(r.id, stream);
    assert [KEY_SYNC, 0xce] + U32(r.id) + stream == [KEY_SYNC] + ([0xce] + U32(r.id) + stream);
    OnePair(KEY_SYNC, [0xce] + U32(r.id), r.id, stream, count - 1, last, r.body);
    var sync := [KEY_SYNC, 0xce] + U32(r.id) + stream;
    OnWireRead(r.code, sync);
    assert [KEY_CODE, r.code % 256] + sync == [KEY_CODE] + ([r.code % 256] + sync);
    OnePair(KEY_CODE, [r.code % 256], OnWire(r.code), sync, count, [(KEY_SYNC, r.id)] + last, r.body);
    PayloadIs(r, count, [KEY_CODE, r.code % 256] + sync);
    TwoAndLast((0x00, OnWire(r.code)), (0x01, r.id), last);
  }

  lemma TwoAndLast(a: (int, nat), b: (int, nat), last: seq<(int, nat)>)
    ensures [a] + ([b] + last) == [a, b] + last
  {
  }

  lemma IdRead(id: nat, rest: seq<Byte>)
    requires id < TWO_TO_THE_32
    ensures ReadUint64([0xce] + U32(id) + rest) == Got(id, rest)
  {
    IntFromU32(id, rest);
  }

  lemma OnWireRead(code: nat, rest: seq<Byte>)
    requires Fixint(code)
    ensures ReadUint64([code % 256] + rest) == Got(OnWire(code), rest)
  {
    assert ([code % 256] + rest)[1..] == rest;
  }

  /** The value of the last pair with the key, or 0. */
  function Field(pairs: seq<(int, nat)>, key: int): nat {
    if pairs == [] then 0
    else if pairs[|pairs| - 1].0 == key then pairs[|pairs| - 1].1
    else Field(pairs[..|pairs| - 1], key)
  }

  lemma PingPayload()
    ensures Payload(Request(2, 0x40, 0, [0x80], false)) == [0x82, 0x00, 0x40, 0x01, 0xce, 0, 0, 0, 2, 0x80]
    ensures Payload(Request(2, 0x40, 5, [0x80], false)) ==
              [0x83, 0x00, 0x40, 0x01, 0xce, 0, 0, 0, 2, 0x0a, 0xce, 0, 0, 0, 5, 0x80]
  {
    hide U32;
    SmallWord(2);
    SmallWord(5);
  }

  lemma SmallWord(v: nat)
    requires v < 256
    ensures U32(v) == [0, 0, 0, v]
  {
  }

  /** A ping with the id 2, and one in the stream 5, byte by byte. */
  lemma PingIs()
    ensures Frame(Request(2, 0x40, 0, [0x80], false)) ==
              [0xce, 0, 0, 0, 10, 0x82, 0x00, 0x40, 0x01, 0xce, 0, 0, 0, 2, 0x80]
    ensures Frame(Request(2, 0x40, 5, [0x80], false)) ==
              [0xce, 0, 0, 0, 16, 0x83, 0x00, 0x40, 0x01, 0xce, 0, 0, 0, 2, 0x0a, 0xce, 0, 0, 0, 5, 0x80]
  {
    hide Payload, U32;
    PingPayload();
    SmallWord(10);
    SmallWord(16);
  }

  // ----- sequences of requests -----

  /** What a peer makes of a frame: the header and the body. */
  datatype Message = Message(id: nat, code: nat, stream: nat, body: seq<Byte>)

  function MessageOf(pairs: seq<(int, nat)>, body: seq<Byte>): Message {
    Message(Field(pairs, 0x01), Field(pairs, 0x00) % TWO_TO_THE_32, Field(pairs, 0x0a), body)
  }

  lemma MessageIs(r: Request)
    requires Wide(r) && Fixint(r.code)
    ensures ReadHeaderMap(Payload(r)).Got?
    ensures var h := ReadHeaderMap(Payload(r)); MessageOf(h.value, h.rest) == Message(r.id, r.code, r.streamId, r.body)
  {
    hide ReadHeaderMap;
    HeaderMapIs(r);
    var code, id, stream := (0x00, OnWire(r.code)), (0x01, r.id), (0x0a, r.streamId);
    var none: seq<(int, nat)> := [];
    FieldOfLast(none, code);
    FieldOfLast([code], id);
    FieldOfLast([code, id], stream);
    assert none + [code] == [code] && [code] + [id] == [code, id] && [code, id] + none == [code, id];
  }

  lemma FieldOfLast(pairs: seq<(int, nat)>, last: (int, nat))
    ensures forall key :: Field(pairs + [last], key) == if last.0 == key then last.1 else Field(pairs, key)
  {
    assert (pairs + [last])[..|pairs|] == pairs;
  }

  ghost predicate Sendable(r: Request) {
    Wide(r) && Fixint(r.code) && |Payload(r)| < TWO_TO_THE_32
  }

  /** What a request leaves in the buffer. */
  function Effect(r: Request): seq<Byte>
    requires Wide(r)
  {
    if r.fails then [] else Frame(r)
  }

  /** The buffer after a sequence of requests. */
  ghost function Buffered(rs: seq<Request>): seq<Byte>
    requires forall r :: r in rs ==> Wide(r)
  {
    if rs == [] then [] else Effect(rs[0]) + Buffered(rs[1..])
  }

  /** The messages of the requests that did not fail, in order. */
  ghost function Sent(rs: seq<Request>): seq<Message> {
    if rs == [] then []
    else (if rs[0].fails then [] else [Message(rs[0].id, rs[0].code, rs[0].streamId, rs[0].body)]) + Sent(rs[1..])
  }

  /** Frames and headers are read off a stream until one cannot be. */
  function Received(stream: seq<Byte>): seq<Message>
    decreases |stream|
  {
    match ReadFrame(stream)
    case Bad => []
    case Got(response, rest) =>
      match ReadHeaderMap(response)
      case Bad => []
      case Got(pairs, body) => [MessageOf(pairs, body)] + Received(rest)
  }

  /** PutRequest keeps the buffer the concatenation of the frames. */
  lemma {:induction false} BufferedAppend(rs: seq<Request>, r: Request)
    requires Wide(r) && forall q :: q in rs ==> Wide(q)
    ensures forall q :: q in rs + [r] ==> Wide(q)
    ensures Buffered(rs + [r]) == Buffered(rs) + Effect(r)
  {
    if rs == [] {
      assert rs + [r] == [r] && [r][1..] == [];
    } else {
      assert (rs + [r])[1..] == rs[1..] + [r];
      BufferedAppend(rs[1..], r);
      Associate(Effect(rs[0]), Buffered(rs[1..]), Effect(r));
    }
  }

  /** A peer receives exactly the requests that were packed, whatever bodies failed in between. */
  lemma {:induction false} FramingRoundTrip(rs: seq<Request>)
    requires forall r :: r in rs ==> Wide(r) && (!r.fails ==> Sendable(r))
    ensures Received(Buffered(rs)) == Sent(rs)
  {
    if rs != [] {
      var r := rs[0];
      assert !r.fails ==> Sendable(r);
      FramingRoundTrip(rs[1..]);
      if r.fails {
        assert Buffered(rs) == Buffered(rs[1..]);
      } else {
        FrameReads(r, Buffered(rs[1..]));
        MessageIs(r);
      }
    } else {
      assert ReadFrame([]) == Bad;
    }
  }

  /** A frame cut short is not read; a whole one is, whatever follows. */
  lemma FrameOfPrefix(stream: seq<Byte>, k: nat)
    requires k <= |stream|
    ensures var whole, part := ReadFrame(stream), ReadFrame(stream[..k]);
            part.Got? ==> whole.Got? && whole.value == part.value &&
                          part.rest == whole.rest[..|part.rest|] && |part.rest| <= |whole.rest|
  {
    var prefix := stream[..k];
    if ReadFrame(prefix).Got? {
      assert prefix[1..] == stream[1..][..k - 1];
      assert N32(prefix[1..]) == N32(stream[1..]);
      assert prefix[5..] == stream[5..][..k - 5];
      var length := N32(stream[1..]);
      assert prefix[5..][..length] == stream[5..][..length];
      assert prefix[5..][length..] == stream[5..][length..][..k - 5 - length];
    }
  }

  /** When only a part of the stream has arrived, a part of the messages is received. */
  lemma {:induction false} PrefixReceivesPrefix(stream: seq<Byte>, k: nat)
    requires k <= |stream|
    ensures Received(stream[..k]) <= Received(stream)
    decreases |stream|
  {
    var whole, part := ReadFrame(stream), ReadFrame(stream[..k]);
    FrameOfPrefix(stream, k);
    if part.Got? {
      PrefixReceivesPrefix(whole.rest, |part.rest|);
    }
  }
}
