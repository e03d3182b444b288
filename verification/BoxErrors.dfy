/**
 Box errors (box_error.go): errors linked by Prev, their depth, and the two conversions between a
 chain of errors and its bytes, proved against the format in module BoxErrorFormat.
 */
module BoxErrors {
  import opened Common
  import opened BoxErrorFormat
  import opened Buffers
  import opened MsgPack

  class BoxError {
    var typ: Text
    var file: Text
    var line: nat
    var msg: Text
    var errno: nat
    var code: nat
    var fields: Option<Fields>
    var prev: BoxError?

    ghost function State(): Entry
      reads this
    {
      Entry(typ, file, line, msg, errno, code, fields)
    }

    /** The zero value. */
    constructor ()
      ensures State() == BLANK && prev == null
    {
      typ, file, line, msg, errno, code, fields, prev := [], [], 0, [], 0, 0, None, null;
    }
  }

  /** The errors reached from head by Prev are exactly the nodes, in order. */
  ghost predicate Chain(head: BoxError?, nodes: seq<BoxError>)
    reads nodes
  {
    if nodes == [] then head == null else head == nodes[0] && Chain(nodes[0].prev, nodes[1..])
  }

  ghost function States(nodes: seq<BoxError>): (es: seq<Entry>)
    reads nodes
    ensures |es| == |nodes|
  {
    if nodes == [] then [] else [nodes[0].State()] + States(nodes[1..])
  }

  /** Depth counts the errors of the chain. */
  method Depth(e: BoxError?, ghost nodes: seq<BoxError>) returns (depth: nat)
    requires Chain(e, nodes)
    ensures depth == |nodes|
  {
    depth := 0;
    var cur := e;
    while cur != null
      invariant depth <= |nodes| && Chain(cur, nodes[depth..])
      decreases |nodes| - depth
    {
      assert nodes[depth..][1..] == nodes[depth + 1..];
      cur := cur.prev;
      depth := depth + 1;
    }
  }

  // ----- encoding -----

  /** What the encoder can write: sizes in 32 bits, numbers in 64, values that are values. */
  ghost predicate Encodable(e: Entry) {
    && WithinSizes(e)
    && (e.fields.Some? ==> |e.fields.value| < TWO_TO_THE_32 && forall k :: k in e.fields.value ==> GoodPair((k, e.fields.value[k])))
  }

  lemma {:induction false} PairsAppend(pairs: Pairs, p: (Text, seq<Byte>))
    requires GoodPair(p) && forall i :: 0 <= i < |pairs| ==> GoodPair(pairs[i])
    ensures forall i :: 0 <= i < |pairs + [p]| ==> GoodPair((pairs + [p])[i])
    ensures PairsBytes(pairs + [p]) == PairsBytes(pairs) + StringBytes(p.0) + p.1
    decreases |pairs|
  {
    if pairs == [] {
      assert pairs + [p] == [p] && [p][1..] == [];
      assert PairsBytes([p]) == StringBytes(p.0) + p.1 + [];
    } else {
      assert (pairs + [p])[1..] == pairs[1..] + [p];
      PairsAppend(pairs[1..], p);
      var first := StringBytes(pairs[0].0) + pairs[0].1;
      Associate(first, PairsBytes(pairs[1..]), StringBytes(p.0));
      Associate(first, PairsBytes(pairs[1..]) + StringBytes(p.0), p.1);
    }
  }

  lemma {:induction false} AddedAppend(m: Fields, pairs: Pairs, p: (Text, seq<Byte>))
    ensures Added(m, pairs + [p]) == Added(m, pairs)[p.0 := p.1]
    decreases |pairs|
  {
    if pairs == [] {
      assert pairs + [p] == [p] && [p][1..] == [];
    } else {
      assert (pairs + [p])[1..] == pairs[1..] + [p];
      AddedAppend(m[pairs[0].0 := pairs[0].1], pairs[1..], p);
    }
  }

  /** One more pair behind those that are written. */
  lemma PairWritten(start: seq<Byte>, pairs: Pairs, key: Text, value: seq<Byte>)
    requires GoodPair((key, value)) && forall i :: 0 <= i < |pairs| ==> GoodPair(pairs[i])
    ensures var more := pairs + [(key, value)];
            && (forall i :: 0 <= i < |more| ==> GoodPair(more[i]))
            && start + PairsBytes(pairs) + StringBytes(key) + value == start + PairsBytes(more)
            && Added(map[], more) == Added(map[], pairs)[key := value]
  {
    AddedAppend(map[], pairs, (key, value));
    PairsAppend(pairs, (key, value));
    Associate(start, PairsBytes(pairs), StringBytes(key));
    Associate(start, PairsBytes(pairs) + StringBytes(key), value);
  }

  /** The loop over the fields, in any order. */
  method EncodePairs(h: SmallWBuf, fields: Fields) returns (ghost pairs: Pairs)
    requires forall k :: k in fields ==> GoodPair((k, fields[k]))
    modifies h`b, h`cap
    ensures forall i :: 0 <= i < |pairs| ==> GoodPair(pairs[i])
    ensures Added(map[], pairs) == fields && |pairs| == |fields|
    ensures h.b == old(h.b) + PairsBytes(pairs)
  {
    ghost var start := h.b;
    pairs := [];
    var keys := fields.Keys;
    while keys != {}
      invariant keys <= fields.Keys && |pairs| + |keys| == |fields|
      invariant forall i :: 0 <= i < |pairs| ==> GoodPair(pairs[i])
      invariant Added(map[], pairs) == fields - keys
      invariant h.b == start + PairsBytes(pairs)
      decreases keys
    {
      var k :| k in keys;
      var v := fields[k];
      assert GoodPair((k, v));
      PairWritten(start, pairs, k, v);
      h.Write(StringBytes(k));
      h.Write(v);
      OneKeyLess(fields, keys, k);
      keys := keys - {k};
      pairs := pairs + [(k, v)];
    }
    assert fields - {} == fields;
  }

  lemma OneKeyLess(fields: Fields, keys: set<Text>, k: Text)
    requires k in keys && keys <= fields.Keys
    ensures (fields - keys)[k := fields[k]] == fields - (keys - {k})
  {
  }

  method EncodeFields(h: SmallWBuf, fields: Fields) returns (ghost pairs: Pairs)
    requires |fields| < TWO_TO_THE_32 && forall k :: k in fields ==> GoodPair((k, fields[k]))
    modifies h`b, h`cap
    ensures GoodPairs(pairs) && Added(map[], pairs) == fields && |pairs| == |fields|
    ensures h.b == old(h.b) + FieldsBytes(pairs)
  {
    ghost var before := h.b;
    h.Write([KEY_ERROR_FIELDS]);
    h.Write(MapLenBytes(|fields|));
    pairs := EncodePairs(h, fields);
    Headed(before, [KEY_ERROR_FIELDS], MapLenBytes(|fields|), PairsBytes(pairs));
  }

  lemma Headed(a: seq<Byte>, b: seq<Byte>, c: seq<Byte>, d: seq<Byte>)
    ensures a + b + c + d == a + (b + (c + d))
  {
  }

  /** The buffer holds the given items behind what it held before. */
  ghost predicate Holds(b: seq<Byte>, start: seq<Byte>, items: seq<Item>) {
    (forall i :: i in items ==> GoodItem(i)) && b == start + ItemsBytes(items)
  }

  /** One more item behind those that are written. */
  lemma Written(b: seq<Byte>, start: seq<Byte>, items: seq<Item>, i: Item)
    requires Holds(b, start, items) && GoodItem(i)
    ensures Holds(b + ItemBytes(i), start, items + [i])
  {
    ItemsAppend(items, i);
    Associate(start, ItemsBytes(items), ItemBytes(i));
  }

  method WriteText(h: SmallWBuf, key: Byte, s: Text, ghost start: seq<Byte>, ghost items: seq<Item>, ghost i: Item)
    requires Holds(h.b, start, items) && Fits(s)
    requires GoodItem(i) && ItemBytes(i) == TextBytes(key, s)
    modifies h`b, h`cap
    ensures Holds(h.b, start, items + [i])
  {
    Written(h.b, start, items, i);
    Associate(h.b, [key], StringBytes(s));
    h.Write([key]);
    h.Write(StringBytes(s));
  }

  method WriteNumber(h: SmallWBuf, key: Byte, n: nat, ghost start: seq<Byte>, ghost items: seq<Item>, ghost i: Item)
    requires Holds(h.b, start, items) && n < TWO_TO_THE_64
    requires GoodItem(i) && ItemBytes(i) == NumberBytes(key, n)
    modifies h`b, h`cap
    ensures Holds(h.b, start, items + [i])
  {
    Written(h.b, start, items, i);
    Associate(h.b, [key], [0xcf] + U64(n));
    h.Write([key]);
    h.Write([0xcf] + U64(n));
  }

  /** One error: a map of six or seven keys. */
  method EncodeError(h: SmallWBuf, e: BoxError) returns (ghost pairs: Pairs)
    requires Encodable(e.State())
    modifies h`b, h`cap
    ensures Lists(pairs, e.State())
    ensures h.b == old(h.b) + ErrorBytes(e.State(), pairs)
  {
    ghost var before, state := h.b, e.State();
    var hasFields := e.fields.Some? && |e.fields.value| > 0;
    h.Write(MapLenBytes(if hasFields then 7 else 6));
    ghost var start := h.b;
    EncodeAttributes(h, e);
    pairs := [];
    ghost var items := SixItems(state);
    if hasFields {
      pairs := EncodeFields(h, e.fields.value);
      Written(start + ItemsBytes(items), start, items, FieldsAre(pairs));
      items := items + [FieldsAre(pairs)];
    }
    assert items == ItemsOf(state, pairs);
    Associate(before, MapLenBytes(if hasFields then 7 else 6), ItemsBytes(items));
  }

  ghost function SixItems(e: Entry): seq<Item> {
    [TypeIs(e.typ), FileIs(e.file), LineIs(e.line), MsgIs(e.msg), ErrnoIs(e.errno), CodeIs(e.code)]
  }

  /** The six keys that every error has. */
  method EncodeAttributes(h: SmallWBuf, e: BoxError)
    requires WithinSizes(e.State())
    modifies h`b, h`cap
    ensures Holds(h.b, old(h.b), SixItems(e.State()))
  {
    ghost var start := h.b;
    ghost var all := SixItems(e.State());
    WriteText(h, KEY_ERROR_TYPE, e.typ, start, [], TypeIs(e.typ));
    assert [] + [TypeIs(e.typ)] == all[..1];
    WriteText(h, KEY_ERROR_FILE, e.file, start, all[..1], FileIs(e.file));
    assert all[..1] + [FileIs(e.file)] == all[..2];
    WriteNumber(h, KEY_ERROR_LINE, e.line, start, all[..2], LineIs(e.line));
    assert all[..2] + [LineIs(e.line)] == all[..3];
    EncodeOthers(h, e, start);
  }

  method EncodeOthers(h: SmallWBuf, e: BoxError, ghost start: seq<Byte>)
    requires WithinSizes(e.State()) && Holds(h.b, start, SixItems(e.State())[..3])
    modifies h`b, h`cap
    ensures Holds(h.b, start, SixItems(e.State()))
  {
    ghost var all := SixItems(e.State());
    WriteText(h, KEY_ERROR_MESSAGE, e.msg, start, all[..3], MsgIs(e.msg));
    assert all[..3] + [MsgIs(e.msg)] == all[..4];
    WriteNumber(h, KEY_ERROR_ERRNO, e.errno, start, all[..4], ErrnoIs(e.errno));
    assert all[..4] + [ErrnoIs(e.errno)] == all[..5];
    WriteNumber(h, KEY_ERROR_ERRCODE, e.code, start, all[..5], CodeIs(e.code));
    assert all[..5] + [CodeIs(e.code)] == all;
  }

  lemma NodeOf(nodes: seq<BoxError>, k: nat)
    requires k < |nodes|
    ensures nodes[k].State() == States(nodes)[k]
  {
    if k > 0 {
      NodeOf(nodes[1..], k - 1);
    }
  }

  lemma ErrorWritten(start: seq<Byte>, es: seq<Entry>, k: nat, orders: seq<Pairs>, pairs: Pairs)
    requires k < |es| && AllListed(es[..k], orders) && WithinSizes(es[k]) && Lists(pairs, es[k])
    ensures AllListed(es[..k + 1], orders + [pairs])
    ensures start + ErrorsBytes(es[..k], orders) + ErrorBytes(es[k], pairs) == start + ErrorsBytes(es[..k + 1], orders + [pairs])
  {
    assert es[..k + 1] == es[..k] + [es[k]];
    ErrorsAppend(es[..k], orders, es[k], pairs);
    Associate(start, ErrorsBytes(es[..k], orders), ErrorBytes(es[k], pairs));
  }

  /** The loop body: one more error behind those that are written. */
  method EncodeNext(h: SmallWBuf, e: BoxError, ghost start: seq<Byte>, ghost es: seq<Entry>, ghost k: nat, ghost orders: seq<Pairs>)
    returns (ghost more: seq<Pairs>)
    requires k < |es| && e.State() == es[k] && Encodable(es[k])
    requires AllListed(es[..k], orders) && h.b == start + ErrorsBytes(es[..k], orders)
    modifies h`b, h`cap
    ensures AllListed(es[..k + 1], more) && h.b == start + ErrorsBytes(es[..k + 1], more)
  {
    ghost var pairs := EncodeError(h, e);
    ErrorWritten(start, es, k, orders, pairs);
    more := orders + [pairs];
  }

  lemma {:induction false} ChainAt(e: BoxError?, nodes: seq<BoxError>, k: nat)
    requires Chain(e, nodes) && k < |nodes|
    ensures nodes[k].prev == if k + 1 < |nodes| then nodes[k + 1] else null
  {
    if k > 0 {
      ChainAt(nodes[0].prev, nodes[1..], k - 1);
    }
  }

  /** The errors of the chain, from the first on. */
  method EncodeErrors(h: SmallWBuf, e: BoxError, depth: nat, ghost nodes: seq<BoxError>) returns (ghost orders: seq<Pairs>)
    requires Chain(e, nodes) && depth == |nodes| && forall s :: s in States(nodes) ==> Encodable(s)
    modifies h`b, h`cap
    ensures AllListed(States(nodes), orders)
    ensures h.b == old(h.b) + ErrorsBytes(States(nodes), orders)
  {
    ghost var start, es := h.b, States(nodes);
    ghost var k := 0;
    orders := [];
    assert AllListed(es[..0], orders) && ErrorsBytes(es[..0], orders) == [];
    hide Chain, States, Encodable, ErrorsBytes, AllListed;
    var boxError := e;
    var stackDepth := depth;
    while stackDepth > 0
      invariant k + stackDepth == |nodes| && States(nodes) == es && Chain(e, nodes)
      invariant stackDepth > 0 ==> boxError == nodes[k]
      invariant AllListed(es[..k], orders) && h.b == start + ErrorsBytes(es[..k], orders)
    {
      NodeOf(nodes, k);
      ChainAt(e, nodes, k);
      orders := EncodeNext(h, boxError, start, es, k, orders);
      if stackDepth > 1 {
        boxError := boxError.prev;
      }
      stackDepth := stackDepth - 1;
      k := k + 1;
    }
    assert es[..k] == es;
  }

  /** A nil error is refused; otherwise the map with the stack is written. */
  method EncodeBoxError(h: SmallWBuf, e: BoxError?, ghost nodes: seq<BoxError>) returns (ok: bool, ghost orders: seq<Pairs>)
    requires Chain(e, nodes) && |nodes| < TWO_TO_THE_32 && forall s :: s in States(nodes) ==> Encodable(s)
    modifies h`b, h`cap
    ensures ok <==> e != null
    ensures !ok ==> h.b == old(h.b)
    ensures ok ==> AllListed(States(nodes), orders) && h.b == old(h.b) + StackBytes(States(nodes), orders)
  {
    orders := [];
    if e == null {
      return false, [];
    }
    ghost var before := h.b;
    h.Write(MapLenBytes(1));
    h.Write([KEY_ERROR_STACK]);
    var stackDepth := Depth(e, nodes);
    h.Write(ArrayLenBytes(stackDepth));
    orders := EncodeErrors(h, e, stackDepth, nodes);
    Grouped(before, MapLenBytes(1), [KEY_ERROR_STACK], ArrayLenBytes(stackDepth), ErrorsBytes(States(nodes), orders));
    ok := true;
  }

  lemma Grouped(z: seq<Byte>, a: seq<Byte>, b: seq<Byte>, c: seq<Byte>, d: seq<Byte>)
    ensures z + a + b + c + d == z + (a + b + c + d)
  {
  }

  /** The bytes of a chain of errors decode to the same chain, in which empty fields are gone. */
  method MarshalMsgpack(e: BoxError?, ghost nodes: seq<BoxError>) returns (r: Parsed<seq<Byte>>)
    requires Chain(e, nodes) && |nodes| < TWO_TO_THE_32 && forall s :: s in States(nodes) ==> Encodable(s)
    ensures r.Bad? <==> e == null
    ensures r.Got? ==> ReadBoxError(r.value) == Gives(AllNormal(States(nodes)), [])
  {
    var buf := new SmallWBuf();
    ghost var es := States(nodes);
    var ok;
    ghost var orders;
    ok, orders := EncodeBoxError(buf, e, nodes);
    if !ok {
      return Bad;
    }
    StackRoundTrip(es, orders, []);
    assert buf.b == [] + StackBytes(es, orders) == StackBytes(es, orders) + [];
    r := Got(buf.b, []);
  }

  // ----- decoding -----

  /** One field. */
  method DecodePair(buf: SmallBuf, fields: Fields, ghost n: int) returns (ok: bool, more: Fields)
    requires buf.Valid() && n > 0
    modifies buf`p
    ensures buf.Valid()
    ensures ReadFields(old(buf.Rest()), n, fields) == if ok then ReadFields(buf.Rest(), n - 1, more) else Bad
  {
    var mapk := buf.DecodeString();
    if mapk.Bad? {
      return false, fields;
    }
    var mapv := buf.DecodeInterface();
    if mapv.Bad? {
      return false, fields;
    }
    return true, fields[mapk.value := mapv.value];
  }

  /** The loop over the fields, which are read into a new map. */
  method DecodePairs(buf: SmallBuf, count: int) returns (ok: bool, fields: Fields)
    requires buf.Valid()
    modifies buf`p
    ensures buf.Valid()
    ensures ReadFields(old(buf.Rest()), count, map[]) == if ok then Got(fields, buf.Rest()) else Bad
  {
    hide ReadString, ReadValue;
    ghost var result := ReadFields(buf.Rest(), count, map[]);
    fields := map[];
    var l2 := count;
    while l2 > 0
      invariant buf.Valid() && ReadFields(buf.Rest(), l2, fields) == result
    {
      ok, fields := DecodePair(buf, fields, l2);
      if !ok {
        return;
      }
      l2 := l2 - 1;
    }
    ok := true;
  }

  method DecodeFields(buf: SmallBuf) returns (r: Parsed<Fields>)
    requires buf.Valid()
    modifies buf`p
    ensures buf.Valid()
    ensures r == match ReadMapLen(old(buf.Rest()))
                 case Bad => Bad
                 case Got(n, after) => ReadFields(after, n, map[])
    ensures r.Got? ==> buf.Rest() == r.rest
  {
    var length := buf.DecodeMapLen();
    if length.Bad? {
      return Bad;
    }
    var ok, fields := DecodePairs(buf, length.value);
    r := if ok then Got(fields, buf.b[buf.p..]) else Bad;
  }

  /** One entry of the map of an error, read in place. */
  method DecodeAttribute(buf: SmallBuf, e: BoxError) returns (ok: bool)
    requires buf.Valid()
    modifies buf`p, e
    ensures buf.Valid() && e.prev == old(e.prev)
    ensures ReadAttribute(old(buf.Rest()), old(e.State())) == if ok then Got(e.State(), buf.Rest()) else Bad
  {
    ok := true;
    var key := buf.DecodeInt();
    if key.Bad? {
      return false;
    }
    var cd := key.value;
    if cd == KEY_ERROR_TYPE || cd == KEY_ERROR_FILE || cd == KEY_ERROR_MESSAGE {
      var s := buf.DecodeString();
      if s.Bad? {
        return false;
      }
      if cd == KEY_ERROR_TYPE {
        e.typ := s.value;
      } else if cd == KEY_ERROR_FILE {
        e.file := s.value;
      } else {
        e.msg := s.value;
      }
    } else if cd == KEY_ERROR_LINE || cd == KEY_ERROR_ERRNO || cd == KEY_ERROR_ERRCODE {
      var n := buf.DecodeUint64();
      if n.Bad? {
        return false;
      }
      if cd == KEY_ERROR_LINE {
        e.line := n.value;
      } else if cd == KEY_ERROR_ERRNO {
        e.errno := n.value;
      } else {
        e.code := n.value;
      }
    } else if cd == KEY_ERROR_FIELDS {
      var fields := DecodeFields(buf);
      if fields.Bad? {
        return false;
      }
      e.fields := Some(fields.value);
    } else {
      var skipped := buf.SkipValue();
      if skipped.Bad? {
        return false;
      }
    }
  }

  /** The loop over the map of one error. */
  method DecodeAttributes(buf: SmallBuf, e: BoxError, count: int) returns (ok: bool)
    requires buf.Valid()
    modifies buf`p, e
    ensures buf.Valid() && e.prev == old(e.prev)
    ensures ReadAttributes(old(buf.Rest()), count, old(e.State())) == if ok then Got(e.State(), buf.Rest()) else Bad
  {
    hide ReadAttribute;
    ghost var result := ReadAttributes(buf.Rest(), count, e.State());
    var l1 := count;
    while l1 > 0
      invariant buf.Valid() && e.prev == old(e.prev)
      invariant ReadAttributes(buf.Rest(), l1, e.State()) == result
    {
      ghost var b, state := buf.Rest(), e.State();
      ok := DecodeAttribute(buf, e);
      UnrollAttributes(b, l1, state, if ok then Got(e.State(), buf.Rest()) else Bad);
      if !ok {
        return false;
      }
      l1 := l1 - 1;
    }
    ok := true;
  }

  lemma UnrollAttributes(b: seq<Byte>, l: int, e: Entry, one: Parsed<Entry>)
    requires l > 0 && one == ReadAttribute(b, e)
    ensures ReadAttributes(b, l, e) == if one.Got? then ReadAttributes(one.rest, l - 1, one.value) else Bad
  {
  }

  /** One error, read into a blank one. */
  method DecodeError(buf: SmallBuf, e: BoxError) returns (ok: bool)
    requires buf.Valid() && e.State() == BLANK
    modifies buf`p, e
    ensures buf.Valid() && e.prev == old(e.prev)
    ensures ReadError(old(buf.Rest())) == if ok then Got(e.State(), buf.Rest()) else Bad
  {
    var length := buf.DecodeMapLen();
    if length.Bad? {
      return false;
    }
    ok := DecodeAttributes(buf, e, length.value);
  }

  /** Errors that are distinct, blank and unlinked. */
  ghost predicate Blank(stack: seq<BoxError>, from: nat)
    reads stack
  {
    && (forall i, j :: 0 <= i < j < |stack| ==> stack[i] != stack[j])
    && (forall i :: from <= i < |stack| ==> stack[i].State() == BLANK && stack[i].prev == null)
  }

  /** make([]BoxError, n). */
  method MakeStack(n: nat) returns (stack: seq<BoxError>)
    ensures |stack| == n && Blank(stack, 0) && fresh(stack)
  {
    stack := [];
    while |stack| < n
      invariant |stack| <= n && Blank(stack, 0) && fresh(stack)
    {
      var e := new BoxError();
      stack := stack + [e];
    }
  }

  /** The errors up to i are decoded and linked, each to the next. */
  ghost predicate Linked(stack: seq<BoxError>, i: nat, es: seq<Entry>)
    reads stack
  {
    && |es| == i <= |stack|
    && (forall k :: 0 <= k < i ==> stack[k].State() == es[k])
    && (forall k :: 0 <= k < i ==> stack[k].prev == if k + 1 < i then stack[k + 1] else null)
  }

  lemma {:induction false} LinkedIsChain(stack: seq<BoxError>, k: nat, es: seq<Entry>)
    requires Linked(stack, |stack|, es) && k <= |stack|
    ensures Chain(if k == |stack| then null else stack[k], stack[k..]) && States(stack[k..]) == es[k..]
    decreases |stack| - k
  {
    if k < |stack| {
      LinkedIsChain(stack, k + 1, es);
      assert stack[k].prev == if k + 1 < |stack| then stack[k + 1] else null;
      assert stack[k..][1..] == stack[k + 1..];
    }
  }

  /** The loop body: an error is decoded in place and linked from the one before. */
  method DecodeNext(buf: SmallBuf, stack: seq<BoxError>, i: nat, ghost es: seq<Entry>) returns (ok: bool)
    requires buf.Valid() && i < |stack| && Blank(stack, i) && Linked(stack, i, es)
    modifies buf`p, stack
    ensures buf.Valid() && Blank(stack, i + 1)
    ensures ReadError(old(buf.Rest())) == if ok then Got(stack[i].State(), buf.Rest()) else Bad
    ensures ok ==> Linked(stack, i + 1, es + [stack[i].State()])
  {
    hide ReadError;
    ok := DecodeError(buf, stack[i]);
    if !ok {
      return;
    }
    if i > 0 {
      stack[i - 1].prev := stack[i];
    }
  }

  /** The array of errors. */
  method DecodeErrors(buf: SmallBuf, n: nat) returns (ok: bool, stack: seq<BoxError>)
    requires buf.Valid()
    modifies buf`p
    ensures buf.Valid() && fresh(stack)
    ensures ok ==> Chain(if stack == [] then null else stack[0], stack)
    ensures ReadErrors(old(buf.Rest()), n, []) == if ok then Got(States(stack), buf.Rest()) else Bad
  {
    hide ReadError, ReadErrors;
    ghost var result := ReadErrors(buf.Rest(), n, []);
    stack := MakeStack(n);
    ghost var es: seq<Entry> := [];
    for i := 0 to n
      invariant buf.Valid() && fresh(stack) && |stack| == n && Blank(stack, i) && Linked(stack, i, es)
      invariant ReadErrors(buf.Rest(), n - i, es) == result
    {
      ghost var b := buf.Rest();
      ok := DecodeNext(buf, stack, i, es);
      if !ok {
        ErrorFails(b, n - i, es);
        return;
      }
      UnrollErrors(b, n - i, es, stack[i].State(), buf.Rest());
      es := es + [stack[i].State()];
    }
    NoErrorsLeft(buf.Rest(), es);
    LinkedIsChain(stack, 0, es);
    assert stack[0..] == stack && es[0..] == es;
    ok := true;
  }

  /** One entry of the outer map: a new stack, or something to skip. */
  method DecodeStackEntry(buf: SmallBuf, stack: seq<BoxError>) returns (ok: bool, panics: bool, next: seq<BoxError>)
    requires buf.Valid() && Chain(if stack == [] then null else stack[0], stack)
    modifies buf`p
    ensures buf.Valid() && (next == stack || fresh(next)) && !(ok && panics)
    ensures ok ==> Chain(if next == [] then null else next[0], next)
    ensures ReadOuter(old(buf.Rest()), States(stack)) ==
              if ok then Gives(States(next), buf.Rest()) else if panics then Panics else Fails
  {
    hide ReadErrors, Skip, ReadInt, ReadArrayLen;
    ok, panics, next := false, false, stack;
    var key := buf.DecodeInt();
    if key.Bad? {
      return;
    }
    if key.value == KEY_ERROR_STACK {
      var length := buf.DecodeArrayLen();
      if length.Bad? {
        return;
      }
      if length.value < 0 {
        return false, true, stack;
      }
      ok, next := DecodeErrors(buf, length.value);
    } else {
      var skipped := buf.SkipValue();
      ok := skipped.Got?;
    }
  }

  /** Decodes a chain of errors: exactly the stack that the format spells, which is not empty. */
  method DecodeBoxError(buf: SmallBuf) returns (head: BoxError?, panics: bool, ghost nodes: seq<BoxError>)
    requires buf.Valid()
    modifies buf`p
    ensures buf.Valid() && Chain(head, nodes) && fresh(nodes)
    ensures ReadBoxError(old(buf.Rest())) ==
              if head != null then Gives(States(nodes), buf.Rest()) else if panics then Panics else Fails
  {
    hide ReadMapLen, ReadOuter;
    head, panics, nodes := null, false, [];
    var length := buf.DecodeMapLen();
    if length.Bad? {
      return;
    }
    ghost var result := ReadStack(length.rest, length.value, []);
    var errorStack: seq<BoxError> := [];
    var l := length.value;
    while l > 0
      invariant buf.Valid() && fresh(errorStack) && !panics
      invariant Chain(if errorStack == [] then null else errorStack[0], errorStack)
      invariant ReadStack(buf.Rest(), l, States(errorStack)) == result
    {
      var ok;
      ok, panics, errorStack := DecodeStackEntry(buf, errorStack);
      if !ok {
        return;
      }
      l := l - 1;
    }
    if |errorStack| == 0 {
      return;
    }
    head, panics, nodes := errorStack[0], false, errorStack;
  }

  /** The decoded chain, whose first error is copied into the receiver; on a failure or a panic the
      receiver is left alone. */
  method UnmarshalMsgpack(e: BoxError, b: seq<Byte>) returns (ok: bool, panics: bool, ghost nodes: seq<BoxError>)
    modifies e
    ensures ok <==> ReadBoxError(b).Gives?
    ensures !ok ==> (panics <==> ReadBoxError(b) == Panics)
    ensures ok ==> Chain(e, nodes) && States(nodes) == ReadBoxError(b).errors
    ensures !ok ==> e.State() == old(e.State()) && e.prev == old(e.prev)
  {
    var buf := new SmallBuf(b);
    assert b[0..] == b;
    var val;
    val, panics, nodes := DecodeBoxError(buf);
    if val == null {
      return false, panics, [];
    }
    assert [val] + nodes[1..] == nodes;
    CopyInto(e, val, nodes[1..]);
    nodes := [e] + nodes[1..];
    ok := true;
  }

  /** The receiver takes the place of the first error of a chain. */
  method CopyInto(e: BoxError, val: BoxError, ghost rest: seq<BoxError>)
    requires e != val && e !in rest && Chain(val.prev, rest)
    modifies e
    ensures Chain(e, [e] + rest) && States([e] + rest) == old(States([val] + rest))
  {
    ghost var states := States(rest);
    assert ([val] + rest)[1..] == rest;
    e.typ, e.file, e.line, e.msg := val.typ, val.file, val.line, val.msg;
    e.errno, e.code, e.fields, e.prev := val.errno, val.code, val.fields, val.prev;
    assert ([e] + rest)[1..] == rest && States(rest) == states;
  }

  /** A chain survives being written and read into any error, but for empty fields. */
  method RoundTrip(e: BoxError, target: BoxError, ghost nodes: seq<BoxError>) returns (ghost copies: seq<BoxError>)
    requires Chain(e, nodes) && |nodes| < TWO_TO_THE_32 && forall s :: s in States(nodes) ==> Encodable(s)
    modifies target
    ensures Chain(target, copies) && States(copies) == AllNormal(old(States(nodes)))
  {
    var bytes := MarshalMsgpack(e, nodes);
    var ok, panics;
    ok, panics, copies := UnmarshalMsgpack(target, bytes.value);
  }
}
