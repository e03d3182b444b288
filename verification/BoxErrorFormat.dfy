/**
 The format of error stacks (box_error.go) on values: what the decoder makes of any bytes, and that
 it gives back what the encoder writes.  Module BoxErrors has the linked errors themselves.
 */
module BoxErrorFormat {
  import opened Common
  import opened MsgPack

  const KEY_ERROR_STACK: Byte := 0x00
  const KEY_ERROR_TYPE: Byte := 0x00
  const KEY_ERROR_FILE: Byte := 0x01
  const KEY_ERROR_LINE: Byte := 0x02
  const KEY_ERROR_MESSAGE: Byte := 0x03
  const KEY_ERROR_ERRNO: Byte := 0x04
  const KEY_ERROR_ERRCODE: Byte := 0x05
  const KEY_ERROR_FIELDS: Byte := 0x06

  /** The additional fields: a value is known by its bytes. */
  type Fields = map<Text, seq<Byte>>

  /** One error of a stack. */
  datatype Entry = Entry(typ: Text, file: Text, line: nat, msg: Text, errno: nat, code: nat, fields: Option<Fields>)

  const BLANK := Entry([], [], 0, [], 0, 0, None)

  /** The decoder never makes empty fields from what the encoder writes. */
  function Normal(e: Entry): Entry {
    if e.fields == Some(map[]) then e.(fields := None) else e
  }

  // ----- decoding -----

  /** So many fields, added to m. */
  function ReadFields(b: seq<Byte>, n: int, m: Fields): (r: Parsed<Fields>)
    ensures r.Got? ==> |r.rest| <= |b|
    decreases |b|
  {
    if n <= 0 then Got(m, b)
    else match ReadString(b)
      case Bad => Bad
      case Got(key, rest) =>
        match ReadValue(rest)
        case Bad => Bad
        case Got(value, after) => ReadFields(after, n - 1, m[key := value])
  }

  function WithText(e: Entry, key: int, s: Text): Entry {
    if key == KEY_ERROR_TYPE then e.(typ := s) else if key == KEY_ERROR_FILE then e.(file := s) else e.(msg := s)
  }

  function WithNumber(e: Entry, key: int, n: nat): Entry {
    if key == KEY_ERROR_LINE then e.(line := n) else if key == KEY_ERROR_ERRNO then e.(errno := n) else e.(code := n)
  }

  /** The value of an entry of the map of an error, whose key is read. */
  function ReadKeyed(key: int, b: seq<Byte>, e: Entry): (r: Parsed<Entry>)
    ensures r.Got? ==> |r.rest| <= |b|
  {
    if key == KEY_ERROR_TYPE || key == KEY_ERROR_FILE || key == KEY_ERROR_MESSAGE then
      match ReadString(b)
      case Bad => Bad
      case Got(s, rest) => Got(WithText(e, key, s), rest)
    else if key == KEY_ERROR_LINE || key == KEY_ERROR_ERRNO || key == KEY_ERROR_ERRCODE then
      match ReadUint64(b)
      case Bad => Bad
      case Got(n, rest) => Got(WithNumber(e, key, n), rest)
    else if key == KEY_ERROR_FIELDS then
      match ReadMapLen(b)
      case Bad => Bad
      case Got(n, after) =>
        match ReadFields(after, n, map[])
        case Bad => Bad
        case Got(fields, rest) => Got(e.(fields := Some(fields)), rest)
    else
      match Skip(b)
      case Bad => Bad
      case Got(_, rest) => Got(e, rest)
  }

  /** One entry of the map of an error. */
  function ReadAttribute(b: seq<Byte>, e: Entry): (r: Parsed<Entry>)
    ensures r.Got? ==> |r.rest| < |b|
  {
    match ReadInt(b)
    case Bad => Bad
    case Got(key, rest) => ReadKeyed(key, rest, e)
  }

  function ReadAttributes(b: seq<Byte>, l: int, e: Entry): (r: Parsed<Entry>)
    ensures r.Got? ==> |r.rest| <= |b|
    decreases |b|
  {
    if l <= 0 then Got(e, b)
    else match ReadAttribute(b, e)
      case Bad => Bad
      case Got(f, rest) => ReadAttributes(rest, l - 1, f)
  }

  function ReadError(b: seq<Byte>): (r: Parsed<Entry>)
    ensures r.Got? ==> |r.rest| < |b|
  {
    match ReadMapLen(b)
    case Bad => Bad
    case Got(l, rest) => ReadAttributes(rest, l, BLANK)
  }

  /** The rest of a stack, after the errors in `es`. */
  function ReadErrors(b: seq<Byte>, n: nat, es: seq<Entry>): (r: Parsed<seq<Entry>>)
    ensures r.Got? ==> |r.rest| <= |b| && |r.value| == |es| + n
    decreases n
  {
    if n == 0 then Got(es, b)
    else match ReadError(b)
      case Bad => Bad
      case Got(e, rest) => ReadErrors(rest, n - 1, es + [e])
  }

  /** What becomes of decoding: the errors of the last stack and the bytes behind, an error return, or a
      panic of make([]BoxError, -1). */
  datatype Outcome = Gives(errors: seq<Entry>, rest: seq<Byte>) | Fails | Panics

  /** One entry of the outer map: a new stack, or something to skip. */
  function ReadOuter(b: seq<Byte>, es: seq<Entry>): (r: Outcome)
    ensures r.Gives? ==> |r.rest| < |b|
  {
    match ReadInt(b)
    case Bad => Fails
    case Got(key, rest) =>
      if key == KEY_ERROR_STACK then
        match ReadArrayLen(rest)
        case Bad => Fails
        case Got(n, after) =>
          if n < 0 then Panics
          else match ReadErrors(after, n, [])
            case Bad => Fails
            case Got(errors, end) => Gives(errors, end)
      else
        match Skip(rest)
        case Bad => Fails
        case Got(_, after) => Gives(es, after)
  }

  /** The entries of the outer map; the last stack counts. */
  function ReadStack(b: seq<Byte>, l: int, es: seq<Entry>): Outcome
    decreases |b|
  {
    if l <= 0 then Gives(es, b)
    else match ReadOuter(b, es)
      case Gives(next, rest) => ReadStack(rest, l - 1, next)
      case Fails => Fails
      case Panics => Panics
  }

  function ReadBoxError(b: seq<Byte>): Outcome {
    match ReadMapLen(b)
    case Bad => Fails
    case Got(l, rest) =>
      var r := ReadStack(rest, l, []);
      if r.Gives? && r.errors == [] then Fails else r
  }

  /** Which byte is the key of which attribute, and how its value is read. */
  lemma AttributesByKey(b: seq<Byte>, e: Entry)
    ensures ReadAttribute([0x00] + b, e) == match ReadString(b) case Bad => Bad case Got(s, rest) => Got(e.(typ := s), rest)
    ensures ReadAttribute([0x01] + b, e) == match ReadString(b) case Bad => Bad case Got(s, rest) => Got(e.(file := s), rest)
    ensures ReadAttribute([0x02] + b, e) == match ReadUint64(b) case Bad => Bad case Got(n, rest) => Got(e.(line := n), rest)
    ensures ReadAttribute([0x03] + b, e) == match ReadString(b) case Bad => Bad case Got(s, rest) => Got(e.(msg := s), rest)
    ensures ReadAttribute([0x04] + b, e) == match ReadUint64(b) case Bad => Bad case Got(n, rest) => Got(e.(errno := n), rest)
    ensures ReadAttribute([0x05] + b, e) == match ReadUint64(b) case Bad => Bad case Got(n, rest) => Got(e.(code := n), rest)
  {
    hide ReadInt, ReadString, ReadUint64;
    IntFromFixint(0x00, b);
    IntFromFixint(0x01, b);
    IntFromFixint(0x02, b);
    IntFromFixint(0x03, b);
    IntFromFixint(0x04, b);
    IntFromFixint(0x05, b);
  }

  // ----- which bytes make the decoder panic -----

  /** A nil in the place of a stack. */
  predicate NilStack(b: seq<Byte>) {
    ReadInt(b).Got? && ReadInt(b).value == KEY_ERROR_STACK && |ReadInt(b).rest| > 0 && ReadInt(b).rest[0] == 0xc0
  }

  /** The same behind k entries that can be read. */
  predicate NilStackAfter(b: seq<Byte>, k: nat)
    decreases k
  {
    if k == 0 then NilStack(b)
    else ReadOuter(b, []).Gives? && NilStackAfter(ReadOuter(b, []).rest, k - 1)
  }

  lemma OuterPanics(b: seq<Byte>, es: seq<Entry>)
    ensures ReadOuter(b, es) == Panics <==> NilStack(b)
    ensures ReadOuter(b, es).Gives? <==> ReadOuter(b, []).Gives?
    ensures ReadOuter(b, es).Gives? ==> ReadOuter(b, es).rest == ReadOuter(b, []).rest
  {
    hide ReadErrors, Skip, ReadInt;
  }

  lemma NilStackIs(b: seq<Byte>, k: nat, es: seq<Entry>)
    ensures NilStackAfter(b, k) <==>
              if k == 0 then ReadOuter(b, es) == Panics
              else ReadOuter(b, es).Gives? && NilStackAfter(ReadOuter(b, es).rest, k - 1)
  {
    hide ReadOuter, NilStack;
    OuterPanics(b, es);
  }

  lemma {:induction false} StackPanicsExactly(b: seq<Byte>, l: int, es: seq<Entry>)
    ensures ReadStack(b, l, es) == Panics <==> exists k: nat :: k < l && NilStackAfter(b, k)
    decreases |b|
  {
    hide ReadOuter, NilStackAfter;
    if l > 0 {
      var next := ReadOuter(b, es);
      if next.Gives? {
        StackPanicsExactly(next.rest, l - 1, next.errors);
      }
      if ReadStack(b, l, es) == Panics {
        if next.Gives? {
          var k: nat :| k < l - 1 && NilStackAfter(next.rest, k);
          NilStackIs(b, k + 1, es);
        } else {
          NilStackIs(b, 0, es);
        }
      }
      if k: nat :| k < l && NilStackAfter(b, k) {
        NilStackIs(b, k, es);
      }
    }
  }

  /** Decoding panics exactly if, behind entries that can be read, an entry of the outer map has a nil
      for its stack. */
  lemma PanicsExactly(b: seq<Byte>)
    ensures ReadBoxError(b) == Panics <==>
              ReadMapLen(b).Got? && exists k: nat :: k < ReadMapLen(b).value && NilStackAfter(ReadMapLen(b).rest, k)
  {
    hide ReadMapLen, ReadStack, NilStackAfter;
    if ReadMapLen(b).Got? {
      StackPanicsExactly(ReadMapLen(b).rest, ReadMapLen(b).value, []);
    }
  }

  /** Three bytes that do. */
  lemma NilStackPanics()
    ensures ReadBoxError([0x81, 0x00, 0xc0]) == Panics
  {
    var b: seq<Byte> := [0x81, KEY_ERROR_STACK, 0xc0];
    assert b[1..] == [KEY_ERROR_STACK] + [0xc0];
    IntFromFixint(KEY_ERROR_STACK, [0xc0]);
    assert NilStackAfter(b[1..], 0);
    PanicsExactly(b);
  }

  // ----- encoding -----

  type Pairs = seq<(Text, seq<Byte>)>

  /** What the encoder writes for one key of an error. */
  datatype Item =
    | TypeIs(s: Text) | FileIs(s: Text) | LineIs(n: nat) | MsgIs(s: Text) | ErrnoIs(n: nat) | CodeIs(n: nat)
    | FieldsAre(pairs: Pairs)

  predicate Fits(s: seq<Byte>) {
    |s| < TWO_TO_THE_32
  }

  ghost predicate GoodPairs(pairs: Pairs) {
    |pairs| < TWO_TO_THE_32 && forall i :: 0 <= i < |pairs| ==> GoodPair(pairs[i])
  }

  predicate GoodPair(p: (Text, seq<Byte>)) {
    Fits(p.0) && IsValue(p.1)
  }

  ghost predicate GoodItem(i: Item) {
    match i
    case TypeIs(s) => Fits(s)
    case FileIs(s) => Fits(s)
    case MsgIs(s) => Fits(s)
    case LineIs(n) => n < TWO_TO_THE_64
    case ErrnoIs(n) => n < TWO_TO_THE_64
    case CodeIs(n) => n < TWO_TO_THE_64
    case FieldsAre(pairs) => GoodPairs(pairs)
  }

  function TextBytes(key: Byte, s: Text): seq<Byte>
    requires Fits(s)
  {
    [key] + StringBytes(s)
  }

  function NumberBytes(key: Byte, n: nat): seq<Byte>
    requires n < TWO_TO_THE_64
  {
    [key] + ([0xcf] + U64(n))
  }

  ghost function PairsBytes(pairs: Pairs): seq<Byte>
    requires forall i :: 0 <= i < |pairs| ==> GoodPair(pairs[i])
  {
    if pairs == [] then []
    else assert GoodPair(pairs[0]); StringBytes(pairs[0].0) + pairs[0].1 + PairsBytes(pairs[1..])
  }

  ghost function FieldsBytes(pairs: Pairs): seq<Byte>
    requires GoodPairs(pairs)
  {
    [KEY_ERROR_FIELDS] + (MapLenBytes(|pairs|) + PairsBytes(pairs))
  }

  ghost function ItemBytes(i: Item): seq<Byte>
    requires GoodItem(i)
  {
    match i
    case TypeIs(s) => TextBytes(KEY_ERROR_TYPE, s)
    case FileIs(s) => TextBytes(KEY_ERROR_FILE, s)
    case LineIs(n) => NumberBytes(KEY_ERROR_LINE, n)
    case MsgIs(s) => TextBytes(KEY_ERROR_MESSAGE, s)
    case ErrnoIs(n) => NumberBytes(KEY_ERROR_ERRNO, n)
    case CodeIs(n) => NumberBytes(KEY_ERROR_ERRCODE, n)
    case FieldsAre(pairs) => FieldsBytes(pairs)
  }

  /** The key in front of each of them. */
  lemma KeysAre(i: Item)
    requires GoodItem(i)
    ensures |ItemBytes(i)| > 0
    ensures ItemBytes(i)[0] == match i
              case TypeIs(_) => 0x00
              case FileIs(_) => 0x01
              case LineIs(_) => 0x02
              case MsgIs(_) => 0x03
              case ErrnoIs(_) => 0x04
              case CodeIs(_) => 0x05
              case FieldsAre(_) => 0x06
  {
  }

  function Added(m: Fields, pairs: Pairs): Fields
    decreases |pairs|
  {
    if pairs == [] then m else Added(m[pairs[0].0 := pairs[0].1], pairs[1..])
  }

  /** The error with one more key decoded. */
  function Applied(e: Entry, i: Item): Entry {
    match i
    case TypeIs(s) => e.(typ := s)
    case FileIs(s) => e.(file := s)
    case LineIs(n) => e.(line := n)
    case MsgIs(s) => e.(msg := s)
    case ErrnoIs(n) => e.(errno := n)
    case CodeIs(n) => e.(code := n)
    case FieldsAre(pairs) => e.(fields := Some(Added(map[], pairs)))
  }

  // ----- an item is read back -----

  lemma KeyRead(key: Byte, b: seq<Byte>, e: Entry)
    requires key < 0x80
    ensures ReadAttribute([key] + b, e) == ReadKeyed(key, b, e)
  {
    IntFromFixint(key, b);
  }

  lemma TextReads(key: Byte, s: Text, rest: seq<Byte>, e: Entry)
    requires Fits(s) && (key == KEY_ERROR_TYPE || key == KEY_ERROR_FILE || key == KEY_ERROR_MESSAGE)
    ensures ReadAttribute(TextBytes(key, s) + rest, e) == Got(WithText(e, key, s), rest)
  {
    Associate([key], StringBytes(s), rest);
    KeyRead(key, StringBytes(s) + rest, e);
    StringRoundTrip(s, rest);
  }

  lemma NumberReads(key: Byte, n: nat, rest: seq<Byte>, e: Entry)
    requires n < TWO_TO_THE_64 && (key == KEY_ERROR_LINE || key == KEY_ERROR_ERRNO || key == KEY_ERROR_ERRCODE)
    ensures ReadAttribute(NumberBytes(key, n) + rest, e) == Got(WithNumber(e, key, n), rest)
  {
    Associate([key], [0xcf] + U64(n), rest);
    KeyRead(key, [0xcf] + U64(n) + rest, e);
    Uint64FromU64(n, rest);
    KeyedNumber(key, [0xcf] + U64(n) + rest, e);
  }

  lemma KeyedNumber(key: Byte, b: seq<Byte>, e: Entry)
    requires key == KEY_ERROR_LINE || key == KEY_ERROR_ERRNO || key == KEY_ERROR_ERRCODE
    ensures ReadKeyed(key, b, e) ==
              if ReadUint64(b).Got? then Got(WithNumber(e, key, ReadUint64(b).value), ReadUint64(b).rest) else Bad
  {
  }

  lemma {:induction false} PairsRead(pairs: Pairs, rest: seq<Byte>, m: Fields)
    requires forall i :: 0 <= i < |pairs| ==> GoodPair(pairs[i])
    ensures ReadFields(PairsBytes(pairs) + rest, |pairs|, m) == Got(Added(m, pairs), rest)
    decreases |pairs|
  {
    if pairs == [] {
      assert PairsBytes(pairs) + rest == rest;
    } else {
      var (key, value) := pairs[0];
      assert GoodPair(pairs[0]);
      var after := PairsBytes(pairs[1..]) + rest;
      Associate(StringBytes(key) + value, PairsBytes(pairs[1..]), rest);
      Associate(StringBytes(key), value, after);
      StringRoundTrip(key, value + after);
      ValueRoundTrip(value, after);
      PairsRead(pairs[1..], rest, m[key := value]);
    }
  }

  lemma FieldsRead(pairs: Pairs, rest: seq<Byte>, e: Entry)
    requires GoodPairs(pairs)
    ensures ReadAttribute(FieldsBytes(pairs) + rest, e) == Got(e.(fields := Some(Added(map[], pairs))), rest)
  {
    var body := MapLenBytes(|pairs|) + PairsBytes(pairs);
    Associate([KEY_ERROR_FIELDS], body, rest);
    KeyRead(KEY_ERROR_FIELDS, body + rest, e);
    Associate(MapLenBytes(|pairs|), PairsBytes(pairs), rest);
    MapLenRoundTrip(|pairs|, PairsBytes(pairs) + rest);
    PairsRead(pairs, rest, map[]);
  }

  lemma ItemReads(i: Item, rest: seq<Byte>, e: Entry)
    requires GoodItem(i)
    ensures ReadAttribute(ItemBytes(i) + rest, e) == Got(Applied(e, i), rest)
  {
    match i
    case TypeIs(s) => TextReads(KEY_ERROR_TYPE, s, rest, e);
    case FileIs(s) => TextReads(KEY_ERROR_FILE, s, rest, e);
    case LineIs(n) => NumberReads(KEY_ERROR_LINE, n, rest, e);
    case MsgIs(s) => TextReads(KEY_ERROR_MESSAGE, s, rest, e);
    case ErrnoIs(n) => NumberReads(KEY_ERROR_ERRNO, n, rest, e);
    case CodeIs(n) => NumberReads(KEY_ERROR_ERRCODE, n, rest, e);
    case FieldsAre(pairs) => FieldsRead(pairs, rest, e);
  }

  // ----- an error is read back -----

  ghost function ItemsBytes(items: seq<Item>): seq<Byte>
    requires forall i :: i in items ==> GoodItem(i)
  {
    if items == [] then [] else ItemBytes(items[0]) + ItemsBytes(items[1..])
  }

  function AllApplied(e: Entry, items: seq<Item>): Entry
    decreases |items|
  {
    if items == [] then e else AllApplied(Applied(e, items[0]), items[1..])
  }

  lemma {:induction false} ItemsRead(items: seq<Item>, rest: seq<Byte>, e: Entry)
    requires forall i :: i in items ==> GoodItem(i)
    ensures ReadAttributes(ItemsBytes(items) + rest, |items|, e) == Got(AllApplied(e, items), rest)
    decreases |items|
  {
    if items == [] {
      assert ItemsBytes(items) + rest == rest;
    } else {
      Associate(ItemBytes(items[0]), ItemsBytes(items[1..]), rest);
      ItemReads(items[0], ItemsBytes(items[1..]) + rest, e);
      ItemsRead(items[1..], rest, Applied(e, items[0]));
    }
  }

  lemma {:induction false} ItemsAppend(items: seq<Item>, i: Item)
    requires GoodItem(i) && forall j :: j in items ==> GoodItem(j)
    ensures forall j :: j in items + [i] ==> GoodItem(j)
    ensures ItemsBytes(items + [i]) == ItemsBytes(items) + ItemBytes(i)
    decreases |items|
  {
    if items == [] {
      assert items + [i] == [i] && [i][1..] == [];
    } else {
      assert (items + [i])[1..] == items[1..] + [i];
      ItemsAppend(items[1..], i);
      Associate(ItemBytes(items[0]), ItemsBytes(items[1..]), ItemBytes(i));
    }
  }

  predicate HasFields(e: Entry) {
    e.fields.Some? && |e.fields.value| > 0
  }

  /** The keys of an error in the order in which the encoder writes them; `pairs` are the fields in
      the order in which the map gives them. */
  function ItemsOf(e: Entry, pairs: Pairs): seq<Item> {
    [TypeIs(e.typ), FileIs(e.file), LineIs(e.line), MsgIs(e.msg), ErrnoIs(e.errno), CodeIs(e.code)]
    + if HasFields(e) then [FieldsAre(pairs)] else []
  }

  /** The pairs are the fields of the error in some order. */
  ghost predicate Lists(pairs: Pairs, e: Entry) {
    GoodPairs(pairs) && if HasFields(e) then Added(map[], pairs) == e.fields.value && |pairs| == |e.fields.value| else pairs == []
  }

  ghost predicate WithinSizes(e: Entry) {
    && Fits(e.typ) && Fits(e.file) && Fits(e.msg)
    && e.line < TWO_TO_THE_64 && e.errno < TWO_TO_THE_64 && e.code < TWO_TO_THE_64
  }

  ghost function ErrorBytes(e: Entry, pairs: Pairs): seq<Byte>
    requires WithinSizes(e) && Lists(pairs, e)
  {
    MapLenBytes(if HasFields(e) then 7 else 6) + ItemsBytes(ItemsOf(e, pairs))
  }

  lemma ApplyFirst(e: Entry, i: Item, items: seq<Item>)
    ensures AllApplied(e, [i] + items) == AllApplied(Applied(e, i), items)
  {
    assert ([i] + items)[1..] == items;
  }

  lemma AllItems(e: Entry, pairs: Pairs)
    requires Lists(pairs, e)
    ensures AllApplied(BLANK, ItemsOf(e, pairs)) == Normal(e)
  {
    var last := if HasFields(e) then [FieldsAre(pairs)] else [];
    var r5 := [CodeIs(e.code)] + last;
    var r4 := [ErrnoIs(e.errno)] + r5;
    var r3 := [MsgIs(e.msg)] + r4;
    var r2 := [LineIs(e.line)] + r3;
    var r1 := [FileIs(e.file)] + r2;
    assert ItemsOf(e, pairs) == [TypeIs(e.typ)] + r1;
    ApplyFirst(BLANK, TypeIs(e.typ), r1);
    var e1 := BLANK.(typ := e.typ);
    ApplyFirst(e1, FileIs(e.file), r2);
    var e2 := e1.(file := e.file);
    ApplyFirst(e2, LineIs(e.line), r3);
    var e3 := e2.(line := e.line);
    ApplyFirst(e3, MsgIs(e.msg), r4);
    var e4 := e3.(msg := e.msg);
    ApplyFirst(e4, ErrnoIs(e.errno), r5);
    var e5 := e4.(errno := e.errno);
    ApplyFirst(e5, CodeIs(e.code), last);
    LastItem(e5.(code := e.code), e, pairs, last);
  }

  lemma LastItem(f: Entry, e: Entry, pairs: Pairs, last: seq<Item>)
    requires Lists(pairs, e) && f == e.(fields := None) && last == if HasFields(e) then [FieldsAre(pairs)] else []
    ensures AllApplied(f, last) == Normal(e)
  {
    if HasFields(e) {
      ApplyFirst(f, FieldsAre(pairs), []);
      assert last == [FieldsAre(pairs)] + [];
    } else if e.fields.Some? {
      assert e.fields.value == map[];
    }
  }

  lemma ErrorReads(e: Entry, pairs: Pairs, rest: seq<Byte>)
    requires WithinSizes(e) && Lists(pairs, e)
    ensures ReadError(ErrorBytes(e, pairs) + rest) == Got(Normal(e), rest)
  {
    var items := ItemsOf(e, pairs);
    Associate(MapLenBytes(|items|), ItemsBytes(items), rest);
    MapLenRoundTrip(|items|, ItemsBytes(items) + rest);
    ItemsRead(items, rest, BLANK);
    AllItems(e, pairs);
  }

  // ----- a stack is read back -----

  ghost predicate AllListed(es: seq<Entry>, orders: seq<Pairs>) {
    |es| == |orders| && forall i :: 0 <= i < |es| ==> WithinSizes(es[i]) && Lists(orders[i], es[i])
  }

  ghost function ErrorsBytes(es: seq<Entry>, orders: seq<Pairs>): seq<Byte>
    requires AllListed(es, orders)
  {
    if es == [] then [] else ErrorBytes(es[0], orders[0]) + ErrorsBytes(es[1..], orders[1..])
  }

  function AllNormal(es: seq<Entry>): (r: seq<Entry>)
    ensures |r| == |es|
  {
    if es == [] then [] else [Normal(es[0])] + AllNormal(es[1..])
  }

  lemma NoErrorsLeft(b: seq<Byte>, es: seq<Entry>)
    ensures ReadErrors(b, 0, es) == Got(es, b)
  {
  }

  lemma ErrorFails(b: seq<Byte>, n: nat, es: seq<Entry>)
    requires n > 0 && ReadError(b) == Bad
    ensures ReadErrors(b, n, es) == Bad
  {
  }

  lemma UnrollErrors(b: seq<Byte>, n: nat, before: seq<Entry>, e: Entry, tail: seq<Byte>)
    requires n > 0 && ReadError(b) == Got(e, tail)
    ensures ReadErrors(b, n, before) == ReadErrors(tail, n - 1, before + [e])
  {
  }

  /** One error and then the others. */
  lemma NextError(first: seq<Byte>, more: seq<Byte>, rest: seq<Byte>, n: nat, before: seq<Entry>, e: Entry, es: seq<Entry>)
    requires n > 0 && ReadError(first + (more + rest)) == Got(e, more + rest)
    requires ReadErrors(more + rest, n - 1, before + [e]) == Got(before + [e] + es, rest)
    ensures ReadErrors(first + more + rest, n, before) == Got(before + ([e] + es), rest)
  {
    Associate(first, more, rest);
    Associate(before, [e], es);
    UnrollErrors(first + (more + rest), n, before, e, more + rest);
  }

  lemma {:induction false} ErrorsRead(es: seq<Entry>, orders: seq<Pairs>, rest: seq<Byte>, before: seq<Entry>)
    requires AllListed(es, orders)
    ensures ReadErrors(ErrorsBytes(es, orders) + rest, |es|, before) == Got(before + AllNormal(es), rest)
    decreases |es|
  {
    if es == [] {
      assert ErrorsBytes(es, orders) + rest == rest;
      assert before + [] == before;
    } else {
      var more := ErrorsBytes(es[1..], orders[1..]);
      ErrorReads(es[0], orders[0], more + rest);
      ErrorsRead(es[1..], orders[1..], rest, before + [Normal(es[0])]);
      NextError(ErrorBytes(es[0], orders[0]), more, rest, |es|, before, Normal(es[0]), AllNormal(es[1..]));
    }
  }

  lemma {:induction false} ErrorsAppend(es: seq<Entry>, orders: seq<Pairs>, e: Entry, pairs: Pairs)
    requires AllListed(es, orders) && WithinSizes(e) && Lists(pairs, e)
    ensures AllListed(es + [e], orders + [pairs])
    ensures ErrorsBytes(es + [e], orders + [pairs]) == ErrorsBytes(es, orders) + ErrorBytes(e, pairs)
    decreases |es|
  {
    if es == [] {
      assert [e][1..] == [] && [pairs][1..] == [];
      assert es + [e] == [e] && orders + [pairs] == [pairs];
    } else {
      assert (es + [e])[1..] == es[1..] + [e] && (orders + [pairs])[1..] == orders[1..] + [pairs];
      ErrorsAppend(es[1..], orders[1..], e, pairs);
      Associate(ErrorBytes(es[0], orders[0]), ErrorsBytes(es[1..], orders[1..]), ErrorBytes(e, pairs));
    }
  }

  /** All the bytes for a stack of errors: a map of one key and an array as long as the stack. */
  ghost function StackBytes(es: seq<Entry>, orders: seq<Pairs>): seq<Byte>
    requires AllListed(es, orders) && |es| < TWO_TO_THE_32
  {
    MapLenBytes(1) + [KEY_ERROR_STACK] + ArrayLenBytes(|es|) + ErrorsBytes(es, orders)
  }

  lemma SampleError(rest: seq<Byte>)
    ensures ReadError([0x81, 0x02, 0x01] + rest) == Got(BLANK.(line := 1), rest)
  {
    var b := [0x02] + ([0x01] + rest);
    assert ([0x81, 0x02, 0x01] + rest)[1..] == b;
    assert ReadMapLen([0x81, 0x02, 0x01] + rest) == Got(1, b);
    AttributesByKey([0x01] + rest, BLANK);
    assert ([0x01] + rest)[1..] == rest;
    assert ReadUint64([0x01] + rest) == Got(1, rest);
    hide ReadAttribute, ReadUint64;
    assert ReadAttributes(rest, 0, BLANK.(line := 1)) == Got(BLANK.(line := 1), rest);
  }

  lemma SampleErrors(rest: seq<Byte>)
    ensures ReadErrors([0x81, 0x02, 0x01] + rest, 1, []) == Got([BLANK.(line := 1)], rest)
  {
    hide ReadError;
    SampleError(rest);
    NoErrorsLeft(rest, [BLANK.(line := 1)]);
    assert [] + [BLANK.(line := 1)] == [BLANK.(line := 1)];
  }

  lemma SampleStack(rest: seq<Byte>)
    ensures ReadOuter([0x00] + ([0x91] + ([0x81, 0x02, 0x01] + rest)), []) == Gives([BLANK.(line := 1)], rest)
  {
    var errors := [0x81, 0x02, 0x01] + rest;
    SampleErrors(rest);
    IntFromFixint(0x00, [0x91] + errors);
    assert ([0x91] + errors)[1..] == errors;
    assert ReadArrayLen([0x91] + errors) == Got(1, errors);
    hide ReadErrors, ReadInt, ReadArrayLen;
  }

  lemma SampleExtra(es: seq<Entry>)
    ensures ReadOuter([0x11] + [0x00], es) == Gives(es, [])
  {
    IntFromFixint(0x11, [0x00]);
    IntIsSkipped([0x00]);
    assert [0x00][1..] == [];
    assert ReadInt([0x00]) == Got(0, []);
    hide ReadInt, Skip;
  }

  /** A stack of one error with the line 1, and an entry to skip behind it. */
  lemma SampleReads()
    ensures ReadBoxError([0x82, 0x00, 0x91, 0x81, 0x02, 0x01, 0x11, 0x00]) == Gives([BLANK.(line := 1)], [])
  {
    var b: seq<Byte> := [0x82, 0x00, 0x91, 0x81, 0x02, 0x01, 0x11, 0x00];
    var extra: seq<Byte> := [0x11] + [0x00];
    var es := [BLANK.(line := 1)];
    var stack := [0x00] + ([0x91] + ([0x81, 0x02, 0x01] + extra));
    hide ReadOuter, ReadMapLen;
    SampleStack(extra);
    SampleExtra(es);
    MapLenRoundTrip(2, stack);
    assert b == [0x82] + stack;
    assert ReadStack([], 0, es) == Gives(es, []);
    assert ReadStack(extra, 1, es) == Gives(es, []);
  }

  /** It begins with a map of one entry and the key of a stack. */
  lemma StackBegins(es: seq<Entry>, orders: seq<Pairs>)
    requires AllListed(es, orders) && |es| < TWO_TO_THE_32
    ensures [0x81, 0x00] <= StackBytes(es, orders)
  {
  }

  lemma StackReads(n: nat, b: seq<Byte>, es: seq<Entry>, rest: seq<Byte>)
    requires n < TWO_TO_THE_32 && ReadErrors(b, n, []) == Got(es, rest) && es != []
    ensures ReadBoxError(MapLenBytes(1) + ([KEY_ERROR_STACK] + (ArrayLenBytes(n) + b))) == Gives(es, rest)
  {
    var stack := ArrayLenBytes(n) + b;
    MapLenRoundTrip(1, [KEY_ERROR_STACK] + stack);
    IntFromFixint(KEY_ERROR_STACK, stack);
    ArrayLenRoundTrip(n, b);
    assert ReadStack(rest, 0, es) == Gives(es, rest);
  }

  lemma StackSplits(es: seq<Entry>, orders: seq<Pairs>, rest: seq<Byte>)
    requires AllListed(es, orders) && |es| < TWO_TO_THE_32
    ensures StackBytes(es, orders) + rest
            == MapLenBytes(1) + ([KEY_ERROR_STACK] + (ArrayLenBytes(|es|) + (ErrorsBytes(es, orders) + rest)))
  {
    hide ErrorsBytes, AllListed, MapLenBytes, ArrayLenBytes;
    StackIs(ArrayLenBytes(|es|), ErrorsBytes(es, orders), rest);
  }

  /** Decoding a stack gives the same errors, with empty fields gone, and leaves what follows, in
      whatever order the fields of each error were written. */
  lemma StackRoundTrip(es: seq<Entry>, orders: seq<Pairs>, rest: seq<Byte>)
    requires AllListed(es, orders) && 0 < |es| < TWO_TO_THE_32
    ensures ReadBoxError(StackBytes(es, orders) + rest) == Gives(AllNormal(es), rest)
  {
    hide StackBytes, ErrorsBytes, AllListed, AllNormal, ReadBoxError, ReadErrors, MapLenBytes, ArrayLenBytes;
    StackSplits(es, orders, rest);
    ErrorsRead(es, orders, rest, []);
    assert [] + AllNormal(es) == AllNormal(es);
    StackReads(|es|, ErrorsBytes(es, orders) + rest, AllNormal(es), rest);
  }

  lemma StackIs(length: seq<Byte>, errors: seq<Byte>, rest: seq<Byte>)
    ensures MapLenBytes(1) + [KEY_ERROR_STACK] + length + errors + rest
            == MapLenBytes(1) + ([KEY_ERROR_STACK] + (length + (errors + rest)))
  {
  }
}
