/** JSON values as `serde_json` holds and prints them: strings as UTF-8 bytes, every
    other scalar by the text it prints to, objects in their fixed key order. */
module Jsons {
  import opened Utf8
  import opened Wrappers

  datatype Json =
    | Str(text: Text)
    | Scalar(printed: Text)
    | Node(keys: Option<seq<Text>>, items: seq<Json>)

  function HexDigit(n: nat): Byte
    requires n < 16
  {
    if n < 10 then 48 + n else 87 + n
  }

  /** What one byte of a string prints to (section 7 of RFC 8259): two-character escapes,
      `\u00XX` for the other controls, the byte itself otherwise. */
  function EscapeByte(b: Byte): Text {
    if b == 34 || b == 92 then [92, b]
    else if b == 8 then [92, 98]
    else if b == 9 then [92, 116]
    else if b == 10 then [92, 110]
    else if b == 12 then [92, 102]
    else if b == 13 then [92, 114]
    else if b < 0x20 then [92, 117, 48, 48, HexDigit(b / 16), HexDigit(b % 16)]
    else [b]
  }

  function Escape(s: Text): Text {
    if s == [] then [] else EscapeByte(s[0]) + Escape(s[1..])
  }

  /** The length of `EscapeByte`. */
  function EscapedWidth(b: Byte): (n: nat)
    ensures n >= 1
  {
    if b == 34 || b == 92 || b == 8 || b == 9 || b == 10 || b == 12 || b == 13 then 2
    else if b < 0x20 then 6
    else 1
  }

  function EscapedLen(s: Text): (n: nat)
    ensures n >= |s|
  {
    if s == [] then 0 else EscapedWidth(s[0]) + EscapedLen(s[1..])
  }

  lemma {:induction false} EscapedLenSplits(a: Text, b: Text)
    ensures EscapedLen(a + b) == EscapedLen(a) + EscapedLen(b)
  {
    if a == [] {
      assert a + b == b;
    } else {
      assert (a + b)[1..] == a[1..] + b;
      EscapedLenSplits(a[1..], b);
    }
  }

  lemma {:induction false} PlainIsUnescaped(s: Text)
    requires forall i :: 0 <= i < |s| ==> EscapedWidth(s[i]) == 1
    ensures EscapedLen(s) == |s|
  {
    if s != [] {
      PlainIsUnescaped(s[1..]);
    }
  }

  /** Bytes of the printed keys, each with its quotes and colon. */
  function KeysLen(keys: seq<Text>): nat {
    if keys == [] then 0 else EscapedLen(keys[0]) + 3 + KeysLen(keys[1..])
  }

  /** Bytes of the brackets, commas and keys of an array or object. */
  function Overhead(keys: Option<seq<Text>>, count: nat): nat {
    2 + (if count == 0 then 0 else count - 1) + (if keys.Some? then KeysLen(keys.value) else 0)
  }

  /** The length of the compact serialized form. */
  function SerLen(v: Json): nat
    decreases v, 1
  {
    match v
    case Str(s) => 2 + EscapedLen(s)
    case Scalar(printed) => |printed|
    case Node(keys, items) => Overhead(keys, |items|) + ItemsLen(items)
  }

  function ItemsLen(items: seq<Json>): nat
    decreases items, 0
  {
    if items == [] then 0 else SerLen(items[0]) + ItemsLen(items[1..])
  }

  /** The string leaves, in document order. */
  function Leaves(v: Json): seq<Text>
    decreases v, 1
  {
    match v
    case Str(s) => [s]
    case Scalar(_) => []
    case Node(_, items) => LeavesIn(items)
  }

  function LeavesIn(items: seq<Json>): seq<Text>
    decreases items, 0
  {
    if items == [] then [] else Leaves(items[0]) + LeavesIn(items[1..])
  }

  /** Everything but the text of the string leaves. */
  function Skeleton(v: Json): Json
    decreases v, 1
  {
    match v
    case Str(_) => Str([])
    case Scalar(_) => v
    case Node(keys, items) => Node(keys, SkeletonIn(items))
  }

  function SkeletonIn(items: seq<Json>): (r: seq<Json>)
    ensures |r| == |items|
    decreases items, 0
  {
    if items == [] then [] else [Skeleton(items[0])] + SkeletonIn(items[1..])
  }

  function Total(leaves: seq<Text>): nat {
    if leaves == [] then 0 else EscapedLen(leaves[0]) + Total(leaves[1..])
  }

  lemma {:induction false} TotalSplits(a: seq<Text>, b: seq<Text>)
    ensures Total(a + b) == Total(a) + Total(b)
  {
    if a == [] {
      assert a + b == b;
    } else {
      assert (a + b)[1..] == a[1..] + b;
      TotalSplits(a[1..], b);
    }
  }

  /** A value's length is that of its skeleton plus its leaves'. */
  lemma {:induction false} LenIsSkeletonPlusLeaves(v: Json)
    ensures SerLen(v) == SerLen(Skeleton(v)) + Total(Leaves(v))
    decreases v, 1
  {
    match v
    case Str(s) => assert [s][1..] == [];
    case Scalar(_) =>
    case Node(_, items) => ItemsLenIsSkeletonPlusLeaves(items);
  }

  lemma {:induction false} ItemsLenIsSkeletonPlusLeaves(items: seq<Json>)
    ensures ItemsLen(items) == ItemsLen(SkeletonIn(items)) + Total(LeavesIn(items))
    decreases items, 0
  {
    if items != [] {
      LenIsSkeletonPlusLeaves(items[0]);
      ItemsLenIsSkeletonPlusLeaves(items[1..]);
      TotalSplits(Leaves(items[0]), LeavesIn(items[1..]));
      assert SkeletonIn(items)[1..] == SkeletonIn(items[1..]);
    }
  }

  /** Skeleton and leaves determine a value. */
  lemma {:induction false} SkeletonAndLeavesDetermine(v: Json, w: Json)
    requires Skeleton(v) == Skeleton(w) && Leaves(v) == Leaves(w)
    ensures v == w
    decreases v, 1
  {
    match v
    case Str(s) =>
      assert w.Str? && [s][0] == [w.text][0];
    case Scalar(_) =>
    case Node(_, items) => ItemsDetermine(items, w.items);
  }

  lemma {:induction false} LeafCountFromSkeleton(v: Json, w: Json)
    requires Skeleton(v) == Skeleton(w)
    ensures |Leaves(v)| == |Leaves(w)|
    decreases v, 1
  {
    match v
    case Str(_) =>
    case Scalar(_) =>
    case Node(_, items) => LeafCountFromSkeletons(items, w.items);
  }

  lemma {:induction false} LeafCountFromSkeletons(a: seq<Json>, b: seq<Json>)
    requires SkeletonIn(a) == SkeletonIn(b)
    ensures |LeavesIn(a)| == |LeavesIn(b)|
    decreases a, 0
  {
    assert |a| == |SkeletonIn(a)| == |b|;
    if a != [] {
      assert SkeletonIn(a)[0] == Skeleton(a[0]) && SkeletonIn(b)[0] == Skeleton(b[0]);
      assert SkeletonIn(a)[1..] == SkeletonIn(a[1..]) && SkeletonIn(b)[1..] == SkeletonIn(b[1..]);
      LeafCountFromSkeleton(a[0], b[0]);
      LeafCountFromSkeletons(a[1..], b[1..]);
    }
  }

  lemma {:induction false} ItemsDetermine(a: seq<Json>, b: seq<Json>)
    requires SkeletonIn(a) == SkeletonIn(b) && LeavesIn(a) == LeavesIn(b)
    ensures a == b
    decreases a, 0
  {
    assert |a| == |SkeletonIn(a)| == |b|;
    if a != [] {
      assert SkeletonIn(a)[0] == Skeleton(a[0]) && SkeletonIn(b)[0] == Skeleton(b[0]);
      assert SkeletonIn(a)[1..] == SkeletonIn(a[1..]) && SkeletonIn(b)[1..] == SkeletonIn(b[1..]);
      LeafCountFromSkeleton(a[0], b[0]);
      var n := |Leaves(a[0])|;
      assert Leaves(a[0]) == LeavesIn(a)[..n] && Leaves(b[0]) == LeavesIn(b)[..n];
      assert LeavesIn(a[1..]) == LeavesIn(a)[n..] && LeavesIn(b[1..]) == LeavesIn(b)[n..];
      SkeletonAndLeavesDetermine(a[0], b[0]);
      ItemsDetermine(a[1..], b[1..]);
      assert a == [a[0]] + a[1..] && b == [b[0]] + b[1..];
    }
  }

  // ---- The printed form

  /** Every object has one key per item. */
  predicate WellFormed(v: Json)
    decreases v, 1
  {
    v.Node? ==> (v.keys.Some? ==> |v.keys.value| == |v.items|) && WellFormedIn(v.items)
  }

  predicate WellFormedIn(items: seq<Json>)
    decreases items, 0
  {
    items != [] ==> WellFormed(items[0]) && WellFormedIn(items[1..])
  }

  function Quoted(s: Text): Text { [34] + Escape(s) + [34] }

  /** Compact printing, as `serde_json::to_string`. */
  function Print(v: Json): Text
    requires WellFormed(v)
    decreases v, 1
  {
    match v
    case Str(s) => Quoted(s)
    case Scalar(printed) => printed
    case Node(None, items) => [91] + PrintItems(None, items, true) + [93]
    case Node(Some(keys), items) => [123] + PrintItems(Some(keys), items, true) + [125]
  }

  function PrintItems(keys: Option<seq<Text>>, items: seq<Json>, first: bool): Text
    requires WellFormedIn(items) && (keys.Some? ==> |keys.value| == |items|)
    decreases items, 0
  {
    if items == [] then []
    else
      (if first then [] else [44])
      + (if keys.Some? then Quoted(keys.value[0]) + [58] else [])
      + Print(items[0])
      + PrintItems(if keys.Some? then Some(keys.value[1..]) else None, items[1..], false)
  }

  lemma {:induction false} EscapeLength(s: Text)
    ensures |Escape(s)| == EscapedLen(s)
  {
    if s != [] {
      EscapeLength(s[1..]);
    }
  }

  /** The length function measures the printed form. */
  lemma {:induction false} PrintLength(v: Json)
    requires WellFormed(v)
    ensures |Print(v)| == SerLen(v)
    decreases v, 1
  {
    match v
    case Str(s) => EscapeLength(s);
    case Scalar(_) =>
    case Node(keys, items) => PrintItemsLength(keys, items, true);
  }

  lemma {:induction false} PrintItemsLength(keys: Option<seq<Text>>, items: seq<Json>, first: bool)
    requires WellFormedIn(items) && (keys.Some? ==> |keys.value| == |items|)
    ensures |PrintItems(keys, items, first)|
         == (if items == [] then 0 else |items| - (if first then 1 else 0))
            + (if keys.Some? then KeysLen(keys.value) else 0) + ItemsLen(items)
    decreases items, 0
  {
    if items != [] {
      PrintLength(items[0]);
      PrintItemsLength(if keys.Some? then Some(keys.value[1..]) else None, items[1..], false);
      if keys.Some? {
        EscapeLength(keys.value[0]);
      }
    }
  }
}
