/** Trimming an oversized observer frame to the plaintext cap. */
module Trimmer {
  import opened Decimal
  import opened Jsons
  import opened ObserverEvents
  import opened Utf8
  import opened Wrappers

  const RETAIN: nat := 3000
  const MAX_PLAINTEXT: nat := 65535
  const ELLIPSIS: Text := [0xE2, 0x80, 0xA6]

  /** `…[elided N bytes]…` */
  function Marker(removed: nat): (m: Text)
    ensures |m| == 21 + |Digits(removed)|
    ensures m[..3] == ELLIPSIS && m[|m| - 3..] == ELLIPSIS && m[3] == 0x5B
  {
    ELLIPSIS + [0x5B, 0x65, 0x6C, 0x69, 0x64, 0x65, 0x64, 0x20] + Digits(removed)
    + [0x20, 0x62, 0x79, 0x74, 0x65, 0x73, 0x5D] + ELLIPSIS
  }

  /** End of the head that is kept. */
  function HeadEnd(s: Text): (h: nat)
    ensures h <= |s| && h <= RETAIN && IsBoundary(s, h)
  {
    Floor(s, if |s| < RETAIN then |s| else RETAIN)
  }

  /** Start of the tail that is kept. */
  function TailStart(s: Text): (t: nat)
    ensures HeadEnd(s) <= t <= |s| && IsBoundary(s, t)
  {
    var t := Ceil(s, if |s| < RETAIN then 0 else |s| - RETAIN);
    if t < HeadEnd(s) then HeadEnd(s) else t
  }

  function Removed(s: Text): nat { TailStart(s) - HeadEnd(s) }

  /** Whether eliding a leaf makes it strictly shorter. */
  predicate LeafShrinks(s: Text) {
    TailStart(s) > HeadEnd(s) && HeadEnd(s) + |Marker(Removed(s))| + (|s| - TailStart(s)) < |s|
  }

  function Elide(s: Text): Text {
    s[..HeadEnd(s)] + Marker(Removed(s)) + s[TailStart(s)..]
  }

  /** The greatest length among the leaves that shrink. */
  function MaxShrinkable(v: Json): Option<nat>
    decreases v, 1
  {
    match v
    case Str(s) => if LeafShrinks(s) then Some(|s|) else None
    case Scalar(_) => None
    case Node(_, items) => MaxShrinkableIn(items)
  }

  function MaxShrinkableIn(items: seq<Json>): Option<nat>
    decreases items, 0
  {
    if items == [] then None
    else
      var first, rest := MaxShrinkable(items[0]), MaxShrinkableIn(items[1..]);
      if first.None? then rest
      else if rest.None? then first
      else Some(Max(first.value, rest.value))
  }

  /** The value with its first shrinkable leaf of length `target` elided. */
  function ElideFirst(v: Json, target: nat): Option<Json>
    decreases v, 1
  {
    match v
    case Str(s) => if |s| == target && LeafShrinks(s) then Some(Str(Elide(s))) else None
    case Scalar(_) => None
    case Node(keys, items) =>
      var r := ElideFirstIn(items, target);
      if r.Some? then Some(Node(keys, r.value)) else None
  }

  function ElideFirstIn(items: seq<Json>, target: nat): Option<seq<Json>>
    decreases items, 0
  {
    if items == [] then None
    else
      var first := ElideFirst(items[0], target);
      if first.Some? then Some([first.value] + items[1..])
      else
        var rest := ElideFirstIn(items[1..], target);
        if rest.Some? then Some([items[0]] + rest.value) else None
  }

  /** One turn of the loop: the largest shrinkable leaf, elided. */
  function Shrink(v: Json): Option<Json> {
    match MaxShrinkable(v)
    case None => None
    case Some(target) => ElideFirst(v, target)
  }

  // ---- What one turn does, in terms of the leaves alone

  predicate Matches(s: Text, target: nat) { |s| == target && LeafShrinks(s) }

  /** Index `k` is the first leaf that matches. */
  predicate FirstMatch(leaves: seq<Text>, k: nat, target: nat) {
    k < |leaves| && Matches(leaves[k], target) && forall j :: 0 <= j < k ==> !Matches(leaves[j], target)
  }

  lemma {:induction false} MaxShrinkableOfLeaves(v: Json)
    ensures MaxShrinkable(v).None? <==> forall s :: s in Leaves(v) ==> !LeafShrinks(s)
    ensures MaxShrinkable(v).Some? ==> exists s :: s in Leaves(v) && Matches(s, MaxShrinkable(v).value)
    ensures MaxShrinkable(v).Some? ==> forall s :: s in Leaves(v) && LeafShrinks(s) ==> |s| <= MaxShrinkable(v).value
    decreases v, 1
  {
    hide LeafShrinks;
    match v
    case Str(s) => assert s in [s];
    case Scalar(_) =>
    case Node(_, items) => MaxShrinkableOfItems(items);
  }

  lemma {:induction false} MaxShrinkableOfItems(items: seq<Json>)
    ensures MaxShrinkableIn(items).None? <==> forall s :: s in LeavesIn(items) ==> !LeafShrinks(s)
    ensures MaxShrinkableIn(items).Some? ==> exists s :: s in LeavesIn(items) && Matches(s, MaxShrinkableIn(items).value)
    ensures MaxShrinkableIn(items).Some? ==>
              forall s :: s in LeavesIn(items) && LeafShrinks(s) ==> |s| <= MaxShrinkableIn(items).value
    decreases items, 0
  {
    hide LeafShrinks;
    if items != [] {
      MaxShrinkableOfLeaves(items[0]);
      MaxShrinkableOfItems(items[1..]);
    }
  }

  lemma {:induction false} ElideFirstOfLeaves(v: Json, target: nat) returns (k: nat)
    ensures ElideFirst(v, target).None? ==> forall s :: s in Leaves(v) ==> !Matches(s, target)
    ensures ElideFirst(v, target).Some? ==>
              && FirstMatch(Leaves(v), k, target)
              && Leaves(ElideFirst(v, target).value) == Leaves(v)[k := Elide(Leaves(v)[k])]
              && Skeleton(ElideFirst(v, target).value) == Skeleton(v)
    decreases v, 1
  {
    hide LeafShrinks, Elide;
    k := 0;
    match v
    case Str(s) =>
      assert [s][0 := Elide(s)] == [Elide(s)];
    case Scalar(_) =>
    case Node(_, items) => k := ElideFirstOfItems(items, target);
  }

  lemma {:induction false} ElideFirstOfItems(items: seq<Json>, target: nat) returns (k: nat)
    ensures ElideFirstIn(items, target).None? ==> forall s :: s in LeavesIn(items) ==> !Matches(s, target)
    ensures ElideFirstIn(items, target).Some? ==>
              && FirstMatch(LeavesIn(items), k, target)
              && LeavesIn(ElideFirstIn(items, target).value) == LeavesIn(items)[k := Elide(LeavesIn(items)[k])]
              && SkeletonIn(ElideFirstIn(items, target).value) == SkeletonIn(items)
    decreases items, 0
  {
    hide LeafShrinks, Elide;
    k := 0;
    if items != [] {
      k := ElideFirstOfLeaves(items[0], target);
      var first := ElideFirst(items[0], target);
      var a, b := Leaves(items[0]), LeavesIn(items[1..]);
      if first.Some? {
        assert ([first.value] + items[1..])[1..] == items[1..];
        assert a[k := Elide(a[k])] + b == (a + b)[k := Elide((a + b)[k])];
      } else {
        var j := ElideFirstOfItems(items[1..], target);
        var rest := ElideFirstIn(items[1..], target);
        k := |a| + j;
        if rest.Some? {
          assert ([items[0]] + rest.value)[1..] == rest.value;
          assert a + b[j := Elide(b[j])] == (a + b)[k := Elide((a + b)[k])];
          assert FirstMatch(a + b, k, target);
        }
      }
    }
  }

  /** One leaf of `v`, at index `k`, was elided: the first of the longest that shrink. */
  ghost predicate ElidedAt(v: Json, w: Json, k: nat) {
    && k < |Leaves(v)|
    && LeafShrinks(Leaves(v)[k])
    && (forall j :: 0 <= j < |Leaves(v)| && LeafShrinks(Leaves(v)[j]) ==> |Leaves(v)[j]| <= |Leaves(v)[k]|)
    && (forall j :: 0 <= j < k && LeafShrinks(Leaves(v)[j]) ==> |Leaves(v)[j]| < |Leaves(v)[k]|)
    && Leaves(w) == Leaves(v)[k := Elide(Leaves(v)[k])]
    && Skeleton(w) == Skeleton(v)
  }

  /** A turn finds no leaf exactly when none shrinks; otherwise it elides the first of the
      longest shrinkable leaves and touches nothing else. */
  lemma {:induction false} ShrinkElidesTheLargest(v: Json) returns (k: nat)
    ensures Shrink(v).None? <==> forall s :: s in Leaves(v) ==> !LeafShrinks(s)
    ensures Shrink(v).Some? ==> ElidedAt(v, Shrink(v).value, k)
  {
    hide LeafShrinks, Elide, ElideFirst, MaxShrinkable, Leaves, Skeleton;
    k := 0;
    MaxShrinkableOfLeaves(v);
    if MaxShrinkable(v).Some? {
      var target := MaxShrinkable(v).value;
      k := ElideFirstOfLeaves(v, target);
      assert Shrink(v) == ElideFirst(v, target);
      forall j | 0 <= j < k && LeafShrinks(Leaves(v)[j]) ensures |Leaves(v)[j]| < target {
        assert !Matches(Leaves(v)[j], target);
      }
    }
  }

  // ---- Progress

  lemma {:induction false} MarkerIsPlain(removed: nat)
    ensures EscapedLen(Marker(removed)) == |Marker(removed)|
  {
    var m := Marker(removed);
    forall i | 0 <= i < |m| ensures EscapedWidth(m[i]) == 1 {
      if 11 <= i < 11 + |Digits(removed)| {
        assert m[i] == Digits(removed)[i - 11];
      }
    }
    PlainIsUnescaped(m);
  }

  /** The marker needs no escaping and eliding never shortens an escape, so the serialized
      leaf shrinks whenever the raw one does. */
  lemma {:induction false} ElideShrinksEscaped(s: Text)
    requires LeafShrinks(s)
    ensures EscapedLen(Elide(s)) < EscapedLen(s)
  {
    hide EscapedLen, Floor, Ceil, HeadEnd, TailStart, Marker, Digits;
    var h, t := HeadEnd(s), TailStart(s);
    assert s == s[..h] + (s[h..t] + s[t..]);
    EscapedLenSplits(s[..h], s[h..t] + s[t..]);
    EscapedLenSplits(s[h..t], s[t..]);
    var m := Marker(t - h);
    EscapedLenSplits(s[..h] + m, s[t..]);
    EscapedLenSplits(s[..h], m);
    MarkerIsPlain(t - h);
  }

  lemma {:induction false} TotalAfterUpdate(leaves: seq<Text>, k: nat, s: Text)
    requires k < |leaves|
    ensures Total(leaves[k := s]) == Total(leaves) - EscapedLen(leaves[k]) + EscapedLen(s)
  {
    if k > 0 {
      assert leaves[k := s][1..] == leaves[1..][k - 1 := s];
      TotalAfterUpdate(leaves[1..], k - 1, s);
    } else {
      assert leaves[k := s][1..] == leaves[1..];
    }
  }

  /** Every turn strictly shortens the serialized value. */
  lemma {:induction false} ShrinkShortens(v: Json)
    requires Shrink(v).Some?
    ensures SerLen(Shrink(v).value) < SerLen(v)
  {
    hide LeafShrinks, Elide, Shrink, Leaves, Skeleton;
    var w := Shrink(v).value;
    var k := ShrinkElidesTheLargest(v);
    LenIsSkeletonPlusLeaves(v);
    LenIsSkeletonPlusLeaves(w);
    ElideShrinksEscaped(Leaves(v)[k]);
    TotalAfterUpdate(Leaves(v), k, Elide(Leaves(v)[k]));
  }

  // ---- The whole loop

  /** The payload the loop ends with when it must fit into `room` bytes and does not yet:
      nothing when every shrinkable leaf is gone and it still does not. */
  function Trimmed(v: Json, room: int): Option<Json>
    decreases SerLen(v)
  {
    match Shrink(v)
    case None => None
    case Some(w) =>
      ShrinkShortens(v);
      if SerLen(w) <= room then Some(w) else Trimmed(w, room)
  }

  const ELIDED_KEY: Text := [0x65, 0x6C, 0x69, 0x64, 0x65, 0x64]
  const ORIGINAL_BYTES_KEY: Text := [0x6F, 0x72, 0x69, 0x67, 0x69, 0x6E, 0x61, 0x6C, 0x42, 0x79, 0x74, 0x65, 0x73]
  const PAYLOAD_TOO_LARGE: Text :=
    [0x20, 0x70, 0x61, 0x79, 0x6C, 0x6F, 0x61, 0x64, 0x20, 0x74, 0x6F, 0x6F, 0x20, 0x6C, 0x61, 0x72, 0x67, 0x65]

  /** `{"elided": "<kind> payload too large", "originalBytes": n}` */
  function Stub(kind: Text, originalBytes: nat): Json {
    Node(Some([ELIDED_KEY, ORIGINAL_BYTES_KEY]), [Str(kind + PAYLOAD_TOO_LARGE), Scalar(Digits(originalBytes))])
  }

  function Fitted(e: Event): Event {
    if SerializedLen(e) <= MAX_PLAINTEXT then e
    else
      match Trimmed(e.payload, MAX_PLAINTEXT - EnvelopeLen(e))
      case Some(p) => e.(payload := p)
      case None => e.(payload := Stub(e.kind, SerLen(e.payload)))
  }

  /** `fit_observer_event_to_budget`. */
  method FitEventToBudget(e: Event) returns (fitted: Event)
    ensures fitted == Fitted(e)
  {
    hide LeafShrinks, Elide, Leaves, Skeleton, ElideFirst, MaxShrinkable, EnvelopeLen, Stub, SerLen;
    fitted := e;
    if SerializedLen(fitted) <= MAX_PLAINTEXT {
      return;
    }
    var originalBytes := SerLen(e.payload);
    var leaf := MaxShrinkable(fitted.payload);
    while leaf.Some?
      invariant fitted == e.(payload := fitted.payload)
      invariant leaf == MaxShrinkable(fitted.payload)
      invariant SerializedLen(e) > MAX_PLAINTEXT
      invariant Trimmed(e.payload, MAX_PLAINTEXT - EnvelopeLen(e)) == Trimmed(fitted.payload, MAX_PLAINTEXT - EnvelopeLen(e))
      decreases SerLen(fitted.payload)
    {
      var k := ShrinkElidesTheLargest(fitted.payload);
      MaxShrinkableOfLeaves(fitted.payload);
      assert Shrink(fitted.payload).Some?;
      ShrinkShortens(fitted.payload);
      fitted := fitted.(payload := ElideFirst(fitted.payload, leaf.value).value);
      EnvelopeIgnoresPayload(e, fitted.payload);
      if SerializedLen(fitted) <= MAX_PLAINTEXT {
        return;
      }
      leaf := MaxShrinkable(fitted.payload);
    }
    fitted := fitted.(payload := Stub(fitted.kind, originalBytes));
  }
}
