/** What trimming keeps: the cap, the tree, both ends of every leaf, well-formed UTF-8;
    and when an elided leaf is elided again. */
module TrimmerProperties {
  import opened Decimal
  import opened Jsons
  import opened ObserverEvents
  import opened Trimmer
  import opened Utf8
  import opened Wrappers

  // ---- One leaf

  /** `now` is `original`, or still starts with the head and ends with the tail that the
      first elision of `original` kept, without the two overlapping. */
  predicate Survives(original: Text, now: Text) {
    || now == original
    || (var h, t := HeadEnd(original), TailStart(original);
        && LeafShrinks(original)
        && |now| >= h + (|original| - t)
        && now[..h] == original[..h]
        && now[|now| - (|original| - t)..] == original[t..]
        && IsBoundary(now, h))
  }

  lemma ElideEnds(s: Text)
    requires LeafShrinks(s)
    ensures Elide(s)[..HeadEnd(s)] == s[..HeadEnd(s)]
    ensures Elide(s)[HeadEnd(s)..HeadEnd(s) + |Marker(Removed(s))|] == Marker(Removed(s))
    ensures |Elide(s)| == HeadEnd(s) + |Marker(Removed(s))| + (|s| - TailStart(s)) < |s|
    ensures Elide(s)[|Elide(s)| - (|s| - TailStart(s))..] == s[TailStart(s)..]
    ensures Elide(s)[HeadEnd(s)] == 0xE2
  {
    hide Floor, Ceil, HeadEnd, TailStart;
    var h, t, m := HeadEnd(s), TailStart(s), Marker(Removed(s));
    assert m[0] == m[..3][0] == 0xE2;
    assert Elide(s) == s[..h] + m + s[t..];
  }

  lemma MarkerCount(removed: nat)
    ensures Marker(removed)[11..|Marker(removed)| - 10] == Digits(removed)
  {
    hide Digits;
    var m := Marker(removed);
    assert forall i :: 0 <= i < |Digits(removed)| ==> m[11..|m| - 10][i] == m[11 + i] == Digits(removed)[i];
  }

  lemma SliceOfSlice(s: Text, from: nat, to: nat, a: nat, b: nat)
    requires from <= to <= |s| && a <= b <= to - from
    ensures s[from..to][a..b] == s[from + a..from + b]
  {
    forall i | 0 <= i < b - a ensures s[from..to][a..b][i] == s[from + a..from + b][i] {
    }
  }

  /** The count a first elision writes is the number of original bytes that are gone. */
  lemma FirstMarkerIsExact(s: Text)
    requires LeafShrinks(s)
    ensures HeadEnd(s) + |Marker(Removed(s))| <= |Elide(s)|
    ensures Elide(s)[HeadEnd(s) + 11..HeadEnd(s) + |Marker(Removed(s))| - 10] == Digits(Removed(s))
    ensures HeadEnd(s) + Value(Digits(Removed(s))) + (|s| - TailStart(s)) == |s|
  {
    hide Floor, Ceil, HeadEnd, TailStart, Digits, LeafShrinks, Marker, IsBoundary, Elide, Value;
    ElideEnds(s);
    MarkerCount(Removed(s));
    DigitsHaveValue(Removed(s));
    var c, h, m := Elide(s), HeadEnd(s), Marker(Removed(s));
    SliceOfSlice(c, h, h + |m|, 11, |m| - 10);
  }

  /** A boundary at or before 3000 is never cut past, nor one in the last 3000 bytes. */
  lemma HeadReaches(s: Text, h: nat)
    requires h <= |s| && h <= RETAIN && IsBoundary(s, h)
    ensures HeadEnd(s) >= h
  {
  }

  lemma TailReaches(s: Text, t: nat)
    requires t <= |s| <= t + RETAIN && IsBoundary(s, t) && LeafShrinks(s)
    ensures TailStart(s) <= t
  {
  }

  lemma TailIsShort(s: Text)
    requires LeafShrinks(s)
    ensures |s| - TailStart(s) <= RETAIN
  {
  }

  lemma SurvivesOnce(s: Text)
    requires LeafShrinks(s)
    ensures Survives(s, Elide(s))
  {
    hide Floor, Ceil, HeadEnd, TailStart, Marker;
    ElideEnds(s);
  }

  /** Texts with the same head and tail have the same shorter ones. */
  lemma SameEnds(now: Text, c: Text, head: nat, from: nat, h: nat, tail: nat)
    requires h <= head <= |now| && head <= |c| && from <= |now| <= |c| + from && tail <= |now| - from
    requires c[..head] == now[..head] && c[|c| - (|now| - from)..] == now[from..]
    ensures c[..h] == now[..h] && c[|c| - tail..] == now[|now| - tail..]
  {
    assert c[..h] == c[..head][..h] && now[..h] == now[..head][..h];
    assert c[|c| - tail..] == c[|c| - (|now| - from)..][|now| - from - tail..];
    assert now[|now| - tail..] == now[from..][|now| - from - tail..];
  }

  lemma SurvivesAgain(original: Text, now: Text)
    requires Survives(original, now) && LeafShrinks(now) && now != original
    ensures Survives(original, Elide(now))
  {
    hide Floor, Ceil, HeadEnd, TailStart, Marker;
    var h, tail := HeadEnd(original), |original| - TailStart(original);
    var h2, t2 := HeadEnd(now), TailStart(now);
    var c := Elide(now);
    ElideEnds(now);
    HeadReaches(now, h);
    TailIsShort(original);
    assert IsBoundary(now, |now| - tail) by {
      if tail > 0 {
        assert original[TailStart(original)..][0] == now[|now| - tail..][0];
      }
    }
    TailReaches(now, |now| - tail);
    SameEnds(now, c, h2, t2, h, tail);
    assert IsBoundary(c, h) by {
      if h < h2 {
        assert c[h] == c[..h2][h] == now[h];
      }
    }
  }

  /** Both kept ends of a leaf survive every further elision. */
  lemma EndsSurvive(original: Text, now: Text)
    requires Survives(original, now) && LeafShrinks(now)
    ensures Survives(original, Elide(now))
  {
    hide LeafShrinks, Elide, Survives;
    if now == original {
      SurvivesOnce(now);
    } else {
      SurvivesAgain(original, now);
    }
  }

  lemma {:induction false} AsciiIsValid(s: Text)
    requires forall i :: 0 <= i < |s| ==> s[i] < 0x80
    ensures Utf8.Valid(s)
  {
    if s != [] {
      AsciiIsValid(s[1..]);
    }
  }

  lemma MarkerIsValid(removed: nat)
    ensures Utf8.Valid(Marker(removed))
  {
    var m := Marker(removed);
    var inner := m[3..|m| - 3];
    forall i | 0 <= i < |inner| ensures inner[i] < 0x80 {
      if 8 <= i < 8 + |Digits(removed)| {
        assert inner[i] == Digits(removed)[i - 8];
      }
    }
    AsciiIsValid(inner);
    assert Utf8.Valid(ELLIPSIS) by {
      assert CharLength(ELLIPSIS) == 3 && ELLIPSIS[3..] == [];
    }
    JoinIsValid(ELLIPSIS, inner);
    JoinIsValid(ELLIPSIS + inner, ELLIPSIS);
    assert m == ELLIPSIS + inner + ELLIPSIS;
  }

  /** Cuts fall between characters, so an elided leaf is still UTF-8. */
  lemma ElideIsValid(s: Text)
    requires Utf8.Valid(s) && LeafShrinks(s)
    ensures Utf8.Valid(Elide(s))
  {
    hide Utf8.Valid, Marker, HeadEnd, TailStart, IsBoundary;
    var h, t := HeadEnd(s), TailStart(s);
    CutIsValid(s, h);
    CutIsValid(s, t);
    MarkerIsValid(t - h);
    JoinIsValid(s[..h], Marker(t - h));
    JoinIsValid(s[..h] + Marker(t - h), s[t..]);
  }

  // ---- Eliding twice

  /** No character is longer than four bytes, so the cuts stay within three of 3000. */
  lemma {:induction false} BoundariesAreClose(s: Text, i: nat)
    requires Utf8.Valid(s) && i + 4 <= |s|
    ensures IsBoundary(s, i) || IsBoundary(s, i + 1) || IsBoundary(s, i + 2) || IsBoundary(s, i + 3)
  {
    var n := CharLength(s);
    if i >= n {
      BoundariesAreClose(s[n..], i - n);
    } else if n < |s| {
      BoundariesAreClose2(s, n);
    }
  }

  lemma BoundariesAreClose2(s: Text, n: nat)
    requires Utf8.Valid(s) && n == CharLength(s) && 0 < n < |s|
    ensures IsBoundary(s, n)
  {
    assert CharLength(s[n..]) > 0;
  }

  predicate NearRetain(n: nat) { RETAIN - 3 <= n <= RETAIN }

  lemma CutsAreClose(s: Text)
    requires Utf8.Valid(s) && LeafShrinks(s)
    ensures NearRetain(HeadEnd(s)) && NearRetain(|s| - TailStart(s)) && |s| > 2 * RETAIN
  {
    hide Utf8.Valid, Marker;
    if |s| > RETAIN {
      BoundariesAreClose(s, RETAIN - 3);
      BoundariesAreClose(s, |s| - RETAIN);
    }
  }

  /** Bytes a second elision adds to a kept end: three when a four-byte character left it
      three short of 3000, because the marker's own ellipsis then fits. */
  function Slack(kept: nat): nat { if kept == RETAIN - 3 then 3 else 0 }

  lemma ElidedBytes(s: Text)
    requires LeafShrinks(s)
    ensures
      var c, h, e := Elide(s), HeadEnd(s), HeadEnd(s) + |Marker(Removed(s))|;
      && e <= |c| && e >= h + 8
      && c[h] == 0xE2 && c[h + 1] == 0x80 && c[h + 2] == 0xA6 && c[h + 3] == 0x5B
      && c[e - 3] == 0xE2 && c[e - 2] == 0x80 && c[e - 1] == 0xA6
  {
    hide Floor, Ceil, HeadEnd, TailStart, Digits, LeafShrinks, Marker, IsBoundary, Elide;
    var c, h, m := Elide(s), HeadEnd(s), Marker(Removed(s));
    ElideEnds(s);
    forall i | 0 <= i < |m| ensures c[h + i] == m[i] {
      assert c[h..h + |m|][i] == m[i];
    }
    var last := m[|m| - 3..];
    assert m[..3][0] == 0xE2 && m[..3][1] == 0x80 && m[..3][2] == 0xA6;
    assert last[0] == 0xE2 && last[1] == 0x80 && last[2] == 0xA6;
  }

  lemma HeadOfElided(s: Text)
    requires Utf8.Valid(s) && LeafShrinks(s)
    ensures HeadEnd(Elide(s)) == HeadEnd(s) + Slack(HeadEnd(s))
  {
    hide Utf8.Valid, Marker, LeafShrinks, TailStart, Elide;
    CutsAreClose(s);
    ElideEnds(s);
    ElidedBytes(s);
    HeadReaches(Elide(s), HeadEnd(s) + Slack(HeadEnd(s)));
  }

  lemma TailIs(c: Text, p: nat)
    requires HeadEnd(c) <= p <= |c| <= p + RETAIN && RETAIN <= |c| && IsBoundary(c, p)
    requires forall j :: |c| - RETAIN <= j < p ==> !IsBoundary(c, j)
    ensures TailStart(c) == p
  {
    hide HeadEnd;
  }

  lemma TailOfElided(s: Text)
    requires Utf8.Valid(s) && LeafShrinks(s)
    ensures HeadEnd(Elide(s)) < |Elide(s)| - (|s| - TailStart(s)) - Slack(|s| - TailStart(s)) == TailStart(Elide(s))
  {
    hide Utf8.Valid, Marker, LeafShrinks, HeadEnd, Elide;
    CutsAreClose(s);
    ElideEnds(s);
    ElidedBytes(s);
    HeadOfElided(s);
    var c, tail := Elide(s), |s| - TailStart(s);
    assert s[TailStart(s)..][0] == c[|c| - tail..][0];
    TailIs(c, |c| - tail - Slack(tail));
  }

  /** When a leaf that was just elided is elided again: exactly when the count in its
      marker has three digits or more, plus three for each end where a four-byte character
      was cut. */
  lemma ElidedAgainExactly(s: Text)
    requires Utf8.Valid(s) && LeafShrinks(s)
    ensures LeafShrinks(Elide(s)) <==>
              |Digits(Removed(s))| >= 3 + Slack(HeadEnd(s)) + Slack(|s| - TailStart(s))
  {
    hide Utf8.Valid, HeadEnd, TailStart, Elide, Digits;
    HeadOfElided(s);
    TailOfElided(s);
    ElideEnds(s);
    var d := |Digits(Removed(s))|;
    DigitCount(Removed(s));
    DigitCount(Removed(Elide(s)));
  }

  /** Above 6100 plain bytes the second elision always comes first in line: it elides the
      first marker, and the new count describes that marker instead of the text. */
  lemma PlainLeafElidedTwice(s: Text)
    requires |s| >= 2 * RETAIN + 100 && forall i :: 0 <= i < |s| ==> s[i] < 0x80
    ensures LeafShrinks(s) && LeafShrinks(Elide(s))
    ensures Removed(s) == |s| - 2 * RETAIN && Removed(Elide(s)) == |Marker(Removed(s))|
  {
    hide Utf8.Valid, Elide, Digits;
    AsciiIsValid(s);
    assert HeadEnd(s) == RETAIN && TailStart(s) == |s| - RETAIN;
    DigitCount(Removed(s));
    ElidedAgainExactly(s);
    HeadOfElided(s);
    TailOfElided(s);
    ElideEnds(s);
  }

  // ---- A whole frame

  ghost predicate AllSurvive(before: seq<Text>, after: seq<Text>) {
    |before| == |after| && forall i :: 0 <= i < |before| ==> Survives(before[i], after[i])
  }

  ghost predicate AllValid(leaves: seq<Text>) {
    forall i :: 0 <= i < |leaves| ==> Utf8.Valid(leaves[i])
  }

  /** `w` is `v` after some elisions: same tree, same leaves except for cut middles. */
  ghost predicate Kept(v: Json, w: Json) {
    && Skeleton(w) == Skeleton(v)
    && AllSurvive(Leaves(v), Leaves(w))
    && (AllValid(Leaves(v)) ==> AllValid(Leaves(w)))
  }

  ghost predicate Exhausted(v: Json) {
    forall i :: 0 <= i < |Leaves(v)| ==> !LeafShrinks(Leaves(v)[i])
  }

  lemma ShrinkKeeps(v: Json, w: Json)
    requires Kept(v, w) && Shrink(w).Some?
    ensures Kept(v, Shrink(w).value)
  {
    hide LeafShrinks, Elide, Survives, Utf8.Valid, Leaves, Skeleton, Shrink;
    var k := ShrinkElidesTheLargest(w);
    EndsSurvive(Leaves(v)[k], Leaves(w)[k]);
    if AllValid(Leaves(w)) {
      ElideIsValid(Leaves(w)[k]);
    }
  }

  /** The loop's result: it fits and everything is kept, or it ran out of leaves. */
  lemma {:induction false} TrimmedKeeps(v: Json, w: Json, room: int) returns (last: Json)
    requires Kept(v, w) && SerLen(w) > room
    ensures Trimmed(w, room).Some? ==> Kept(v, Trimmed(w, room).value) && SerLen(Trimmed(w, room).value) <= room
    ensures Trimmed(w, room).None? ==> Kept(v, last) && Exhausted(last) && SerLen(last) > room
    decreases SerLen(w)
  {
    hide Kept, Shrink, SerLen, Leaves, LeafShrinks;
    last := w;
    var k := ShrinkElidesTheLargest(w);
    if Shrink(w).Some? {
      ShrinkShortens(w);
      ShrinkKeeps(v, w);
      if SerLen(Shrink(w).value) > room {
        last := TrimmedKeeps(v, Shrink(w).value, room);
      }
    }
  }

  lemma TwoKeys(a: Text, b: Text)
    ensures KeysLen([a, b]) == EscapedLen(a) + EscapedLen(b) + 6
  {
    hide EscapedLen;
    assert [a, b][1..] == [b];
    assert KeysLen([b][1..]) == 0;
  }

  lemma TwoItems(a: Json, b: Json)
    ensures ItemsLen([a, b]) == SerLen(a) + SerLen(b)
  {
    hide SerLen;
    assert [a, b][1..] == [b];
    assert ItemsLen([b][1..]) == 0;
  }

  lemma StubLen(kind: Text, originalBytes: nat)
    ensures SerLen(Stub(kind, originalBytes)) == 48 + EscapedLen(kind) + |Digits(originalBytes)|
  {
    hide EscapedLen, KeysLen, ItemsLen, Digits;
    PlainIsUnescaped(ELIDED_KEY);
    PlainIsUnescaped(ORIGINAL_BYTES_KEY);
    PlainIsUnescaped(PAYLOAD_TOO_LARGE);
    EscapedLenSplits(kind, PAYLOAD_TOO_LARGE);
    TwoKeys(ELIDED_KEY, ORIGINAL_BYTES_KEY);
    TwoItems(Str(kind + PAYLOAD_TOO_LARGE), Scalar(Digits(originalBytes)));
  }

  /** Every frame: the envelope is untouched; a frame under the cap is untouched; otherwise
      the payload fits and keeps its tree and both ends of every leaf, or it is the stub,
      and that only after an exhausted payload still did not fit. */
  lemma FittedResult(e: Event) returns (last: Json)
    ensures Fitted(e) == e.(payload := Fitted(e).payload)
    ensures SerializedLen(e) <= MAX_PLAINTEXT ==> Fitted(e) == e
    ensures || (SerializedLen(Fitted(e)) <= MAX_PLAINTEXT && Kept(e.payload, Fitted(e).payload))
            || (&& Fitted(e).payload == Stub(e.kind, SerLen(e.payload))
                && Kept(e.payload, last) && Exhausted(last)
                && EnvelopeLen(e) + SerLen(last) > MAX_PLAINTEXT)
  {
    hide Kept, SerLen, EnvelopeLen, Stub, Exhausted, Trimmed;
    last := e.payload;
    EverythingIsKept(e.payload);
    EnvelopeIgnoresPayload(e, Fitted(e).payload);
    if SerializedLen(e) > MAX_PLAINTEXT {
      last := TrimmedKeeps(e.payload, e.payload, MAX_PLAINTEXT - EnvelopeLen(e));
    }
  }

  lemma EverythingIsKept(v: Json)
    ensures Kept(v, v)
  {
  }

  /** The result fits unless it is the stub and the rest of the envelope leaves no room
      for that; the payload itself no longer matters. */
  lemma FitsUnlessEnvelopeTooLong(e: Event)
    ensures Fitted(e).payload != Stub(e.kind, SerLen(e.payload)) ==> SerializedLen(Fitted(e)) <= MAX_PLAINTEXT
    ensures Fitted(e).payload == Stub(e.kind, SerLen(e.payload)) ==>
              (SerializedLen(Fitted(e)) <= MAX_PLAINTEXT <==>
               EnvelopeLen(e) + 48 + EscapedLen(e.kind) + |Digits(SerLen(e.payload))| <= MAX_PLAINTEXT)
  {
    hide Kept, Stub, Exhausted, Trimmed, SerLen, EnvelopeLen, EscapedLen, Digits;
    var last := FittedResult(e);
    StubLen(e.kind, SerLen(e.payload));
    EnvelopeIgnoresPayload(e, Fitted(e).payload);
  }

  // ---- No more than needed

  /** `w` is `v` with one leaf elided, the first of the longest that shrink. */
  ghost predicate Elides(v: Json, w: Json) { exists k: nat :: ElidedAt(v, w, k) }

  /** Payloads from `v` on, each one elision after the one before, and all but the last too
      long for the room. */
  ghost predicate Elisions(v: Json, room: int, chain: seq<Json>) {
    && chain != [] && chain[0] == v
    && forall i :: 0 <= i < |chain| - 1 ==> SerLen(chain[i]) > room && Elides(chain[i], chain[i + 1])
  }

  lemma PrependElision(v: Json, w: Json, room: int, chain: seq<Json>)
    requires SerLen(v) > room && Elides(v, w) && Elisions(w, room, chain)
    ensures Elisions(v, room, [v] + chain)
  {
    hide Elides, SerLen;
    forall i | 0 <= i < |chain| ensures SerLen(([v] + chain)[i]) > room && Elides(([v] + chain)[i], ([v] + chain)[i + 1]) {
      if i > 0 {
        assert ([v] + chain)[i] == chain[i - 1] && ([v] + chain)[i + 1] == chain[i];
      }
    }
  }

  lemma {:induction false} TrimmedStopsAtFirstFit(v: Json, room: int) returns (chain: seq<Json>)
    requires SerLen(v) > room
    ensures Elisions(v, room, chain)
    ensures var last := chain[|chain| - 1];
      if Trimmed(v, room).Some? then Trimmed(v, room).value == last && SerLen(last) <= room
      else Exhausted(last) && SerLen(last) > room
    decreases SerLen(v)
  {
    hide Shrink, SerLen, Leaves, LeafShrinks, Elisions;
    var k := ShrinkElidesTheLargest(v);
    OneElision(v, room);
    chain := [v];
    if Shrink(v).Some? {
      var w := Shrink(v).value;
      assert Elides(v, w);
      ShrinkShortens(v);
      var rest := [w];
      OneElision(w, room);
      if SerLen(w) > room {
        rest := TrimmedStopsAtFirstFit(w, room);
      }
      PrependElision(v, w, room, rest);
      ElisionsNotEmpty(w, room, rest);
      chain := [v] + rest;
      assert chain[|chain| - 1] == rest[|rest| - 1];
    }
  }

  lemma OneElision(v: Json, room: int)
    ensures Elisions(v, room, [v])
  {
  }

  lemma ElisionsNotEmpty(v: Json, room: int, chain: seq<Json>)
    requires Elisions(v, room, chain)
    ensures chain != []
  {
  }

  /** Nothing is elided that did not have to be: a frame over the cap goes through single
      elisions, each needed because the frame still did not fit, and what is published is
      the first that fits, or the stub once nothing is left to elide. */
  lemma ElidesNoMoreThanNeeded(e: Event) returns (chain: seq<Json>)
    requires SerializedLen(e) > MAX_PLAINTEXT
    ensures Elisions(e.payload, MAX_PLAINTEXT - EnvelopeLen(e), chain)
    ensures var last, fits := chain[|chain| - 1], EnvelopeLen(e) + SerLen(chain[|chain| - 1]) <= MAX_PLAINTEXT;
      && (fits ==> Fitted(e) == e.(payload := last))
      && (!fits ==> Exhausted(last) && Fitted(e) == e.(payload := Stub(e.kind, SerLen(e.payload))))
  {
    hide SerLen, EnvelopeLen, Stub, Exhausted, Trimmed, Elisions;
    EnvelopeIgnoresPayload(e, e.payload);
    chain := TrimmedStopsAtFirstFit(e.payload, MAX_PLAINTEXT - EnvelopeLen(e));
    ElisionsNotEmpty(e.payload, MAX_PLAINTEXT - EnvelopeLen(e), chain);
  }
}
