/** UTF-8 text as bytes: well-formedness after section 4 of RFC 3629, and where a text
    may be cut. */
module Utf8 {
  type Byte = b: int | 0 <= b < 256

  type Text = seq<Byte>

  predicate IsTail(b: Byte) { 0x80 <= b < 0xC0 }

  /** Bytes of the well-formed character the text starts with, or 0. */
  function CharLength(s: Text): (n: nat)
    ensures n <= |s| && n <= 4
    ensures n > 0 ==> !IsTail(s[0]) && forall i :: 0 < i < n ==> IsTail(s[i])
  {
    if s == [] then 0
    else if s[0] < 0x80 then 1
    else if |s| >= 2 && 0xC2 <= s[0] <= 0xDF && IsTail(s[1]) then 2
    else if |s| >= 3 && IsTail(s[1]) && IsTail(s[2])
         && ((s[0] == 0xE0 && s[1] >= 0xA0) || 0xE1 <= s[0] <= 0xEC || (s[0] == 0xED && s[1] < 0xA0) || 0xEE <= s[0] <= 0xEF) then 3
    else if |s| >= 4 && IsTail(s[1]) && IsTail(s[2]) && IsTail(s[3])
         && ((s[0] == 0xF0 && s[1] >= 0x90) || 0xF1 <= s[0] <= 0xF3 || (s[0] == 0xF4 && s[1] < 0x90)) then 4
    else 0
  }

  predicate Valid(s: Text) {
    s == [] || (CharLength(s) > 0 && Valid(s[CharLength(s)..]))
  }

  /** `str::is_char_boundary`. */
  predicate IsBoundary(s: Text, i: nat) {
    i == 0 || i == |s| || (i < |s| && !IsTail(s[i]))
  }

  lemma CharLengthPrefix(s: Text, rest: Text)
    requires CharLength(s) > 0
    ensures CharLength(s + rest) == CharLength(s)
    ensures CharLength(s[..CharLength(s)]) == CharLength(s)
  {
    var n := CharLength(s);
    assert forall i :: 0 <= i < |s| ==> (s + rest)[i] == s[i];
    assert forall i :: 0 <= i < n ==> s[..n][i] == s[i];
  }

  /** Cutting a text at a boundary leaves two texts. */
  lemma {:induction false} CutIsValid(s: Text, i: nat)
    requires Valid(s) && i <= |s| && IsBoundary(s, i)
    ensures Valid(s[..i]) && Valid(s[i..])
  {
    if i == 0 {
      assert s[i..] == s;
    } else if i == |s| {
      assert s[..i] == s;
    } else {
      var n := CharLength(s);
      assert i >= n;
      assert s[n..][i - n..] == s[i..] && s[n..][..i - n] == s[n..i];
      CutIsValid(s[n..], i - n);
      CharLengthCut(s, i);
      assert s[..i][n..] == s[n..i];
    }
  }

  lemma CharLengthCut(s: Text, i: nat)
    requires CharLength(s) <= i <= |s| && CharLength(s) > 0
    ensures CharLength(s[..i]) == CharLength(s)
  {
    assert forall j :: 0 <= j < i ==> s[..i][j] == s[j];
  }

  /** Texts concatenate. */
  lemma {:induction false} JoinIsValid(a: Text, b: Text)
    requires Valid(a) && Valid(b)
    ensures Valid(a + b)
  {
    if a == [] {
      assert a + b == b;
    } else {
      var n := CharLength(a);
      CharLengthPrefix(a, b);
      assert (a + b)[n..] == a[n..] + b;
      JoinIsValid(a[n..], b);
    }
  }

  /** The last boundary at or before `i`. */
  function Floor(s: Text, i: nat): (r: nat)
    requires i <= |s|
    ensures r <= i && IsBoundary(s, r)
    ensures forall j :: r < j <= i ==> !IsBoundary(s, j)
  {
    if IsBoundary(s, i) then i else Floor(s, i - 1)
  }

  /** The first boundary at or after `i`. */
  function Ceil(s: Text, i: nat): (r: nat)
    requires i <= |s|
    ensures i <= r <= |s| && IsBoundary(s, r)
    ensures forall j :: i <= j < r ==> !IsBoundary(s, j)
    decreases |s| - i
  {
    if IsBoundary(s, i) then i else Ceil(s, i + 1)
  }

  method FloorCharBoundary(s: Text, i: nat) returns (r: nat)
    requires i <= |s|
    ensures r == Floor(s, i)
  {
    r := i;
    while r > 0 && !IsBoundary(s, r)
      invariant r <= i && Floor(s, r) == Floor(s, i)
    {
      r := r - 1;
    }
  }

  method CeilCharBoundary(s: Text, i: nat) returns (r: nat)
    requires i <= |s|
    ensures r == Ceil(s, i)
  {
    r := i;
    while r < |s| && !IsBoundary(s, r)
      invariant i <= r <= |s| && Ceil(s, r) == Ceil(s, i)
    {
      r := r + 1;
    }
  }
}
