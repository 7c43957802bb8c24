/** Reading a JSON string back, by section 7 of RFC 8259. */
module JsonStrings {
  import opened Jsons
  import opened Utf8
  import opened Wrappers

  function HexValue(b: Byte): Option<nat> {
    if 48 <= b <= 57 then Some(b as int - 48)
    else if 97 <= b <= 102 then Some(b as int - 87)
    else if 65 <= b <= 70 then Some(b as int - 55)
    else None
  }

  /** What the letter after a backslash stands for. */
  function ShortEscape(b: Byte): Option<Byte> {
    if b == 34 || b == 92 || b == 47 then Some(b)
    else if b == 98 then Some(8)
    else if b == 102 then Some(12)
    else if b == 110 then Some(10)
    else if b == 114 then Some(13)
    else if b == 116 then Some(9)
    else None
  }

  /** A byte of the string and how many bytes it was written with; of the `\u` escapes only
      those of ASCII. */
  function ReadByte(s: Text): (r: Option<(Byte, nat)>)
    ensures r.Some? ==> 0 < r.value.1 <= |s|
  {
    if s == [] || s[0] < 0x20 || s[0] == 34 then None
    else if s[0] != 92 then Some((s[0], 1))
    else if |s| >= 2 && ShortEscape(s[1]).Some? then Some((ShortEscape(s[1]).value, 2))
    else if |s| >= 6 && s[1] == 117 && s[2] == 48 && s[3] == 48 && HexValue(s[4]).Some? && HexValue(s[5]).Some?
         && HexValue(s[4]).value < 8 then
      Some((16 * HexValue(s[4]).value + HexValue(s[5]).value, 6))
    else None
  }

  /** The string up to the closing quote, and what follows. */
  function ReadRest(s: Text): Option<(Text, Text)> {
    if s != [] && s[0] == 34 then Some(([], s[1..]))
    else
      var b := ReadByte(s);
      if b.None? then None
      else
        var more := ReadRest(s[b.value.1..]);
        if more.None? then None else Some(([b.value.0] + more.value.0, more.value.1))
  }

  function ReadString(s: Text): Option<(Text, Text)> {
    if s == [] || s[0] != 34 then None else ReadRest(s[1..])
  }

  lemma EscapeByteReadsBack(b: Byte, tail: Text)
    ensures ReadByte(EscapeByte(b) + tail) == Some((b, |EscapeByte(b)|))
    ensures EscapeByte(b)[0] != 34
  {
    var e := EscapeByte(b);
    assert forall i :: 0 <= i < |e| ==> (e + tail)[i] == e[i];
  }

  lemma {:induction false} EscapeReadsBack(s: Text, tail: Text)
    ensures ReadRest(Escape(s) + [34] + tail) == Some((s, tail))
  {
    hide EscapeByte, ReadByte;
    if s == [] {
      assert (Escape(s) + [34] + tail)[1..] == tail;
    } else {
      var e, rest := EscapeByte(s[0]), Escape(s[1..]) + [34] + tail;
      var all := Escape(s) + [34] + tail;
      assert all == e + rest;
      EscapeByteReadsBack(s[0], rest);
      EscapeReadsBack(s[1..], tail);
      assert all[0] == e[0] && all[|e|..] == rest;
      assert [s[0]] + s[1..] == s;
    }
  }

  /** Every string reads back from its printed form, whatever follows. */
  lemma StringsReadBack(s: Text, tail: Text)
    ensures ReadString(Quoted(s) + tail) == Some((s, tail))
  {
    EscapeReadsBack(s, tail);
    hide Escape, ReadRest;
    assert (Quoted(s) + tail)[1..] == Escape(s) + [34] + tail;
  }
}
