/** Every kind of reply and of malformed reply, written out as bytes. */
module RespReplies {
  import opened Decimal
  import opened Resp
  import opened Utf8
  import opened Wrappers

  /** A reply as a server sends it. */
  function Rendered(r: Reply): Text {
    match r
    case Str(text) => [DOLLAR] + Digits(|text|) + CRLF + text + CRLF
    case Int(n) => [COLON] + Numeral(n) + CRLF
    case Nil => [DOLLAR] + Numeral(-1) + CRLF
    case Arr(items) => [STAR] + Digits(|items|) + CRLF + RenderedAll(items)
  }

  function RenderedAll(items: seq<Reply>): Text {
    if items == [] then [] else Rendered(items[0]) + RenderedAll(items[1..])
  }

  predicate IsText(r: Reply) {
    match r
    case Str(text) => Utf8.Valid(text)
    case Int(_) => true
    case Nil => true
    case Arr(items) => AreText(items)
  }

  predicate AreText(items: seq<Reply>) { items == [] || (IsText(items[0]) && AreText(items[1..])) }

  /** Every reply reads back, arrays in arrays included, and exactly its bytes are
      consumed. */
  lemma {:induction false} RepliesReadBack(r: Reply, tail: Text)
    requires IsText(r)
    ensures Read(Rendered(r) + tail) == Ok(Parsed(r, tail))
    decreases r, 0
  {
    hide Digits, Numeral, ReadInt, ReadLine, Bulk, ReadMany, Utf8.Valid;
    match r
    case Str(text) => ReadPart(text, tail);
    case Int(n) =>
      IntegerAndNilReplies(n, tail);
    case Nil =>
      IntegerAndNilReplies(0, tail);
    case Arr(items) =>
      var body := RenderedAll(items) + tail;
      assert Rendered(r) + tail == Header(STAR, |items|) + body;
      HeaderSplits(STAR, |items|, body);
      ReadIntOf(|items|, body);
      ItemsReadBack(items, tail);
  }

  lemma {:induction false} ItemsReadBack(items: seq<Reply>, tail: Text)
    requires AreText(items)
    ensures ReadMany(RenderedAll(items) + tail, |items|) == Ok(Parsed(items, tail))
    decreases items, 1
  {
    hide Read, Rendered, IsText;
    if items == [] {
      assert RenderedAll(items) + tail == tail;
    } else {
      var rest := RenderedAll(items[1..]) + tail;
      assert RenderedAll(items) + tail == Rendered(items[0]) + rest;
      RepliesReadBack(items[0], rest);
      ItemsReadBack(items[1..], tail);
      assert [items[0]] + items[1..] == items;
    }
  }

  /** A status line is its text, an error line an error with its text, and neither if the
      bytes are no text. */
  lemma StatusAndErrorLines(line: Text, tail: Text)
    requires LF !in line
    ensures Read([PLUS] + line + CRLF + tail) == if Utf8.Valid(line) then Ok(Parsed(Str(line), tail)) else Err(BadText)
    ensures Read([MINUS] + line + CRLF + tail) == Err(if Utf8.Valid(line) then FromServer(line) else BadText)
  {
    hide Utf8.Valid, ReadLine;
    ReadLineOf(line, tail);
    assert ([PLUS] + line + CRLF + tail)[1..] == line + CRLF + tail;
    assert ([MINUS] + line + CRLF + tail)[1..] == line + CRLF + tail;
  }

  /** A bulk is refused exactly when its bytes, the line end after them included, are not
      all there or are no text. */
  lemma BulkIsChecked(length: nat, body: Text)
    ensures
      var r := Read([DOLLAR] + Digits(length) + CRLF + body);
      if |body| < length + 2 || body[length..length + 2] != CRLF then r == Err(MalformedBulk)
      else if !Utf8.Valid(body[..length]) then r == Err(BadText)
      else r == Ok(Parsed(Str(body[..length]), body[length + 2..]))
  {
    hide Digits, ReadInt, ReadLine, Utf8.Valid;
    assert [DOLLAR] + Digits(length) + CRLF + body == Header(DOLLAR, length) + body;
    HeaderSplits(DOLLAR, length, body);
    ReadIntOf(length, body);
  }

  /** A reply needs a known prefix and a complete first line. */
  lemma BrokenHeads(prefix: Byte, line: Text)
    requires LF !in line
    ensures Read([]) == Err(Eof)
    ensures prefix !in {PLUS, MINUS, COLON, DOLLAR, STAR} ==> Read([prefix] + line) == Err(UnknownPrefix)
    ensures prefix in {PLUS, MINUS, COLON, DOLLAR, STAR} ==>
              Read([prefix] + line) == Err(if line == [] then Eof else MalformedLine)
  {
    hide Utf8.Valid, ParseInt;
    assert ([prefix] + line)[1..] == line;
    var n := LineLength(line);
    if line != [] {
      assert n == |line|;
      assert |line| >= 2 ==> line[n - 1] != LF && line[n - 2..n][1] == line[n - 1];
    }
  }

  /** The first item of an array that fails is the array's failure. */
  lemma {:induction false} BrokenItem(before: seq<Reply>, rest: Text, count: nat)
    requires AreText(before) && Read(rest).Err? && |before| < count
    ensures Read([STAR] + Digits(count) + CRLF + RenderedAll(before) + rest) == Err(Read(rest).error)
  {
    hide Digits, ReadInt, ReadLine, ReadMany, Bulk, Utf8.Valid, RenderedAll;
    var body := RenderedAll(before) + rest;
    assert [STAR] + Digits(count) + CRLF + RenderedAll(before) + rest == Header(STAR, count) + body;
    HeaderSplits(STAR, count, body);
    ReadIntOf(count, body);
    BrokenAmong(before, rest, count);
  }

  lemma {:induction false} BrokenAmong(before: seq<Reply>, rest: Text, count: nat)
    requires AreText(before) && Read(rest).Err? && |before| < count
    ensures ReadMany(RenderedAll(before) + rest, count) == Err(Read(rest).error)
  {
    hide Read, Rendered, IsText;
    if before == [] {
      assert RenderedAll(before) + rest == rest;
    } else {
      var more := RenderedAll(before[1..]) + rest;
      assert RenderedAll(before) + rest == Rendered(before[0]) + more;
      RepliesReadBack(before[0], more);
      BrokenAmong(before[1..], rest, count - 1);
    }
  }

  // ---- Numbers

  predicate AreSpaces(s: Text) { forall i :: 0 <= i < |s| ==> IsSpace(s[i]) }

  lemma {:induction false} TrimLeftDrops(spaces: Text, s: Text)
    requires AreSpaces(spaces) && s != [] && !IsSpace(s[0])
    ensures TrimLeft(spaces + s) == s
  {
    if spaces == [] {
      assert spaces + s == s;
    } else {
      assert (spaces + s)[1..] == spaces[1..] + s;
      TrimLeftDrops(spaces[1..], s);
    }
  }

  lemma {:induction false} TrimRightDrops(s: Text, spaces: Text)
    requires AreSpaces(spaces) && s != [] && !IsSpace(s[|s| - 1])
    ensures TrimRight(s + spaces) == s
  {
    if spaces == [] {
      assert s + spaces == s;
    } else {
      assert (s + spaces)[..|s + spaces| - 1] == s + spaces[..|spaces| - 1];
      TrimRightDrops(s, spaces[..|spaces| - 1]);
    }
  }

  lemma TrimBoth(before: Text, s: Text, after: Text)
    requires AreSpaces(before) && AreSpaces(after) && s != [] && !IsSpace(s[0]) && !IsSpace(s[|s| - 1])
    ensures TrimRight(TrimLeft(before + s + after)) == s
  {
    hide TrimLeft, TrimRight, AreSpaces;
    assert before + s + after == before + (s + after) && (s + after)[0] == s[0];
    TrimLeftDrops(before, s + after);
    TrimRightDrops(s, after);
  }

  lemma NumeralEnds(n: int)
    ensures var s := Numeral(n); s != [] && !IsSpace(s[0]) && !IsSpace(s[|s| - 1])
  {
    hide Digits;
    var s := Numeral(n);
    assert IsDigit(s[|s| - 1]) && (IsDigit(s[0]) || s[0] == MINUS);
  }

  /** Spaces around a number are ignored, and a line without digits is no number. */
  lemma NumbersMayBeSpaced(before: Text, n: int, after: Text)
    requires AreSpaces(before) && AreSpaces(after)
    ensures ParseInt(before + Numeral(n) + after) == Some(n)
    ensures ParseInt(before + after).None?
  {
    NothingLeft(before + after);
    hide Numeral, ParseInt, TrimLeft, TrimRight, IsSpace;
    var s := Numeral(n);
    ParseIntOfNumeral(n);
    NumeralEnds(n);
    TrimBoth(before, s, after);
    TrimBoth([], s, []);
    assert [] + s + [] == s;
    SameTrimmed(before + s + after, s);
  }

  lemma SameTrimmed(a: Text, b: Text)
    requires TrimRight(TrimLeft(a)) == TrimRight(TrimLeft(b))
    ensures ParseInt(a) == ParseInt(b)
  {
    hide Magnitude, TrimLeft, TrimRight;
  }

  lemma {:induction false} NothingLeft(s: Text)
    requires AreSpaces(s)
    ensures TrimLeft(s) == [] && ParseInt(s).None?
  {
    if s != [] {
      NothingLeft(s[1..]);
    }
    hide Magnitude;
    assert TrimRight([]) == [];
    NoDigits();
  }

  lemma NoDigits()
    ensures Magnitude([]).None?
  {
  }
}
