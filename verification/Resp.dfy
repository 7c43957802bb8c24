/** Redis's wire protocol (RESP): encoding commands and reading replies. */
module Resp {
  import opened Decimal
  import opened Utf8
  import opened Wrappers

  const CR: Byte := 13
  const LF: Byte := 10
  const CRLF: Text := [13, 10]
  const STAR: Byte := 42
  const DOLLAR: Byte := 36
  const PLUS: Byte := 43
  const MINUS: Byte := 45
  const COLON: Byte := 58

  // ---- Encoding

  function Header(prefix: Byte, n: nat): Text { [prefix] + Digits(n) + CRLF }

  function EncodedParts(parts: seq<Text>): Text {
    if parts == [] then [] else Header(DOLLAR, |parts[0]|) + parts[0] + CRLF + EncodedParts(parts[1..])
  }

  function Encoded(parts: seq<Text>): Text { Header(STAR, |parts|) + EncodedParts(parts) }

  /** `encode_command`, on the parts' UTF-8 bytes. */
  method EncodeCommand(parts: seq<Text>) returns (frame: Text)
    ensures frame == Encoded(parts)
  {
    frame := Header(STAR, |parts|);
    for i := 0 to |parts|
      invariant frame + EncodedParts(parts[i..]) == Encoded(parts)
    {
      assert parts[i..][1..] == parts[i + 1..];
      ghost var before := frame;
      frame := frame + Header(DOLLAR, |parts[i]|);
      frame := frame + parts[i];
      frame := frame + CRLF;
      assert frame == before + (Header(DOLLAR, |parts[i]|) + parts[i] + CRLF);
    }
  }

  // ---- Reading

  datatype Reply = Str(text: Text) | Int(value: int) | Nil | Arr(items: seq<Reply>)

  datatype Error = Eof | MalformedLine | BadInteger | BadText | MalformedBulk | UnknownPrefix | FromServer(text: Text)

  datatype Parsed<+T> = Parsed(value: T, rest: Text)

  /** Bytes up to and including the first line feed, or all. */
  function LineLength(s: Text): (n: nat)
    ensures n <= |s|
    ensures n == |s| || (n > 0 && s[n - 1] == LF)
    ensures forall i :: 0 <= i < n - 1 ==> s[i] != LF
  {
    if s == [] then 0 else if s[0] == LF then 1 else 1 + LineLength(s[1..])
  }

  /** `_read_line` */
  function ReadLine(s: Text): (r: Result<Parsed<Text>, Error>)
    ensures r.Ok? ==> |r.value.rest| < |s|
  {
    var n := LineLength(s);
    if n == 0 then Err(Eof)
    else if n < 2 || s[n - 2..n] != CRLF then Err(MalformedLine)
    else Ok(Parsed(s[..n - 2], s[n..]))
  }

  predicate IsSpace(b: Byte) { b == 32 || 9 <= b <= 13 }

  function TrimLeft(s: Text): Text { if s != [] && IsSpace(s[0]) then TrimLeft(s[1..]) else s }

  function TrimRight(s: Text): Text { if s != [] && IsSpace(s[|s| - 1]) then TrimRight(s[..|s| - 1]) else s }

  /** Digits with single underscores between them. */
  function Magnitude(s: Text): Option<nat> {
    if s == [] || !IsDigit(s[|s| - 1]) then None
    else
      var digit: nat := s[|s| - 1] as int - 48;
      var front := s[..|s| - 1];
      if front == [] then Some(digit)
      else
        var more := if front[|front| - 1] == 95 then Magnitude(front[..|front| - 1]) else Magnitude(front);
        if more.None? then None else Some(10 * more.value + digit)
  }

  /** Python's `int` of ASCII bytes. */
  function ParseInt(line: Text): Option<int> {
    var s := TrimRight(TrimLeft(line));
    if s != [] && s[0] == MINUS then
      var m := Magnitude(s[1..]);
      if m.Some? then Some(0 - m.value as int) else None
    else
      var m := Magnitude(if s != [] && s[0] == PLUS then s[1..] else s);
      if m.Some? then Some(m.value) else None
  }

  function Decoded(text: Text, rest: Text): Result<Parsed<Reply>, Error> {
    if Utf8.Valid(text) then Ok(Parsed(Str(text), rest)) else Err(BadText)
  }

  /** A line holding an integer. */
  function ReadInt(s: Text): (r: Result<Parsed<int>, Error>)
    ensures r.Ok? ==> |r.value.rest| < |s|
  {
    var line := ReadLine(s);
    if line.Err? then Err(line.error)
    else if ParseInt(line.value.value).None? then Err(BadInteger)
    else Ok(Parsed(ParseInt(line.value.value).value, line.value.rest))
  }

  function Bulk(length: int, s: Text): (r: Result<Parsed<Reply>, Error>)
    ensures r.Ok? ==> |r.value.rest| <= |s|
  {
    if length == -1 then Ok(Parsed(Nil, s))
    else if length < 0 || |s| < length + 2 || s[length..length + 2] != CRLF then Err(MalformedBulk)
    else Decoded(s[..length], s[length + 2..])
  }

  /** `read_resp` */
  function Read(s: Text): (r: Result<Parsed<Reply>, Error>)
    ensures r.Ok? ==> |r.value.rest| < |s|
    decreases |s|, 0
  {
    if s == [] then Err(Eof)
    else
      var tail := s[1..];
      if s[0] == PLUS || s[0] == MINUS then
        var line := ReadLine(tail);
        if line.Err? then Err(line.error)
        else if s[0] == MINUS && Utf8.Valid(line.value.value) then Err(FromServer(line.value.value))
        else Decoded(line.value.value, line.value.rest)
      else if s[0] == COLON then
        var n := ReadInt(tail);
        if n.Err? then Err(n.error) else Ok(Parsed(Int(n.value.value), n.value.rest))
      else if s[0] == DOLLAR then
        var n := ReadInt(tail);
        if n.Err? then Err(n.error) else Bulk(n.value.value, n.value.rest)
      else if s[0] == STAR then
        var n := ReadInt(tail);
        if n.Err? then Err(n.error)
        else if n.value.value == -1 then Ok(Parsed(Nil, n.value.rest))
        else
          var items := ReadMany(n.value.rest, if n.value.value < 0 then 0 else n.value.value);
          if items.Err? then Err(items.error) else Ok(Parsed(Arr(items.value.value), items.value.rest))
      else Err(UnknownPrefix)
  }

  function ReadMany(s: Text, count: nat): (r: Result<Parsed<seq<Reply>>, Error>)
    ensures r.Ok? ==> |r.value.rest| <= |s| && |r.value.value| == count
    decreases |s|, 1
  {
    if count == 0 then Ok(Parsed([], s))
    else
      var first := Read(s);
      if first.Err? then Err(first.error)
      else
        var more := ReadMany(first.value.rest, count - 1);
        if more.Err? then more else Ok(Parsed([first.value.value] + more.value.value, more.value.rest))
  }

  /** A buffered stream and the reader on it. */
  class Stream {
    var rest: Text

    constructor (data: Text)
      ensures rest == data
    {
      rest := data;
    }

    /** `stream.read(n)`: up to `n` bytes, or everything when `n` is negative. */
    method Take(n: int) returns (data: Text)
      modifies this
      ensures var k := if n < 0 || n > |old(rest)| then |old(rest)| else n;
        data == old(rest)[..k] && rest == old(rest)[k..]
    {
      var k := if n < 0 || n > |rest| then |rest| else n;
      data := rest[..k];
      rest := rest[k..];
    }

    method ReadCrlfLine() returns (r: Result<Text, Error>)
      modifies this
      ensures match ReadLine(old(rest))
              case Ok(p) => r == Ok(p.value) && rest == p.rest
              case Err(e) => r == Err(e)
    {
      ghost var all := rest;
      var line := Take(LineLength(rest));
      assert |line| >= 2 ==> line[|line| - 2..] == all[|line| - 2..|line|];
      assert |line| >= 2 ==> line[..|line| - 2] == all[..|line| - 2];
      if line == [] {
        return Err(Eof);
      }
      if |line| < 2 || line[|line| - 2..] != CRLF {
        return Err(MalformedLine);
      }
      r := Ok(line[..|line| - 2]);
    }

    method ReadInteger() returns (r: Result<int, Error>)
      modifies this
      ensures match ReadInt(old(rest))
              case Ok(p) => r == Ok(p.value) && rest == p.rest
              case Err(e) => r == Err(e)
    {
      var line := ReadCrlfLine();
      if line.Err? {
        return Err(line.error);
      }
      var n := ParseInt(line.value);
      r := if n.None? then Err(BadInteger) else Ok(n.value);
    }

    method ReadBulk(length: int) returns (r: Result<Reply, Error>)
      modifies this
      ensures match Bulk(length, old(rest))
              case Ok(p) => r == Ok(p.value) && rest == p.rest
              case Err(e) => r == Err(e)
    {
      if length == -1 {
        return Ok(Nil);
      }
      ghost var all := rest;
      var data := Take(length);
      var terminator := Take(2);
      if |data| != length || terminator != CRLF {
        return Err(MalformedBulk);
      }
      assert all[length..length + 2] == terminator && all[length + 2..] == rest;
      r := if Utf8.Valid(data) then Ok(Str(data)) else Err(BadText);
    }

    method ReadReply() returns (r: Result<Reply, Error>)
      modifies this
      ensures match Read(old(rest))
              case Ok(p) => r == Ok(p.value) && rest == p.rest
              case Err(e) => r == Err(e)
      decreases |rest|
    {
      hide ReadLine, ReadInt, Bulk, Utf8.Valid;
      var all := rest;
      var prefix := Take(1);
      if prefix == [] {
        return Err(Eof);
      }
      assert prefix[0] == all[0] && rest == all[1..];
      match prefix[0] {
        case 43 =>
          var line := ReadCrlfLine();
          r := if line.Err? then Err(line.error) else if Utf8.Valid(line.value) then Ok(Str(line.value)) else Err(BadText);
        case 45 =>
          var line := ReadCrlfLine();
          r := if line.Err? then Err(line.error)
               else if Utf8.Valid(line.value) then Err(FromServer(line.value)) else Err(BadText);
        case 58 =>
          var n := ReadInteger();
          r := if n.Err? then Err(n.error) else Ok(Int(n.value));
        case 36 =>
          var n := ReadInteger();
          if n.Err? {
            return Err(n.error);
          }
          r := ReadBulk(n.value);
        case 42 =>
          var n := ReadInteger();
          if n.Err? {
            return Err(n.error);
          }
          if n.value == -1 {
            return Ok(Nil);
          }
          var count := if n.value < 0 then 0 else n.value;
          var items: seq<Reply> := [];
          ghost var start := rest;
          PrefixedEmpty(ReadMany(start, count));
          while |items| < count
            invariant |items| <= count && |rest| <= |start| < |all|
            invariant ReadMany(start, count) == Prefixed(items, ReadMany(rest, count - |items|))
            decreases count - |items|
          {
            ReadManyStep(items, rest, count - |items|);
            var item := ReadReply();
            if item.Err? {
              return Err(item.error);
            }
            items := items + [item.value];
          }
          assert items + [] == items;
          r := Ok(Arr(items));
        case _ =>
          r := Err(UnknownPrefix);
      }
    }
  }

  function Prefixed(items: seq<Reply>, r: Result<Parsed<seq<Reply>>, Error>): Result<Parsed<seq<Reply>>, Error> {
    if r.Err? then r else Ok(Parsed(items + r.value.value, r.value.rest))
  }

  lemma PrefixedEmpty(r: Result<Parsed<seq<Reply>>, Error>)
    ensures Prefixed([], r) == r
  {
    if r.Ok? {
      assert [] + r.value.value == r.value.value;
    }
  }

  lemma ReadManyStep(items: seq<Reply>, s: Text, count: nat)
    requires count > 0
    ensures Read(s).Err? ==> Prefixed(items, ReadMany(s, count)) == Err(Read(s).error)
    ensures Read(s).Ok? ==>
      var p := Read(s).value;
      Prefixed(items, ReadMany(s, count)) == Prefixed(items + [p.value], ReadMany(p.rest, count - 1))
  {
    hide Read;
    if Read(s).Ok? {
      var p := Read(s).value;
      var more := ReadMany(p.rest, count - 1);
      if more.Ok? {
        assert items + ([p.value] + more.value.value) == items + [p.value] + more.value.value;
      }
    }
  }

  // ---- Round trip

  lemma {:induction false} LineLengthOf(line: Text, tail: Text)
    requires LF !in line
    ensures LineLength(line + CRLF + tail) == |line| + 2
  {
    var s := line + CRLF + tail;
    if line == [] {
      assert s[0] == CR && s[1] == LF && s[1..][0] == LF;
    } else {
      assert s[0] == line[0] && line[0] in line;
      assert s[1..] == line[1..] + CRLF + tail;
      LineLengthOf(line[1..], tail);
    }
  }

  lemma ReadLineOf(line: Text, tail: Text)
    requires LF !in line
    ensures ReadLine(line + CRLF + tail) == Ok(Parsed(line, tail))
  {
    LineLengthOf(line, tail);
    var s, n := line + CRLF + tail, |line| + 2;
    assert s[n - 2..n] == CRLF && s[..n - 2] == line && s[n..] == tail;
  }

  lemma {:induction false} MagnitudeOfDigits(d: Text)
    requires d != [] && forall i :: 0 <= i < |d| ==> IsDigit(d[i])
    ensures Magnitude(d) == Some(Value(d))
  {
    var front := d[..|d| - 1];
    if front != [] {
      MagnitudeOfDigits(front);
    }
  }

  lemma {:induction false} TrimKeeps(s: Text)
    requires s != [] && !IsSpace(s[0]) && !IsSpace(s[|s| - 1])
    ensures TrimRight(TrimLeft(s)) == s
  {
  }

  lemma ParseIntOfDigits(n: nat)
    ensures ParseInt(Digits(n)) == Some(n)
  {
    var d := Digits(n);
    assert IsDigit(d[0]) && IsDigit(d[|d| - 1]);
    TrimKeeps(d);
    MagnitudeOfDigits(d);
    DigitsHaveValue(n);
  }

  lemma ReadIntOf(n: nat, tail: Text)
    ensures ReadInt(Digits(n) + CRLF + tail) == Ok(Parsed(n, tail))
  {
    ReadLineOf(Digits(n), tail);
    ParseIntOfDigits(n);
  }

  function Strs(parts: seq<Text>): seq<Reply> {
    if parts == [] then [] else [Str(parts[0])] + Strs(parts[1..])
  }

  ghost predicate AllValid(parts: seq<Text>) {
    forall i :: 0 <= i < |parts| ==> Utf8.Valid(parts[i])
  }

  lemma HeaderSplits(prefix: Byte, n: nat, body: Text)
    ensures var s := Header(prefix, n) + body;
      s[0] == prefix && s[1..] == Digits(n) + CRLF + body
  {
    hide Digits;
  }

  lemma ReadPart(part: Text, tail: Text)
    requires Utf8.Valid(part)
    ensures Read(Header(DOLLAR, |part|) + part + CRLF + tail) == Ok(Parsed(Str(part), tail))
  {
    hide ReadInt, ReadMany, ReadLine, Utf8.Valid, Digits;
    var body := part + CRLF + tail;
    HeaderSplits(DOLLAR, |part|, body);
    assert Header(DOLLAR, |part|) + part + CRLF + tail == Header(DOLLAR, |part|) + body;
    ReadIntOf(|part|, body);
    assert body[..|part|] == part && body[|part|..|part| + 2] == CRLF && body[|part| + 2..] == tail;
  }

  lemma {:induction false} ReadParts(parts: seq<Text>, tail: Text)
    requires AllValid(parts)
    ensures ReadMany(EncodedParts(parts) + tail, |parts|) == Ok(Parsed(Strs(parts), tail))
  {
    hide Read, Utf8.Valid, Header;
    if parts == [] {
      assert EncodedParts(parts) + tail == tail;
    } else {
      var rest := EncodedParts(parts[1..]) + tail;
      assert EncodedParts(parts) + tail == Header(DOLLAR, |parts[0]|) + parts[0] + CRLF + rest;
      ReadPart(parts[0], rest);
      ReadParts(parts[1..], tail);
    }
  }

  /** A command reads back as the array of its arguments, whatever bytes they hold, line
      ends included, and exactly its own bytes are consumed. */
  lemma CommandRoundTrip(parts: seq<Text>, tail: Text)
    requires AllValid(parts)
    ensures Read(Encoded(parts) + tail) == Ok(Parsed(Arr(Strs(parts)), tail))
  {
    hide Utf8.Valid, ReadInt, ReadMany, EncodedParts, Digits, ReadLine, Bulk;
    var body := EncodedParts(parts) + tail;
    HeaderSplits(STAR, |parts|, body);
    assert Encoded(parts) + tail == Header(STAR, |parts|) + body;
    ReadIntOf(|parts|, body);
    ReadParts(parts, tail);
  }

  function EncodedAll(commands: seq<seq<Text>>): Text {
    if commands == [] then [] else Encoded(commands[0]) + EncodedAll(commands[1..])
  }

  function Arrays(commands: seq<seq<Text>>): seq<Reply> {
    if commands == [] then [] else [Arr(Strs(commands[0]))] + Arrays(commands[1..])
  }

  /** Concatenated commands read back one after the other. */
  lemma {:induction false} CommandsRoundTrip(commands: seq<seq<Text>>, tail: Text)
    requires forall i :: 0 <= i < |commands| ==> AllValid(commands[i])
    ensures ReadMany(EncodedAll(commands) + tail, |commands|) == Ok(Parsed(Arrays(commands), tail))
  {
    hide Read, Encoded, AllValid;
    if commands == [] {
      assert EncodedAll(commands) + tail == tail;
    } else {
      var rest := EncodedAll(commands[1..]) + tail;
      assert EncodedAll(commands) + tail == Encoded(commands[0]) + rest;
      CommandRoundTrip(commands[0], rest);
      CommandsRoundTrip(commands[1..], tail);
    }
  }

  // ---- Other replies

  /** A signed decimal numeral. */
  function Numeral(n: int): Text { if n < 0 then [MINUS] + Digits(-n) else Digits(n) }

  lemma ParseIntOfNumeral(n: int)
    ensures ParseInt(Numeral(n)) == Some(n)
    ensures LF !in Numeral(n)
  {
    hide ParseInt, Digits;
    if n < 0 {
      NegativeParses(-n);
    } else {
      ParseIntOfDigits(n);
    }
  }

  lemma NegativeParses(n: nat)
    requires n > 0
    ensures ParseInt([MINUS] + Digits(n)) == Some(0 - n as int)
  {
    hide Digits, Value, Magnitude, TrimLeft, TrimRight;
    var d, s := Digits(n), [MINUS] + Digits(n);
    assert IsDigit(d[|d| - 1]) && s[|s| - 1] == d[|d| - 1] && s[1..] == d;
    TrimKeeps(s);
    MagnitudeOfDigits(d);
    DigitsHaveValue(n);
  }

  lemma ReadIntOfNumeral(n: int, tail: Text)
    ensures ReadInt(Numeral(n) + CRLF + tail) == Ok(Parsed(n, tail))
  {
    ParseIntOfNumeral(n);
    ReadLineOf(Numeral(n), tail);
    hide ReadLine, ParseInt, Numeral;
  }

  /** Integer replies of either sign read back; the length -1 is the nil bulk and the nil
      array. */
  lemma IntegerAndNilReplies(n: int, tail: Text)
    ensures Read([COLON] + Numeral(n) + CRLF + tail) == Ok(Parsed(Int(n), tail))
    ensures Read([DOLLAR] + Numeral(-1) + CRLF + tail) == Ok(Parsed(Nil, tail))
    ensures Read([STAR] + Numeral(-1) + CRLF + tail) == Ok(Parsed(Nil, tail))
  {
    ReadIntOfNumeral(n, tail);
    ReadIntOfNumeral(-1, tail);
    hide ReadInt, Numeral, ReadLine, ReadMany;
    assert ([COLON] + Numeral(n) + CRLF + tail)[1..] == Numeral(n) + CRLF + tail;
    assert ([DOLLAR] + Numeral(-1) + CRLF + tail)[1..] == Numeral(-1) + CRLF + tail;
    assert ([STAR] + Numeral(-1) + CRLF + tail)[1..] == Numeral(-1) + CRLF + tail;
  }

  // ---- Truncation

  lemma {:induction false} LineLengthExtends(s: Text, more: Text)
    requires LineLength(s) > 0 && s[LineLength(s) - 1] == LF
    ensures LineLength(s + more) == LineLength(s)
  {
    assert (s + more)[0] == s[0];
    if s[0] != LF {
      assert (s + more)[1..] == s[1..] + more;
      LineLengthExtends(s[1..], more);
    }
  }

  lemma ReadLineExtends(s: Text, more: Text)
    requires ReadLine(s).Ok?
    ensures ReadLine(s + more) == Ok(Parsed(ReadLine(s).value.value, ReadLine(s).value.rest + more))
  {
    var n := LineLength(s);
    assert s[n - 1] == s[n - 2..n][1] == LF;
    LineLengthExtends(s, more);
    assert (s + more)[n - 2..n] == s[n - 2..n] && (s + more)[..n - 2] == s[..n - 2] && (s + more)[n..] == s[n..] + more;
  }

  lemma ReadIntExtends(s: Text, more: Text)
    requires ReadInt(s).Ok?
    ensures ReadInt(s + more) == Ok(Parsed(ReadInt(s).value.value, ReadInt(s).value.rest + more))
  {
    hide ReadLine, ParseInt;
    ReadLineExtends(s, more);
  }

  lemma BulkExtends(length: int, s: Text, more: Text)
    requires Bulk(length, s).Ok?
    ensures Bulk(length, s + more) == Ok(Parsed(Bulk(length, s).value.value, Bulk(length, s).value.rest + more))
  {
    if length >= 0 {
      assert (s + more)[length..length + 2] == s[length..length + 2];
      assert (s + more)[..length] == s[..length] && (s + more)[length + 2..] == s[length + 2..] + more;
    }
  }

  /** Later bytes never change what earlier ones say. */
  lemma {:induction false} ReadExtends(s: Text, more: Text)
    requires Read(s).Ok?
    ensures Read(s + more) == Ok(Parsed(Read(s).value.value, Read(s).value.rest + more))
    decreases |s|, 0
  {
    hide ReadLine, ReadInt, Bulk, ReadMany, Utf8.Valid;
    var tail := s[1..];
    assert (s + more)[0] == s[0] && (s + more)[1..] == tail + more;
    if s[0] == PLUS || s[0] == MINUS {
      ReadLineExtends(tail, more);
    } else {
      ReadIntExtends(tail, more);
      var n := ReadInt(tail).value;
      if s[0] == DOLLAR {
        BulkExtends(n.value, n.rest, more);
      } else if s[0] == STAR && n.value != -1 {
        ReadManyExtends(n.rest, if n.value < 0 then 0 else n.value, more);
      }
    }
  }

  lemma {:induction false} ReadManyExtends(s: Text, count: nat, more: Text)
    requires ReadMany(s, count).Ok?
    ensures ReadMany(s + more, count) == Ok(Parsed(ReadMany(s, count).value.value, ReadMany(s, count).value.rest + more))
    decreases |s|, 1
  {
    hide Read;
    if count > 0 {
      ReadExtends(s, more);
      ReadManyExtends(Read(s).value.rest, count - 1, more);
    }
  }

  /** A command cut short anywhere is never taken for a reply. */
  lemma TruncatedCommandFails(parts: seq<Text>, cut: nat)
    requires AllValid(parts) && cut < |Encoded(parts)|
    ensures Read(Encoded(parts)[..cut]).Err?
  {
    var all := Encoded(parts);
    var s, more := all[..cut], all[cut..];
    assert s + more == all && all + [] == all && |more| > 0;
    CommandRoundTrip(parts, []);
    hide Read, Encoded;
    if Read(s).Ok? {
      ReadExtends(s, more);
    }
  }
}
