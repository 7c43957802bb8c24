/** Requests other than prompts (initialize, authenticate, session/new and the like): written,
    then read until answered by the plain reader, which also answers permission requests. */
module PlainRequests {
  import opened Wrappers
  import opened ReadLoop

  /** One line for the plain reader, and whether a write it causes succeeds. */
  datatype Input = Input(read: ReadResult, writeOk: bool)

  datatype Reader = Reader(client: Client, stop: Option<Stop>)

  function OnPlainMessage(c: Client, expected: nat, m: Message, writeOk: bool): Reader {
    var c1 := c.(feed := c.feed + [Read(m)]);
    if IsReply(m, expected) then
      Reader(c1, Some(if m.error.Some? then AgentFailed(m.error.value.GetOr(-32000)) else Answered))
    else
      match m.verb
      case SessionUpdate => Reader(HandleUpdate(c1, m.update), None)
      case RequestPermission => var (c2, err) := HandlePermission(c1, m, writeOk); Reader(c2, err)
      case UnknownMethod(_) =>
        if m.id.None? then Reader(c1, None)
        else if writeOk then Reader(Write(c1, MethodNotFound(m.id.value)), None)
        else Reader(c1, Some(WriteFailed))
      case _ => Reader(c1, None)
  }

  function PlainStep(r: Reader, expected: nat, i: Input): Reader {
    if r.stop.Some? then r
    else
      match i.read
      case Eof => r.(stop := Some(AgentExited))
      case TooLong => r.(stop := Some(ProtocolError))
      case ReadError => r.(stop := Some(IoError))
      case Got(Blank) => r
      case Got(Unparsable) => r
      case Got(Parsed(m)) => OnPlainMessage(r.client, expected, m, i.writeOk)
  }

  function PlainRun(r: Reader, expected: nat, script: seq<Input>): Reader {
    if script == [] then r
    else PlainStep(PlainRun(r, expected, script[..|script| - 1]), expected, script[|script| - 1])
  }

  /** `send_request`.  A script that ends without an answer is the request timeout. */
  function SendRequest(c: Client, writeOk: bool, script: seq<Input>): Reader {
    var c1 := c.(nextId := c.nextId + 1);
    if !writeOk then Reader(c1, Some(WriteFailed))
    else
      var r := PlainRun(Reader(Write(c1, Request(c.nextId)), None), c.nextId, script);
      if r.stop.None? then r.(stop := Some(Abandoned)) else r
  }

  lemma PlainExtends(r: Reader, expected: nat, script: seq<Input>, i: nat)
    requires i < |script|
    ensures PlainRun(r, expected, script[..i + 1]) == PlainStep(PlainRun(r, expected, script[..i]), expected, script[i])
  {
    hide PlainStep;
    assert script[..i + 1][..i] == script[..i];
  }

  lemma {:induction false} PlainStays(r: Reader, expected: nat, script: seq<Input>, i: nat)
    requires i <= |script| && PlainRun(r, expected, script[..i]).stop.Some?
    ensures PlainRun(r, expected, script) == PlainRun(r, expected, script[..i])
    decreases |script|
  {
    hide OnPlainMessage;
    if i < |script| {
      var n := |script| - 1;
      assert script[..n][..i] == script[..i];
      PlainStays(r, expected, script[..n], i);
    } else {
      assert script[..i] == script;
    }
  }
}
