/** Permission requests: no request of the agent is answered twice, across any
    sequence of prompts and cancellations on one client. */
module Permissions {
  import opened Wrappers
  import opened ReadLoop
  import opened Session
  import opened PlainRequests

  function Asked(feed: seq<Feed>, id: JsonId): nat {
    if feed == [] then 0
    else
      var e := feed[|feed| - 1];
      Asked(feed[..|feed| - 1], id) + (if e.Read? && e.msg.verb.RequestPermission? && e.msg.id == Some(id) then 1 else 0)
  }

  function Replied(feed: seq<Feed>, id: JsonId): nat {
    if feed == [] then 0
    else
      var e := feed[|feed| - 1];
      Replied(feed[..|feed| - 1], id) + (if e.Wrote? && e.wire.PermissionReply? && e.wire.permission == id then 1 else 0)
  }

  /** Answers owed: the stored request, which is then not yet answered. */
  function Owed(c: Client, id: JsonId): nat {
    if c.permission == Some(id) then 1 else 0
  }

  /** At no time have more answers been completed than requests read, for any id. */
  ghost predicate NeverAhead(feed: seq<Feed>) {
    forall n, id :: 0 <= n <= |feed| ==> Replied(feed[..n], id) <= Asked(feed[..n], id)
  }

  /** At every suspension point a stored permission id means "not yet answered", and
      completed replies plus the stored one never exceed the requests read, now or at any
      time before. */
  ghost predicate PermInv(c: Client) {
    && (c.permission.Some? ==> !c.responded)
    && (forall id :: Replied(c.feed, id) + Owed(c, id) <= Asked(c.feed, id))
    && NeverAhead(c.feed)
  }

  lemma NeverAheadGrows(feed: seq<Feed>, e: Feed)
    requires NeverAhead(feed) && forall id :: Replied(feed + [e], id) <= Asked(feed + [e], id)
    ensures NeverAhead(feed + [e])
  {
    hide Asked, Replied;
    var more := feed + [e];
    forall n, id | 0 <= n <= |more| ensures Replied(more[..n], id) <= Asked(more[..n], id) {
      if n <= |feed| {
        assert more[..n] == feed[..n];
      } else {
        assert more[..n] == more;
      }
    }
  }

  lemma Recording(c: Client, e: Feed, id: JsonId)
    ensures Asked(c.feed + [e], id) == Asked(c.feed, id) + (if e.Read? && e.msg.verb.RequestPermission? && e.msg.id == Some(id) then 1 else 0)
    ensures Replied(c.feed + [e], id) == Replied(c.feed, id) + (if e.Wrote? && e.wire.PermissionReply? && e.wire.permission == id then 1 else 0)
  {
    assert (c.feed + [e])[..|c.feed|] == c.feed;
  }

  lemma RecordKeeps(c: Client, e: Feed)
    requires PermInv(c) && !(e.Wrote? && e.wire.PermissionReply?)
    ensures PermInv(c.(feed := c.feed + [e]))
  {
    hide Asked, Replied;
    forall id ensures Replied(c.feed + [e], id) + Owed(c, id) <= Asked(c.feed + [e], id) {
      Recording(c, e, id);
    }
    NeverAheadGrows(c.feed, e);
  }

  /** Reading a permission request and handling it in the same iteration. */
  lemma HandlingKeeps(c: Client, m: Message, writeOk: bool)
    requires PermInv(c) && m.verb.RequestPermission?
    ensures PermInv(HandlePermission(c.(feed := c.feed + [Read(m)]), m, writeOk).0)
  {
    hide Asked, Replied, PermissionChoice;
    var read := c.(feed := c.feed + [Read(m)]);
    var r := HandlePermission(read, m, writeOk).0;
    forall id ensures Replied(r.feed, id) + Owed(r, id) <= Asked(r.feed, id) {
      Recording(c, Read(m), id);
      assert Replied(c.feed, id) + Owed(c, id) <= Asked(c.feed, id);
      if r.feed != read.feed {
        Recording(read, r.feed[|read.feed|], id);
      }
    }
    RecordKeeps(c, Read(m));
    if r.feed != read.feed {
      assert r.feed == read.feed + [r.feed[|read.feed|]];
      NeverAheadGrows(read.feed, r.feed[|read.feed|]);
    }
  }

  lemma MessageKeeps(l: Loop, m: Message, s: Stimulus)
    requires PermInv(l.client) && l.stop.None?
    ensures PermInv(OnMessage(l, m, s).client)
  {
    hide HandlePermission, PermInv;
    RecordKeeps(l.client, Read(m));
    var c := l.client.(feed := l.client.feed + [Read(m)]);
    var r := OnMessage(l, m, s).client;
    if m.verb.RequestPermission? {
      HandlingKeeps(l.client, m, s.writeOk);
      assert r == HandlePermission(c, m, s.writeOk).0;
    } else if m.verb.UnknownMethod? && m.id.Some? && s.writeOk {
      RecordKeeps(c, Wrote(MethodNotFound(m.id.value)));
      assert r == Write(c, MethodNotFound(m.id.value));
    } else {
      OnlyPermissionsMatter(c, r);
    }
  }

  lemma OnlyPermissionsMatter(c: Client, c': Client)
    requires PermInv(c) && c'.feed == c.feed && c'.permission == c.permission && c'.responded == c.responded
    ensures PermInv(c')
  {
  }

  lemma SteerKeeps(l: Loop, writeOk: bool)
    requires PermInv(l.client) && l.inbox != []
    ensures PermInv(OnSteer(l, writeOk).client)
  {
    hide PermInv;
    var c := OnSteer(l, writeOk).client;
    if c.feed != l.client.feed {
      RecordKeeps(l.client, c.feed[|l.client.feed|]);
      OnlyPermissionsMatter(l.client.(feed := c.feed), c);
    } else {
      OnlyPermissionsMatter(l.client, c);
    }
  }

  lemma IterationKeeps(l: Loop, s: Stimulus)
    requires PermInv(l.client)
    ensures PermInv(Iterate(l, s).client)
  {
    hide OnMessage, OnSteer, PermInv;
    if l.stop.None? {
      var o := Offer(l, s.offer);
      if s.check < Deadline(o) {
        if s.ready.Readable? {
          if s.ready.read.Got? && s.ready.read.line.Parsed? { MessageKeeps(o, s.ready.read.line.msg, s); }
        } else if o.pending.None? && o.inbox != [] {
          SteerKeeps(o, s.writeOk);
        }
      }
    }
  }

  lemma {:induction false} RunKeeps(l: Loop, script: seq<Stimulus>)
    requires PermInv(l.client)
    ensures PermInv(Finish(Run(l, script)).client) && PermInv(Run(l, script).client)
  {
    hide Iterate, PermInv;
    if script != [] {
      RunKeeps(l, script[..|script| - 1]);
      IterationKeeps(Run(l, script[..|script| - 1]), script[|script| - 1]);
    }
  }

  // ----------------------------------------------------------------------- sessions

  /** Anything the pool asks of one client. */
  datatype Op =
    | DoPrompt(now: Time, idleTimeout: nat, maxDuration: nat, writeOk: bool, entered: Time,
               inbox: Inbox, script: seq<Stimulus>)
    | DoCleanup(now: Time, replyOk: bool, cancelOk: bool, entered: Time, inbox: Inbox, script: seq<Stimulus>)
    | DoGrace(now: Time, grace: nat, replyOk: bool, cancelOk: bool, entered: Time, inbox: Inbox, script: seq<Stimulus>)
    | DoRequest(requestOk: bool, lines: seq<Input>)

  function Perform(c: Client, op: Op): Client {
    match op
    case DoPrompt(now, idle, max, ok, entered, inbox, script) =>
      SessionPrompt(c, now, idle, max, ok, entered, inbox, script).client
    case DoCleanup(now, replyOk, cancelOk, entered, inbox, script) =>
      CancelWithCleanup(c, now, replyOk, cancelOk, entered, inbox, script).client
    case DoGrace(now, grace, replyOk, cancelOk, entered, inbox, script) =>
      CancelWithGrace(c, now, grace, replyOk, cancelOk, entered, inbox, script).client
    case DoRequest(requestOk, lines) => SendRequest(c, requestOk, lines).client
  }

  function PerformAll(c: Client, ops: seq<Op>): Client {
    if ops == [] then c else Perform(PerformAll(c, ops[..|ops| - 1]), ops[|ops| - 1])
  }

  lemma CancelKeeps(c: Client, hardAt: Time, replyOk: bool, cancelOk: bool, now: Time, inbox: Inbox, script: seq<Stimulus>)
    requires PermInv(c)
    ensures PermInv(CancelUntil(c, hardAt, replyOk, cancelOk, now, inbox, script).client)
  {
    hide Run, PermInv, CancelPermission;
    if c.lastPrompt.Some? {
      var c1 := c.(lastPrompt := None);
      OnlyPermissionsMatter(c, c1);
      CancelReplyKeeps(c1, replyOk);
      var c2 := CancelPermission(c1, replyOk);
      if c2.Some? {
        RecordKeeps(c2.value, Wrote(CancelNotice));
        RunKeeps(CancelLoop(c2.value, c.lastPrompt.value, hardAt, now, inbox), script);
      }
    }
  }

  lemma CancelReplyKeeps(c: Client, replyOk: bool)
    requires PermInv(c)
    ensures CancelPermission(c, replyOk).Some? ==> PermInv(CancelPermission(c, replyOk).value)
  {
    hide Asked, Replied;
    var r := CancelPermission(c, replyOk);
    if r.Some? && c.permission.Some? {
      forall id ensures Replied(r.value.feed, id) + Owed(r.value, id) <= Asked(r.value.feed, id) {
        Recording(c, Wrote(PermissionReply(c.permission.value, Cancelled)), id);
        assert Replied(c.feed, id) + Owed(c, id) <= Asked(c.feed, id);
      }
      if r.value.feed != c.feed {
        NeverAheadGrows(c.feed, Wrote(PermissionReply(c.permission.value, Cancelled)));
      }
    }
  }

  // ----------------------------------------------------------------- plain requests

  lemma PlainMessageKeeps(c: Client, expected: nat, m: Message, writeOk: bool)
    requires PermInv(c)
    ensures PermInv(OnPlainMessage(c, expected, m, writeOk).client)
  {
    hide HandlePermission, PermInv;
    RecordKeeps(c, Read(m));
    var c1 := c.(feed := c.feed + [Read(m)]);
    var r := OnPlainMessage(c, expected, m, writeOk).client;
    if m.verb.RequestPermission? {
      HandlingKeeps(c, m, writeOk);
      assert r == HandlePermission(c1, m, writeOk).0;
    } else if m.verb.UnknownMethod? && m.id.Some? && writeOk && !IsReply(m, expected) {
      RecordKeeps(c1, Wrote(MethodNotFound(m.id.value)));
      assert r == Write(c1, MethodNotFound(m.id.value));
    } else {
      OnlyPermissionsMatter(c1, r);
    }
  }

  lemma {:induction false} PlainRunKeeps(r: Reader, expected: nat, script: seq<Input>)
    requires PermInv(r.client)
    ensures PermInv(PlainRun(r, expected, script).client)
  {
    hide OnPlainMessage, PermInv;
    if script != [] {
      var n := |script| - 1;
      PlainRunKeeps(r, expected, script[..n]);
      var before := PlainRun(r, expected, script[..n]);
      if script[n].read.Got? && script[n].read.line.Parsed? {
        PlainMessageKeeps(before.client, expected, script[n].read.line.msg, script[n].writeOk);
      }
    }
  }

  lemma RequestKeeps(c: Client, writeOk: bool, script: seq<Input>)
    requires PermInv(c)
    ensures PermInv(SendRequest(c, writeOk, script).client)
  {
    hide PermInv, PlainRun;
    var c1 := c.(nextId := c.nextId + 1);
    OnlyPermissionsMatter(c, c1);
    RecordKeeps(c1, Wrote(Request(c.nextId)));
    PlainRunKeeps(Reader(Write(c1, Request(c.nextId)), None), c.nextId, script);
  }

  lemma PerformKeeps(c: Client, op: Op)
    requires PermInv(c)
    ensures PermInv(Perform(c, op))
  {
    hide Run, PermInv, CancelUntil, Leave, SendRequest;
    match op
    case DoPrompt(now, idle, max, ok, entered, inbox, script) =>
      PromptKeeps(c, op);
    case DoCleanup(now, replyOk, cancelOk, entered, inbox, script) =>
      OnlyPermissionsMatter(c, c.(hardCap := None));
      CancelKeeps(c.(hardCap := None), CleanupDeadline(c, now), replyOk, cancelOk, entered, inbox, script);
    case DoGrace(now, grace, replyOk, cancelOk, entered, inbox, script) =>
      OnlyPermissionsMatter(c, c.(hardCap := None));
      CancelKeeps(c.(hardCap := None), now + grace, replyOk, cancelOk, entered, inbox, script);
    case DoRequest(requestOk, lines) => RequestKeeps(c, requestOk, lines);
  }

  lemma PromptKeeps(c: Client, op: Op)
    requires PermInv(c) && op.DoPrompt?
    ensures PermInv(Perform(c, op))
  {
    hide Run, PermInv, Leave;
    var r := Perform(c, op);
    if op.writeOk {
      var l := PromptLoop(c, op.now, op.idleTimeout, op.maxDuration, op.entered, op.inbox);
      RecordKeeps(c, Wrote(Prompt(c.nextId)));
      OnlyPermissionsMatter(c.(feed := c.feed + [Wrote(Prompt(c.nextId))]), l.client);
      RunKeeps(l, op.script);
      OnlyPermissionsMatter(Finish(Run(l, op.script)).client, r);
    } else {
      OnlyPermissionsMatter(c, r);
    }
  }

  /** Over any session, prompts and other requests included, no permission request of the
      agent receives a second completed answer, whatever fails, times out or is dropped in
      between: at no point of the record have more answers than requests gone by. */
  lemma {:induction false} NeverAnsweredTwice(c: Client, ops: seq<Op>)
    requires c.feed == [] && c.permission.None?
    ensures PermInv(PerformAll(c, ops))
  {
    hide Perform, PermInv;
    if ops == [] {
      assert PermInv(c) by { FreshClient(c); }
    } else {
      NeverAnsweredTwice(c, ops[..|ops| - 1]);
      PerformKeeps(PerformAll(c, ops[..|ops| - 1]), ops[|ops| - 1]);
    }
  }

  lemma FreshClient(c: Client)
    requires c.feed == [] && c.permission.None?
    ensures PermInv(c)
  {
  }
}
