/** What the read loop answers, stated on the messages read and the record of the wire: no
    request of the agent goes unanswered, the right permission option is chosen, replies
    settle what they reply to, and steers take the transport the agent's reports call for. */
module ReadLoopAnswers {
  import opened Wrappers
  import opened ReadLoop
  import opened PlainRequests
  import opened Session
  import Steers = ReadLoopSteers

  /** The iteration reads and parses `m`. */
  predicate Reads(l: Loop, s: Stimulus, m: Message) {
    l.stop.None? && s.check < Deadline(l) && s.ready == Readable(Got(Parsed(m)))
  }

  // --------------------------------------------------------------- unknown requests

  /** A request of the agent, under this id, with a method the client does not know. */
  predicate IsUnknown(e: Feed, id: JsonId) {
    e.Read? && e.msg.verb.UnknownMethod? && e.msg.id == Some(id)
  }

  function Unknown(feed: seq<Feed>, id: JsonId): nat {
    if feed == [] then 0 else Unknown(feed[..|feed| - 1], id) + if IsUnknown(feed[|feed| - 1], id) then 1 else 0
  }

  function Refused(feed: seq<Feed>, id: JsonId): nat {
    if feed == [] then 0
    else Refused(feed[..|feed| - 1], id) + if feed[|feed| - 1] == Wrote(MethodNotFound(id)) then 1 else 0
  }

  /** Unknown requests not refused. */
  function Debt(feed: seq<Feed>, id: JsonId): int { Unknown(feed, id) - Refused(feed, id) }

  /** The last thing that happened is an unknown request whose refusal could not be
      written. */
  predicate RefusalFailed(stop: Option<Stop>, feed: seq<Feed>, id: JsonId) {
    stop == Some(WriteFailed) && feed != [] && IsUnknown(feed[|feed| - 1], id)
  }

  /** From one record to a later one, every unknown request is refused but the last thing
      read, if its refusal could not be written and the loop stopped for that. */
  ghost predicate Refuses(before: seq<Feed>, after: seq<Feed>, stop: Option<Stop>) {
    forall id :: Debt(after, id) == (Debt(before, id) + if RefusalFailed(stop, after, id) then 1 else 0)
  }

  lemma DebtGrows(feed: seq<Feed>, e: Feed, id: JsonId)
    ensures Debt(feed + [e], id) == Debt(feed, id)
            + (if IsUnknown(e, id) then 1 else 0) - (if e == Wrote(MethodNotFound(id)) then 1 else 0)
  {
    assert (feed + [e])[..|feed|] == feed;
  }

  /** What reading `m` adds to the record: the message, and then the refusal of an unknown
      request, whose failure ends the loop, or an answer to a permission request. */
  predicate Adds(m: Message, writeOk: bool, added: seq<Feed>, stop: Option<Stop>) {
    if m.verb.UnknownMethod? && m.id.Some? then
      if writeOk then added == [Read(m), Wrote(MethodNotFound(m.id.value))] && stop.None?
      else added == [Read(m)] && stop == Some(WriteFailed)
    else
      && (added == [Read(m)]
          || (m.verb.RequestPermission? && |added| == 2 && added[0] == Read(m) && added[1].Wrote? && added[1].wire.PermissionReply?))
  }

  lemma PermissionAdds(c: Client, m: Message, writeOk: bool)
    ensures var f := HandlePermission(c, m, writeOk).0.feed;
      f == c.feed || (f == c.feed + [f[|f| - 1]] && f[|f| - 1].Wrote? && f[|f| - 1].wire.PermissionReply?)
  {
    hide PermissionChoice;
  }

  lemma MessageAdds(l: Loop, m: Message, s: Stimulus) returns (added: seq<Feed>)
    requires l.stop.None?
    ensures OnMessage(l, m, s).client.feed == l.client.feed + added
    ensures Adds(m, s.writeOk, added, OnMessage(l, m, s).stop)
  {
    hide HandlePermission;
    var r := OnMessage(l, m, s);
    added := [Read(m)];
    var noted := Noted(l, m, s.at).client;
    if m.verb.RequestPermission? {
      PermissionAdds(noted, m, s.writeOk);
      if r.client.feed != noted.feed {
        added := [Read(m), r.client.feed[|r.client.feed| - 1]];
      }
    } else if m.verb.UnknownMethod? && m.id.Some? && s.writeOk {
      added := [Read(m), Wrote(MethodNotFound(m.id.value))];
    }
  }

  lemma PlainMessageAdds(c: Client, expected: nat, m: Message, writeOk: bool) returns (added: seq<Feed>)
    ensures OnPlainMessage(c, expected, m, writeOk).client.feed == c.feed + added
    ensures Adds(m, writeOk, added, OnPlainMessage(c, expected, m, writeOk).stop)
  {
    hide HandlePermission;
    var r := OnPlainMessage(c, expected, m, writeOk);
    added := [Read(m)];
    var noted := c.(feed := c.feed + [Read(m)]);
    if m.verb.RequestPermission? {
      PermissionAdds(noted, m, writeOk);
      if r.client.feed != noted.feed {
        added := [Read(m), r.client.feed[|r.client.feed| - 1]];
      }
    } else if m.verb.UnknownMethod? && m.id.Some? && writeOk {
      added := [Read(m), Wrote(MethodNotFound(m.id.value))];
    }
  }

  lemma AddsDebt(feed: seq<Feed>, m: Message, writeOk: bool, added: seq<Feed>, stop: Option<Stop>, id: JsonId)
    requires Adds(m, writeOk, added, stop)
    ensures Debt(feed + added, id) == Debt(feed, id) + if RefusalFailed(stop, feed + added, id) then 1 else 0
  {
    hide Debt;
    DebtGrows(feed, Read(m), id);
    if |added| == 2 {
      assert feed + added == feed + [Read(m)] + [added[1]];
      DebtGrows(feed + [Read(m)], added[1], id);
    } else {
      assert feed + added == feed + [Read(m)];
    }
  }

  predicate ReadsMessage(l: Loop, s: Stimulus) {
    s.check < Deadline(l) && s.ready.Readable? && s.ready.read.Got? && s.ready.read.line.Parsed?
  }

  predicate AddsAtMostSteer(c: Client, c': Client) {
    c'.feed == c.feed
    || (|c'.feed| == |c.feed| + 1 && c'.feed[..|c.feed|] == c.feed && Steers.SteerAt(c'.feed, |c.feed|))
  }

  lemma SteerAdds(l: Loop, writeOk: bool)
    requires l.inbox != []
    ensures AddsAtMostSteer(l.client, OnSteer(l, writeOk).client) && OnSteer(l, writeOk).stop == l.stop
  {
  }

  /** An iteration that reads no message adds nothing to the record but a steer. */
  lemma QuietAdds(l: Loop, s: Stimulus)
    requires l.stop.None? && !ReadsMessage(l, s)
    ensures var r := Iterate(l, s);
      AddsAtMostSteer(l.client, r.client) && r.stop != Some(WriteFailed)
  {
    hide OnSteer, OnMessage;
    var o := Offer(l, s.offer);
    if s.check < Deadline(o) && s.ready.Quiet? && o.pending.None? && o.inbox != [] {
      SteerAdds(o, s.writeOk);
    }
  }

  lemma IterationDebt(l: Loop, s: Stimulus, id: JsonId)
    requires l.stop.None?
    ensures var r := Iterate(l, s);
      Debt(r.client.feed, id) == Debt(l.client.feed, id) + if RefusalFailed(r.stop, r.client.feed, id) then 1 else 0
  {
    hide Debt, OnMessage;
    var r, f := Iterate(l, s).client.feed, l.client.feed;
    if ReadsMessage(l, s) {
      var m, o := s.ready.read.line.msg, Offer(l, s.offer);
      var added := MessageAdds(o, m, s);
      AddsDebt(f, m, s.writeOk, added, OnMessage(o, m, s).stop, id);
    } else {
      QuietAdds(l, s);
      if r != f {
        assert r == f + [r[|f|]];
        DebtGrows(f, r[|f|], id);
      }
    }
  }

  /** Over every run of the loop, each unknown request read has been refused while the loop
      goes on; when it has stopped there is at most one that was not, the last thing read,
      and only if its refusal could not be written, which is why the loop stopped. */
  lemma {:induction false} UnknownRequestsAreRefused(l: Loop, script: seq<Stimulus>, id: JsonId)
    requires l.stop.None?
    ensures var r := Run(l, script);
      Debt(r.client.feed, id) == Debt(l.client.feed, id) + if RefusalFailed(r.stop, r.client.feed, id) then 1 else 0
  {
    hide Iterate, Debt;
    if script != [] {
      var n := |script| - 1;
      UnknownRequestsAreRefused(l, script[..n], id);
      var before := Run(l, script[..n]);
      if before.stop.None? {
        IterationDebt(before, script[n], id);
      } else {
        StoppedIsFinal(before, script[n]);
      }
    }
  }

  /** The same for the plain reader. */
  lemma {:induction false} PlainReaderRefuses(c: Client, expected: nat, script: seq<Input>, id: JsonId)
    ensures var r := PlainRun(Reader(c, None), expected, script);
      Debt(r.client.feed, id) == Debt(c.feed, id) + if RefusalFailed(r.stop, r.client.feed, id) then 1 else 0
  {
    hide OnPlainMessage, Debt;
    if script != [] {
      var n := |script| - 1;
      PlainReaderRefuses(c, expected, script[..n], id);
      var before, i := PlainRun(Reader(c, None), expected, script[..n]), script[n];
      if before.stop.None? && i.read.Got? && i.read.line.Parsed? {
        var m := i.read.line.msg;
        var added := PlainMessageAdds(before.client, expected, m, i.writeOk);
        AddsDebt(before.client.feed, m, i.writeOk, added, OnPlainMessage(before.client, expected, m, i.writeOk).stop, id);
      }
    }
  }

  // ------------------------------------------------------------ permission requests

  /** `options[i]` is the first option of a kind. */
  predicate FirstIs(options: seq<PermissionOption>, i: nat, kind: OptionKind) {
    i < |options| && options[i].kind == kind && forall j :: 0 <= j < i ==> options[j].kind != kind
  }

  predicate Offers(options: seq<PermissionOption>, kind: OptionKind) {
    exists i :: 0 <= i < |options| && options[i].kind == kind
  }

  /** The option to select: the first `allow_once`, whatever else is offered; only without
      one the first `reject_once`, by its id or as "reject". */
  ghost predicate Selects(options: seq<PermissionOption>, o: string) {
    || (exists i: nat :: FirstIs(options, i, AllowOnce) && options[i].optionId == Some(o))
    || (!Offers(options, AllowOnce) && exists i: nat :: FirstIs(options, i, RejectOnce) && options[i].optionId.GetOr("reject") == o)
  }

  lemma FirstIsFound(options: seq<PermissionOption>, kind: OptionKind)
    ensures FirstOfKind(options, kind) < |options| <==> Offers(options, kind)
    ensures forall i: nat :: FirstIs(options, i, kind) <==> i < |options| && i == FirstOfKind(options, kind)
  {
  }

  lemma ChoiceSelects(options: seq<PermissionOption>)
    ensures forall o :: PermissionChoice(options) == Some(Selected(o)) <==> Selects(options, o)
    ensures PermissionChoice(options).None? <==> forall o :: !Selects(options, o)
    ensures PermissionChoice(options) != Some(Cancelled)
  {
    FirstIsFound(options, AllowOnce);
    FirstIsFound(options, RejectOnce);
    hide FirstOfKind, FirstIs, Offers;
    var allow, reject := FirstOfKind(options, AllowOnce), FirstOfKind(options, RejectOnce);
    if allow < |options| && options[allow].optionId.Some? {
      assert Selects(options, options[allow].optionId.value);
    } else if allow == |options| && reject < |options| {
      assert Selects(options, options[reject].optionId.GetOr("reject"));
    }
  }

  /** What answering the permission request `m` does to a client: the selected option is
      written under the request's id and nothing stays pending; if the write fails, or no
      option can be selected, nothing is written and the loop ends, with the request pending
      as unanswered. */
  ghost predicate AnswersPermission(c: Client, m: Message, writeOk: bool, c': Client, stop: Option<Stop>) {
    if m.id.None? then c' == c && stop == Some(ProtocolError)
    else if m.options.None? then c' == c.(permission := m.id, responded := false) && stop == Some(ProtocolError)
    else
      && ((forall o :: !Selects(m.options.value, o)) ==>
            c' == c.(permission := m.id, responded := false) && stop == Some(ProtocolError))
      && forall o :: Selects(m.options.value, o) ==>
           if writeOk then
             && c' == c.(feed := c.feed + [Wrote(PermissionReply(m.id.value, Selected(o)))], permission := None, responded := true)
             && stop.None?
           else c' == c.(permission := m.id, responded := false) && stop == Some(WriteFailed)
  }

  lemma HandlingAnswers(c: Client, m: Message, writeOk: bool)
    ensures var (c', stop) := HandlePermission(c, m, writeOk); AnswersPermission(c, m, writeOk, c', stop)
  {
    hide PermissionChoice, Selects;
    if m.id.Some? && m.options.Some? {
      var options := m.options.value;
      ChoiceSelects(options);
      forall o | Selects(options, o)
        ensures HandlePermission(c, m, writeOk) ==
          if writeOk then
            (c.(feed := c.feed + [Wrote(PermissionReply(m.id.value, Selected(o)))], permission := None, responded := true), None)
          else (c.(permission := m.id, responded := false), Some(WriteFailed))
      {
        assert PermissionChoice(options) == Some(Selected(o));
      }
      if forall o :: !Selects(options, o) {
        assert PermissionChoice(options).None?;
        assert HandlePermission(c, m, writeOk) == (c.(permission := m.id, responded := false), Some(ProtocolError));
      }
    }
  }

  function Recorded(c: Client, m: Message): Client { c.(feed := c.feed + [Read(m)]) }

  /** Every permission request the loop reads is answered so, and so does the plain reader. */
  lemma PermissionRequestsAreAnswered(l: Loop, s: Stimulus, m: Message)
    requires Reads(l, s, m) && m.verb.RequestPermission?
    ensures AnswersPermission(Recorded(l.client, m), m, s.writeOk, Iterate(l, s).client, Iterate(l, s).stop)
  {
    HandlingAnswers(Recorded(l.client, m), m, s.writeOk);
    hide HandlePermission, AnswersPermission;
    var (c, stop) := HandlePermission(Recorded(l.client, m), m, s.writeOk);
    var o := Offer(l, s.offer);
    assert Iterate(l, s) == Dispatch(Noted(o, m, s.at), m, s);
    assert Noted(o, m, s.at).client == Recorded(l.client, m);
  }

  lemma PlainReaderAnswers(c: Client, expected: nat, i: Input, m: Message)
    requires i.read == Got(Parsed(m)) && m.verb.RequestPermission?
    ensures var r := PlainStep(Reader(c, None), expected, i);
      AnswersPermission(Recorded(c, m), m, i.writeOk, r.client, r.stop)
  {
    HandlingAnswers(Recorded(c, m), m, i.writeOk);
    hide HandlePermission, AnswersPermission;
  }

  // ---------------------------------------------------------------------- responses

  /** A response, not a request, under a number. */
  predicate Responds(m: Message, id: nat) { m.id == Some(NumberId(id)) && m.verb == NoMethod }

  function ErrorCode(m: Message, default: int): int
    requires m.error.Some?
  {
    match m.error.value
    case Some(code) => code
    case None => default
  }

  /** The awaited response ends the loop, as a failure with its code exactly when it
      carries an error. */
  lemma ResponseEndsTheLoop(l: Loop, s: Stimulus, m: Message)
    requires Reads(l, s, m) && Responds(m, l.expected) && (l.pending.Some? ==> l.pending.value.id != l.expected)
    ensures Iterate(l, s).stop == Some(if m.error.Some? then AgentFailed(ErrorCode(m, -32000)) else Answered)
    ensures Iterate(l, s).client == Recorded(l.client, m)
  {
  }

  /** The plain reader's response, likewise; a message that is no response never ends it as
      answered or failed by the agent. */
  lemma PlainResponseEnds(c: Client, expected: nat, i: Input, m: Message)
    requires i.read == Got(Parsed(m))
    ensures var r := PlainStep(Reader(c, None), expected, i);
      if Responds(m, expected) then
        r == Reader(Recorded(c, m), Some(if m.error.Some? then AgentFailed(ErrorCode(m, -32000)) else Answered))
      else r.stop.None? || r.stop.value in {ProtocolError, WriteFailed}
  {
    PermissionErrors(Recorded(c, m), m, i.writeOk);
    hide HandlePermission;
  }

  /** A request is written first, under the next number, which is then used up. */
  lemma RequestIsWritten(c: Client, writeOk: bool, script: seq<Input>)
    ensures var r := SendRequest(c, writeOk, script);
      && r.client.nextId == c.nextId + 1
      && (if writeOk then c.feed + [Wrote(Request(c.nextId))] <= r.client.feed
          else r.client.feed == c.feed && r.stop == Some(WriteFailed))
  {
    if writeOk {
      PlainRunExtends(Reader(Write(c.(nextId := c.nextId + 1), Request(c.nextId)), None), c.nextId, script);
    }
  }

  lemma {:induction false} PlainRunExtends(r: Reader, expected: nat, script: seq<Input>)
    ensures var after := PlainRun(r, expected, script);
      r.client.feed <= after.client.feed && after.client.nextId == r.client.nextId
  {
    hide OnPlainMessage;
    if script != [] {
      var n := |script| - 1;
      PlainRunExtends(r, expected, script[..n]);
      var before := PlainRun(r, expected, script[..n]);
      if before.stop.None? && script[n].read.Got? && script[n].read.line.Parsed? {
        var m := script[n].read.line.msg;
        var added := PlainMessageAdds(before.client, expected, m, script[n].writeOk);
        PlainKeepsNumber(before.client, expected, m, script[n].writeOk);
      }
    }
  }

  lemma PlainKeepsNumber(c: Client, expected: nat, m: Message, writeOk: bool)
    ensures OnPlainMessage(c, expected, m, writeOk).client.nextId == c.nextId
  {
    HandlersTouch(Recorded(c, m), m, writeOk);
    hide HandlePermission, HandleUpdate;
  }

  /** The reply to the steer in flight settles it: an error by its code; without one, as
      delivered on the goose method, and on the extension only for the two outcomes that
      say so. What lands in the awaited turn, by goose or as injected, renews the turn's
      budget, never to less than was left. */
  lemma SteerReplySettles(l: Loop, s: Stimulus, m: Message)
    requires Reads(l, s, m) && l.pending.Some? && Responds(m, l.pending.value.id)
    ensures
      var r, p := Iterate(l, s), l.pending.value;
      var ack := if m.error.Some? then AgentError(ErrorCode(m, -1))
                 else if p.transport.Goose? || m.outcome in {Injected, StartedNewTurn} then Success
                 else OutcomeRejected;
      var renewed := s.later + l.maxDuration;
      && r.stop.None? && r.pending.None? && r.resolved == l.resolved + [Resolved(p.request, Sent(ack))]
      && r.hardAt == if m.error.None? && (p.transport.Goose? || m.outcome.Injected?) && renewed > l.hardAt then renewed
                     else l.hardAt
  {
  }

  /** Every parsed message restarts the idle clock when it is read; one that reports a tool
      call restarts it again once it has been handled. */
  lemma MessagesRestartTheClock(l: Loop, s: Stimulus, m: Message)
    requires Reads(l, s, m)
    ensures
      var r := Iterate(l, s);
      && r.idleAt == r.lastActivity + l.idleTimeout
      && r.lastActivity == if m.verb.SessionUpdate? && m.update.ToolCall? then s.later else s.at
  {
    hide HandlePermission, HandleUpdate;
  }

  /** The loop times out exactly when the earlier deadline is found passed before the wait,
      or passes while nothing is read and no steer can be taken. It says which deadline it was,
      and for the turn's budget how long the agent had been silent. */
  lemma TimeoutsFire(l: Loop, s: Stimulus)
    requires l.stop.None? && s.offer.None?
    ensures
      var r, due := Iterate(l, s), if l.idleAt < l.hardAt then l.idleAt else l.hardAt;
      var waits := s.ready.Quiet? && (l.pending.Some? || l.inbox == []);
      var silent := if s.later >= l.lastActivity then s.later - l.lastActivity else 0;
      && (s.check >= due || (waits && s.at >= due) ==>
            r.client == l.client && r.stop == Some(if l.idleAt < l.hardAt then IdleTimeout else HardTimeout(silent)))
      && (s.check < due && waits && s.at < due ==> r == l)
  {
  }

  // --------------------------------------------------------------- run ids and steers

  /** The run the agent last reported: the last session update that says one, or says there
      is none. */
  function LastRun(feed: seq<Feed>): Option<string> {
    if feed == [] then None
    else
      var e := feed[|feed| - 1];
      if e.Read? && e.msg.verb.SessionUpdate? && e.msg.update.SessionInfo? && !e.msg.update.run.Untouched? then
        if e.msg.update.run.Running? then Some(e.msg.update.run.run) else None
      else LastRun(feed[..|feed| - 1])
  }

  /** Every steer in the record went out as the reports before it call for: with the run the
      agent last reported, by the goose method; by the extension only when none is known and
      the agent advertised it. */
  ghost predicate SteersFollowReports(feed: seq<Feed>, supported: bool) {
    forall i :: Steers.SteerAt(feed, i) ==>
      && feed[i].wire.run == LastRun(feed[..i])
      && (feed[i].wire.transport == if LastRun(feed[..i]).Some? then Goose else AcpExtension)
      && (feed[i].wire.transport.AcpExtension? ==> supported)
  }

  ghost predicate FollowsReports(c: Client) {
    c.activeRun == LastRun(c.feed) && SteersFollowReports(c.feed, c.steeringSupported)
  }

  lemma ReportsGrow(c: Client, e: Feed, c': Client)
    requires FollowsReports(c) && c'.feed == c.feed + [e] && c'.steeringSupported == c.steeringSupported
    requires c'.activeRun == LastRun(c'.feed)
    requires e.Wrote? && e.wire.Steer? ==>
      && e.wire.run == c.activeRun && e.wire.transport == (if c.activeRun.Some? then Goose else AcpExtension)
      && (e.wire.transport.AcpExtension? ==> c.steeringSupported)
    ensures FollowsReports(c')
  {
    hide LastRun;
    forall i | Steers.SteerAt(c'.feed, i)
      ensures c'.feed[..i] == if i < |c.feed| then c.feed[..i] else c.feed
      ensures i < |c.feed| ==> Steers.SteerAt(c.feed, i)
    {
    }
  }

  lemma LastRunOf(feed: seq<Feed>, e: Feed)
    ensures LastRun(feed + [e]) ==
      if e.Read? && e.msg.verb.SessionUpdate? && e.msg.update.SessionInfo? && !e.msg.update.run.Untouched? then
        if e.msg.update.run.Running? then Some(e.msg.update.run.run) else None
      else LastRun(feed)
  {
    assert (feed + [e])[..|feed|] == feed;
  }

  lemma WriteKeepsReports(c: Client, w: Wire, c': Client)
    requires FollowsReports(c) && !w.Steer?
    requires c'.feed == c.feed + [Wrote(w)] && c'.steeringSupported == c.steeringSupported && c'.activeRun == c.activeRun
    ensures FollowsReports(c')
  {
    hide FollowsReports, LastRun;
    LastRunOf(c.feed, Wrote(w));
    assert FollowsReports(c) ==> c.activeRun == LastRun(c.feed) by { Unfold(c); }
    ReportsGrow(c, Wrote(w), c');
  }

  lemma Unfold(c: Client)
    ensures FollowsReports(c) ==> c.activeRun == LastRun(c.feed)
  {
  }

  lemma SameReports(c: Client, c': Client)
    requires FollowsReports(c)
    requires c'.feed == c.feed && c'.steeringSupported == c.steeringSupported && c'.activeRun == c.activeRun
    ensures FollowsReports(c')
  {
  }

  lemma ReadKeepsReports(c: Client, m: Message)
    requires FollowsReports(c)
    ensures FollowsReports(if m.verb.SessionUpdate? then HandleUpdate(Recorded(c, m), m.update) else Recorded(c, m))
  {
    var c' := if m.verb.SessionUpdate? then HandleUpdate(Recorded(c, m), m.update) else Recorded(c, m);
    LastRunOf(c.feed, Read(m));
    hide LastRun;
    ReportsGrow(c, Read(m), c');
  }
}
