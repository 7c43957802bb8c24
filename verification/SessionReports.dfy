/** Whole sessions of one client: the run id it holds is the one the agent last reported,
    every steer goes out accordingly, and prompts and cancellations write what they must. */
module SessionReports {
  import opened Wrappers
  import opened ReadLoop
  import opened ReadLoopAnswers
  import opened PlainRequests
  import opened Permissions
  import opened Session
  import Deadlines = ReadLoopDeadlines
  import Steers = ReadLoopSteers

  // ------------------------------------------------------------------ the steer arm

  /** The transport for a steer: goose with the known run id first; else the extension if the
      agent advertised it; else none. */
  predicate Calls(c: Client, transport: Transport, run: Option<string>) {
    if c.activeRun.Some? then transport.Goose? && run == c.activeRun
    else transport.AcpExtension? && run.None? && c.steeringSupported
  }

  /** Taking a queued request while no steer is in flight: it is written under the next id and
      is then in flight; a failed write settles it as such; and when the agent neither has a
      known run nor advertised the extension it is settled without being written. */
  lemma SteerArmExactly(l: Loop, s: Stimulus)
    requires l.stop.None? && s.check < Deadline(l) && s.ready.Quiet? && l.pending.None? && l.inbox != []
    ensures
      var r, q, c := Iterate(l, s), l.inbox[0], l.client;
      && r.stop.None? && r.inbox == l.inbox[1..]
      && ((forall t, run :: !Calls(c, t, run)) ==>
            r.client == c && r.pending.None? && r.resolved == l.resolved + [Resolved(q, Sent(ExpectedRunIdMissing))])
      && forall t, run :: Calls(c, t, run) ==>
           if s.writeOk then
             && r.client == c.(nextId := c.nextId + 1, feed := c.feed + [Wrote(Steer(c.nextId, t, run, q))])
             && r.pending == Some(Pending(c.nextId, t, q)) && r.resolved == l.resolved
           else
             && r.client == c.(nextId := c.nextId + 1) && r.pending.None?
             && r.resolved == l.resolved + [Resolved(q, Sent(TransportFailed))]
  {
    var c := l.client;
    if c.activeRun.Some? {
      assert Calls(c, Goose, c.activeRun);
    } else if c.steeringSupported {
      assert Calls(c, AcpExtension, None);
    }
    assert Iterate(l, s) == OnSteer(l, s.writeOk);
  }

  // ------------------------------------------------------------- reports over sessions

  lemma PermissionKeepsReports(c: Client, m: Message, writeOk: bool)
    requires FollowsReports(c)
    ensures FollowsReports(HandlePermission(c, m, writeOk).0)
  {
    hide FollowsReports, PermissionChoice;
    var r := HandlePermission(c, m, writeOk).0;
    if r.feed == c.feed {
      SameReports(c, r);
    } else {
      WriteKeepsReports(c, r.feed[|c.feed|].wire, r);
    }
  }

  lemma NotedReports(c: Client, m: Message)
    requires FollowsReports(c) && !m.verb.SessionUpdate?
    ensures FollowsReports(Recorded(c, m))
  {
    ReadKeepsReports(c, m);
  }

  lemma MessageKeepsReports(l: Loop, m: Message, s: Stimulus)
    requires FollowsReports(l.client) && l.stop.None?
    ensures FollowsReports(OnMessage(l, m, s).client)
  {
    hide FollowsReports, HandlePermission, HandleUpdate;
    var r, c := OnMessage(l, m, s).client, Recorded(l.client, m);
    assert Noted(l, m, s.at).client == c;
    if m.verb.SessionUpdate? {
      ReadKeepsReports(l.client, m);
    } else {
      NotedReports(l.client, m);
      if m.verb.RequestPermission? {
        PermissionKeepsReports(c, m, s.writeOk);
        assert r == HandlePermission(c, m, s.writeOk).0;
      } else if m.verb.UnknownMethod? && m.id.Some? && s.writeOk {
        WriteKeepsReports(c, MethodNotFound(m.id.value), r);
      } else {
        SameReports(c, r);
      }
    }
  }

  lemma SteerKeepsReports(l: Loop, writeOk: bool)
    requires FollowsReports(l.client) && l.inbox != []
    ensures FollowsReports(OnSteer(l, writeOk).client)
  {
    var c, r := l.client, OnSteer(l, writeOk).client;
    if r.feed == c.feed {
      SameReports(c, r);
    } else {
      LastRunOf(c.feed, r.feed[|c.feed|]);
      hide LastRun, SteersFollowReports;
      ReportsGrow(c, r.feed[|c.feed|], r);
    }
  }

  lemma IterationKeepsReports(l: Loop, s: Stimulus)
    requires FollowsReports(l.client)
    ensures FollowsReports(Iterate(l, s).client)
  {
    hide FollowsReports, OnMessage, OnSteer;
    if l.stop.None? {
      var o := Offer(l, s.offer);
      if s.check < Deadline(o) {
        if s.ready.Readable? {
          if s.ready.read.Got? && s.ready.read.line.Parsed? {
            MessageKeepsReports(o, s.ready.read.line.msg, s);
          }
        } else if o.pending.None? && o.inbox != [] {
          SteerKeepsReports(o, s.writeOk);
        }
      }
    }
  }

  lemma {:induction false} RunKeepsReports(l: Loop, script: seq<Stimulus>)
    requires FollowsReports(l.client)
    ensures FollowsReports(Run(l, script).client) && FollowsReports(Finish(Run(l, script)).client)
  {
    hide FollowsReports, Iterate;
    if script != [] {
      RunKeepsReports(l, script[..|script| - 1]);
      IterationKeepsReports(Run(l, script[..|script| - 1]), script[|script| - 1]);
    }
  }

  lemma PlainMessageKeepsReports(c: Client, expected: nat, m: Message, writeOk: bool)
    requires FollowsReports(c)
    ensures FollowsReports(OnPlainMessage(c, expected, m, writeOk).client)
  {
    hide FollowsReports, HandlePermission, HandleUpdate;
    var r, c1 := OnPlainMessage(c, expected, m, writeOk).client, Recorded(c, m);
    if m.verb.SessionUpdate? {
      ReadKeepsReports(c, m);
    } else {
      NotedReports(c, m);
      if m.verb.RequestPermission? {
        PermissionKeepsReports(c1, m, writeOk);
      } else if m.verb.UnknownMethod? && m.id.Some? && writeOk {
        WriteKeepsReports(c1, MethodNotFound(m.id.value), r);
      } else {
        SameReports(c1, r);
      }
    }
  }

  lemma {:induction false} PlainRunKeepsReports(r: Reader, expected: nat, script: seq<Input>)
    requires FollowsReports(r.client)
    ensures FollowsReports(PlainRun(r, expected, script).client)
  {
    hide FollowsReports, OnPlainMessage;
    if script != [] {
      var n := |script| - 1;
      PlainRunKeepsReports(r, expected, script[..n]);
      var before := PlainRun(r, expected, script[..n]);
      if before.stop.None? && script[n].read.Got? && script[n].read.line.Parsed? {
        PlainMessageKeepsReports(before.client, expected, script[n].read.line.msg, script[n].writeOk);
      }
    }
  }

  lemma CancelKeepsReports(c: Client, hardAt: Time, replyOk: bool, cancelOk: bool, now: Time, inbox: Inbox,
                           script: seq<Stimulus>)
    requires FollowsReports(c)
    ensures FollowsReports(CancelUntil(c, hardAt, replyOk, cancelOk, now, inbox, script).client)
  {
    hide FollowsReports, Run, Finish;
    if c.lastPrompt.Some? {
      var c1 := c.(lastPrompt := None);
      SameReports(c, c1);
      var c2 := CancelPermission(c1, replyOk);
      if c2.Some? {
        if c2.value.feed == c1.feed {
          SameReports(c1, c2.value);
        } else {
          WriteKeepsReports(c1, PermissionReply(c1.permission.value, Cancelled), c2.value);
        }
        if cancelOk {
          var l := CancelLoop(c2.value, c.lastPrompt.value, hardAt, now, inbox);
          WriteKeepsReports(c2.value, CancelNotice, l.client);
          RunKeepsReports(l, script);
        }
      }
    }
  }

  lemma PromptKeepsReports(c: Client, op: Op)
    requires FollowsReports(c) && op.DoPrompt?
    ensures FollowsReports(Perform(c, op))
  {
    hide FollowsReports, Run, Finish;
    if op.writeOk {
      var l := PromptLoop(c, op.now, op.idleTimeout, op.maxDuration, op.entered, op.inbox);
      WriteKeepsReports(c, Prompt(c.nextId), l.client);
      RunKeepsReports(l, op.script);
      SameReports(Finish(Run(l, op.script)).client, Perform(c, op));
    } else {
      SameReports(c, Perform(c, op));
    }
  }

  lemma OperationKeepsReports(c: Client, op: Op)
    requires FollowsReports(c)
    ensures FollowsReports(Perform(c, op))
  {
    hide FollowsReports, CancelUntil, PlainRun;
    match op
    case DoPrompt(_, _, _, _, _, _, _) => PromptKeepsReports(c, op);
    case DoCleanup(now, replyOk, cancelOk, entered, inbox, script) =>
      SameReports(c, c.(hardCap := None));
      CancelKeepsReports(c.(hardCap := None), CleanupDeadline(c, now), replyOk, cancelOk, entered, inbox, script);
    case DoGrace(now, grace, replyOk, cancelOk, entered, inbox, script) =>
      SameReports(c, c.(hardCap := None));
      CancelKeepsReports(c.(hardCap := None), now + grace, replyOk, cancelOk, entered, inbox, script);
    case DoRequest(requestOk, lines) =>
      if requestOk {
        var start := Write(c.(nextId := c.nextId + 1), Request(c.nextId));
        WriteKeepsReports(c, Request(c.nextId), start);
        PlainRunKeepsReports(Reader(start, None), c.nextId, lines);
      } else {
        SameReports(c, Perform(c, op));
      }
  }

  /** Over any session the client's run id is the one the agent last reported, and every steer
      in the record carries the run reported before it by the goose method, or went by the
      extension when none was, and only if it was advertised. */
  lemma {:induction false} SteersFollowTheReports(c: Client, ops: seq<Op>)
    requires c.feed == [] && c.activeRun.None?
    ensures FollowsReports(PerformAll(c, ops))
  {
    hide Perform;
    if ops != [] {
      SteersFollowTheReports(c, ops[..|ops| - 1]);
      OperationKeepsReports(PerformAll(c, ops[..|ops| - 1]), ops[|ops| - 1]);
    }
  }

  // ------------------------------------------------------------------ what is written

  lemma {:induction false} RunOnlyAdds(l: Loop, script: seq<Stimulus>)
    ensures l.client.feed <= Run(l, script).client.feed && Finish(Run(l, script)).client == Run(l, script).client
  {
    hide Iterate;
    if script != [] {
      var n := |script| - 1;
      RunOnlyAdds(l, script[..n]);
      var before := Run(l, script[..n]);
      if before.stop.None? {
        IterationOnlyAdds(before, script[n]);
      } else {
        StoppedIsFinal(before, script[n]);
      }
    }
  }

  lemma IterationOnlyAdds(l: Loop, s: Stimulus)
    requires l.stop.None?
    ensures l.client.feed <= Iterate(l, s).client.feed
  {
    hide OnMessage;
    if ReadsMessage(l, s) {
      var added := MessageAdds(Offer(l, s.offer), s.ready.read.line.msg, s);
    } else {
      QuietAdds(l, s);
    }
  }

  /** A prompt is written first, under the next number; if that fails nothing is recorded. */
  lemma PromptIsWritten(c: Client, now: Time, idleTimeout: nat, maxDuration: nat, writeOk: bool, entered: Time,
                        inbox: Inbox, script: seq<Stimulus>)
    ensures var t := SessionPrompt(c, now, idleTimeout, maxDuration, writeOk, entered, inbox, script);
      if writeOk then c.feed + [Wrote(Prompt(c.nextId))] <= t.client.feed
      else t.client.feed == c.feed && t.client.nextId == c.nextId + 1 && t.stop == WriteFailed && t.resolved == []
  {
    hide Run, Finish;
    if writeOk {
      RunOnlyAdds(PromptLoop(c, now, idleTimeout, maxDuration, entered, inbox), script);
    }
  }

  /** What a cancellation of a remembered prompt writes before it drains: the cancelled answer
      to a permission request still unanswered, then the notice; whatever fails ends it. */
  lemma CancelWrites(c: Client, hardAt: Time, replyOk: bool, cancelOk: bool, now: Time, inbox: Inbox,
                     script: seq<Stimulus>)
    requires c.lastPrompt.Some?
    ensures
      var t := CancelUntil(c, hardAt, replyOk, cancelOk, now, inbox, script);
      var owed := c.permission.Some? && !c.responded;
      var answered := if owed then c.feed + [Wrote(PermissionReply(c.permission.value, Cancelled))] else c.feed;
      if owed && !replyOk then t.client.feed == c.feed && t.client.permission == c.permission && t.stop == WriteFailed
      else if !cancelOk then t.client.feed == answered && t.client.permission.None? && t.stop == WriteFailed
      else answered + [Wrote(CancelNotice)] <= t.client.feed
  {
    hide Run, Finish;
    var c2 := CancelPermission(c.(lastPrompt := None), replyOk);
    if c2.Some? && cancelOk {
      RunOnlyAdds(CancelLoop(c2.value, c.lastPrompt.value, hardAt, now, inbox), script);
    }
  }

  /** A cancellation drains until the stored deadline when that leaves more than the grace, and
      until the grace otherwise: no hard timeout is reported before. */
  lemma CleanupInheritsTheDeadline(c: Client, now: Time, replyOk: bool, cancelOk: bool, entered: Time, inbox: Inbox,
                                   script: seq<Stimulus>)
    requires forall i :: 0 <= i < |script| ==> script[i].check <= script[i].at
    requires CancelWithCleanup(c, now, replyOk, cancelOk, entered, inbox, script).stop.HardTimeout?
    ensures exists i :: 0 <= i < |script| && script[i].at >= now + CLEANUP_GRACE
                        && (c.hardCap.Some? ==> script[i].at >= c.hardCap.value)
  {
    hide Run, Iterate;
    var c2 := CancelPermission(c.(hardCap := None, lastPrompt := None), replyOk);
    var l := CancelLoop(c2.value, c.lastPrompt.value, CleanupDeadline(c, now), entered, inbox);
    var i := HardTimeoutIsDue(l, script);
    assert script[i].at >= CleanupDeadline(c, now);
  }

  lemma {:induction false} HardTimeoutIsDue(l: Loop, script: seq<Stimulus>) returns (i: nat)
    requires l.stop.None? && l.idleAt == l.lastActivity + l.idleTimeout
    requires forall i :: 0 <= i < |script| ==> script[i].check <= script[i].at
    requires Finish(Run(l, script)).stop.Some? && Finish(Run(l, script)).stop.value.HardTimeout?
    ensures i < |script| && script[i].at >= l.hardAt
  {
    hide Iterate;
    i := 0;
    if script != [] {
      var n := |script| - 1;
      var before := Run(l, script[..n]);
      RunNeverShortens(l, script[..n]);
      if before.stop.None? {
        Deadlines.TimeoutsAreDue(before, script[n]);
        i := n;
      } else {
        StoppedIsFinal(before, script[n]);
        i := HardTimeoutIsDue(l, script[..n]);
      }
    }
  }

  // --------------------------------------------------------------- the terms of a loop

  lemma {:induction false} RunKeepsTerms(l: Loop, script: seq<Stimulus>)
    ensures var r := Run(l, script);
      r.expected == l.expected && r.idleTimeout == l.idleTimeout && r.maxDuration == l.maxDuration
  {
    hide Iterate;
    if script != [] {
      RunKeepsTerms(l, script[..|script| - 1]);
      IterationKeepsTerms(Run(l, script[..|script| - 1]), script[|script| - 1]);
    }
  }

  lemma IterationKeepsTerms(l: Loop, s: Stimulus)
    ensures var r := Iterate(l, s);
      r.expected == l.expected && r.idleTimeout == l.idleTimeout && r.maxDuration == l.maxDuration
  {
    hide HandlePermission, HandleUpdate;
  }

  /** Throughout, a prompt's loop awaits the prompt's own number and renews by the whole
      budget; a cancellation's loop awaits the remembered prompt's, is patient for thirty
      seconds, and renews by no more than what was left when it began. */
  lemma LoopsKeepTheirTerms(c: Client, now: Time, idleTimeout: nat, maxDuration: nat, entered: Time, inbox: Inbox,
                            script: seq<Stimulus>, promptId: nat, hardAt: Time)
    ensures var l := Run(PromptLoop(c, now, idleTimeout, maxDuration, entered, inbox), script);
      l.expected == c.nextId && l.idleTimeout == idleTimeout && l.maxDuration == maxDuration
    ensures var l := Run(CancelLoop(c, promptId, hardAt, now, inbox), script);
      l.expected == promptId && l.idleTimeout == 30_000 && now + l.maxDuration == Max(now, hardAt)
  {
    RunKeepsTerms(PromptLoop(c, now, idleTimeout, maxDuration, entered, inbox), script);
    RunKeepsTerms(CancelLoop(c, promptId, hardAt, now, inbox), script);
    hide Run;
  }

  /** However much the agent streams, a turn is over by the first check at or after its budget
      from the call, plus one budget for each request it holds or is offered; and a
      cancellation by its deadline, plus what was left of it for each. */
  lemma TurnsEndInTime(c: Client, now: Time, idleTimeout: nat, maxDuration: nat, entered: Time, inbox: Inbox,
                       script: seq<Stimulus>, promptId: nat, hardAt: Time, slack: nat, i: nat)
    requires i < |script|
    ensures var l := PromptLoop(c, now, idleTimeout, maxDuration, entered, inbox);
      var budgets := Deadlines.Budgets(|inbox.requests| + Deadlines.Offers(script), maxDuration + slack);
      Deadlines.Punctual(l, script, slack) && script[i].check >= now + maxDuration + budgets ==> Run(l, script).stop.Some?
    ensures var l := CancelLoop(c, promptId, hardAt, now, inbox);
      var left := if hardAt >= now then hardAt - now else 0;
      var budgets := Deadlines.Budgets(|inbox.requests| + Deadlines.Offers(script), left + slack);
      Deadlines.Punctual(l, script, slack) && script[i].check >= hardAt + budgets ==> Run(l, script).stop.Some?
  {
    hide Run, Deadlines.Budgets, Deadlines.Punctual, Deadlines.Offers;
    var prompt := PromptLoop(c, now, idleTimeout, maxDuration, entered, inbox);
    var cancel := CancelLoop(c, promptId, hardAt, now, inbox);
    var n := |inbox.requests| + Deadlines.Offers(script);
    if Deadlines.Punctual(prompt, script, slack) && script[i].check >= now + maxDuration + Deadlines.Budgets(n, maxDuration + slack) {
      Deadlines.NeverSilentAgentIsStopped(prompt, script, slack, i);
    }
    if Deadlines.Punctual(cancel, script, slack) && script[i].check >= hardAt + Deadlines.Budgets(n, cancel.maxDuration + slack) {
      Deadlines.NeverSilentAgentIsStopped(cancel, script, slack, i);
    }
  }
}
