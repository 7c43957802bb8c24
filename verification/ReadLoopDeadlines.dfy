/** Deadline discipline of the read loop, over every message stream. */
module ReadLoopDeadlines {
  import opened Wrappers
  import opened ReadLoop

  /** The iteration read and parsed a line: the only kind that moves the idle clock. */
  predicate Parses(l: Loop, s: Stimulus) {
    l.stop.None? && s.check < Deadline(l) && s.ready.Readable? && s.ready.read.Got? && s.ready.read.line.Parsed?
  }

  /** The line is the successful in-place answer to the steer in flight. */
  predicate RenewsAt(l: Loop, s: Stimulus) {
    && Parses(l, s)
    && l.pending.Some?
    && IsReply(s.ready.read.line.msg, l.pending.value.id)
    && Renews(l.pending.value.transport, s.ready.read.line.msg)
  }

  /** One iteration: the idle deadline stays `idleTimeout` after the last activity;
      only a parsed line moves it; the hard deadline never moves back and moves only
      on an in-place steer success, to `maxDuration` after that moment. */
  lemma IterationDeadlines(l: Loop, s: Stimulus)
    requires l.idleAt == l.lastActivity + l.idleTimeout
    ensures var r := Iterate(l, s);
      && r.idleAt == r.lastActivity + r.idleTimeout
      && r.idleTimeout == l.idleTimeout && r.maxDuration == l.maxDuration
      && (r.lastActivity != l.lastActivity ==> Parses(l, s))
      && (Parses(l, s) ==> r.lastActivity in {s.at, s.later})
      && r.hardAt == (if RenewsAt(l, s) then Max(l.hardAt, s.later + l.maxDuration) else l.hardAt)
      && (r.hardAt != l.hardAt ==> r.client.hardCap == Some(r.hardAt))
  {
    if l.stop.None? {
      var o := Offer(l, s.offer);
      if s.check >= Deadline(o) {
        assert !Parses(l, s);
      } else if s.ready.Quiet? {
        if o.pending.None? && o.inbox != [] {
          assert Iterate(l, s) == OnSteer(o, s.writeOk);
        }
      } else if s.ready.read.Got? && s.ready.read.line.Parsed? {
        assert Parses(l, s);
        assert Iterate(l, s) == OnMessage(o, s.ready.read.line.msg, s);
        MessageDeadlines(o, s.ready.read.line.msg, s);
      }
    }
  }

  lemma MessageDeadlines(l: Loop, m: Message, s: Stimulus)
    ensures var r := OnMessage(l, m, s);
      var renews := l.pending.Some? && IsReply(m, l.pending.value.id) && Renews(l.pending.value.transport, m);
      && r.idleAt == r.lastActivity + r.idleTimeout
      && r.idleTimeout == l.idleTimeout && r.maxDuration == l.maxDuration
      && r.lastActivity in {s.at, s.later}
      && r.hardAt == (if renews then Max(l.hardAt, s.later + l.maxDuration) else l.hardAt)
      && (r.hardAt != l.hardAt ==> r.client.hardCap == Some(r.hardAt))
  {
  }

  /** Once the earlier deadline has passed nothing is read or written: the loop
      stops, and the deadline that was earlier names the timeout. */
  lemma PassedDeadlineStops(l: Loop, s: Stimulus)
    requires l.stop.None? && s.check >= Deadline(l)
    ensures var r := Iterate(l, s);
      && r.client == l.client
      && r.stop.Some?
      && (r.stop.value == IdleTimeout <==> l.idleAt < l.hardAt)
      && (r.stop.value.HardTimeout? <==> l.hardAt <= l.idleAt)
  {
  }

  /** A timeout is only ever reported after its own deadline, which was the earlier one. */
  lemma TimeoutsAreDue(l: Loop, s: Stimulus)
    requires l.stop.None? && s.check <= s.at
    ensures var r := Iterate(l, s);
      && (r.stop == Some(IdleTimeout) ==> l.idleAt <= s.at && l.idleAt < l.hardAt)
      && (r.stop.Some? && r.stop.value.HardTimeout? ==> l.hardAt <= s.at && l.hardAt <= l.idleAt)
  {
    var o := Offer(l, s.offer);
    if s.check < Deadline(o) && s.ready.Readable? {
      ReadNeverTimesOut(o, s.ready.read, s);
    }
  }

  lemma ReadNeverTimesOut(l: Loop, r: ReadResult, s: Stimulus)
    requires l.stop.None?
    ensures var stop := OnRead(l, r, s).stop; stop.None? || (stop.value != IdleTimeout && !stop.value.HardTimeout?)
  {
  }

  // ------------------------------------------------------------ bounds over runs

  /** Clock readings of one iteration are ordered, and a line is picked up at most
      `slack` after the deadline that was armed when the wait began. */
  predicate PunctualAt(l: Loop, s: Stimulus, slack: nat) {
    s.check <= s.at <= s.later && (l.stop.None? && s.ready.Readable? ==> s.later <= Deadline(l) + slack)
  }

  predicate Punctual(l: Loop, script: seq<Stimulus>, slack: nat) {
    forall i :: 0 <= i < |script| ==> PunctualAt(Run(l, script[..i]), script[i], slack)
  }

  lemma PunctualPrefix(l: Loop, script: seq<Stimulus>, slack: nat, i: nat)
    requires Punctual(l, script, slack) && i <= |script|
    ensures Punctual(l, script[..i], slack)
  {
    hide Iterate, PunctualAt;
    var prefix := script[..i];
    forall j | 0 <= j < i ensures PunctualAt(Run(l, prefix[..j]), prefix[j], slack) {
      assert prefix[..j] == script[..j];
      assert PunctualAt(Run(l, script[..j]), script[j], slack);
    }
  }

  function Successes(resolved: seq<Resolved>): nat {
    if resolved == [] then 0
    else Successes(resolved[..|resolved| - 1]) + (if resolved[|resolved| - 1].how == Sent(Success) then 1 else 0)
  }

  lemma {:induction false} SuccessesAppend(a: seq<Resolved>, b: seq<Resolved>)
    ensures Successes(a + b) == Successes(a) + Successes(b)
  {
    if b == [] {
      assert a + b == a;
    } else {
      var c := b[..|b| - 1];
      assert (a + b)[..|a + b| - 1] == a + c;
      SuccessesAppend(a, c);
    }
  }

  lemma {:induction false} DroppedAreNoSuccesses(requests: seq<SteerRequest>)
    ensures Successes(DropAll(requests)) == 0
  {
    if requests != [] {
      var last := |requests| - 1;
      assert DropAll(requests)[..last] == DropAll(requests[..last]);
      DroppedAreNoSuccesses(requests[..last]);
    }
  }

  lemma LeaveAddsNoSuccess(l: Loop, stop: Stop, how: Resolution)
    requires how != Sent(Success)
    ensures Successes(Leave(l, stop, how).resolved) == Successes(l.resolved)
  {
    var settled, dropped := Settle(l.pending, how), DropAll(l.inbox);
    SuccessesAppend(l.resolved, settled);
    SuccessesAppend(l.resolved + settled, dropped);
    DroppedAreNoSuccesses(l.inbox);
  }

  /** The line is a delivering answer to the steer in flight. */
  predicate DeliversAt(l: Loop, s: Stimulus) {
    && Parses(l, s)
    && l.pending.Some?
    && IsReply(s.ready.read.line.msg, l.pending.value.id)
    && Verdict(l.pending.value.transport, s.ready.read.line.msg) == Success
  }

  /** A success is recorded exactly when a delivering answer is read. */
  lemma IterationSuccesses(l: Loop, s: Stimulus)
    ensures Successes(Iterate(l, s).resolved) == Successes(l.resolved) + (if DeliversAt(l, s) then 1 else 0)
  {
    hide OnMessage, OnSteer, Leave, Verdict;
    if l.stop.None? {
      var o := Offer(l, s.offer);
      if s.check >= Deadline(o) {
        LeaveAddsNoSuccess(o, TimedOut(o, s.later), Sent(PromptCompletedNeutral));
      } else if s.ready.Readable? {
        ReadSuccesses(o, s.ready.read, s);
      } else if o.pending.None? && o.inbox != [] {
        SteerAddsNoSuccess(o, s.writeOk);
      } else {
        LeaveAddsNoSuccess(o, TimedOut(o, s.later), Sent(PromptCompletedNeutral));
      }
    }
  }

  lemma SteerAddsNoSuccess(l: Loop, writeOk: bool)
    requires l.inbox != []
    ensures Successes(OnSteer(l, writeOk).resolved) == Successes(l.resolved)
  {
    SuccessesAppend(l.resolved, [Resolved(l.inbox[0], Sent(ExpectedRunIdMissing))]);
    SuccessesAppend(l.resolved, [Resolved(l.inbox[0], Sent(TransportFailed))]);
  }

  lemma ReadSuccesses(l: Loop, r: ReadResult, s: Stimulus)
    requires l.stop.None? && s.check < Deadline(l) && s.ready == Readable(r)
    ensures Successes(OnRead(l, r, s).resolved) == Successes(l.resolved) + (if DeliversAt(l, s) then 1 else 0)
  {
    match r
    case Eof => LeaveAddsNoSuccess(l, AgentExited, Sent(PromptCompletedNeutral));
    case TooLong => LeaveAddsNoSuccess(l, ProtocolError, Sent(PromptCompletedNeutral));
    case ReadError => LeaveAddsNoSuccess(l, IoError, Sent(PromptCompletedNeutral));
    case Got(Parsed(m)) => MessageSuccesses(l, m, s);
    case Got(_) =>
  }

  lemma MessageSuccesses(l: Loop, m: Message, s: Stimulus)
    requires l.stop.None?
    ensures var delivers := l.pending.Some? && IsReply(m, l.pending.value.id) && Verdict(l.pending.value.transport, m) == Success;
      Successes(OnMessage(l, m, s).resolved) == Successes(l.resolved) + (if delivers then 1 else 0)
  {
    hide Dispatch;
    var l1 := Noted(l, m, s.at);
    if l.pending.Some? && IsReply(m, l.pending.value.id) {
      var p := l.pending.value;
      SuccessesAppend(l.resolved, [Resolved(p.request, Sent(Verdict(p.transport, m)))]);
    } else if IsReply(m, l.expected) {
      LeaveAddsNoSuccess(l1, OnMessage(l, m, s).stop.value, Sent(PromptCompletedNeutral));
    } else {
      var r := Dispatch(l1, m, s);
      DispatchShape(l1, m, s);
      if r.stop.Some? { LeaveAddsNoSuccess(l1.(client := r.client), r.stop.value, Dropped); }
    }
  }

  /** With N successful steers the hard deadline is at most N full budgets (plus the
      pick-up slack of each) after the one the loop started with, and never earlier. */
  lemma {:induction false} HardDeadlineBound(l: Loop, script: seq<Stimulus>, slack: nat)
    requires l.idleAt == l.lastActivity + l.idleTimeout
    requires Punctual(l, script, slack)
    ensures var r := Run(l, script);
      && r.idleAt == r.lastActivity + r.idleTimeout
      && r.idleTimeout == l.idleTimeout && r.maxDuration == l.maxDuration
      && Successes(l.resolved) <= Successes(r.resolved)
      && l.hardAt <= r.hardAt <= l.hardAt + Budgets(Successes(r.resolved) - Successes(l.resolved), l.maxDuration + slack)
  {
    hide Iterate, Budgets;
    BudgetsGrow(0, 0, l.maxDuration + slack);
    if script != [] {
      var n := |script| - 1;
      var before, s := Run(l, script[..n]), script[n];
      PunctualPrefix(l, script, slack, n);
      HardDeadlineBound(l, script[..n], slack);
      assert PunctualAt(Run(l, script[..n]), script[n], slack);
      IterationDeadlines(before, s);
      IterationSuccesses(before, s);
      var r, budget := Iterate(before, s), l.maxDuration + slack;
      var k := Successes(before.resolved) - Successes(l.resolved);
      var k' := Successes(r.resolved) - Successes(l.resolved);
      if RenewsAt(before, s) {
        assert DeliversAt(before, s);
        assert r.hardAt <= before.hardAt + budget;
        BudgetsGrow(k, k + 1, budget);
        BudgetsGrow(k + 1, k', budget);
      } else {
        BudgetsGrow(k, k', budget);
      }
    }
  }

  /** `n` turn budgets. */
  function Budgets(n: nat, budget: nat): nat { n * budget }

  lemma BudgetsGrow(a: nat, b: nat, budget: nat)
    requires a <= b
    ensures Budgets(0, budget) == 0 && Budgets(a, budget) <= Budgets(b, budget) && Budgets(a + 1, budget) == Budgets(a, budget) + budget
  {
  }

  // ------------------------------------------------- an agent that never falls silent

  /** Requests the run's script offers: an upper bound on the steers it can carry. */
  function Offers(script: seq<Stimulus>): nat {
    if script == [] then 0
    else Offers(script[..|script| - 1]) + (if script[|script| - 1].offer.Some? then 1 else 0)
  }

  /** Everything the loop still holds or has settled successfully. */
  function Charge(l: Loop): nat {
    Successes(l.resolved) + |l.inbox| + (if l.pending.Some? then 1 else 0)
  }

  lemma IterationCharge(l: Loop, s: Stimulus)
    ensures Charge(Iterate(l, s)) <= Charge(l) + (if s.offer.Some? then 1 else 0)
  {
    hide OnMessage, OnSteer, Leave, Charge;
    if l.stop.None? {
      var o := Offer(l, s.offer);
      OfferCharge(l, s.offer);
      if s.check >= Deadline(o) {
        LeaveCharge(o, TimedOut(o, s.later), Sent(PromptCompletedNeutral));
      } else if s.ready.Readable? {
        ReadCharge(o, s.ready.read, s);
      } else if o.pending.None? && o.inbox != [] {
        SteerCharge(o, s.writeOk);
      } else if s.at >= Deadline(o) {
        LeaveCharge(o, TimedOut(o, s.later), Sent(PromptCompletedNeutral));
      }
    }
  }

  lemma OfferCharge(l: Loop, offer: Option<SteerRequest>)
    ensures Charge(Offer(l, offer)) <= Charge(l) + (if offer.Some? then 1 else 0)
  {
  }

  lemma SteerCharge(l: Loop, writeOk: bool)
    requires l.pending.None? && l.inbox != []
    ensures Charge(OnSteer(l, writeOk)) <= Charge(l)
  {
    SteerAddsNoSuccess(l, writeOk);
  }

  lemma LeaveCharge(l: Loop, stop: Stop, how: Resolution)
    requires how != Sent(Success)
    ensures Charge(Leave(l, stop, how)) <= Charge(l)
  {
    LeaveAddsNoSuccess(l, stop, how);
  }

  lemma ReadCharge(l: Loop, r: ReadResult, s: Stimulus)
    requires l.stop.None?
    ensures Charge(OnRead(l, r, s)) <= Charge(l)
  {
    match r
    case Eof => LeaveCharge(l, AgentExited, Sent(PromptCompletedNeutral));
    case TooLong => LeaveCharge(l, ProtocolError, Sent(PromptCompletedNeutral));
    case ReadError => LeaveCharge(l, IoError, Sent(PromptCompletedNeutral));
    case Got(Parsed(m)) => MessageCharge(l, m, s);
    case Got(_) =>
  }

  lemma MessageCharge(l: Loop, m: Message, s: Stimulus)
    requires l.stop.None?
    ensures Charge(OnMessage(l, m, s)) <= Charge(l)
  {
    hide Dispatch;
    var l1 := Noted(l, m, s.at);
    if l.pending.Some? && IsReply(m, l.pending.value.id) {
      var p := l.pending.value;
      SuccessesAppend(l.resolved, [Resolved(p.request, Sent(Verdict(p.transport, m)))]);
    } else if IsReply(m, l.expected) {
      LeaveCharge(l1, OnMessage(l, m, s).stop.value, Sent(PromptCompletedNeutral));
    } else {
      var r := Dispatch(l1, m, s);
      DispatchShape(l1, m, s);
      if r.stop.Some? { LeaveCharge(l1.(client := r.client), r.stop.value, Dropped); }
    }
  }

  lemma {:induction false} RunCharge(l: Loop, script: seq<Stimulus>)
    ensures Charge(Run(l, script)) <= Charge(l) + Offers(script)
  {
    if script != [] {
      RunCharge(l, script[..|script| - 1]);
      IterationCharge(Run(l, script[..|script| - 1]), script[|script| - 1]);
    }
  }

  lemma {:induction false} OffersMonotone(script: seq<Stimulus>, i: nat)
    requires i <= |script|
    ensures Offers(script[..i]) <= Offers(script)
    decreases |script|
  {
    if i < |script| {
      var n := |script| - 1;
      assert script[..n][..i] == script[..i];
      OffersMonotone(script[..n], i);
    } else {
      assert script[..i] == script;
    }
  }

  lemma {:induction false} StoppedStaysStopped(l: Loop, script: seq<Stimulus>, i: nat)
    requires i <= |script| && Run(l, script[..i]).stop.Some?
    ensures Run(l, script) == Run(l, script[..i])
    decreases |script|
  {
    if i < |script| {
      var n := |script| - 1;
      assert script[..n][..i] == script[..i];
      StoppedStaysStopped(l, script[..n], i);
    } else {
      assert script[..i] == script;
    }
  }

  /** However much the agent streams, the loop has stopped by the first iteration that
      begins at or after the initial hard deadline plus one budget (and slack) for each
      request it holds or is offered. */
  lemma NeverSilentAgentIsStopped(l: Loop, script: seq<Stimulus>, slack: nat, i: nat)
    requires l.idleAt == l.lastActivity + l.idleTimeout
    requires Punctual(l, script, slack)
    requires i < |script|
    requires script[i].check >=
      l.hardAt + Budgets(|l.inbox| + (if l.pending.Some? then 1 else 0) + Offers(script), l.maxDuration + slack)
    ensures Run(l, script).stop.Some?
  {
    hide Iterate, Budgets, Punctual, Charge;
    var now := Run(l, script[..i]);
    if now.stop.Some? {
      StoppedStaysStopped(l, script, i);
    } else {
      DueByThen(l, script, slack, i);
      PassedDeadlineStops(now, script[i]);
      assert script[..i + 1][..i] == script[..i];
      assert Run(l, script[..i + 1]) == Iterate(now, script[i]);
      StoppedStaysStopped(l, script, i + 1);
    }
  }

  lemma DueByThen(l: Loop, script: seq<Stimulus>, slack: nat, i: nat)
    requires l.idleAt == l.lastActivity + l.idleTimeout
    requires Punctual(l, script, slack)
    requires i <= |script|
    ensures Deadline(Run(l, script[..i])) <=
      l.hardAt + Budgets(|l.inbox| + (if l.pending.Some? then 1 else 0) + Offers(script), l.maxDuration + slack)
  {
    hide Iterate, Budgets, Punctual, Run;
    PunctualPrefix(l, script, slack, i);
    HardDeadlineBound(l, script[..i], slack);
    RunCharge(l, script[..i]);
    OffersMonotone(script, i);
    var used := Successes(Run(l, script[..i]).resolved) - Successes(l.resolved);
    BudgetsGrow(used, |l.inbox| + (if l.pending.Some? then 1 else 0) + Offers(script), l.maxDuration + slack);
  }
}
