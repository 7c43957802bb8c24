/** Steer requests in the read loop: every request taken is settled exactly once,
    at most one is written and unanswered, and a success is reported only for a
    request whose own answer said so. */
module ReadLoopSteers {
  import opened Wrappers
  import opened ReadLoop

  // ---------------------------------------------------------------- conservation

  function Requests(resolved: seq<Resolved>): (r: seq<SteerRequest>)
    ensures |r| == |resolved|
  {
    seq(|resolved|, i requires 0 <= i < |resolved| => resolved[i].request)
  }

  function InFlight(pending: Option<Pending>): seq<SteerRequest> {
    match pending
    case None => []
    case Some(p) => [p.request]
  }

  /** Every request the loop has taken: settled, written or still in the channel. */
  function Held(l: Loop): multiset<SteerRequest> {
    multiset(Requests(l.resolved)) + multiset(InFlight(l.pending)) + multiset(l.inbox)
  }

  function TakenAt(l: Loop, s: Stimulus): seq<SteerRequest> {
    if s.offer.Some? && Accepts(l) then [s.offer.value] else []
  }

  /** The requests `try_send` accepted during a run, in order. */
  function Taken(l: Loop, script: seq<Stimulus>): seq<SteerRequest> {
    if script == [] then []
    else Taken(l, script[..|script| - 1]) + TakenAt(Run(l, script[..|script| - 1]), script[|script| - 1])
  }

  lemma RequestsAppend(a: seq<Resolved>, b: seq<Resolved>)
    ensures Requests(a + b) == Requests(a) + Requests(b)
  {
  }

  lemma LeaveHolds(l: Loop, stop: Stop, how: Resolution)
    ensures Held(Leave(l, stop, how)) == Held(l)
  {
    RequestsAppend(l.resolved, Settle(l.pending, how));
    RequestsAppend(l.resolved + Settle(l.pending, how), DropAll(l.inbox));
    assert Requests(DropAll(l.inbox)) == l.inbox;
    assert Requests(Settle(l.pending, how)) == InFlight(l.pending);
  }

  lemma SteerHolds(l: Loop, writeOk: bool)
    requires l.pending.None? && l.inbox != []
    ensures Held(OnSteer(l, writeOk)) == Held(l)
  {
    hide ChooseTransport;
    var r, out := l.inbox[0], OnSteer(l, writeOk);
    assert multiset(l.inbox) == multiset{r} + multiset(l.inbox[1..]) by {
      assert l.inbox == [r] + l.inbox[1..];
    }
    if out.pending.None? {
      SettleOne(l.resolved, Resolved(r, Sent(ExpectedRunIdMissing)));
      SettleOne(l.resolved, Resolved(r, Sent(TransportFailed)));
    }
  }

  lemma SettleOne(resolved: seq<Resolved>, a: Resolved)
    ensures multiset(Requests(resolved + [a])) == multiset(Requests(resolved)) + multiset{a.request}
  {
    RequestsAppend(resolved, [a]);
    assert Requests([a]) == [a.request];
  }

  lemma ReplyHolds(l: Loop, m: Message, renewNow: Time)
    requires l.pending.Some?
    ensures Held(OnSteerReply(l, m, renewNow)) == Held(l)
  {
    hide Verdict, Renews;
    var p := l.pending.value;
    SettleOne(l.resolved, Resolved(p.request, Sent(Verdict(p.transport, m))));
  }

  lemma MessageHolds(l: Loop, m: Message, s: Stimulus)
    requires l.stop.None?
    ensures Held(OnMessage(l, m, s)) == Held(l)
  {
    hide Dispatch, OnSteerReply;
    var l1 := Noted(l, m, s.at);
    assert Held(l1) == Held(l);
    if l.pending.Some? && IsReply(m, l.pending.value.id) {
      ReplyHolds(l1, m, s.later);
    } else if IsReply(m, l.expected) {
      LeaveHolds(l1, OnMessage(l, m, s).stop.value, Sent(PromptCompletedNeutral));
    } else {
      var r := Dispatch(l1, m, s);
      DispatchShape(l1, m, s);
      if r.stop.Some? { LeaveHolds(l1.(client := r.client), r.stop.value, Dropped); }
    }
  }

  lemma OfferHolds(l: Loop, s: Stimulus)
    ensures Held(Offer(l, s.offer)) == Held(l) + multiset(TakenAt(l, s))
  {
  }

  lemma IterationHolds(l: Loop, s: Stimulus)
    ensures Held(Iterate(l, s)) == Held(l) + multiset(TakenAt(l, s))
  {
    hide OnMessage, OnSteer, Leave, Held;
    if l.stop.None? {
      var o := Offer(l, s.offer);
      OfferHolds(l, s);
      if s.check >= Deadline(o) {
        LeaveHolds(o, TimedOut(o, s.later), Sent(PromptCompletedNeutral));
      } else if s.ready.Readable? {
        match s.ready.read {
          case Got(Parsed(m)) => MessageHolds(o, m, s);
          case Got(_) =>
          case Eof => LeaveHolds(o, AgentExited, Sent(PromptCompletedNeutral));
          case TooLong => LeaveHolds(o, ProtocolError, Sent(PromptCompletedNeutral));
          case ReadError => LeaveHolds(o, IoError, Sent(PromptCompletedNeutral));
        }
      } else if o.pending.None? && o.inbox != [] {
        SteerHolds(o, s.writeOk);
      } else if s.at >= Deadline(o) {
        LeaveHolds(o, TimedOut(o, s.later), Sent(PromptCompletedNeutral));
      }
    }
  }

  /** Over any run, nothing taken is forgotten or settled twice. */
  lemma {:induction false} RunHolds(l: Loop, script: seq<Stimulus>)
    ensures Held(Run(l, script)) == Held(l) + multiset(Taken(l, script))
  {
    hide Iterate, Held, TakenAt;
    if script != [] {
      RunHolds(l, script[..|script| - 1]);
      IterationHolds(Run(l, script[..|script| - 1]), script[|script| - 1]);
    }
  }

  /** A loop that has stopped holds nothing but settled requests. */
  predicate Quiesced(l: Loop) {
    l.stop.Some? ==> l.pending.None? && l.inbox == [] && !l.hasInbox
  }

  lemma IterationQuiesces(l: Loop, s: Stimulus)
    requires Quiesced(l)
    ensures Quiesced(Iterate(l, s))
  {
    if l.stop.None? {
      var o := Offer(l, s.offer);
      if s.check < Deadline(o) && s.ready.Readable? && s.ready.read.Got? && s.ready.read.line.Parsed? {
        MessageQuiesces(o, s.ready.read.line.msg, s);
      }
    }
  }

  lemma MessageQuiesces(l: Loop, m: Message, s: Stimulus)
    requires l.stop.None?
    ensures Quiesced(OnMessage(l, m, s))
  {
    hide Dispatch;
    DispatchShape(Noted(l, m, s.at), m, s);
  }

  lemma {:induction false} RunQuiesces(l: Loop, script: seq<Stimulus>)
    requires Quiesced(l)
    ensures Quiesced(Run(l, script))
  {
    hide Iterate, Quiesced;
    if script != [] {
      RunQuiesces(l, script[..|script| - 1]);
      IterationQuiesces(Run(l, script[..|script| - 1]), script[|script| - 1]);
    }
  }

  /** Steer conservation.  When a turn is over, however it ended, the settled oneshots
      are exactly the requests the loop was given, each as often as it was given. */
  lemma EveryRequestSettledOnce(l: Loop, script: seq<Stimulus>)
    requires l.stop.None? && l.pending.None? && l.resolved == []
    ensures multiset(Requests(Finish(Run(l, script)).resolved)) == multiset(l.inbox + Taken(l, script))
  {
    hide Iterate, Run, Leave, Taken;
    var r, f := Run(l, script), Finish(Run(l, script));
    RunHolds(l, script);
    RunQuiesces(l, script);
    if r.stop.None? {
      LeaveHolds(r, Abandoned, Dropped);
      LeaveEmpties(r, Abandoned, Dropped);
    }
    assert Held(l) == multiset(l.inbox);
    assert Held(f) == multiset(Requests(f.resolved));
  }

  lemma LeaveEmpties(l: Loop, stop: Stop, how: Resolution)
    ensures var r := Leave(l, stop, how); r.pending.None? && r.inbox == []
  {
  }

  /** The exits that settle an in-flight steer without an ack are the two `?` returns:
      a permission request that cannot be answered and a failed refusal of an unknown
      request.  Every other exit acks it neutrally. */
  lemma UnackedExits(l: Loop, s: Stimulus)
    requires l.stop.None? && l.pending.Some?
    requires Iterate(l, s).stop.Some?
    ensures var how := if ByQuestionMark(l, s) then Dropped else Sent(PromptCompletedNeutral);
      |l.resolved| < |Iterate(l, s).resolved| && Iterate(l, s).resolved[|l.resolved|] == Resolved(l.pending.value.request, how)
  {
    var o := Offer(l, s.offer);
    if s.check < Deadline(o) && s.ready.Readable? && s.ready.read.Got? && s.ready.read.line.Parsed? {
      UnackedMessages(o, s.ready.read.line.msg, s);
    }
  }

  predicate ByQuestionMark(l: Loop, s: Stimulus) {
    && s.check < Deadline(l) && s.ready.Readable? && s.ready.read.Got? && s.ready.read.line.Parsed?
    && (s.ready.read.line.msg.verb.RequestPermission? || s.ready.read.line.msg.verb.UnknownMethod?)
  }

  lemma UnackedMessages(l: Loop, m: Message, s: Stimulus)
    requires l.stop.None? && l.pending.Some? && OnMessage(l, m, s).stop.Some?
    ensures var how := if m.verb.RequestPermission? || m.verb.UnknownMethod? then Dropped else Sent(PromptCompletedNeutral);
      var r := OnMessage(l, m, s).resolved;
      |l.resolved| < |r| && r[|l.resolved|] == Resolved(l.pending.value.request, how)
  {
    hide HandlePermission, HandleUpdate;
    DispatchShape(Noted(l, m, s.at), m, s);
  }

  // -------------------------------------------------------------------- evidence

  predicate SteerAt(feed: seq<Feed>, i: int) {
    0 <= i < |feed| && feed[i].Wrote? && feed[i].wire.Steer?
  }

  predicate ReplyAt(feed: seq<Feed>, k: int, id: nat) {
    0 <= k < |feed| && feed[k].Read? && IsReply(feed[k].msg, id)
  }

  /** The steer written at `i` was answered before position `j`. */
  ghost predicate AnsweredBetween(feed: seq<Feed>, i: int, j: int)
    requires SteerAt(feed, i)
  {
    exists k :: i < k < j && ReplyAt(feed, k, feed[i].wire.steerId)
  }

  /** The request was written and its own answer, read later, says it was delivered. */
  ghost predicate Delivered(feed: seq<Feed>, from: nat, r: SteerRequest) {
    exists i, k ::
      && from <= i < k && SteerAt(feed, i) && feed[i].wire.request == r
      && ReplyAt(feed, k, feed[i].wire.steerId) && Verdict(feed[i].wire.transport, feed[k].msg) == Success
  }

  /** Steers written by this loop: fresh ids above the awaited one, goose exactly when
      a run id was known, the extension only if the agent advertised it. */
  ghost predicate GoodWrites(c: Client, from: nat, expected: nat) {
    && expected < c.nextId
    && forall i :: from <= i && SteerAt(c.feed, i) ==>
         && expected < c.feed[i].wire.steerId < c.nextId
         && (c.feed[i].wire.transport.Goose? <==> c.feed[i].wire.run.Some?)
         && (c.feed[i].wire.transport.AcpExtension? ==> c.steeringSupported)
  }

  /** Two steers of one loop have increasing ids, and the first was answered before
      the second was written. */
  ghost predicate OneAtATime(feed: seq<Feed>, from: nat) {
    forall i, j :: from <= i < j && SteerAt(feed, i) && SteerAt(feed, j) ==>
      feed[i].wire.steerId < feed[j].wire.steerId && AnsweredBetween(feed, i, j)
  }

  ghost predicate WrittenFor(feed: seq<Feed>, from: nat, p: Pending) {
    exists i :: from <= i && IsWriteOf(feed, i, p)
  }

  predicate IsWriteOf(feed: seq<Feed>, i: int, p: Pending) {
    SteerAt(feed, i) && feed[i].wire.steerId == p.id && feed[i].wire.request == p.request && feed[i].wire.transport == p.transport
  }

  /** The steers still unanswered: at most the one the loop has in flight. */
  ghost predicate Outstanding(feed: seq<Feed>, from: nat, pending: Option<Pending>) {
    && (forall i :: from <= i && SteerAt(feed, i) ==>
         AnsweredBetween(feed, i, |feed|) || (pending.Some? && pending.value.id == feed[i].wire.steerId))
    && (pending.Some? ==> WrittenFor(feed, from, pending.value))
  }

  ghost predicate Evidenced(feed: seq<Feed>, from: nat, resolved: seq<Resolved>) {
    forall k :: 0 <= k < |resolved| && resolved[k].how == Sent(Success) ==> Delivered(feed, from, resolved[k].request)
  }

  ghost predicate SteerInv(l: Loop) {
    && l.from <= |l.client.feed|
    && GoodWrites(l.client, l.from, l.expected)
    && OneAtATime(l.client.feed, l.from)
    && (l.stop.None? ==> Outstanding(l.client.feed, l.from, l.pending))
    && Evidenced(l.client.feed, l.from, l.resolved)
  }

  /** Recording anything but a steer keeps all of it. */
  lemma ExtendFeed(c: Client, from: nat, expected: nat, pending: Option<Pending>, resolved: seq<Resolved>, e: Feed)
    requires !(e.Wrote? && e.wire.Steer?)
    requires GoodWrites(c, from, expected) && OneAtATime(c.feed, from) && Evidenced(c.feed, from, resolved)
    ensures var c' := c.(feed := c.feed + [e]);
      GoodWrites(c', from, expected) && OneAtATime(c'.feed, from) && Evidenced(c'.feed, from, resolved)
    ensures Outstanding(c.feed, from, pending) ==> Outstanding(c.feed + [e], from, pending)
  {
    hide IsReply, Verdict;
    var f, f' := c.feed, c.feed + [e];
    assert forall i :: SteerAt(f', i) <==> SteerAt(f, i);
    forall i, j | SteerAt(f, i) && j <= |f| && AnsweredBetween(f, i, j) ensures AnsweredBetween(f', i, j) {
      var k :| i < k < j && ReplyAt(f, k, f[i].wire.steerId);
      assert ReplyAt(f', k, f'[i].wire.steerId);
    }
    forall i | SteerAt(f, i) && AnsweredBetween(f, i, |f|) ensures AnsweredBetween(f', i, |f'|) {
      var k :| i < k < |f| && ReplyAt(f, k, f[i].wire.steerId);
      assert ReplyAt(f', k, f'[i].wire.steerId);
    }
    forall r | Delivered(f, from, r) ensures Delivered(f', from, r) {
      DeliveredGrows(f, e, from, r);
    }
    if pending.Some? && WrittenFor(f, from, pending.value) {
      var i :| from <= i && IsWriteOf(f, i, pending.value);
      assert IsWriteOf(f', i, pending.value);
    }
  }

  lemma DeliveredGrows(f: seq<Feed>, e: Feed, from: nat, r: SteerRequest)
    requires Delivered(f, from, r)
    ensures Delivered(f + [e], from, r)
  {
    hide IsReply, Verdict;
    var i, k :| from <= i < k && SteerAt(f, i) && f[i].wire.request == r
      && ReplyAt(f, k, f[i].wire.steerId) && Verdict(f[i].wire.transport, f[k].msg) == Success;
    var f' := f + [e];
    assert SteerAt(f', i) && ReplyAt(f', k, f'[i].wire.steerId);
  }

  /** A steer written under a fresh id while none is outstanding. */
  lemma ExtendWithSteer(l: Loop, writeOk: bool)
    requires SteerInv(l) && l.stop.None? && l.pending.None? && l.inbox != []
    ensures SteerInv(OnSteer(l, writeOk))
  {
    hide IsReply, Verdict;
    var r := OnSteer(l, writeOk);
    var f, f' := l.client.feed, r.client.feed;
    if f' != f {
      assert f' == f + [f'[|f|]];
      forall i, j | SteerAt(f, i) && j <= |f| && AnsweredBetween(f, i, j) ensures AnsweredBetween(f', i, j) {
        var k :| i < k < j && ReplyAt(f, k, f[i].wire.steerId);
        assert ReplyAt(f', k, f'[i].wire.steerId);
      }
      forall q | Delivered(f, l.from, q) ensures Delivered(f', l.from, q) {
        DeliveredGrows(f, f'[|f|], l.from, q);
      }
      assert forall i :: i != |f| ==> (SteerAt(f', i) <==> SteerAt(f, i));
      assert forall i :: SteerAt(f, i) && AnsweredBetween(f, i, |f|) ==> AnsweredBetween(f', i, |f|);
      assert forall i :: SteerAt(f, i) && AnsweredBetween(f', i, |f|) ==> AnsweredBetween(f', i, |f'|);
      assert SteerAt(f', |f|) && IsWriteOf(f', |f|, r.pending.value);
    }
  }

  /** Once its answer is read, no steer is outstanding. */
  lemma ReplyAnswers(l: Loop, m: Message)
    requires Outstanding(l.client.feed, l.from, l.pending) && l.pending.Some? && IsReply(m, l.pending.value.id)
    ensures Outstanding(l.client.feed + [Read(m)], l.from, None)
  {
    hide IsReply, Verdict;
    var f, f' := l.client.feed, l.client.feed + [Read(m)];
    assert ReplyAt(f', |f|, l.pending.value.id);
    forall j | l.from <= j && SteerAt(f', j) ensures AnsweredBetween(f', j, |f'|) {
      assert SteerAt(f, j);
      if !AnsweredBetween(f, j, |f|) {
        assert ReplyAt(f', |f|, f'[j].wire.steerId);
      } else {
        var k :| j < k < |f| && ReplyAt(f, k, f[j].wire.steerId);
        assert ReplyAt(f', k, f'[j].wire.steerId);
      }
    }
  }

  lemma ReplyDelivers(l: Loop, m: Message)
    requires Outstanding(l.client.feed, l.from, l.pending) && l.pending.Some? && IsReply(m, l.pending.value.id)
    requires Verdict(l.pending.value.transport, m) == Success
    ensures Delivered(l.client.feed + [Read(m)], l.from, l.pending.value.request)
  {
    hide IsReply, Verdict;
    var p, f, f' := l.pending.value, l.client.feed, l.client.feed + [Read(m)];
    var i :| l.from <= i && IsWriteOf(f, i, p);
    assert SteerAt(f', i) && ReplyAt(f', |f|, f'[i].wire.steerId);
  }

  /** The answer to the steer in flight settles it, with the evidence on record. */
  lemma SettleWithEvidence(l: Loop, m: Message, s: Stimulus)
    requires SteerInv(l) && l.stop.None? && l.pending.Some? && IsReply(m, l.pending.value.id)
    ensures SteerInv(OnSteerReply(Noted(l, m, s.at), m, s.later))
  {
    hide IsReply, Verdict, Renews, Delivered, OneAtATime, Outstanding;
    ExtendFeed(l.client, l.from, l.expected, l.pending, l.resolved, Read(m));
    ReplyAnswers(l, m);
    if Verdict(l.pending.value.transport, m) == Success {
      ReplyDelivers(l, m);
    }
  }

  /** What dispatching may do to the client: one more record, never a steer. */
  ghost predicate Recorded(c: Client, c': Client) {
    && c'.nextId == c.nextId && c'.steeringSupported == c.steeringSupported
    && (c'.feed == c.feed ||
        (|c'.feed| == |c.feed| + 1 && c'.feed[..|c.feed|] == c.feed && !SteerAt(c'.feed, |c.feed|)))
  }

  lemma DispatchRecords(l: Loop, m: Message, s: Stimulus)
    ensures Recorded(l.client, Dispatch(l, m, s).client)
  {
    hide PermissionChoice;
  }

  /** SteerInv depends on the client only through its record, ids and capability. */
  lemma RecordKeeps(l: Loop, c: Client)
    requires SteerInv(l) && Recorded(l.client, c)
    ensures SteerInv(l.(client := c))
  {
    hide IsReply, Verdict, Delivered, OneAtATime, Outstanding, Evidenced;
    if c.feed != l.client.feed {
      var e := c.feed[|l.client.feed|];
      assert c.feed == l.client.feed + [e];
      ExtendFeed(l.client, l.from, l.expected, l.pending, l.resolved, e);
    }
  }

  lemma {:induction false} SettledNeutrally(l: Loop, stop: Stop, how: Resolution)
    requires SteerInv(l) && how != Sent(Success)
    ensures SteerInv(Leave(l, stop, how))
  {
    hide Delivered, OneAtATime, Outstanding, GoodWrites;
  }

  lemma MessageKeeps(l: Loop, m: Message, s: Stimulus)
    requires SteerInv(l) && l.stop.None?
    ensures SteerInv(OnMessage(l, m, s))
  {
    hide Dispatch, OnSteerReply, Leave, SteerInv, IsReply;
    var l1 := Noted(l, m, s.at);
    NotedKeeps(l, m, s.at);
    if l.pending.Some? && IsReply(m, l.pending.value.id) {
      SettleWithEvidence(l, m, s);
    } else if IsReply(m, l.expected) {
      SettledNeutrally(l1, if m.error.Some? then AgentFailed(m.error.value.GetOr(-32000)) else Answered, Sent(PromptCompletedNeutral));
    } else {
      DispatchKeeps(l1, m, s);
    }
  }

  lemma NotedKeeps(l: Loop, m: Message, at: Time)
    requires SteerInv(l)
    ensures SteerInv(Noted(l, m, at))
  {
    hide Delivered, OneAtATime, Outstanding, GoodWrites, Evidenced, IsReply;
    var c := l.client.(feed := l.client.feed + [Read(m)]);
    assert Recorded(l.client, c);
    RecordKeeps(l, c);
  }

  lemma DispatchKeeps(l: Loop, m: Message, s: Stimulus)
    requires SteerInv(l) && l.stop.None?
    ensures SteerInv(Dispatch(l, m, s))
  {
    hide Dispatch, Delivered, OneAtATime, Outstanding, GoodWrites, Evidenced, Leave, Recorded;
    var r := Dispatch(l, m, s);
    DispatchShape(l, m, s);
    DispatchRecords(l, m, s);
    RecordKeeps(l, r.client);
    if r.stop.Some? { SettledNeutrally(l.(client := r.client), r.stop.value, Dropped); }
  }

  lemma IterationKeeps(l: Loop, s: Stimulus)
    requires SteerInv(l)
    ensures SteerInv(Iterate(l, s))
  {
    hide OnMessage, OnSteer, Leave, SteerInv;
    if l.stop.None? {
      var o := Offer(l, s.offer);
      assert SteerInv(o) by { OfferKeeps(l, s.offer); }
      if s.check >= Deadline(o) {
        SettledNeutrally(o, TimedOut(o, s.later), Sent(PromptCompletedNeutral));
      } else if s.ready.Readable? {
        match s.ready.read {
          case Got(Parsed(m)) => MessageKeeps(o, m, s);
          case Got(_) =>
          case Eof => SettledNeutrally(o, AgentExited, Sent(PromptCompletedNeutral));
          case TooLong => SettledNeutrally(o, ProtocolError, Sent(PromptCompletedNeutral));
          case ReadError => SettledNeutrally(o, IoError, Sent(PromptCompletedNeutral));
        }
      } else if o.pending.None? && o.inbox != [] {
        ExtendWithSteer(o, s.writeOk);
      } else if s.at >= Deadline(o) {
        SettledNeutrally(o, TimedOut(o, s.later), Sent(PromptCompletedNeutral));
      }
    }
  }

  lemma OfferKeeps(l: Loop, offer: Option<SteerRequest>)
    requires SteerInv(l)
    ensures SteerInv(Offer(l, offer))
  {
    hide Delivered, OneAtATime, Outstanding, GoodWrites, Evidenced;
  }

  /** In every run of a loop entered with a fresh prompt id: steer ids are new,
      increasing and never the awaited id; one steer is answered before the next is
      written; the extension is written only if advertised; and every success is
      backed by the request's own positive answer. */
  lemma {:induction false} SteersAreSound(l: Loop, script: seq<Stimulus>)
    requires l.expected < l.client.nextId && l.from == |l.client.feed|
    requires l.pending.None? && l.resolved == []
    ensures SteerInv(Run(l, script))
  {
    hide Iterate, SteerInv;
    if script == [] {
      assert SteerInv(l) by { FreshLoop(l); }
    } else {
      SteersAreSound(l, script[..|script| - 1]);
      IterationKeeps(Run(l, script[..|script| - 1]), script[|script| - 1]);
    }
  }

  lemma FreshLoop(l: Loop)
    requires l.expected < l.client.nextId && l.from == |l.client.feed|
    requires l.pending.None? && l.resolved == []
    ensures SteerInv(l)
  {
  }

  /** No silent loss, read-loop side: a success is never reported for a request whose
      own positive answer was not read after the request was written. */
  lemma SuccessMeansDelivered(l: Loop, script: seq<Stimulus>, r: SteerRequest)
    requires l.expected < l.client.nextId && l.from == |l.client.feed|
    requires l.pending.None? && l.resolved == []
    requires Resolved(r, Sent(Success)) in Run(l, script).resolved
    ensures Delivered(Run(l, script).client.feed, Run(l, script).from, r)
  {
    hide Iterate, Run, Delivered, OneAtATime, Outstanding, GoodWrites;
    SteersAreSound(l, script);
    var resolved := Run(l, script).resolved;
    var k :| 0 <= k < |resolved| && resolved[k] == Resolved(r, Sent(Success));
  }
}
