/** Steering end to end, for one channel: the event queue with its withheld table, any
    number of turns with their read loops, the ack watchers' mail, and the main loop's
    ack arm.  Turns of a channel can overlap, because an in-flight entry that expires
    lets the next turn start while the first still hangs. */
module SteerSystem {
  import opened Wrappers
  import opened ReadLoop
  import Steers = ReadLoopSteers
  import Q = EventQueues

  // ------------------------------------------------------------------- the ack arm

  /** What the main loop does with a resolution. */
  datatype Decision = Decision(release: bool, drop: bool, signal: bool)

  const METHOD_NOT_FOUND: int := -32601

  function Decide(how: Resolution): Decision {
    match how
    case Sent(Success) => Decision(false, true, false)
    case Sent(AgentError(code)) => Decision(true, false, code == METHOD_NOT_FOUND)
    case Sent(PromptCompletedNeutral) => Decision(true, false, false)
    case Sent(_) => Decision(true, false, true)
    case Dropped => Decision(true, false, false)
  }

  /** Each resolution either drops or releases, a success alone drops, and the
      cancel-and-merge signal goes out exactly when the steer is known not to have
      landed while its turn may still run. */
  lemma DecisionIsSound(how: Resolution)
    ensures var d := Decide(how);
      && d.drop == !d.release
      && (d.drop <==> how == Sent(Success))
      && (d.signal ==> d.release)
      && (d.signal <==> how in {Sent(TransportFailed), Sent(ExpectedRunIdMissing), Sent(OutcomeRejected), Sent(AgentError(METHOD_NOT_FOUND))})
  {
  }

  // --------------------------------------------------------------------- the system

  /** `issued` lists every request `try_send` accepted, `mail` the resolutions the
      watchers have posted, `handled` those the ack arm has acted on. */
  datatype Harness = Harness(
    chan: Q.Chan,
    turns: seq<Loop>,
    issued: seq<SteerRequest>,
    mail: seq<Resolved>,
    handled: seq<Resolved>)

  datatype Action =
    | Arrive(e: Q.Event, turn: nat)
    | Step(turn: nat, s: Stimulus)
    | Cancel(turn: nat)
    | Handle(k: nat)
    | Start(l: Loop)
    | Expire
    | LeaveChannel
    | OtherQueueWork(queue: seq<Q.Event>)

  predicate Fresh(l: Loop) {
    && l.expected < l.client.nextId && l.from == |l.client.feed|
    && l.pending.None? && l.inbox == [] && l.resolved == [] && l.stop.None?
  }

  predicate Enabled(h: Harness, a: Action) {
    match a
    case Arrive(_, i) => i < |h.turns|
    case Step(i, s) => i < |h.turns| && s.offer.None?
    case Cancel(i) => i < |h.turns| && h.turns[i].stop.None?
    case Handle(k) => k < |h.mail|
    case Start(l) => Fresh(l)
    case _ => true
  }

  /** Replace a turn and post whatever it settled since. */
  function Advance(h: Harness, i: nat, l: Loop): Harness
    requires i < |h.turns| && |h.turns[i].resolved| <= |l.resolved|
  {
    h.(turns := h.turns[i := l], mail := h.mail + l.resolved[|h.turns[i].resolved|..])
  }

  function Next(h: Harness, a: Action): Harness
    requires Enabled(h, a)
  {
    match a
    case Arrive(e, i) =>
      var h1 := h.(chan := Q.Enqueue(h.chan, e));
      if Accepts(h.turns[i]) then
        var r := SteerRequest(|h.issued|, e.id);
        h1.(chan := Q.Withhold(h1.chan, e.id), issued := h.issued + [r],
            turns := h.turns[i := Offer(h.turns[i], Some(r))])
      else h1
    case Step(i, s) => SettledGrows(h.turns[i], s); Advance(h, i, Iterate(h.turns[i], s))
    case Cancel(i) => Advance(h, i, Abandon(h.turns[i]))
    case Handle(k) =>
      var a := h.mail[k];
      h.(mail := h.mail[..k] + h.mail[k + 1..], handled := h.handled + [a],
         chan := if Decide(a.how).drop then Q.Remove(h.chan, a.request.event) else Q.Release(h.chan, a.request.event))
    case Start(l) => h.(turns := h.turns + [l])
    case Expire => h.(chan := Q.Recover(h.chan))
    case LeaveChannel => h.(chan := Q.Chan([], []))
    case OtherQueueWork(queue) => h.(chan := h.chan.(queue := queue))
  }

  /** Settled oneshots are never taken back. */
  lemma SettledGrows(l: Loop, s: Stimulus)
    ensures l.resolved <= Iterate(l, s).resolved
  {
    hide OnMessage;
    if l.stop.None? && s.ready.Readable? && s.ready.read.Got? && s.ready.read.line.Parsed? {
      MessageSettles(Offer(l, s.offer), s.ready.read.line.msg, s);
    }
  }

  lemma MessageSettles(l: Loop, m: Message, s: Stimulus)
    requires l.stop.None?
    ensures l.resolved <= OnMessage(l, m, s).resolved
  {
    hide Dispatch;
    DispatchShape(Noted(l, m, s.at), m, s);
  }

  function Play(h: Harness, acts: seq<Action>): Option<Harness> {
    if acts == [] then Some(h)
    else
      match Play(h, acts[..|acts| - 1])
      case None => None
      case Some(h1) => if Enabled(h1, acts[|acts| - 1]) then Some(Next(h1, acts[|acts| - 1])) else None
  }

  // -------------------------------------------------------------------- bookkeeping

  function Live(l: Loop): seq<SteerRequest> {
    Steers.InFlight(l.pending) + l.inbox
  }

  function LiveAll(turns: seq<Loop>): seq<SteerRequest> {
    if turns == [] then [] else LiveAll(turns[..|turns| - 1]) + Live(turns[|turns| - 1])
  }

  /** Requests not yet handled: in a channel, written, or in the mail. */
  function Outstanding(h: Harness): seq<SteerRequest> {
    LiveAll(h.turns) + Steers.Requests(h.mail)
  }

  function Events(rs: seq<SteerRequest>): (r: seq<nat>)
    ensures |r| == |rs|
  {
    seq(|rs|, i requires 0 <= i < |rs| => rs[i].event)
  }

  function Ids(es: seq<Q.Event>): (r: seq<nat>)
    ensures |r| == |es|
  {
    seq(|es|, i requires 0 <= i < |es| => es[i].id)
  }

  lemma AddBoth<T>(m: multiset<T>, m': multiset<T>, a: multiset<T>, b: multiset<T>, c: multiset<T>)
    requires m' + a == m + b
    ensures (m' + c) + a == (m + c) + b
  {
    assert (m' + c) + a == (m' + a) + c;
    assert (m + c) + b == (m + b) + c;
  }

  lemma {:induction false} LiveAllUpdate(turns: seq<Loop>, i: nat, l: Loop)
    requires i < |turns|
    ensures multiset(LiveAll(turns[i := l])) + multiset(Live(turns[i])) == multiset(LiveAll(turns)) + multiset(Live(l))
  {
    hide Live;
    var n, after := |turns| - 1, turns[i := l];
    if i < n {
      var m, m' := multiset(LiveAll(turns[..n])), multiset(LiveAll(after[..n]));
      assert after[..n] == turns[..n][i := l];
      assert turns[..n][i] == turns[i] && after[n] == turns[n];
      LiveAllUpdate(turns[..n], i, l);
      assert multiset(LiveAll(turns)) == m + multiset(Live(turns[n]));
      assert multiset(LiveAll(after)) == m' + multiset(Live(turns[n]));
      AddBoth(m, m', multiset(Live(turns[i])), multiset(Live(l)), multiset(Live(turns[n])));
    } else {
      assert after[..n] == turns[..n];
    }
  }

  ghost predicate AllIdle(turns: seq<Loop>) {
    forall l :: l in turns ==> Live(l) == []
  }

  lemma {:induction false} LiveAllGone(turns: seq<Loop>)
    requires AllIdle(turns)
    ensures LiveAll(turns) == []
  {
    hide Live;
    if turns != [] {
      LiveAllGone(turns[..|turns| - 1]);
      assert turns[|turns| - 1] in turns;
    }
  }

  /** Rearranging requests rearranges their events. */
  lemma {:induction false} SameEvents(a: seq<SteerRequest>, b: seq<SteerRequest>)
    requires multiset(a) == multiset(b)
    ensures multiset(Events(a)) == multiset(Events(b))
  {
    assert |multiset(a)| == |multiset(b)|;
    if a != [] {
      var x := a[0];
      assert x in multiset(b);
      var j :| 0 <= j < |b| && b[j] == x;
      var b' := b[..j] + b[j + 1..];
      assert a == [x] + a[1..];
      assert b == b[..j] + [x] + b[j + 1..];
      assert multiset(b') + multiset{x} == multiset(b);
      assert multiset(a[1..]) + multiset{x} == multiset(a);
      CancelOne(multiset(a[1..]), multiset(b'), x);
      SameEvents(a[1..], b');
      assert Events(a) == [x.event] + Events(a[1..]);
      EventsAppend(b[..j], b[j + 1..]);
      EventsAppend(b[..j] + [x], b[j + 1..]);
      EventsAppend(b[..j], [x]);
      assert Events([x]) == [x.event];
    }
  }

  lemma CancelOne<T>(m: multiset<T>, n: multiset<T>, x: T)
    requires m + multiset{x} == n + multiset{x}
    ensures m == n
  {
    assert m == m + multiset{x} - multiset{x};
    assert n == n + multiset{x} - multiset{x};
  }

  lemma EventsAppend(a: seq<SteerRequest>, b: seq<SteerRequest>)
    ensures Events(a + b) == Events(a) + Events(b)
  {
  }

  // ---------------------------------------------------------------------- invariant

  /** Every issued request is live, in the mail or handled, exactly once, and tickets
      number the requests. */
  ghost predicate Accounted(h: Harness) {
    && multiset(Outstanding(h)) + multiset(Steers.Requests(h.handled)) == multiset(h.issued)
    && forall i :: 0 <= i < |h.issued| ==> h.issued[i].ticket == i
  }

  /** Every withheld event is waiting for a request of its own. */
  ghost predicate Awaited(h: Harness) {
    multiset(Ids(h.chan.withheld)) <= multiset(Events(Outstanding(h)))
  }

  ghost predicate SoundTurns(h: Harness) {
    forall i :: 0 <= i < |h.turns| ==> Steers.SteerInv(h.turns[i]) && Steers.Quiesced(h.turns[i])
  }

  ghost predicate FromATurn(h: Harness, a: Resolved) {
    exists t :: 0 <= t < |h.turns| && a in h.turns[t].resolved
  }

  ghost predicate Sourced(h: Harness) {
    (forall a :: a in h.mail ==> FromATurn(h, a)) && (forall a :: a in h.handled ==> FromATurn(h, a))
  }

  ghost predicate Inv(h: Harness) {
    Accounted(h) && Awaited(h) && SoundTurns(h) && Sourced(h)
  }

  // --------------------------------------------------------------- keeping the books

  /** A turn that advances without taking an offer only moves requests to the mail. */
  lemma AdvanceMoves(h: Harness, i: nat, l: Loop)
    requires i < |h.turns| && h.turns[i].resolved <= l.resolved
    requires Steers.Held(l) == Steers.Held(h.turns[i])
    ensures multiset(Outstanding(Advance(h, i, l))) == multiset(Outstanding(h))
  {
    hide LiveAll, Live;
    var l0, news := h.turns[i], l.resolved[|h.turns[i].resolved|..];
    HeldMoves(l0, l, news);
    Steers.RequestsAppend(h.mail, news);
    LiveAllUpdate(h.turns, i, l);
    var m0, m1, r := multiset(LiveAll(h.turns)), multiset(LiveAll(h.turns[i := l])), Advance(h, i, l);
    assert multiset(Outstanding(h)) == m0 + multiset(Steers.Requests(h.mail));
    assert multiset(Outstanding(r)) == m1 + (multiset(Steers.Requests(h.mail)) + multiset(Steers.Requests(news)));
    Balance(m0, m1, multiset(Live(l0)), multiset(Live(l)), multiset(Steers.Requests(news)));
  }

  lemma Balance<T>(m0: multiset<T>, m1: multiset<T>, live0: multiset<T>, live1: multiset<T>, news: multiset<T>)
    requires m1 + live0 == m0 + live1 && live1 + news == live0
    ensures m1 + news == m0
  {
    forall x | x in m1 + news || x in m0 ensures (m1 + news)[x] == m0[x] {
      assert (m1 + live0)[x] == (m0 + live1)[x] && (live1 + news)[x] == live0[x];
    }
  }

  lemma Uncover<T>(c: multiset<T>, a: multiset<T>, b: multiset<T>)
    requires c + a == c + b
    ensures a == b
  {
    assert a == (c + a) - c;
    assert b == (c + b) - c;
  }

  lemma HeldMoves(l0: Loop, l: Loop, news: seq<Resolved>)
    requires l.resolved == l0.resolved + news && Steers.Held(l) == Steers.Held(l0)
    ensures multiset(Live(l)) + multiset(Steers.Requests(news)) == multiset(Live(l0))
  {
    Steers.RequestsAppend(l0.resolved, news);
    var a, b, n := multiset(Live(l)), multiset(Live(l0)), multiset(Steers.Requests(news));
    var settled := multiset(Steers.Requests(l0.resolved));
    assert Steers.Held(l0) == settled + b;
    assert Steers.Held(l) == settled + (a + n);
    Uncover(settled, a + n, b);
  }

  lemma AdvanceKeeps(h: Harness, i: nat, l: Loop)
    requires Inv(h) && i < |h.turns| && h.turns[i].resolved <= l.resolved
    requires Steers.Held(l) == Steers.Held(h.turns[i])
    requires Steers.SteerInv(l) && Steers.Quiesced(l)
    ensures Inv(Advance(h, i, l))
  {
    hide Outstanding, Steers.SteerInv, Steers.Quiesced, FromATurn, Steers.Held;
    var r := Advance(h, i, l);
    AdvanceMoves(h, i, l);
    SameEvents(Outstanding(r), Outstanding(h));
    forall a | a in r.mail || a in r.handled ensures FromATurn(r, a) {
      StaysSourced(h, i, l, a);
    }
  }

  lemma StaysSourced(h: Harness, i: nat, l: Loop, a: Resolved)
    requires i < |h.turns| && h.turns[i].resolved <= l.resolved
    requires FromATurn(h, a) || a in l.resolved[|h.turns[i].resolved|..]
    ensures FromATurn(Advance(h, i, l), a)
  {
    var r := Advance(h, i, l);
    if FromATurn(h, a) {
      var t :| 0 <= t < |h.turns| && a in h.turns[t].resolved;
      assert a in r.turns[t].resolved;
    } else {
      assert a in r.turns[i].resolved;
    }
  }

  lemma TurnIsSound(h: Harness, i: nat)
    requires Inv(h) && i < |h.turns|
    ensures Steers.SteerInv(h.turns[i]) && Steers.Quiesced(h.turns[i])
  {
    hide Steers.SteerInv, Steers.Quiesced, Outstanding;
  }

  lemma StepKeeps(h: Harness, i: nat, s: Stimulus)
    requires Inv(h) && Enabled(h, Step(i, s))
    ensures Inv(Next(h, Step(i, s)))
  {
    hide Iterate, Inv, Steers.Held, Advance, Steers.SteerInv, Steers.Quiesced;
    var l := h.turns[i];
    TurnIsSound(h, i);
    SettledGrows(l, s);
    Steers.IterationHolds(l, s);
    Steers.IterationKeeps(l, s);
    Steers.IterationQuiesces(l, s);
    AdvanceKeeps(h, i, Iterate(l, s));
  }

  lemma CancelKeeps(h: Harness, i: nat)
    requires Inv(h) && Enabled(h, Cancel(i))
    ensures Inv(Next(h, Cancel(i)))
  {
    hide Steers.SteerInv, Steers.Held;
    var l := h.turns[i];
    Steers.LeaveHolds(l, Abandoned, Dropped);
    Steers.SettledNeutrally(l, Abandoned, Dropped);
    AdvanceKeeps(h, i, Abandon(l));
  }

  lemma StartKeeps(h: Harness, l: Loop)
    requires Inv(h) && Fresh(l)
    ensures Inv(Next(h, Start(l)))
  {
    hide Steers.SteerInv, Steers.Quiesced, LiveAll, Live, FromATurn, Ids, Events, Fresh;
    var r := Next(h, Start(l));
    StartIsSound(l);
    StartOutstanding(h.turns, l);
    forall a | a in r.mail || a in r.handled ensures FromATurn(r, a) {
      SourceStays(h, r, a);
    }
  }

  lemma StartIsSound(l: Loop)
    requires Fresh(l)
    ensures Steers.SteerInv(l) && Steers.Quiesced(l)
  {
    Steers.FreshLoop(l);
  }

  lemma StartOutstanding(turns: seq<Loop>, l: Loop)
    requires Fresh(l)
    ensures LiveAll(turns + [l]) == LiveAll(turns)
  {
    assert (turns + [l])[..|turns|] == turns;
    assert Live(l) == [];
  }

  lemma SourceStays(h: Harness, r: Harness, a: Resolved)
    requires FromATurn(h, a) && |h.turns| <= |r.turns| && r.turns[..|h.turns|] == h.turns
    ensures FromATurn(r, a)
  {
    var t :| 0 <= t < |h.turns| && a in h.turns[t].resolved;
    assert r.turns[t] == r.turns[..|h.turns|][t];
  }

  lemma ArriveKeeps(h: Harness, e: Q.Event, i: nat)
    requires Inv(h) && Enabled(h, Arrive(e, i))
    ensures Inv(Next(h, Arrive(e, i)))
  {
    hide Steers.SteerInv, LiveAll, Live, Q.Withhold;
    var r, l := Next(h, Arrive(e, i)), h.turns[i];
    if Accepts(l) {
      var q := SteerRequest(|h.issued|, e.id);
      Steers.OfferKeeps(l, Some(q));
      OfferAddsLive(l, q);
      LiveAllUpdate(h.turns, i, Offer(l, Some(q)));
      OneMore(multiset(LiveAll(h.turns)), multiset(LiveAll(r.turns)), multiset(Live(l)), q);
      EventsOfOneMore(Outstanding(h), Outstanding(r), q);
      WithholdIds(Q.Enqueue(h.chan, e), e.id);
      forall a | a in r.mail || a in r.handled ensures FromATurn(r, a) {
        var t :| 0 <= t < |h.turns| && a in h.turns[t].resolved;
        assert a in r.turns[t].resolved;
      }
    }
  }

  lemma OfferAddsLive(l: Loop, q: SteerRequest)
    requires Accepts(l)
    ensures multiset(Live(Offer(l, Some(q)))) == multiset(Live(l)) + multiset{q}
  {
  }

  lemma OneMore<T>(m: multiset<T>, m': multiset<T>, a: multiset<T>, q: T)
    requires m' + a == m + (a + multiset{q})
    ensures m' == m + multiset{q}
  {
    assert m + (a + multiset{q}) == a + (m + multiset{q});
    Uncover(a, m', m + multiset{q});
  }

  lemma EventsOfOneMore(a: seq<SteerRequest>, b: seq<SteerRequest>, q: SteerRequest)
    requires multiset(b) == multiset(a) + multiset{q}
    ensures multiset(Events(b)) == multiset(Events(a)) + multiset{q.event}
  {
    SameEvents(b, a + [q]);
    EventsAppend(a, [q]);
    assert Events([q]) == [q.event];
  }

  /** Withholding adds one entry with the id asked for, or none. */
  lemma WithholdIds(c: Q.Chan, id: nat)
    ensures multiset(Ids(Q.Withhold(c, id).withheld)) <= multiset(Ids(c.withheld)) + multiset{id}
  {
    var i := Q.Find(c.queue, id);
    if i < |c.queue| {
      assert Ids(c.withheld + [c.queue[i]]) == Ids(c.withheld) + [id];
    }
  }

  /** Acting on a resolution leaves at least one entry fewer with its event's id, or none. */
  lemma HandlingIds(c: Q.Chan, id: nat, d: Decision)
    ensures var c' := if d.drop then Q.Remove(c, id) else Q.Release(c, id);
      forall x :: multiset(Ids(c'.withheld))[x] <=
        (if x == id && multiset(Ids(c.withheld))[x] > 0 then multiset(Ids(c.withheld))[x] - 1 else multiset(Ids(c.withheld))[x])
  {
    if d.drop {
      forall x ensures multiset(Ids(Q.Without(c.withheld, id)))[x] == if x == id then 0 else multiset(Ids(c.withheld))[x] {
        WithoutIds(c.withheld, id, x);
      }
    } else {
      var i := Q.Find(c.withheld, id);
      if i < |c.withheld| {
        assert Ids(c.withheld) == Ids(c.withheld[..i]) + [id] + Ids(c.withheld[i + 1..]);
        assert Ids(Q.RemoveAt(c.withheld, i)) == Ids(c.withheld[..i]) + Ids(c.withheld[i + 1..]);
      } else {
        assert id !in Ids(c.withheld);
      }
    }
  }

  lemma IdsCons(e: Q.Event, rest: seq<Q.Event>)
    ensures multiset(Ids([e] + rest)) == multiset{e.id} + multiset(Ids(rest))
  {
    assert Ids([e] + rest) == [e.id] + Ids(rest);
  }

  lemma WithoutStep(es: seq<Q.Event>, id: nat)
    ensures es == [] ==> Q.Without(es, id) == []
    ensures es != [] ==>
      Q.Without(es, id) == if es[0].id == id then Q.Without(es[1..], id) else [es[0]] + Q.Without(es[1..], id)
  {
  }

  lemma {:induction false} WithoutIds(es: seq<Q.Event>, id: nat, x: nat)
    ensures multiset(Ids(Q.Without(es, id)))[x] == if x == id then 0 else multiset(Ids(es))[x]
  {
    hide Ids, Q.Without;
    WithoutStep(es, id);
    if es == [] {
      assert |Ids(es)| == 0;
    } else {
      WithoutIds(es[1..], id, x);
      assert es == [es[0]] + es[1..];
      IdsCons(es[0], es[1..]);
      IdsCons(es[0], Q.Without(es[1..], id));
    }
  }

  lemma HandleKeeps(h: Harness, k: nat)
    requires Inv(h) && k < |h.mail|
    ensures Inv(Next(h, Handle(k)))
  {
    hide Steers.SteerInv, LiveAll, Decide, Q.Remove, Q.Release, FromATurn, Outstanding, Awaited;
    var r := Next(h, Handle(k));
    HandlingMoves(h, k);
    HandlingAwaits(h, k);
    assert multiset(Outstanding(r)) + multiset(Steers.Requests(r.handled)) ==
      multiset(Outstanding(h)) + multiset(Steers.Requests(h.handled));
    forall b | b in r.mail || b in r.handled ensures FromATurn(r, b) {
      assert h.mail == h.mail[..k] + [h.mail[k]] + h.mail[k + 1..];
      SameTurnsSameSource(h, r, b);
    }
  }

  lemma HandlingMoves(h: Harness, k: nat)
    requires k < |h.mail|
    ensures var r, q := Next(h, Handle(k)), h.mail[k].request;
      && multiset(Outstanding(h)) == multiset(Outstanding(r)) + multiset{q}
      && multiset(Steers.Requests(r.handled)) == multiset(Steers.Requests(h.handled)) + multiset{q}
  {
    hide LiveAll, Decide, Q.Remove, Q.Release;
    MailSplit(h.mail, k);
    Steers.SettleOne(h.handled, h.mail[k]);
  }

  lemma HandlingAwaits(h: Harness, k: nat)
    requires k < |h.mail| && Awaited(h)
    ensures Awaited(Next(h, Handle(k)))
  {
    hide Decide, Q.Remove, Q.Release, Outstanding;
    var r, a := Next(h, Handle(k)), h.mail[k];
    HandlingMoves(h, k);
    EventsOfOneMore(Outstanding(r), Outstanding(h), a.request);
    HandlingIds(h.chan, a.request.event, Decide(a.how));
    forall x ensures multiset(Ids(r.chan.withheld))[x] <= multiset(Events(Outstanding(r)))[x] {
      assert multiset(Ids(h.chan.withheld))[x] <= multiset(Events(Outstanding(h)))[x];
    }
  }

  lemma SameTurnsSameSource(h: Harness, r: Harness, a: Resolved)
    requires FromATurn(h, a) && r.turns == h.turns
    ensures FromATurn(r, a)
  {
  }

  lemma MailSplit(mail: seq<Resolved>, k: nat)
    requires k < |mail|
    ensures multiset(Steers.Requests(mail)) == multiset(Steers.Requests(mail[..k] + mail[k + 1..])) + multiset{mail[k].request}
  {
    assert mail == mail[..k] + [mail[k]] + mail[k + 1..];
    Steers.RequestsAppend(mail[..k] + [mail[k]], mail[k + 1..]);
    Steers.SettleOne(mail[..k], mail[k]);
    Steers.RequestsAppend(mail[..k], mail[k + 1..]);
  }

  lemma NoIds()
    ensures Ids([]) == []
  {
  }

  /** Steps that leave requests alone and do not add withheld events. */
  lemma QueueStepKeeps(h: Harness, chan: Q.Chan)
    requires Inv(h) && (chan.withheld == h.chan.withheld || chan.withheld == [])
    ensures Inv(h.(chan := chan))
  {
    hide Steers.SteerInv, Steers.Quiesced, FromATurn, LiveAll, Ids, Events;
    var r := h.(chan := chan);
    NoIds();
    assert Outstanding(r) == Outstanding(h);
    forall b | b in r.mail || b in r.handled ensures FromATurn(r, b) {
      SameTurnsSameSource(h, r, b);
    }
  }

  lemma ActionKeeps(h: Harness, a: Action)
    requires Inv(h) && Enabled(h, a)
    ensures Inv(Next(h, a))
  {
    hide Inv;
    match a
    case Arrive(e, i) => ArriveKeeps(h, e, i);
    case Step(i, s) => StepKeeps(h, i, s);
    case Cancel(i) => CancelKeeps(h, i);
    case Handle(k) => HandleKeeps(h, k);
    case Start(l) => StartKeeps(h, l);
    case Expire => QueueStepKeeps(h, Q.Recover(h.chan));
    case LeaveChannel => QueueStepKeeps(h, Q.Chan([], []));
    case OtherQueueWork(queue) => QueueStepKeeps(h, h.chan.(queue := queue));
  }

  const EMPTY := Harness(Q.Chan([], []), [], [], [], [])

  /** The books balance in every reachable state. */
  lemma {:induction false} EveryRunKeepsBooks(acts: seq<Action>)
    ensures Play(EMPTY, acts).Some? ==> Inv(Play(EMPTY, acts).value)
  {
    hide Inv, Next, Enabled;
    if acts == [] {
      EmptyKeepsBooks();
    } else {
      EveryRunKeepsBooks(acts[..|acts| - 1]);
      var before := Play(EMPTY, acts[..|acts| - 1]);
      if before.Some? && Enabled(before.value, acts[|acts| - 1]) {
        ActionKeeps(before.value, acts[|acts| - 1]);
      }
    }
  }

  lemma EmptyKeepsBooks()
    ensures Inv(EMPTY)
  {
  }

  // ----------------------------------------------------------------- the main results

  /** Each issued request is, at any time, in exactly one place: live in a turn, in the
      mail, or handled; so it is handled at most once. */
  lemma ExactlyOnePlace(h: Harness, i: nat)
    requires Inv(h) && i < |h.issued|
    ensures multiset(Outstanding(h))[h.issued[i]] + multiset(Steers.Requests(h.handled))[h.issued[i]] == 1
  {
    hide Outstanding, Awaited, SoundTurns, Sourced;
    OccursOnce(h.issued, i);
  }

  lemma {:induction false} OccursOnce(rs: seq<SteerRequest>, i: nat)
    requires i < |rs| && forall j :: 0 <= j < |rs| ==> rs[j].ticket == j
    ensures multiset(rs)[rs[i]] == 1
  {
    assert rs == rs[..i] + [rs[i]] + rs[i + 1..];
    assert rs[i] !in rs[..i] && rs[i] !in rs[i + 1..];
  }

  /** When no turn is running and the mail has been handled, nothing is withheld and
      every request ever issued has been handled, exactly once each. */
  lemma NothingStaysWithheld(h: Harness)
    requires Inv(h) && h.mail == [] && forall l :: l in h.turns ==> l.stop.Some?
    ensures h.chan.withheld == []
    ensures multiset(Steers.Requests(h.handled)) == multiset(h.issued)
  {
    hide Steers.SteerInv, Sourced;
    forall l | l in h.turns ensures Live(l) == [] {
      var i :| 0 <= i < |h.turns| && h.turns[i] == l;
      assert Steers.Quiesced(h.turns[i]);
    }
    LiveAllGone(h.turns);
    assert Outstanding(h) == [];
    assert multiset(Ids(h.chan.withheld)) == multiset{};
    assert |multiset(Ids(h.chan.withheld))| == |h.chan.withheld|;
  }

  ghost predicate DeliveredIn(l: Loop, r: SteerRequest) {
    Steers.Delivered(l.client.feed, l.from, r)
  }

  /** No silent loss: an event is dropped as delivered only on the evidence of its own
      request's answer, in the record of the turn that carried it. */
  lemma DropsAreDelivered(h: Harness, k: nat)
    requires Inv(h) && k < |h.mail| && Decide(h.mail[k].how).drop
    ensures exists t :: 0 <= t < |h.turns| && DeliveredIn(h.turns[t], h.mail[k].request)
  {
    hide Outstanding, Accounted, Awaited, Steers.Delivered, Steers.OneAtATime, Steers.Outstanding, Steers.GoodWrites;
    var a := h.mail[k];
    assert a in h.mail && FromATurn(h, a);
    var t :| 0 <= t < |h.turns| && a in h.turns[t].resolved;
    var j :| 0 <= j < |h.turns[t].resolved| && h.turns[t].resolved[j] == a;
    assert Steers.SteerInv(h.turns[t]) && DeliveredIn(h.turns[t], a.request);
  }

  /** What can become of a withheld event in one step: it stays withheld; it is back in
      the queue; it was dropped on a success of its id; or the agent left the channel.
      (A recovery of more events than a queue can hold may push some out.) */
  lemma WithheldFate(h: Harness, a: Action, e: Q.Event)
    requires Enabled(h, a) && e in h.chan.withheld
    ensures var r := Next(h, a);
      || e in r.chan.withheld
      || e in r.chan.queue
      || (a.Handle? && h.mail[a.k].how == Sent(Success) && h.mail[a.k].request.event == e.id)
      || a.LeaveChannel?
      || (a.Expire? && |h.chan.withheld| > Q.MAX_PENDING_PER_CHANNEL)
  {
    hide Iterate, Abandon;
    match a
    case Step(i, s) => SettledGrows(h.turns[i], s);
    case Handle(k) => FateWhenHandled(h.chan, h.mail[k], e);
    case Expire => FateWhenRecovered(h.chan, e);
    case _ =>
  }

  lemma FateWhenHandled(c: Q.Chan, a: Resolved, e: Q.Event)
    requires e in c.withheld
    ensures var c' := if Decide(a.how).drop then Q.Remove(c, a.request.event) else Q.Release(c, a.request.event);
      e in c'.withheld || e in c'.queue || (a.how == Sent(Success) && a.request.event == e.id)
  {
    if !Decide(a.how).drop {
      var i := Q.Find(c.withheld, a.request.event);
      if i < |c.withheld| {
        var j :| 0 <= j < |c.withheld| && c.withheld[j] == e;
        var w := Q.RemoveAt(c.withheld, i);
        if j == i {
          assert Q.Release(c, a.request.event).queue[0] == e;
        } else {
          assert w[if j < i then j else j - 1] == e;
        }
      }
    }
  }

  lemma FateWhenRecovered(c: Q.Chan, e: Q.Event)
    requires e in c.withheld
    ensures e in Q.Recover(c).queue || |c.withheld| > Q.MAX_PENDING_PER_CHANNEL
  {
    var j :| 0 <= j < |c.withheld| && c.withheld[j] == e;
    if |c.withheld| <= Q.MAX_PENDING_PER_CHANNEL {
      assert Q.Recover(c).queue[j] == e;
    }
  }

  // ------------------------------------------------------------- a withheld event's fate

  predicate Holds(c: Q.Chan, e: Q.Event) { e in c.queue || e in c.withheld }

  /** The steps that can make an event leave both queue and side table: a success reported
      for its id, with the positive answer to that request on the record of the turn that
      carried it; leaving the channel; ordinary queue work taking it out of the queue; or
      overflow, of a full queue by an arrival or a release, or of a recovery. */
  ghost predicate Leaves(h: Harness, a: Action, e: Q.Event)
    requires Enabled(h, a)
  {
    || (a.Handle? && h.mail[a.k].how == Sent(Success) && h.mail[a.k].request.event == e.id
        && exists t :: 0 <= t < |h.turns| && DeliveredIn(h.turns[t], h.mail[a.k].request))
    || a.LeaveChannel?
    || (a.OtherQueueWork? && e in h.chan.queue && e !in h.chan.withheld && e !in a.queue)
    || ((a.Arrive? || a.Handle?) && e in h.chan.queue && e !in h.chan.withheld
        && |h.chan.queue| >= Q.MAX_PENDING_PER_CHANNEL)
    || (a.Expire? && |h.chan.queue| + |h.chan.withheld| > Q.MAX_PENDING_PER_CHANNEL)
  }

  lemma LeavesFor(h: Harness, a: Action, e: Q.Event)
    requires Inv(h) && Enabled(h, a) && Holds(h.chan, e) && !Holds(Next(h, a).chan, e)
    ensures Leaves(h, a, e)
  {
    hide Inv, DeliveredIn, Q.Remove, Q.Release, Q.Recover, Q.Withhold, Q.Enqueue, Iterate, Abandon, Q.Find;
    match a
    case Arrive(e', i) => ArrivalKeeps(h.chan, e', e);
    case Handle(k) =>
      HandlingTakes(h.chan, h.mail[k], e);
      if h.mail[k].how == Sent(Success) && h.mail[k].request.event == e.id {
        DropsAreDelivered(h, k);
      }
    case Expire => RecoveryTakes(h.chan, e);
    case _ =>
  }

  lemma ArrivalKeeps(c: Q.Chan, e': Q.Event, e: Q.Event)
    requires Holds(c, e)
    ensures var c1 := Q.Enqueue(c, e');
      && (Holds(c1, e) || (e in c.queue && e !in c.withheld && |c.queue| >= Q.MAX_PENDING_PER_CHANNEL))
      && (Holds(c1, e) ==> Holds(Q.Withhold(c1, e'.id), e))
  {
    var c1 := Q.Enqueue(c, e');
    if Holds(c1, e) {
      WithholdHolds(c1, e'.id, e);
    }
  }

  lemma WithholdHolds(c: Q.Chan, id: nat, e: Q.Event)
    requires Holds(c, e)
    ensures Holds(Q.Withhold(c, id), e)
  {
    var i := Q.Find(c.queue, id);
    if i < |c.queue| && e in c.queue {
      TakenOut(c.queue, i, e);
    }
  }

  lemma TakenOut(es: seq<Q.Event>, i: nat, e: Q.Event)
    requires i < |es| && e in es
    ensures e == es[i] || e in Q.RemoveAt(es, i)
  {
    var j :| 0 <= j < |es| && es[j] == e;
    if j < i {
      assert Q.RemoveAt(es, i)[j] == e;
    } else if j > i {
      assert Q.RemoveAt(es, i)[j - 1] == e;
    }
  }

  lemma HandlingTakes(c: Q.Chan, a: Resolved, e: Q.Event)
    requires Holds(c, e)
    ensures var c' := if Decide(a.how).drop then Q.Remove(c, a.request.event) else Q.Release(c, a.request.event);
      || Holds(c', e)
      || (a.how == Sent(Success) && a.request.event == e.id)
      || (e in c.queue && e !in c.withheld && |c.queue| >= Q.MAX_PENDING_PER_CHANNEL)
  {
    if e in c.withheld {
      FateWhenHandled(c, a, e);
    } else if !Decide(a.how).drop {
      var i := Q.Find(c.withheld, a.request.event);
      if i < |c.withheld| && |c.queue| < Q.MAX_PENDING_PER_CHANNEL {
        assert Q.Release(c, a.request.event).queue == [c.withheld[i]] + c.queue;
      }
    }
  }

  lemma RecoveryTakes(c: Q.Chan, e: Q.Event)
    requires Holds(c, e)
    ensures Holds(Q.Recover(c), e) || |c.queue| + |c.withheld| > Q.MAX_PENDING_PER_CHANNEL
  {
  }

  lemma PlayOneMore(acts: seq<Action>, i: nat)
    requires i < |acts| && Play(EMPTY, acts[..i + 1]).Some?
    ensures Play(EMPTY, acts[..i]).Some? && Enabled(Play(EMPTY, acts[..i]).value, acts[i])
    ensures Play(EMPTY, acts[..i + 1]).value == Next(Play(EMPTY, acts[..i]).value, acts[i])
  {
    hide Next, Enabled;
    assert acts[..i + 1][..i] == acts[..i];
  }

  lemma {:induction false} PlayPrefix(acts: seq<Action>, i: nat)
    requires i <= |acts| && Play(EMPTY, acts).Some?
    ensures Play(EMPTY, acts[..i]).Some?
    decreases |acts| - i
  {
    if i == |acts| {
      assert acts[..i] == acts;
    } else {
      PlayPrefix(acts, i + 1);
      PlayOneMore(acts, i);
    }
  }

  ghost predicate LeftAt(acts: seq<Action>, j: nat, e: Q.Event)
    requires j < |acts| && Play(EMPTY, acts[..j]).Some? && Enabled(Play(EMPTY, acts[..j]).value, acts[j])
  {
    Holds(Play(EMPTY, acts[..j]).value.chan, e) && Leaves(Play(EMPTY, acts[..j]).value, acts[j], e)
  }

  lemma BeforeTheEnd(acts: seq<Action>, i: nat, e: Q.Event)
    requires i <= |acts| && Play(EMPTY, acts).Some? && !Holds(Play(EMPTY, acts).value.chan, e)
    requires Play(EMPTY, acts[..i]).Some? && Holds(Play(EMPTY, acts[..i]).value.chan, e)
    ensures i < |acts|
  {
    hide Play, Holds;
    assert acts[..|acts|] == acts;
  }

  /** No silent loss, over whole runs: an event that was held at some point of a run and at
      its end is neither queued nor withheld left at a step in between, and that step was
      one of those that may take it. */
  lemma {:induction false} HeldEventsLeaveForCause(acts: seq<Action>, i: nat, e: Q.Event) returns (j: nat)
    requires i <= |acts| && Play(EMPTY, acts).Some?
    requires Play(EMPTY, acts[..i]).Some? && Holds(Play(EMPTY, acts[..i]).value.chan, e)
    requires !Holds(Play(EMPTY, acts).value.chan, e)
    ensures i <= j < |acts| && Play(EMPTY, acts[..j]).Some? && Enabled(Play(EMPTY, acts[..j]).value, acts[j])
    ensures LeftAt(acts, j, e)
    decreases |acts| - i
  {
    hide Next, Enabled, Leaves, Inv, Holds;
    BeforeTheEnd(acts, i, e);
    PlayPrefix(acts, i + 1);
    PlayOneMore(acts, i);
    var h := Play(EMPTY, acts[..i]).value;
    if Holds(Next(h, acts[i]).chan, e) {
      j := HeldEventsLeaveForCause(acts, i + 1, e);
    } else {
      EveryRunKeepsBooks(acts[..i]);
      LeavesFor(h, acts[i], e);
      j := i;
    }
  }
}
