/** What each steer's outcome does to its event: a delivered one is gone for good, any other is
    back at the head of its queue. */
module SteerOutcomes {
  import opened Wrappers
  import opened ReadLoop
  import opened SteerSystem
  import Q = EventQueues

  /** No event with this id in queue or side table. */
  predicate Gone(c: Q.Chan, id: nat) { !Q.Lists(c.queue, id) && !Q.Lists(c.withheld, id) }

  lemma FilteredLists(es: seq<Q.Event>, id: nat, other: nat)
    ensures Q.Lists(Q.Without(es, id), other) <==> other != id && Q.Lists(es, other)
  {
    var r := Q.Without(es, id);
    if Q.Lists(es, other) && other != id {
      var i :| 0 <= i < |es| && es[i].id == other;
      assert es[i] in r;
    }
    if Q.Lists(r, other) {
      var i :| 0 <= i < |r| && r[i].id == other;
      assert r[i] in es;
    }
  }

  /** The ack arm takes one resolution out of the mail. A success takes the event out of queue
      and side table, and no event with another id; any other outcome takes the first withheld
      event with the id to the head of the queue, or changes nothing if there is none. */
  lemma HandlingDecides(h: Harness, k: nat)
    requires k < |h.mail|
    ensures
      var r, a, c := Next(h, Handle(k)), h.mail[k], h.chan;
      var id := a.request.event;
      && r == h.(mail := h.mail[..k] + h.mail[k + 1..], handled := h.handled + [a], chan := r.chan)
      && (a.how == Sent(Success) ==>
            && Gone(r.chan, id)
            && forall other :: other != id ==>
                 && (Q.Lists(r.chan.queue, other) <==> Q.Lists(c.queue, other))
                 && (Q.Lists(r.chan.withheld, other) <==> Q.Lists(c.withheld, other)))
      && (a.how != Sent(Success) ==>
            && (!Q.Lists(c.withheld, id) ==> r.chan == c)
            && forall before, e, after :: Q.SplitsAt(c.withheld, id, before, e, after) ==>
                 r.chan.withheld == before + after && Q.IsOldestOf(r.chan.queue, [e] + c.queue))
  {
    var a, c := h.mail[k], h.chan;
    var id := a.request.event;
    DecisionIsSound(a.how);
    Q.ReleasedToTheHead(c, id);
    hide Decide, Q.Without, Q.Lists, Q.Release, Q.SplitsAt;
    forall other
      ensures Q.Lists(Q.Without(c.queue, id), other) <==> other != id && Q.Lists(c.queue, other)
      ensures Q.Lists(Q.Without(c.withheld, id), other) <==> other != id && Q.Lists(c.withheld, other)
    {
      FilteredLists(c.queue, id, other);
      FilteredLists(c.withheld, id, other);
    }
  }

  // ------------------------------------------------------------ delivered at most once

  /** The step puts an event with this id into the channel from outside. */
  predicate BringsIn(a: Action, id: nat) {
    || (a.Arrive? && a.e.id == id)
    || (a.OtherQueueWork? && Q.Lists(a.queue, id))
  }

  lemma GoneStays(h: Harness, a: Action, id: nat)
    requires Enabled(h, a) && Gone(h.chan, id) && !BringsIn(a, id)
    ensures Gone(Next(h, a).chan, id)
  {
    hide Iterate, Abandon, Decide;
    var c := h.chan;
    match a
    case Arrive(e, i) =>
      EnqueueGone(c, e, id);
      WithholdGone(Q.Enqueue(c, e), e.id, id);
    case Handle(k) =>
      ReleaseGone(c, h.mail[k].request.event, id);
      FilteredLists(c.queue, h.mail[k].request.event, id);
      FilteredLists(c.withheld, h.mail[k].request.event, id);
    case Expire => RecoverGone(c, id);
    case Step(i, s) => SettledGrows(h.turns[i], s);
    case _ =>
  }

  lemma EnqueueGone(c: Q.Chan, e: Q.Event, id: nat)
    requires Gone(c, id) && e.id != id
    ensures Gone(Q.Enqueue(c, e), id)
  {
  }

  lemma WithholdGone(c: Q.Chan, taken: nat, id: nat)
    requires Gone(c, id)
    ensures Gone(Q.Withhold(c, taken), id)
  {
  }

  lemma ReleaseGone(c: Q.Chan, taken: nat, id: nat)
    requires Gone(c, id)
    ensures Gone(Q.Release(c, taken), id)
  {
  }

  lemma RecoverGone(c: Q.Chan, id: nat)
    requires Gone(c, id)
    ensures Gone(Q.Recover(c), id)
  {
  }

  /** Over any run: once a success has been handled, the event is neither queued nor withheld
      until one with its id arrives or is requeued, so a steer is not delivered a second time. */
  lemma {:induction false} DeliveredStaysGone(acts: seq<Action>, i: nat, id: nat)
    requires i < |acts| && acts[i].Handle? && Play(EMPTY, acts).Some? && Play(EMPTY, acts[..i]).Some?
    requires var h := Play(EMPTY, acts[..i]).value;
      acts[i].k < |h.mail| && h.mail[acts[i].k].how == Sent(Success) && h.mail[acts[i].k].request.event == id
    requires forall j :: i < j < |acts| ==> !BringsIn(acts[j], id)
    ensures Gone(Play(EMPTY, acts).value.chan, id)
  {
    hide Next, Enabled, Gone, BringsIn;
    var n := |acts| - 1;
    if i == n {
      HandlingDecides(Play(EMPTY, acts[..i]).value, acts[i].k);
    } else {
      assert acts[..n][..i] == acts[..i];
      DeliveredStaysGone(acts[..n], i, id);
      GoneStays(Play(EMPTY, acts[..n]).value, acts[n], id);
    }
  }

  // --------------------------------------------------------------------- steering at all

  /** An arriving event is steered exactly when the turn is running and its receiver has room:
      it is withheld, and a request of its own waits in the receiver. Otherwise it is queued as
      the newest. */
  lemma ArrivalIsOffered(h: Harness, e: Q.Event, i: nat)
    requires i < |h.turns| && !Q.Lists(h.chan.queue, e.id) && |h.chan.queue| <= Q.MAX_PENDING_PER_CHANNEL
    ensures
      var r, l, q := Next(h, Arrive(e, i)), h.turns[i], SteerRequest(|h.issued|, e.id);
      && r.mail == h.mail && r.handled == h.handled
      && (if l.stop.None? && l.hasInbox && l.inbox == [] then
            && r.chan.withheld == h.chan.withheld + [e] && Q.IsNewestOf(r.chan.queue + [e], h.chan.queue + [e])
            && r.issued == h.issued + [q] && r.turns == h.turns[i := l.(inbox := [q])]
          else
            && r.chan.withheld == h.chan.withheld && Q.IsNewestOf(r.chan.queue, h.chan.queue + [e])
            && r.issued == h.issued && r.turns == h.turns)
  {
    hide Q.Enqueue, Q.Withhold, Q.Lists, Q.IsNewestOf;
    ArrivingLast(h.chan, e);
  }

  /** A new event is queued as the newest, and withholding it takes it out again. */
  lemma ArrivingLast(c: Q.Chan, e: Q.Event)
    requires !Q.Lists(c.queue, e.id) && |c.queue| <= Q.MAX_PENDING_PER_CHANNEL
    ensures var q := Q.Enqueue(c, e);
      && q.withheld == c.withheld && Q.IsNewestOf(q.queue, c.queue + [e])
      && Q.Withhold(q, e.id).withheld == c.withheld + [e] && Q.Withhold(q, e.id).queue + [e] == q.queue
  {
    Q.EnqueueKeepsTheNewest(c, c.queue, e);
    hide Q.IsNewestOf, Q.Withhold;
    var q := Q.Enqueue(c, e);
    var rest := q.queue[..|q.queue| - 1];
    assert q.queue == rest + [e] + [] == rest + [e] && rest + [] == rest;
    forall j | 0 <= j < |rest| ensures rest[j].id != e.id {
      assert rest[j] == c.queue[j + |c.queue| - |rest|];
    }
    assert Q.SplitsAt(q.queue, e.id, rest, e, []);
    Q.WithheldInOrder(q, e.id);
  }
}
