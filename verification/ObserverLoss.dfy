/** The feed when an event is numbered and buffered in one step, by any number of emitters:
    exactly what is still lost, and when nothing is. */
module ObserverLoss {
  import opened ObserverBus
  import opened ObserverEvents
  import opened Wrappers

  datatype AtomicAction =
    | Emit(draft: Event)
    | SendOne(seqNo: nat)
    | SubscribeOnce
    | SnapshotOnce

  function AtomicNext(b: Bus, a: AtomicAction): Bus {
    match a
    case Emit(draft) => Next(Next(b, Allocate(draft)), Buffer(b.nextSeq))
    case SendOne(n) => Next(b, Send(n))
    case SubscribeOnce => Next(b, Subscribe)
    case SnapshotOnce => Next(b, Snapshot)
  }

  function AtomicPlay(actions: seq<AtomicAction>): Bus {
    if actions == [] then InitialBus()
    else AtomicNext(AtomicPlay(actions[..|actions| - 1]), actions[|actions| - 1])
  }

  /** These are runs of the bus, with every buffering right after its numbering. */
  lemma {:induction false} AtomicIsPlay(actions: seq<AtomicAction>) returns (steps: seq<Action>)
    ensures Play(steps) == AtomicPlay(actions)
  {
    hide Next;
    steps := [];
    if actions != [] {
      var prefix, last := actions[..|actions| - 1], actions[|actions| - 1];
      steps := AtomicIsPlay(prefix);
      var n := AtomicPlay(prefix).nextSeq;
      match last
      case Emit(draft) => steps := PlayAppend(steps, Allocate(draft)); steps := PlayAppend(steps, Buffer(n));
      case SendOne(m) => steps := PlayAppend(steps, Send(m));
      case SubscribeOnce => steps := PlayAppend(steps, Subscribe);
      case SnapshotOnce => steps := PlayAppend(steps, Snapshot);
    }
  }

  lemma PlayAppend(steps: seq<Action>, a: Action) returns (more: seq<Action>)
    ensures more == steps + [a] && Play(more) == Next(Play(steps), a)
  {
    hide Next;
    more := steps + [a];
    assert more[..|more| - 1] == steps;
  }

  /** The buffer, and the snapshot, hold the latest events by number. */
  ghost predicate Shape(b: Bus) {
    && b.nextSeq == |b.issued| + 1 && Ascending(b.issued)
    && (forall n :: n in b.inFlight ==> b.inFlight[n].buffered)
    && Latest(b.buffer, b.issued)
    && (b.snapshot.Some? ==>
          var t := b.snapshot.value;
          0 < t.nextSeq <= b.nextSeq && t.unbuffered == {} && Latest(t.events, b.issued[..t.nextSeq - 1]))
  }

  lemma EmitStep(b: Bus, draft: Event)
    requires Shape(b) && b.nextSeq !in b.inFlight
    ensures
      var e := draft.(seqNo := b.nextSeq);
      AtomicNext(b, Emit(draft))
      == b.(nextSeq := b.nextSeq + 1, issued := b.issued + [e], buffered := b.buffered + {b.nextSeq},
            inFlight := b.inFlight[b.nextSeq := Emission(e, true)], buffer := Retained(b.buffer, e))
  {
    hide Retained, Latest, Ascending;
    var e := draft.(seqNo := b.nextSeq);
    assert b.inFlight[b.nextSeq := Emission(e, false)][b.nextSeq := Emission(e, true)]
        == b.inFlight[b.nextSeq := Emission(e, true)];
  }

  lemma EmitKeepsShape(b: Bus, draft: Event)
    requires Shape(b) && b.nextSeq !in b.inFlight
    ensures Shape(AtomicNext(b, Emit(draft)))
  {
    hide Next, AtomicNext, Retained, Latest, Ascending;
    EmitStep(b, draft);
    var e := draft.(seqNo := b.nextSeq);
    RetainedIsLatest(b.buffer, b.issued, e);
    AscendingAppend(b.issued, e);
    if b.snapshot.Some? {
      var n := b.snapshot.value.nextSeq - 1;
      assert (b.issued + [e])[..n] == b.issued[..n];
    }
  }

  lemma StepKeepsShape(b: Bus, a: AtomicAction)
    requires Shape(b) && Inv(b)
    ensures Shape(AtomicNext(b, a)) && Inv(AtomicNext(b, a))
  {
    hide RecordInv, TakenInv, Retained, Latest, Ascending, Split;
    match a
    case Emit(draft) =>
      StepKeepsInv(b, Allocate(draft));
      StepKeepsInv(Next(b, Allocate(draft)), Buffer(b.nextSeq));
      NextIsNew(b);
      EmitKeepsShape(b, draft);
    case SendOne(n) => StepKeepsInv(b, Send(n));
    case SubscribeOnce => StepKeepsInv(b, Subscribe);
    case SnapshotOnce =>
      StepKeepsInv(b, Snapshot);
      assert Unbuffered(b.inFlight) == {};
      assert b.issued[..|b.issued|] == b.issued;
  }

  lemma NextIsNew(b: Bus)
    requires Inv(b)
    ensures b.nextSeq !in b.inFlight
  {
  }

  lemma {:induction false} AtomicKeeps(actions: seq<AtomicAction>)
    ensures Shape(AtomicPlay(actions)) && Inv(AtomicPlay(actions))
  {
    hide Shape, Inv, AtomicNext;
    if actions == [] {
      InitialInv();
      InitialShape();
    } else {
      AtomicKeeps(actions[..|actions| - 1]);
      StepKeepsShape(AtomicPlay(actions[..|actions| - 1]), actions[|actions| - 1]);
    }
  }

  lemma InitialShape()
    ensures Shape(InitialBus())
  {
  }

  /** The number at each place of the latest events. */
  lemma LatestAt(events: seq<Event>, all: seq<Event>, i: nat)
    requires Ascending(all) && Latest(events, all) && i < |events|
    ensures events[i].seqNo == |all| - |events| + i + 1
  {
    assert events[i] == all[|all| - |events| + i];
  }

  lemma LatestNumbers(events: seq<Event>, all: seq<Event>, n: nat)
    requires Ascending(all) && Latest(events, all) && 0 < n <= |all|
    ensures (forall i :: 0 <= i < |events| ==> events[i].seqNo != n) <==> n + BUFFER_CAP <= |all|
  {
    forall i | 0 <= i < |events| ensures events[i].seqNo == |all| - |events| + i + 1 {
      LatestAt(events, all, i);
    }
    hide Ascending;
    if n + |events| > |all| {
      assert events[n + |events| - |all| - 1].seqNo == n;
    }
  }

  lemma LatestMax(events: seq<Event>, all: seq<Event>)
    requires Ascending(all) && Latest(events, all)
    ensures MaxSeq(events) == |all|
  {
    forall i | 0 <= i < |events| ensures events[i].seqNo == |all| - |events| + i + 1 {
      LatestAt(events, all, i);
    }
    hide Ascending;
    if all != [] {
      assert events[|events| - 1].seqNo == |all| && events[|events| - 1] in events;
    }
  }

  /** What the snapshot holds, by number. */
  lemma HeldNumbers(b: Bus, n: nat)
    requires Shape(b) && b.snapshot.Some? && 0 < n
    ensures var t := b.snapshot.value;
      && (n < t.nextSeq ==>
            ((forall i :: 0 <= i < |t.events| ==> t.events[i].seqNo != n) <==> n + BUFFER_CAP < t.nextSeq))
      && MaxSeq(t.events) == t.nextSeq - 1
  {
    var t := b.snapshot.value;
    var all := b.issued[..t.nextSeq - 1];
    PrefixAscends(b.issued, t.nextSeq - 1);
    hide Ascending, Latest, MaxSeq;
    LatestMax(t.events, all);
    if n < t.nextSeq {
      LatestNumbers(t.events, all, n);
    }
  }

  lemma PrefixAscends(all: seq<Event>, n: nat)
    requires Ascending(all) && n <= |all|
    ensures Ascending(all[..n])
  {
  }

  /** With numbering and buffering in one step, a broadcast event is lost exactly when a
      full buffer's worth of events was buffered after it and before the snapshot. */
  lemma AtomicLossExactly(actions: seq<AtomicAction>, k: nat)
    requires AtomicPlay(actions).snapshot.Some? && k < |AtomicPlay(actions).sent|
    ensures Inv(AtomicPlay(actions))
    ensures
      var b := AtomicPlay(actions);
      b.sent[k] !in Fed(b) <==> b.sent[k].seqNo + BUFFER_CAP < b.snapshot.value.nextSeq
  {
    hide AtomicPlay, Latest, Ascending, Authentic, DistinctSeqs;
    AtomicKeeps(actions);
    LossInShape(AtomicPlay(actions), k);
  }

  lemma LossInShape(b: Bus, k: nat)
    requires Shape(b) && Inv(b) && b.snapshot.Some? && k < |b.sent|
    ensures b.sent[k] !in Fed(b) <==> b.sent[k].seqNo + BUFFER_CAP < b.snapshot.value.nextSeq
  {
    hide Latest, Ascending, DistinctSeqs, FlightInv;
    var t, n := b.snapshot.value, b.sent[k].seqNo;
    assert 0 < n;
    LostExactly(b, k);
    HeldNumbers(b, n);
    hide Fed;
    assert n in t.buffered <==> n < t.nextSeq;
  }

  // ---- No loss

  /** A send comes before a full buffer's worth of later events has been buffered. */
  predicate PromptAt(b: Bus, a: AtomicAction) {
    a.SendOne? ==> b.nextSeq <= a.seqNo + BUFFER_CAP
  }

  predicate Prompt(actions: seq<AtomicAction>) {
    forall i :: 0 <= i < |actions| ==> PromptAt(AtomicPlay(actions[..i]), actions[i])
  }

  ghost predicate LateOnesAreRecent(b: Bus) {
    b.snapshot.Some? ==>
      && b.snapshot.value.nextSeq <= b.nextSeq
      && forall k :: b.snapshot.value.sentBefore <= k < |b.sent| ==>
           b.snapshot.value.nextSeq <= b.sent[k].seqNo + BUFFER_CAP
  }

  lemma PromptStep(b: Bus, a: AtomicAction)
    requires Inv(b) && LateOnesAreRecent(b) && PromptAt(b, a)
    ensures LateOnesAreRecent(AtomicNext(b, a))
  {
    hide Retained, Unbuffered, DistinctSeqs, Authentic, NumbersIn, Split, Ascending;
    var c := AtomicNext(b, a);
    if a.SendOne? && a.seqNo in b.inFlight {
      assert b.inFlight[a.seqNo].event == b.issued[a.seqNo - 1];
      NumberOf(b, a.seqNo);
    }
  }

  lemma NumberOf(b: Bus, n: nat)
    requires RecordInv(b) && 0 < n <= |b.issued|
    ensures b.issued[n - 1].seqNo == n
  {
  }

  lemma PromptPrefix(actions: seq<AtomicAction>, n: nat)
    requires Prompt(actions) && n <= |actions|
    ensures Prompt(actions[..n])
  {
    hide PromptAt, AtomicPlay;
    var prefix := actions[..n];
    forall i | 0 <= i < n ensures PromptAt(AtomicPlay(prefix[..i]), prefix[i]) {
      assert prefix[..i] == actions[..i];
      assert PromptAt(AtomicPlay(actions[..i]), actions[i]);
    }
  }

  lemma {:induction false} PromptRun(actions: seq<AtomicAction>)
    requires Prompt(actions)
    ensures LateOnesAreRecent(AtomicPlay(actions))
  {
    hide AtomicNext, Inv, LateOnesAreRecent, PromptAt;
    if actions == [] {
      assert LateOnesAreRecent(InitialBus()) by { InitialIsRecent(); }
    } else {
      var n := |actions| - 1;
      PromptPrefix(actions, n);
      PromptRun(actions[..n]);
      AtomicKeeps(actions[..n]);
      assert PromptAt(AtomicPlay(actions[..n]), actions[n]);
      PromptStep(AtomicPlay(actions[..n]), actions[n]);
    }
  }

  lemma InitialIsRecent()
    ensures LateOnesAreRecent(InitialBus())
  {
  }

  /** No loss: with numbering and buffering in one step, and fewer than a buffer's worth of
      bufferings between an event's own and its broadcast, everything broadcast after the
      snapshot is fed. */
  lemma NothingLateIsLost(actions: seq<AtomicAction>, k: nat)
    requires AtomicPlay(actions).snapshot.Some? && Prompt(actions)
    requires AtomicPlay(actions).snapshot.value.sentBefore <= k < |AtomicPlay(actions).sent|
    ensures Inv(AtomicPlay(actions)) && AtomicPlay(actions).sent[k] in Fed(AtomicPlay(actions))
  {
    hide AtomicPlay, Prompt;
    PromptRun(actions);
    AtomicLossExactly(actions, k);
    hide Fed, Inv;
  }

  // ---- The bound is needed

  /** Emitters that number, buffer and send one event each, in turn. */
  function Burst(drafts: seq<Event>): seq<AtomicAction> {
    if drafts == [] then []
    else Burst(drafts[..|drafts| - 1]) + [Emit(drafts[|drafts| - 1]), SendOne(|drafts| + 1)]
  }

  lemma AtomicAppend(actions: seq<AtomicAction>, a: AtomicAction)
    ensures AtomicPlay(actions + [a]) == AtomicNext(AtomicPlay(actions), a)
  {
    hide AtomicNext;
    assert (actions + [a])[..|actions|] == actions;
  }

  /** While one emitter is held up between buffering and sending, others pass it. */
  ghost predicate Passed(b: Bus, first: Event, count: nat) {
    && b.nextSeq == count + 2 && b.inFlight == map[1 := Emission(first.(seqNo := 1), true)]
    && |b.sent| == count && b.subscribed.None? && b.snapshot.None?
  }

  lemma PassOne(b: Bus, first: Event, count: nat, draft: Event)
    requires Shape(b) && Passed(b, first, count)
    ensures Passed(AtomicNext(AtomicNext(b, Emit(draft)), SendOne(count + 2)), first, count + 1)
  {
    EmitStep(b, draft);
    hide Shape, Retained;
    var c := AtomicNext(b, Emit(draft));
    var n := count + 2;
    assert c.inFlight - {n} == map[1 := Emission(first.(seqNo := 1), true)];
  }

  lemma {:induction false} BurstPasses(first: Event, drafts: seq<Event>)
    ensures Passed(AtomicPlay([Emit(first)] + Burst(drafts)), first, |drafts|)
  {
    hide AtomicNext, Passed, Shape, Inv;
    var start := [Emit(first)];
    if drafts == [] {
      assert start + Burst(drafts) == [] + [Emit(first)];
      AtomicAppend([], Emit(first));
      FirstPasses(first);
    } else {
      var prefix, last := drafts[..|drafts| - 1], drafts[|drafts| - 1];
      BurstPasses(first, prefix);
      var before := start + Burst(prefix);
      assert start + Burst(drafts) == before + [Emit(last)] + [SendOne(|drafts| + 1)];
      AtomicAppend(before, Emit(last));
      AtomicAppend(before + [Emit(last)], SendOne(|drafts| + 1));
      AtomicKeeps(before);
      PassOne(AtomicPlay(before), first, |prefix|, last);
    }
  }

  lemma FirstPasses(first: Event)
    ensures Passed(AtomicNext(AtomicPlay([]), Emit(first)), first, 0)
  {
    InitialShape();
    EmitStep(InitialBus(), first);
  }

  /** A late sender loses its event although it was buffered at once: a thousand others
      push it out of the replay buffer before the snapshot, and its broadcast comes after. */
  lemma LateSendIsLost(first: Event, drafts: seq<Event>)
    requires |drafts| == BUFFER_CAP
    ensures
      var actions := [Emit(first)] + Burst(drafts) + [SubscribeOnce] + [SnapshotOnce] + [SendOne(1)];
      var b := AtomicPlay(actions);
      && Inv(b) && b.snapshot.Some? && b.snapshot.value.unbuffered == {}
      && |b.sent| == BUFFER_CAP + 1 && b.subscribed == Some(BUFFER_CAP)
      && b.sent[BUFFER_CAP] == first.(seqNo := 1) && b.sent[BUFFER_CAP] !in Fed(b)
  {
    hide AtomicPlay, Shape, Inv;
    var start := [Emit(first)] + Burst(drafts);
    BurstPasses(first, drafts);
    AtomicAppend(start, SubscribeOnce);
    AtomicAppend(start + [SubscribeOnce], SnapshotOnce);
    AtomicAppend(start + [SubscribeOnce] + [SnapshotOnce], SendOne(1));
    var actions := start + [SubscribeOnce] + [SnapshotOnce] + [SendOne(1)];
    AtomicLossExactly(actions, BUFFER_CAP);
    AtomicKeeps(actions);
    LateSendState(AtomicPlay(start), first);
    assert AtomicPlay(actions).snapshot.value.unbuffered == {} by { SnapshotIsBuffered(AtomicPlay(actions)); }
  }

  lemma SnapshotIsBuffered(b: Bus)
    requires Shape(b) && b.snapshot.Some?
    ensures b.snapshot.value.unbuffered == {}
  {
  }

  lemma LateSendState(b: Bus, first: Event)
    requires Passed(b, first, BUFFER_CAP)
    ensures
      var c := AtomicNext(AtomicNext(AtomicNext(b, SubscribeOnce), SnapshotOnce), SendOne(1));
      && c.snapshot.Some? && c.snapshot.value.nextSeq == BUFFER_CAP + 2
      && |c.sent| == BUFFER_CAP + 1 && c.subscribed == Some(BUFFER_CAP)
      && c.sent[BUFFER_CAP] == first.(seqNo := 1)
  {
  }
}
