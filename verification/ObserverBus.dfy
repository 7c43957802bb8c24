/** The observer bus: a bounded replay buffer and a broadcast channel, and the feed one
    publisher builds from a subscription and a snapshot. */
module ObserverBus {
  import opened ObserverEvents
  import opened Wrappers

  const BUFFER_CAP: nat := 1_000

  /** The replay buffer after one more event. */
  function Retained(buffer: seq<Event>, e: Event): (r: seq<Event>)
    ensures |buffer| <= BUFFER_CAP ==> |r| <= BUFFER_CAP
    ensures |r| > 0 && r[|r| - 1] == e && forall x :: x in r ==> x == e || x in buffer
  {
    (if |buffer| >= BUFFER_CAP then buffer[1..] else buffer) + [e]
  }

  class ObserverHub {
    var nextSeq: nat
    var buffer: seq<Event>
    /** Everything broadcast so far, in order; a receiver sees what follows its subscription. */
    var sent: seq<Event>

    constructor ()
      ensures nextSeq == 1 && buffer == [] && sent == []
    {
      nextSeq, buffer, sent := 1, [], [];
    }

    method Allocate(draft: Event) returns (e: Event)
      modifies this`nextSeq
      ensures e == draft.(seqNo := old(nextSeq)) && nextSeq == old(nextSeq) + 1
    {
      e := draft.(seqNo := nextSeq);
      nextSeq := nextSeq + 1;
    }

    method Retain(e: Event)
      modifies this`buffer
      ensures buffer == Retained(old(buffer), e)
    {
      if |buffer| >= BUFFER_CAP {
        buffer := buffer[1..];
      }
      buffer := buffer + [e];
    }

    method Send(e: Event)
      modifies this`sent
      ensures sent == old(sent) + [e]
    {
      sent := sent + [e];
    }

    method Emit(draft: Event)
      modifies this
      ensures nextSeq == old(nextSeq) + 1
      ensures var e := draft.(seqNo := old(nextSeq));
        buffer == Retained(old(buffer), e) && sent == old(sent) + [e]
    {
      var e := Allocate(draft);
      Retain(e);
      Send(e);
    }

    method Subscribe() returns (at: nat)
      ensures at == |sent|
    {
      at := |sent|;
    }

    method Snapshot() returns (events: seq<Event>)
      ensures events == buffer
    {
      events := buffer;
    }
  }

  // ---- Concurrent emitters: every interleaving of the three steps

  datatype Emission = Emission(event: Event, buffered: bool)

  /** A snapshot, with what was going on when it was taken: the next event number, the
      numbers buffered so far, those issued but not yet buffered, and how much had been
      sent. */
  datatype Taken = Taken(events: seq<Event>, nextSeq: nat, buffered: set<nat>, unbuffered: set<nat>, sentBefore: nat)

  /** `issued` and `buffered` record every event so far, and the numbers buffered so
      far. */
  datatype Bus = Bus(
    nextSeq: nat,
    issued: seq<Event>,
    buffered: set<nat>,
    inFlight: map<nat, Emission>,
    buffer: seq<Event>,
    sent: seq<Event>,
    subscribed: Option<nat>,
    snapshot: Option<Taken>)

  function InitialBus(): Bus { Bus(1, [], {}, map[], [], [], None, None) }

  datatype Action =
    | Allocate(draft: Event)
    | Buffer(seqNo: nat)
    | Send(seqNo: nat)
    | Subscribe
    | Snapshot

  /** One atomic step; a step that is not enabled changes nothing. */
  function Next(b: Bus, a: Action): Bus {
    match a
    case Allocate(draft) =>
      var e := draft.(seqNo := b.nextSeq);
      b.(nextSeq := b.nextSeq + 1,
         issued := b.issued + [e],
         inFlight := b.inFlight[b.nextSeq := Emission(e, false)])
    case Buffer(n) =>
      if n in b.inFlight && !b.inFlight[n].buffered then
        b.(inFlight := b.inFlight[n := Emission(b.inFlight[n].event, true)],
           buffered := b.buffered + {n},
           buffer := Retained(b.buffer, b.inFlight[n].event))
      else b
    case Send(n) =>
      if n in b.inFlight && b.inFlight[n].buffered then
        b.(inFlight := b.inFlight - {n}, sent := b.sent + [b.inFlight[n].event])
      else b
    case Subscribe =>
      if b.subscribed.None? then b.(subscribed := Some(|b.sent|)) else b
    case Snapshot =>
      if b.subscribed.Some? && b.snapshot.None? then
        var unbuffered := Unbuffered(b.inFlight);
        b.(snapshot := Some(Taken(b.buffer, b.nextSeq, b.buffered, unbuffered, |b.sent|)))
      else b
  }

  function Play(actions: seq<Action>): Bus {
    if actions == [] then InitialBus() else Next(Play(actions[..|actions| - 1]), actions[|actions| - 1])
  }

  // ---- The feed

  function MaxSeq(events: seq<Event>): (m: nat)
    ensures forall e :: e in events ==> e.seqNo <= m
    ensures m == 0 || exists e :: e in events && e.seqNo == m
  {
    if events == [] then 0 else Max(events[0].seqNo, MaxSeq(events[1..]))
  }

  function Above(events: seq<Event>, low: nat): (r: seq<Event>)
    ensures forall e :: e in r <==> e in events && e.seqNo > low
  {
    if events == [] then [] else (if events[0].seqNo > low then [events[0]] else []) + Above(events[1..], low)
  }

  /** What the publisher feeds on: the snapshot, then every later broadcast above the
      snapshot's highest number. */
  function Fed(b: Bus): seq<Event>
    requires b.subscribed.Some? && b.subscribed.value <= |b.sent| && b.snapshot.Some?
  {
    b.snapshot.value.events + Above(b.sent[b.subscribed.value..], MaxSeq(b.snapshot.value.events))
  }

  predicate DistinctSeqs(events: seq<Event>) {
    forall i, j :: 0 <= i < j < |events| ==> events[i].seqNo != events[j].seqNo
  }

  /** Every event is the one issued under its number. */
  ghost predicate Authentic(events: seq<Event>, issued: seq<Event>) {
    forall i :: 0 <= i < |events| ==> 0 < events[i].seqNo <= |issued| && issued[events[i].seqNo - 1] == events[i]
  }

  ghost predicate NumbersIn(events: seq<Event>, numbers: set<nat>) {
    forall i :: 0 <= i < |events| ==> events[i].seqNo in numbers
  }

  ghost predicate Ascending(events: seq<Event>) {
    forall i :: 0 <= i < |events| ==> events[i].seqNo == i + 1
  }

  /** The numbers below `next` are those buffered and those not. */
  ghost predicate Split(next: nat, buffered: set<nat>, unbuffered: set<nat>) {
    && (forall n :: n in buffered || n in unbuffered <==> 0 < n < next)
    && buffered !! unbuffered
  }

  function Unbuffered(inFlight: map<nat, Emission>): set<nat> {
    set n | n in inFlight && !inFlight[n].buffered
  }

  ghost predicate FlightInv(b: Bus) {
    && (forall n :: n in b.inFlight ==> 0 < n <= |b.issued| && b.inFlight[n].event == b.issued[n - 1])
    && (forall n, i :: n in b.inFlight && 0 <= i < |b.sent| ==> b.sent[i].seqNo != n)
    && Split(b.nextSeq, b.buffered, Unbuffered(b.inFlight))
  }

  ghost predicate RecordInv(b: Bus) {
    && b.nextSeq == |b.issued| + 1 && Ascending(b.issued)
    && DistinctSeqs(b.buffer) && Authentic(b.buffer, b.issued) && NumbersIn(b.buffer, b.buffered)
    && |b.buffer| <= BUFFER_CAP
    && DistinctSeqs(b.sent) && Authentic(b.sent, b.issued) && NumbersIn(b.sent, b.buffered)
    && (b.subscribed.Some? ==> b.subscribed.value <= |b.sent|)
  }

  ghost predicate TakenInv(b: Bus, t: Taken) {
    && b.subscribed.Some? && b.subscribed.value <= t.sentBefore <= |b.sent|
    && 0 < t.nextSeq <= b.nextSeq
    && DistinctSeqs(t.events) && Authentic(t.events, b.issued) && NumbersIn(t.events, t.buffered)
    && Split(t.nextSeq, t.buffered, t.unbuffered)
    && (forall i :: 0 <= i < t.sentBefore ==> b.sent[i].seqNo in t.buffered)
  }

  ghost predicate Inv(b: Bus) {
    RecordInv(b) && FlightInv(b) && (b.snapshot.Some? ==> TakenInv(b, b.snapshot.value))
  }

  // ---- Every step keeps the books

  lemma AuthenticGrows(events: seq<Event>, issued: seq<Event>, e: Event)
    requires Authentic(events, issued)
    ensures Authentic(events, issued + [e])
  {
  }

  lemma AllocateKeeps(b: Bus, draft: Event)
    requires Inv(b)
    ensures Inv(Next(b, Allocate(draft)))
  {
    var c := Next(b, Allocate(draft));
    var e := draft.(seqNo := b.nextSeq);
    AuthenticGrows(b.buffer, b.issued, e);
    AuthenticGrows(b.sent, b.issued, e);
    if b.snapshot.Some? {
      AuthenticGrows(b.snapshot.value.events, b.issued, e);
    }
    hide Authentic;
    assert Unbuffered(c.inFlight) == Unbuffered(b.inFlight) + {b.nextSeq};
  }

  ghost predicate Sound(events: seq<Event>, issued: seq<Event>, numbers: set<nat>) {
    DistinctSeqs(events) && Authentic(events, issued) && NumbersIn(events, numbers)
  }

  lemma TailIsSound(events: seq<Event>, issued: seq<Event>, numbers: set<nat>)
    requires Sound(events, issued, numbers) && events != []
    ensures Sound(events[1..], issued, numbers)
  {
  }

  lemma AppendIsSound(events: seq<Event>, e: Event, issued: seq<Event>, numbers: set<nat>)
    requires Sound(events, issued, numbers) && e.seqNo !in numbers
    requires 0 < e.seqNo <= |issued| && issued[e.seqNo - 1] == e
    ensures Sound(events + [e], issued, numbers + {e.seqNo})
  {
  }

  lemma RetainKeeps(buffer: seq<Event>, e: Event, issued: seq<Event>, numbers: set<nat>)
    requires Sound(buffer, issued, numbers) && e.seqNo !in numbers
    requires 0 < e.seqNo <= |issued| && issued[e.seqNo - 1] == e
    ensures Sound(Retained(buffer, e), issued, numbers + {e.seqNo})
  {
    hide Sound;
    if |buffer| >= BUFFER_CAP {
      TailIsSound(buffer, issued, numbers);
      AppendIsSound(buffer[1..], e, issued, numbers);
    } else {
      AppendIsSound(buffer, e, issued, numbers);
    }
  }

  lemma BufferKeeps(b: Bus, n: nat)
    requires Inv(b)
    ensures Inv(Next(b, Buffer(n)))
  {
    if n in b.inFlight && !b.inFlight[n].buffered {
      var c := Next(b, Buffer(n));
      var e := b.inFlight[n].event;
      assert n in Unbuffered(b.inFlight);
      RetainKeeps(b.buffer, e, b.issued, b.buffered);
      hide Retained, DistinctSeqs, Authentic;
      assert Unbuffered(c.inFlight) == Unbuffered(b.inFlight) - {n};
    }
  }

  lemma BufferedInFlight(b: Bus, n: nat)
    requires Inv(b) && n in b.inFlight && b.inFlight[n].buffered
    ensures n in b.buffered && b.inFlight[n].event.seqNo == n
  {
    assert n !in Unbuffered(b.inFlight);
  }

  lemma SendKeeps(b: Bus, n: nat)
    requires Inv(b)
    ensures Inv(Next(b, Send(n)))
  {
    hide Retained, Split;
    if n in b.inFlight && b.inFlight[n].buffered {
      var c := Next(b, Send(n));
      BufferedInFlight(b, n);
      assert n !in Unbuffered(b.inFlight) && n in b.buffered;
      assert Unbuffered(c.inFlight) == Unbuffered(b.inFlight);
      var e := b.inFlight[n].event;
      assert forall i :: 0 <= i < |c.sent| ==> c.sent[i] == if i < |b.sent| then b.sent[i] else e;
    }
  }

  lemma StepKeepsInv(b: Bus, a: Action)
    requires Inv(b)
    ensures Inv(Next(b, a))
  {
    match a
    case Allocate(draft) => AllocateKeeps(b, draft);
    case Buffer(n) => BufferKeeps(b, n);
    case Send(n) => SendKeeps(b, n);
    case Subscribe =>
    case Snapshot =>
      hide Retained, DistinctSeqs, Authentic;
  }

  lemma {:induction false} EveryRunKeepsInv(actions: seq<Action>)
    ensures Inv(Play(actions))
  {
    hide Next, Inv;
    if actions == [] {
      InitialInv();
    } else {
      EveryRunKeepsInv(actions[..|actions| - 1]);
      StepKeepsInv(Play(actions[..|actions| - 1]), actions[|actions| - 1]);
    }
  }

  lemma InitialInv()
    ensures Inv(InitialBus())
  {
  }

  /** Whatever the interleaving, no event is fed twice. */
  lemma NothingFedTwice(actions: seq<Action>)
    requires Play(actions).snapshot.Some?
    ensures Inv(Play(actions)) && DistinctSeqs(Fed(Play(actions)))
  {
    hide Play, FlightInv, Authentic, NumbersIn, Ascending, Split;
    EveryRunKeepsInv(actions);
    var b := Play(actions);
    AboveDistinct(b.sent[b.subscribed.value..], MaxSeq(b.snapshot.value.events));
    DistinctJoin(b.snapshot.value.events, Above(b.sent[b.subscribed.value..], MaxSeq(b.snapshot.value.events)));
  }

  lemma DistinctJoin(a: seq<Event>, b: seq<Event>)
    requires DistinctSeqs(a) && DistinctSeqs(b) && forall x, y :: x in a && y in b ==> x.seqNo != y.seqNo
    ensures DistinctSeqs(a + b)
  {
    forall i, j | 0 <= i < j < |a + b| ensures (a + b)[i].seqNo != (a + b)[j].seqNo {
      if i < |a| <= j {
        assert (a + b)[i] in a && (a + b)[j] in b;
      }
    }
  }

  lemma {:induction false} AboveDistinct(events: seq<Event>, low: nat)
    requires DistinctSeqs(events)
    ensures DistinctSeqs(Above(events, low))
  {
    if events != [] {
      AboveDistinct(events[1..], low);
      if events[0].seqNo > low {
        DistinctJoin([events[0]], Above(events[1..], low));
      }
    }
  }

  /** Buffered before the snapshot, which no longer held it. */
  ghost predicate Evicted(t: Taken, n: nat) {
    n in t.buffered && forall i :: 0 <= i < |t.events| ==> t.events[i].seqNo != n
  }

  /** Exactly which broadcast events are lost, in every run: those pushed out of the replay
      buffer before the snapshot that were sent before the subscription or lie below the
      snapshot's highest number; and those not yet buffered then that lie below it. */
  lemma LostExactly(b: Bus, k: nat)
    requires Inv(b) && b.snapshot.Some? && k < |b.sent|
    ensures
      var t, n, s := b.snapshot.value, b.sent[k].seqNo, b.subscribed.value;
      && (b.sent[k] !in Fed(b) <==>
          || (Evicted(t, n) && (k < s || n < MaxSeq(t.events)))
          || (n in t.unbuffered && n < MaxSeq(t.events)))
      && (s <= k ==> (b.sent[k] !in Fed(b) <==> n < MaxSeq(t.events) && (n in t.unbuffered || Evicted(t, n))))
  {
    var t, s, e := b.snapshot.value, b.subscribed.value, b.sent[k];
    HeldByNumber(b, k);
    SentSince(b.sent, s, k);
    hide Authentic, DistinctSeqs, Ascending;
    assert e.seqNo < b.nextSeq;
    if e.seqNo == MaxSeq(t.events) {
      var top :| top in t.events && top.seqNo == MaxSeq(t.events);
      var i :| 0 <= i < |t.events| && t.events[i] == top;
    }
    if e.seqNo >= t.nextSeq {
      NumbersBelow(t);
    }
  }

  lemma NumbersBelow(t: Taken)
    requires NumbersIn(t.events, t.buffered) && Split(t.nextSeq, t.buffered, t.unbuffered) && 0 < t.nextSeq
    ensures MaxSeq(t.events) < t.nextSeq
  {
    if MaxSeq(t.events) > 0 {
      var top :| top in t.events && top.seqNo == MaxSeq(t.events);
      var i :| 0 <= i < |t.events| && t.events[i] == top;
    }
  }

  lemma HeldByNumber(b: Bus, k: nat)
    requires Inv(b) && b.snapshot.Some? && k < |b.sent|
    ensures var t := b.snapshot.value;
      && 0 < b.sent[k].seqNo <= |b.issued|
      && (b.sent[k] in t.events <==> exists i :: 0 <= i < |t.events| && t.events[i].seqNo == b.sent[k].seqNo)
  {
    hide DistinctSeqs, FlightInv, Ascending, Split;
  }

  lemma SentSince(sent: seq<Event>, from: nat, k: nat)
    requires DistinctSeqs(sent) && from <= |sent| && k < |sent|
    ensures sent[k] in sent[from..] <==> from <= k
  {
    if from <= k {
      assert sent[from..][k - from] == sent[k];
    }
  }

  /** The same over runs. */
  lemma FedExactly(actions: seq<Action>, k: nat)
    requires Play(actions).snapshot.Some? && k < |Play(actions).sent|
    ensures Inv(Play(actions))
    ensures
      var b := Play(actions);
      var t, n, s := b.snapshot.value, b.sent[k].seqNo, b.subscribed.value;
      b.sent[k] in Fed(b) <==>
        && (Evicted(t, n) ==> s <= k && n >= MaxSeq(t.events))
        && (n in t.unbuffered ==> n >= MaxSeq(t.events))
  {
    hide Play, Next, Evicted;
    EveryRunKeepsInv(actions);
    LostExactly(Play(actions), k);
  }

  /** The state in which the second event is buffered and snapshotted while the first is
      still on its way to the buffer. */
  function Overtaken(e1: Event, e2: Event): Bus {
    Bus(3, [e1, e2], {2}, map[1 := Emission(e1, false), 2 := Emission(e2, true)], [e2], [], Some(0),
        Some(Taken([e2], 3, {2}, {1}, 0)))
  }

  lemma OvertakenIsReached(first: Event, second: Event)
    ensures
      var b2 := Next(Next(InitialBus(), Allocate(first)), Allocate(second));
      Next(Next(Next(b2, Buffer(2)), Subscribe), Snapshot) == Overtaken(first.(seqNo := 1), second.(seqNo := 2))
  {
    hide Retained, Unbuffered;
    var e1, e2 := first.(seqNo := 1), second.(seqNo := 2);
    RetainedFirst(e2);
    var waiting := map[1 := Emission(e1, false), 2 := Emission(e2, false)];
    var flight := map[1 := Emission(e1, false), 2 := Emission(e2, true)];
    var b2 := Next(Next(InitialBus(), Allocate(first)), Allocate(second));
    assert b2.inFlight == waiting && b2.issued == [e1, e2];
    assert waiting[2 := Emission(e2, true)] == flight;
    var b4 := Next(Next(b2, Buffer(2)), Subscribe);
    assert b4 == Bus(3, [e1, e2], {2}, flight, [e2], [], Some(0), None);
    OneUnbuffered(e1, e2);
  }

  lemma OneUnbuffered(e1: Event, e2: Event)
    ensures Unbuffered(map[1 := Emission(e1, false), 2 := Emission(e2, true)]) == {1}
  {
  }

  lemma OvertakenLoses(e1: Event, e2: Event)
    requires e1.seqNo == 1 && e2.seqNo == 2
    ensures
      var b := Next(Next(Next(Overtaken(e1, e2), Buffer(1)), Send(1)), Send(2));
      && b.sent == [e1, e2] && b.inFlight == map[]
      && b.subscribed == Some(0) && b.snapshot == Overtaken(e1, e2).snapshot
  {
    hide Retained;
    var b := Next(Overtaken(e1, e2), Buffer(1));
    assert b.inFlight == map[1 := Emission(e1, true), 2 := Emission(e2, true)];
  }

  /** The loss that the subscription order does not prevent: a number issued first but
      buffered after a snapshot that already holds the next number is never fed. */
  lemma LateBufferIsLost(first: Event, second: Event)
    ensures
      var actions := [Allocate(first), Allocate(second), Buffer(2), Subscribe, Snapshot, Buffer(1), Send(1), Send(2)];
      var b := Play(actions);
      && b.snapshot.Some? && b.subscribed == Some(0) && b.inFlight == map[]
      && b.sent == [first.(seqNo := 1), second.(seqNo := 2)]
      && Fed(b) == [second.(seqNo := 2)]
  {
    var e1, e2 := first.(seqNo := 1), second.(seqNo := 2);
    var a := [Allocate(first), Allocate(second), Buffer(2), Subscribe, Snapshot, Buffer(1), Send(1), Send(2)];
    hide Play, Next;
    PlayEight(a);
    OvertakenIsReached(first, second);
    OvertakenLoses(e1, e2);
    OnlySecondIsFed(e1, e2);
    assert [e1, e2][0..] == [e1, e2];
  }

  lemma PlayEight(a: seq<Action>)
    requires |a| == 8
    ensures Play(a) == Next(Next(Next(Next(Next(Next(Next(Next(InitialBus(), a[0]), a[1]), a[2]), a[3]), a[4]), a[5]),
                                 a[6]), a[7])
  {
    PlayStep(a, 0); PlayStep(a, 1); PlayStep(a, 2); PlayStep(a, 3);
    PlayStep(a, 4); PlayStep(a, 5); PlayStep(a, 6); PlayStep(a, 7);
    assert a[..8] == a && Play(a[..0]) == InitialBus();
    hide Play, Next;
  }

  lemma OnlySecondIsFed(e1: Event, e2: Event)
    requires e1.seqNo == 1 && e2.seqNo == 2
    ensures MaxSeq([e2]) == 2 && Above([e1, e2], 2) == []
  {
    assert e2 in [e2];
    assert Above([e2], 2) == [];
    assert [e1, e2][1..] == [e2];
  }

  lemma RetainedFirst(e: Event)
    ensures Retained([], e) == [e]
  {
  }

  lemma PlayStep(actions: seq<Action>, k: nat)
    requires k < |actions|
    ensures Play(actions[..k + 1]) == Next(Play(actions[..k]), actions[k])
  {
    hide Next;
    assert actions[..k + 1][..k] == actions[..k];
  }

  // ---- Emitters one at a time

  datatype SerialAction = EmitAll(draft: Event) | SubscribeNow | SnapshotNow

  function SerialNext(b: Bus, a: SerialAction): Bus {
    match a
    case EmitAll(draft) => Next(Next(Next(b, Allocate(draft)), Buffer(b.nextSeq)), Send(b.nextSeq))
    case SubscribeNow => Next(b, Subscribe)
    case SnapshotNow => Next(b, Snapshot)
  }

  function SerialPlay(actions: seq<SerialAction>): Bus {
    if actions == [] then InitialBus()
    else SerialNext(SerialPlay(actions[..|actions| - 1]), actions[|actions| - 1])
  }

  /** The last events sent, up to the buffer's capacity. */
  ghost predicate Latest(events: seq<Event>, sent: seq<Event>) {
    && |events| == (if |sent| < BUFFER_CAP then |sent| else BUFFER_CAP)
    && events == sent[|sent| - |events|..]
  }

  lemma RetainedIsLatest(buffer: seq<Event>, sent: seq<Event>, e: Event)
    requires Latest(buffer, sent)
    ensures Latest(Retained(buffer, e), sent + [e])
  {
    var r := Retained(buffer, e);
    assert r == (sent + [e])[|sent| + 1 - |r|..];
  }

  ghost predicate SerialInv(b: Bus) {
    && b.inFlight == map[] && b.nextSeq == |b.sent| + 1
    && Ascending(b.sent)
    && Latest(b.buffer, b.sent)
    && (b.subscribed.Some? ==> b.subscribed.value <= |b.sent|)
    && (b.snapshot.Some? ==>
          var t := b.snapshot.value;
          && b.subscribed.Some? && b.subscribed.value <= t.sentBefore <= |b.sent|
          && Latest(t.events, b.sent[..t.sentBefore]))
  }

  lemma SerialEmit(b: Bus, draft: Event)
    requires b.inFlight == map[]
    ensures
      var e := draft.(seqNo := b.nextSeq);
      SerialNext(b, EmitAll(draft))
      == b.(nextSeq := b.nextSeq + 1, issued := b.issued + [e], buffered := b.buffered + {b.nextSeq},
            buffer := Retained(b.buffer, e), sent := b.sent + [e])
  {
    hide Retained;
    assert map[b.nextSeq := Emission(draft.(seqNo := b.nextSeq), true)] - {b.nextSeq} == map[];
  }

  lemma AscendingAppend(sent: seq<Event>, e: Event)
    requires Ascending(sent) && e.seqNo == |sent| + 1
    ensures Ascending(sent + [e])
  {
  }

  lemma SerialEmitKeeps(b: Bus, draft: Event)
    requires SerialInv(b)
    ensures SerialInv(SerialNext(b, EmitAll(draft)))
  {
    hide SerialNext, Next, Retained, Latest, Ascending;
    SerialEmit(b, draft);
    var e := draft.(seqNo := b.nextSeq);
    var c := SerialNext(b, EmitAll(draft));
    assert c.sent == b.sent + [e];
    RetainedIsLatest(b.buffer, b.sent, e);
    AscendingAppend(b.sent, e);
    if b.snapshot.Some? {
      var n := b.snapshot.value.sentBefore;
      assert c.sent[..n] == b.sent[..n];
    }
  }

  lemma {:induction false} SerialRunKeeps(actions: seq<SerialAction>)
    ensures SerialInv(SerialPlay(actions))
  {
    if actions != [] {
      var last := actions[|actions| - 1];
      SerialRunKeeps(actions[..|actions| - 1]);
      var b := SerialPlay(actions[..|actions| - 1]);
      if last.EmitAll? {
        SerialEmitKeeps(b, last.draft);
      }
      assert b.sent[..|b.sent|] == b.sent;
    }
  }

  lemma {:induction false} AboveAscending(sent: seq<Event>, from: nat, low: nat)
    requires Ascending(sent) && from <= low <= |sent|
    ensures Above(sent[from..], low) == sent[low..]
    decreases |sent| - from
  {
    if from < |sent| {
      assert sent[from..][1..] == sent[from + 1..];
      if from < low {
        AboveAscending(sent, from + 1, low);
      } else {
        AboveAll(sent[from..], low);
      }
    }
  }

  lemma {:induction false} AboveAll(events: seq<Event>, low: nat)
    requires forall i :: 0 <= i < |events| ==> events[i].seqNo > low
    ensures Above(events, low) == events
  {
    if events != [] {
      AboveAll(events[1..], low);
    }
  }

  lemma SnapshotIsRange(b: Bus)
    requires SerialInv(b) && b.snapshot.Some?
    ensures
      var t := b.snapshot.value;
      && Ascending(b.sent) && b.subscribed.Some? && b.subscribed.value <= t.sentBefore <= |b.sent|
      && |t.events| <= t.sentBefore && (t.events == [] ==> t.sentBefore == 0)
      && t.events == b.sent[t.sentBefore - |t.events|..t.sentBefore]
  {
  }

  /** One emitter at a time: the feed is everything retained when the snapshot was taken
      and everything sent since, each once and in order. */
  lemma SerialFeedIsComplete(actions: seq<SerialAction>)
    requires SerialPlay(actions).snapshot.Some?
    ensures SerialInv(SerialPlay(actions))
    ensures var b := SerialPlay(actions);
      Fed(b) == b.sent[b.snapshot.value.sentBefore - |b.snapshot.value.events|..]
  {
    hide SerialPlay, SerialInv, Ascending, Above, MaxSeq;
    SerialRunKeeps(actions);
    SnapshotIsRange(SerialPlay(actions));
    var b := SerialPlay(actions);
    var t := b.snapshot.value;
    FeedOfRange(b.sent, t.sentBefore - |t.events|, t.sentBefore, b.subscribed.value);
  }

  lemma FeedOfRange(sent: seq<Event>, from: nat, to: nat, subscribed: nat)
    requires Ascending(sent) && from <= to <= |sent| && (from == to ==> to == 0) && subscribed <= to
    ensures sent[from..to] + Above(sent[subscribed..], MaxSeq(sent[from..to])) == sent[from..]
  {
    hide Ascending, Above, MaxSeq;
    MaxOfRange(sent, from, to);
    AboveAscending(sent, subscribed, to);
  }

  lemma MaxOfRange(sent: seq<Event>, from: nat, to: nat)
    requires Ascending(sent) && from <= to <= |sent| && (from == to ==> to == 0)
    ensures MaxSeq(sent[from..to]) == to
  {
    var events := sent[from..to];
    if from < to {
      assert events[|events| - 1] == sent[to - 1];
      assert events[|events| - 1] in events;
    }
  }
}
