/** The relay publisher: the bus's feed through the coalescer, the pacer and the trimmer. */
module Publisher {
  import opened Coalescer
  import opened CoalescerProperties
  import opened Jsons
  import opened ObserverEvents
  import opened Utf8
  import Bus = ObserverBus
  import Pacer
  import Trimmer
  import Trimming = TrimmerProperties

  /** What the loop's `select!` yields. */
  datatype Delivery = Received(event: Event) | Lagged | Tick | Closed

  function Arrivals(events: seq<Event>): (r: seq<Input>)
    ensures |r| == |events| && forall i :: 0 <= i < |r| ==> r[i] == Arrive(events[i])
  {
    seq(|events|, i requires 0 <= i < |events| => Arrive(events[i]))
  }

  /** What one delivery feeds the coalescer when the snapshot's highest number is `high`. */
  function FeedOf(d: Delivery, high: nat): seq<Input> {
    match d
    case Received(e) => if e.seqNo <= high then [] else [Arrive(e)]
    case Lagged => [CoalescerProperties.Flush]
    case Tick => [CoalescerProperties.Flush]
    case Closed => [CoalescerProperties.Flush]
  }

  /** Everything fed, up to and including the close. */
  function Feed(deliveries: seq<Delivery>, high: nat): seq<Input> {
    if deliveries == [] then []
    else if deliveries[0].Closed? then FeedOf(deliveries[0], high)
    else FeedOf(deliveries[0], high) + Feed(deliveries[1..], high)
  }

  function Inputs(snapshot: seq<Event>, deliveries: seq<Delivery>): seq<Input> {
    Arrivals(snapshot) + Feed(deliveries, Bus.MaxSeq(snapshot))
  }

  function FittedAll(events: seq<Event>): (r: seq<Event>)
    ensures |r| == |events| && forall i :: 0 <= i < |r| ==> r[i] == Trimmer.Fitted(events[i])
  {
    seq(|events|, i requires 0 <= i < |events| => Trimmer.Fitted(events[i]))
  }

  lemma FittedAllJoin(a: seq<Event>, b: seq<Event>)
    ensures FittedAll(a + b) == FittedAll(a) + FittedAll(b)
  {
    hide Trimmer.Fitted;
  }

  lemma FittedAllStep(events: seq<Event>, i: nat)
    requires i < |events|
    ensures FittedAll(events[..i + 1]) == FittedAll(events[..i]) + [Trimmer.Fitted(events[i])]
  {
    hide Trimmer.Fitted;
  }

  class RelayPublisher {
    const coalescer: ChunkCoalescer
    const pacer: Pacer.PublishPacer
    const clock: Pacer.Clock
    /** The trimmed frames, in the order they are handed on for encryption. */
    var frames: seq<Event>
    ghost var inputs: seq<Input>

    ghost predicate Ok() reads this, coalescer, pacer, clock {
      && coalescer.pending == After(inputs).pending
      && frames == FittedAll(Emitted(inputs))
      && pacer.Ok(clock.now) && |pacer.times| == |frames|
    }

    constructor (clock: Pacer.Clock)
      modifies clock
      ensures Ok() && fresh(coalescer) && fresh(pacer) && this.clock == clock && inputs == []
    {
      coalescer := new ChunkCoalescer();
      pacer := new Pacer.PublishPacer(clock);
      this.clock := clock;
      frames, inputs := [], [];
    }

    /** `publish_relay_observer_event`, for each event of a batch. */
    method PublishBatch(batch: seq<Event>)
      requires pacer.Ok(clock.now)
      modifies this`frames, pacer, clock
      ensures pacer.Ok(clock.now)
      ensures frames == old(frames) + FittedAll(batch)
      ensures |pacer.times| == |old(pacer.times)| + |batch|
    {
      hide Trimmer.Fitted, FittedAll;
      for i := 0 to |batch|
        invariant pacer.Ok(clock.now)
        invariant frames == old(frames) + FittedAll(batch[..i])
        invariant |pacer.times| == |old(pacer.times)| + i
      {
        FittedAllStep(batch, i);
        pacer.Wait(clock);
        var fitted := Trimmer.FitEventToBudget(batch[i]);
        frames := frames + [fitted];
      }
      assert batch[..|batch|] == batch;
    }

    /** One input through all three stages. */
    method Feed1(input: Input)
      requires Ok()
      modifies this, coalescer, pacer, clock
      ensures Ok() && inputs == old(inputs) + [input]
    {
      hide Advance, Emitted, FittedAll, Ingested, Flushed, AllPending;
      ghost var before := inputs;
      var out;
      assert Advance(coalescer.pending, input) == Advance(After(before).pending, input);
      if input.Arrive? {
        AdvanceIs(coalescer.pending, input);
        out := coalescer.Ingest(input.event);
      } else {
        AdvanceIs(coalescer.pending, input);
        out := coalescer.Flush();
      }
      inputs := inputs + [input];
      assert inputs[..|inputs| - 1] == before;
      EmittedGrows(inputs);
      FittedAllJoin(Emitted(before), out);
      PublishBatch(out);
    }

    /** `run_relay_observer_publisher`: ends at the close, or with the deliveries. */
    method Run(snapshot: seq<Event>, deliveries: seq<Delivery>)
      requires Ok() && inputs == []
      modifies this, coalescer, pacer, clock
      ensures Ok() && inputs == Inputs(snapshot, deliveries)
    {
      hide Ok, Arrivals, Feed, FeedOf, Bus.MaxSeq;
      var high := FeedSnapshot(snapshot);
      var k := 0;
      while k < |deliveries|
        invariant k <= |deliveries|
        invariant Ok() && inputs + Feed(deliveries[k..], high) == Inputs(snapshot, deliveries)
        decreases |deliveries| - k
      {
        FeedStep(deliveries, k, high);
        var ended := Deliver(deliveries[k], high);
        if ended {
          return;
        }
        k := k + 1;
      }
      assert Feed(deliveries[k..], high) == [] by { EmptyFeed(deliveries[k..], high); }
    }

    method FeedSnapshot(snapshot: seq<Event>) returns (high: nat)
      requires Ok() && inputs == []
      modifies this, coalescer, pacer, clock
      ensures Ok() && inputs == Arrivals(snapshot) && high == Bus.MaxSeq(snapshot)
    {
      hide Ok, Bus.MaxSeq;
      high := 0;
      assert snapshot[..0] == [];
      NoMax();
      for i := 0 to |snapshot|
        invariant Ok() && inputs == Arrivals(snapshot[..i])
        invariant high == Bus.MaxSeq(snapshot[..i])
      {
        MaxSeqGrows(snapshot, i);
        Feed1(Arrive(snapshot[i]));
        high := if snapshot[i].seqNo > high then snapshot[i].seqNo else high;
      }
      assert snapshot[..|snapshot|] == snapshot;
    }

    method Deliver(d: Delivery, high: nat) returns (ended: bool)
      requires Ok()
      modifies this, coalescer, pacer, clock
      ensures Ok() && inputs == old(inputs) + FeedOf(d, high) && ended == d.Closed?
      ensures !d.Received? ==> coalescer.pending == []
    {
      if d.Received? && d.event.seqNo <= high {
        return false;
      }
      Feed1(if d.Received? then Arrive(d.event) else CoalescerProperties.Flush);
      ended := d.Closed?;
      if !d.Received? {
        FlushedAtEnd(inputs);
      }
    }
  }

  lemma NoMax()
    ensures Bus.MaxSeq([]) == 0
  {
  }

  lemma EmptyFeed(deliveries: seq<Delivery>, high: nat)
    requires deliveries == []
    ensures Feed(deliveries, high) == []
  {
  }

  lemma FeedStep(deliveries: seq<Delivery>, k: nat, high: nat)
    requires k < |deliveries|
    ensures Feed(deliveries[k..], high)
         == FeedOf(deliveries[k], high) + if deliveries[k].Closed? then [] else Feed(deliveries[k + 1..], high)
  {
    hide FeedOf;
    assert deliveries[k..][1..] == deliveries[k + 1..];
  }

  lemma AdvanceIs(pending: seq<Pending>, input: Input)
    requires AllPending(pending)
    ensures input.Arrive? ==> Advance(pending, input) == Ingested(pending, input.event)
    ensures input.Flush? ==> Advance(pending, input) == Step([], Flushed(pending))
  {
  }

  lemma {:induction false} MaxSeqGrows(events: seq<Event>, k: nat)
    requires k < |events|
    ensures Bus.MaxSeq(events[..k + 1]) == if events[k].seqNo > Bus.MaxSeq(events[..k]) then events[k].seqNo
                                           else Bus.MaxSeq(events[..k])
  {
    var a, b := events[..k], events[..k + 1];
    assert events[k] in b by { assert b[k] == events[k]; }
    assert forall e :: e in a ==> e in b;
    assert forall e :: e in b ==> e in a || e == events[k];
  }

  // ---- End to end

  /** A published frame: the event itself when it is under the cap; otherwise the event with
      a fitting payload that keeps its tree and both ends of every text, or with the stub
      after a payload with nothing left to shrink still did not fit. */
  ghost predicate FrameOf(e: Event, frame: Event) {
    && frame == e.(payload := frame.payload)
    && (SerializedLen(e) <= Trimmer.MAX_PLAINTEXT ==> frame == e)
    && (|| (SerializedLen(frame) <= Trimmer.MAX_PLAINTEXT && Trimming.Kept(e.payload, frame.payload))
        || (&& frame.payload == Trimmer.Stub(e.kind, SerLen(e.payload))
            && exists last :: && Trimming.Kept(e.payload, last) && Trimming.Exhausted(last)
                              && EnvelopeLen(e) + SerLen(last) > Trimmer.MAX_PLAINTEXT))
  }

  lemma FittedIsFrame(e: Event)
    ensures FrameOf(e, Trimmer.Fitted(e))
  {
    hide Trimmer.Fitted, Trimmer.Stub, Trimming.Kept, Trimming.Exhausted, EnvelopeLen, SerLen;
    var last := Trimming.FittedResult(e);
  }

  ghost predicate AllFit(events: seq<Event>) {
    forall i :: 0 <= i < |events| ==> SerializedLen(events[i]) <= Trimmer.MAX_PLAINTEXT
  }

  /** Without lag, one emitter at a time, and once the bus has closed: the chunk text handed
      to the trimmer per key is exactly the text of the events retained at the snapshot and
      of all later ones, and all other events are handed on unchanged and in order.  Each
      published frame is the trimmer's for its event; so when every event handed on is under
      the cap, what is published has exactly those texts and other events too. */
  lemma PublisherLosesNothing(actions: seq<Bus.SerialAction>, deliveries: seq<Delivery>, key: ChunkKey)
    requires Bus.SerialPlay(actions).snapshot.Some? && Bus.SerialInv(Bus.SerialPlay(actions))
    requires var b := Bus.SerialPlay(actions);
      && LiveOf(deliveries) == b.sent[b.subscribed.value..]
      && deliveries != [] && deliveries[|deliveries| - 1].Closed?
      && forall i :: 0 <= i < |deliveries| - 1 ==> deliveries[i].Received? || deliveries[i].Tick?
    ensures
      var b := Bus.SerialPlay(actions);
      var t := b.snapshot.value;
      var emitted := Emitted(Inputs(t.events, deliveries));
      var expected := b.sent[t.sentBefore - |t.events|..];
      var frames := FittedAll(emitted);
      && TextOf(key, emitted) == TextOf(key, expected)
      && NonChunks(emitted) == NonChunks(expected)
      && |frames| == |emitted| && (forall i :: 0 <= i < |frames| ==> FrameOf(emitted[i], frames[i]))
      && (AllFit(emitted) ==> TextOf(key, frames) == TextOf(key, expected) && NonChunks(frames) == NonChunks(expected))
  {
    hide TextOf, NonChunks, Bus.SerialPlay, Bus.SerialInv, Bus.Ascending, Bus.Above, Bus.MaxSeq, Emitted, After, Events, Feed, LiveOf,
      Arrivals, FittedAll, FrameOf, AllFit;
    var b := Bus.SerialPlay(actions);
    var t := b.snapshot.value;
    var inputs := Inputs(t.events, deliveries);
    Bus.SerialFeedIsComplete(actions);
    Bus.SnapshotIsRange(b);
    ClosedFeed(deliveries, Bus.MaxSeq(t.events));
    EventsOfArrivals(t.events);
    EventsJoin(Arrivals(t.events), Feed(deliveries, Bus.MaxSeq(t.events)));
    assert Events(inputs) == Bus.Fed(b);
    TextIsConserved(inputs, key);
    NonChunksPass(inputs);
    FlushedAtEnd(inputs);
    assert TextOf(key, Emitted(inputs)) + [] == TextOf(key, Emitted(inputs));
    FramesOf(Emitted(inputs));
  }

  lemma FramesOf(events: seq<Event>)
    ensures forall i :: 0 <= i < |events| ==> FrameOf(events[i], FittedAll(events)[i])
    ensures AllFit(events) ==> FittedAll(events) == events
  {
    forall i | 0 <= i < |events| ensures FrameOf(events[i], FittedAll(events)[i]) {
      FittedIsFrame(events[i]);
    }
    hide Trimmer.Fitted, Trimmer.Stub, Trimming.Kept, Trimming.Exhausted, EnvelopeLen, SerLen;
  }

  function LiveOf(deliveries: seq<Delivery>): seq<Event> {
    if deliveries == [] then []
    else (if deliveries[0].Received? then [deliveries[0].event] else []) + LiveOf(deliveries[1..])
  }

  lemma {:induction false} EventsJoin(a: seq<Input>, b: seq<Input>)
    ensures Events(a + b) == Events(a) + Events(b)
  {
    if b == [] {
      assert a + b == a;
    } else {
      assert (a + b)[..|a + b| - 1] == a + b[..|b| - 1];
      EventsJoin(a, b[..|b| - 1]);
    }
  }

  lemma {:induction false} EventsOfArrivals(events: seq<Event>)
    ensures Events(Arrivals(events)) == events
  {
    if events != [] {
      var n := |events| - 1;
      assert Arrivals(events)[..n] == Arrivals(events[..n]);
      EventsOfArrivals(events[..n]);
    }
  }

  /** The feed of a closed run ends with a flush and carries exactly the live events above
      the snapshot. */
  lemma {:induction false} ClosedFeed(deliveries: seq<Delivery>, high: nat)
    requires deliveries != [] && deliveries[|deliveries| - 1].Closed?
    requires forall i :: 0 <= i < |deliveries| - 1 ==> deliveries[i].Received? || deliveries[i].Tick?
    ensures Events(Feed(deliveries, high)) == Bus.Above(LiveOf(deliveries), high)
    ensures var f := Feed(deliveries, high); f != [] && f[|f| - 1].Flush?
  {
    hide Events, FeedOf;
    var d, rest := deliveries[0], deliveries[1..];
    OneFeed(d, high);
    if |deliveries| > 1 {
      ClosedFeed(rest, high);
      EventsJoin(FeedOf(d, high), Feed(rest, high));
      AboveFront(d, LiveOf(rest), high);
    }
  }

  lemma AboveFront(d: Delivery, live: seq<Event>, high: nat)
    ensures Bus.Above((if d.Received? then [d.event] else []) + live, high)
         == (if d.Received? && d.event.seqNo > high then [d.event] else []) + Bus.Above(live, high)
  {
    if d.Received? {
      assert ([d.event] + live)[1..] == live;
    } else {
      assert [] + live == live;
    }
  }

  lemma OneFeed(d: Delivery, high: nat)
    ensures d.Closed? ==> FeedOf(d, high) == [CoalescerProperties.Flush]
    ensures Events(FeedOf(d, high)) == if d.Received? && d.event.seqNo > high then [d.event] else []
  {
    var f := FeedOf(d, high);
    if f != [] {
      assert f[..0] == [];
    }
  }

  lemma FlushedAtEnd(inputs: seq<Input>)
    requires inputs != [] && inputs[|inputs| - 1].Flush?
    ensures After(inputs).pending == []
  {
    hide Flushed, AllPending;
  }

  // ---- Flushes

  /** A tick, a lag and the close each leave no chunk waiting: after deliveries that end with
      one, or after a close, nothing is pending. */
  lemma {:induction false} NothingWaitsPastAFlush(snapshot: seq<Event>, deliveries: seq<Delivery>)
    requires deliveries != []
    requires !deliveries[|deliveries| - 1].Received? || exists i :: 0 <= i < |deliveries| && deliveries[i].Closed?
    ensures After(Inputs(snapshot, deliveries)).pending == []
  {
    hide After, Arrivals, Feed;
    var high := Bus.MaxSeq(snapshot);
    FeedEndsFlushed(deliveries, high);
    assert Inputs(snapshot, deliveries) == Arrivals(snapshot) + Feed(deliveries, high);
    FlushedAtEnd(Inputs(snapshot, deliveries));
  }

  lemma {:induction false} FeedEndsFlushed(deliveries: seq<Delivery>, high: nat)
    requires deliveries != []
    requires !deliveries[|deliveries| - 1].Received? || exists i :: 0 <= i < |deliveries| && deliveries[i].Closed?
    ensures var f := Feed(deliveries, high); f != [] && f[|f| - 1].Flush?
  {
    var rest := deliveries[1..];
    if !deliveries[0].Closed? && rest != [] {
      assert rest[|rest| - 1] == deliveries[|deliveries| - 1];
      if i :| 0 <= i < |deliveries| && deliveries[i].Closed? {
        assert rest[i - 1].Closed?;
      }
      FeedEndsFlushed(rest, high);
    }
  }
}
