/** Whole runs of the chunk coalescer: no text lost, repeated or reordered within a key. */
module CoalescerProperties {
  import opened Coalescer
  import opened Jsons
  import opened ObserverEvents
  import opened Utf8
  import opened Wrappers

  /** What the publisher feeds the coalescer: an event, or a flush (timer, lag or close). */
  datatype Input = Arrive(event: Event) | Flush

  datatype Run = Run(pending: seq<Pending>, batches: seq<seq<Event>>)

  function Advance(pending: seq<Pending>, input: Input): (r: Step)
    requires AllPending(pending)
    ensures AllPending(r.pending)
  {
    match input
    case Arrive(e) => Ingested(pending, e)
    case Flush => Step([], Flushed(pending))
  }

  function After(inputs: seq<Input>): (r: Run)
    ensures AllPending(r.pending)
  {
    if inputs == [] then Run([], [])
    else
      var before := After(inputs[..|inputs| - 1]);
      var step := Advance(before.pending, inputs[|inputs| - 1]);
      Run(step.pending, before.batches + [step.out])
  }

  function Arrived(input: Input): seq<Event> { if input.Arrive? then [input.event] else [] }

  function Events(inputs: seq<Input>): seq<Event> {
    if inputs == [] then [] else Events(inputs[..|inputs| - 1]) + Arrived(inputs[|inputs| - 1])
  }

  function Concat(batches: seq<seq<Event>>): seq<Event> {
    if batches == [] then [] else Concat(batches[..|batches| - 1]) + batches[|batches| - 1]
  }

  function Emitted(inputs: seq<Input>): seq<Event> { Concat(After(inputs).batches) }

  lemma EmittedGrows(inputs: seq<Input>)
    requires inputs != []
    ensures Emitted(inputs) == Emitted(inputs[..|inputs| - 1])
                               + Advance(After(inputs[..|inputs| - 1]).pending, inputs[|inputs| - 1]).out
  {
    hide Advance;
    var before := After(inputs[..|inputs| - 1]);
    assert After(inputs).batches[..|before.batches|] == before.batches;
  }

  // ---- Texts

  /** The text an event carries for a key. */
  function Part(key: ChunkKey, e: Event): Text {
    var c := ChunkOf(e);
    if c.Some? && c.value.key == key then c.value.text else []
  }

  function TextOf(key: ChunkKey, events: seq<Event>): Text {
    if events == [] then [] else Part(key, events[0]) + TextOf(key, events[1..])
  }

  function PendingText(key: ChunkKey, pending: seq<Pending>): Text {
    var k := IndexOf(pending, key);
    if k < |pending| then pending[k].text else []
  }

  lemma {:induction false} TextOfJoin(key: ChunkKey, a: seq<Event>, b: seq<Event>)
    ensures TextOf(key, a + b) == TextOf(key, a) + TextOf(key, b)
  {
    hide Part;
    if a == [] {
      assert a + b == b;
    } else {
      assert (a + b)[1..] == a[1..] + b;
      TextOfJoin(key, a[1..], b);
    }
  }

  lemma {:induction false} FlushedText(key: ChunkKey, pending: seq<Pending>)
    requires AllPending(pending)
    ensures TextOf(key, Flushed(pending)) == PendingText(key, pending)
  {
    hide ChunkOf, WithText;
    if pending != [] {
      var p := pending[0];
      assert IsPending(p);
      WithTextRead(p.event, p.text);
      assert Flushed(pending)[1..] == Flushed(pending[1..]);
      FlushedText(key, pending[1..]);
      if p.key == key {
        assert IndexOf(pending[1..], key) == |pending| - 1;
      }
    }
  }

  lemma IndexAfterAppend(key: ChunkKey, pending: seq<Pending>, p: Pending)
    ensures PendingText(key, pending + [p])
         == if IndexOf(pending, key) < |pending| then PendingText(key, pending) else if p.key == key then p.text else []
  {
    var k, j := IndexOf(pending, key), IndexOf(pending + [p], key);
    if k < |pending| {
      assert (pending + [p])[k].key == key;
      assert j == k;
    } else {
      assert j >= |pending| && (pending + [p])[|pending|] == p;
    }
  }

  lemma SingleText(key: ChunkKey, e: Event)
    ensures TextOf(key, [e]) == Part(key, e)
  {
    hide Part;
    assert [e][1..] == [];
    assert TextOf(key, [e]) == Part(key, e) + TextOf(key, []);
    EmptyText(key);
  }

  lemma StepConserves(key: ChunkKey, pending: seq<Pending>, e: Event)
    requires AllPending(pending)
    ensures TextOf(key, Ingested(pending, e).out) + PendingText(key, Ingested(pending, e).pending)
         == PendingText(key, pending) + Part(key, e)
  {
    hide ChunkOf, WithText, Flushed, TextOf, AllArePending;
    FlushedText(key, pending);
    var c := ChunkOf(e);
    if c.None? {
      TextOfJoin(key, Flushed(pending), [e]);
      SingleText(key, e);
    } else {
      var k := IndexOf(pending, c.value.key);
      assert TextOf(key, []) == [] by { EmptyText(key); }
      if k == |pending| {
        IndexAfterAppend(key, pending, Pending(c.value.key, e, c.value.text));
      } else if !Overflows(pending[k], c.value.text) {
        ExtendText(key, pending, k, e, c.value.text);
      }
    }
  }

  lemma EmptyText(key: ChunkKey)
    ensures TextOf(key, []) == []
  {
  }

  lemma ExtendText(key: ChunkKey, pending: seq<Pending>, k: nat, e: Event, text: Text)
    requires k < |pending| && Distinct(pending)
    ensures PendingText(key, pending[k := Extended(pending[k], e, text)])
         == PendingText(key, pending) + if key == pending[k].key then text else []
  {
    SameKeysSameIndex(key, pending, pending[k := Extended(pending[k], e, text)]);
    assert pending[k].text + [] == pending[k].text;
  }

  lemma {:induction false} SameKeysSameIndex(key: ChunkKey, a: seq<Pending>, b: seq<Pending>)
    requires |a| == |b| && forall i :: 0 <= i < |a| ==> a[i].key == b[i].key
    ensures IndexOf(a, key) == IndexOf(b, key)
  {
    if a != [] {
      SameKeysSameIndex(key, a[1..], b[1..]);
    }
  }

  /** Conservation: per key, the emitted texts and then the buffered one are the ingested
      texts, in order. */
  lemma {:induction false} TextIsConserved(inputs: seq<Input>, key: ChunkKey)
    ensures TextOf(key, Emitted(inputs)) + PendingText(key, After(inputs).pending) == TextOf(key, Events(inputs))
  {
    hide TextOf, ChunkOf, Ingested, Flushed, Part, Distinct, AllArePending;
    if inputs == [] {
      EmptyText(key);
    } else {
      var prefix, last := inputs[..|inputs| - 1], inputs[|inputs| - 1];
      TextIsConserved(prefix, key);
      EmittedGrows(inputs);
      var before := After(prefix).pending;
      var sent, out := TextOf(key, Emitted(prefix)), TextOf(key, Advance(before, last).out);
      var held, left := PendingText(key, before), PendingText(key, After(inputs).pending);
      TextOfJoin(key, Emitted(prefix), Advance(before, last).out);
      TextOfJoin(key, Events(prefix), Arrived(last));
      AdvanceConserves(key, before, last);
      assert (sent + out) + left == sent + (out + left);
      assert (sent + held) + TextOf(key, Arrived(last)) == sent + (held + TextOf(key, Arrived(last)));
    }
  }

  lemma AdvanceConserves(key: ChunkKey, pending: seq<Pending>, input: Input)
    requires AllPending(pending)
    ensures TextOf(key, Advance(pending, input).out) + PendingText(key, Advance(pending, input).pending)
         == PendingText(key, pending) + TextOf(key, Arrived(input))
  {
    hide TextOf, ChunkOf, Ingested, Flushed, Part, Distinct, AllArePending;
    EmptyText(key);
    match input
    case Arrive(e) =>
      StepConserves(key, pending, e);
      SingleText(key, e);
    case Flush =>
      FlushedText(key, pending);
      assert PendingText(key, []) == [];
  }

  // ---- Other events

  function NonChunks(events: seq<Event>): seq<Event> {
    if events == [] then []
    else (if ChunkOf(events[0]).None? then [events[0]] else []) + NonChunks(events[1..])
  }

  lemma NonChunksFront(e: Event, rest: seq<Event>)
    ensures NonChunks([e] + rest) == (if ChunkOf(e).None? then [e] else []) + NonChunks(rest)
  {
    hide ChunkOf;
    assert ([e] + rest)[1..] == rest;
  }

  lemma {:induction false} NonChunksJoin(a: seq<Event>, b: seq<Event>)
    ensures NonChunks(a + b) == NonChunks(a) + NonChunks(b)
  {
    hide NonChunks, ChunkOf;
    NoNonChunks();
    if a == [] {
      assert a + b == b;
    } else {
      NonChunksJoin(a[1..], b);
      NonChunksFront(a[0], a[1..]);
      NonChunksFront(a[0], a[1..] + b);
      assert [a[0]] + a[1..] == a;
      assert [a[0]] + (a[1..] + b) == a + b;
    }
  }

  lemma {:induction false} FlushedAreChunks(pending: seq<Pending>)
    requires AllPending(pending)
    ensures NonChunks(Flushed(pending)) == []
  {
    hide ChunkOf, WithText;
    if pending != [] {
      assert IsPending(pending[0]);
      WithTextRead(pending[0].event, pending[0].text);
      assert Flushed(pending)[1..] == Flushed(pending[1..]);
      FlushedAreChunks(pending[1..]);
    }
  }

  lemma NoNonChunks()
    ensures NonChunks([]) == []
  {
  }

  /** Events that are no chunks all pass, unchanged and in order. */
  lemma {:induction false} NonChunksPass(inputs: seq<Input>)
    ensures NonChunks(Emitted(inputs)) == NonChunks(Events(inputs))
  {
    hide Advance, NonChunks, AllPending;
    NoNonChunks();
    if inputs != [] {
      var prefix, last := inputs[..|inputs| - 1], inputs[|inputs| - 1];
      NonChunksPass(prefix);
      EmittedGrows(inputs);
      var before := After(prefix).pending;
      AdvanceNonChunks(before, last);
      NonChunksJoin(Emitted(prefix), Advance(before, last).out);
      NonChunksJoin(Events(prefix), Arrived(last));
    }
  }

  lemma AdvanceNonChunks(pending: seq<Pending>, input: Input)
    requires AllPending(pending)
    ensures NonChunks(Advance(pending, input).out) == NonChunks(Arrived(input))
  {
    hide ChunkOf, Flushed, WithText, Distinct, AllArePending;
    FlushedAreChunks(pending);
    if input.Arrive? {
      NonChunksJoin(Flushed(pending), [input.event]);
      assert NonChunks([input.event][1..]) == [];
    }
  }

  /** Such an event leaves after every chunk text that came before it. */
  lemma NonChunkComesLast(inputs: seq<Input>, e: Event, key: ChunkKey)
    requires ChunkOf(e).None?
    ensures var all := inputs + [Arrive(e)];
      && After(all).pending == []
      && Emitted(all) != [] && Emitted(all)[|Emitted(all)| - 1] == e
      && TextOf(key, Emitted(all)) == TextOf(key, Events(inputs))
  {
    hide ChunkOf, Flushed, TextOf, AllPending, Concat;
    var all := inputs + [Arrive(e)];
    assert all[..|all| - 1] == inputs;
    EmittedGrows(all);
    TextIsConserved(all, key);
    TextOfJoin(key, Events(inputs), [e]);
    SingleText(key, e);
    assert TextOf(key, Emitted(all)) + [] == TextOf(key, Emitted(all));
    assert TextOf(key, Events(inputs)) + [] == TextOf(key, Events(inputs));
  }

  // ---- Sizes

  /** A text under the limit, or a single ingested chunk. */
  ghost predicate Sized(c: Chunk, events: seq<Event>) {
    |c.text| < MAX_TEXT || exists e :: e in events && ChunkOf(e) == Some(c)
  }

  ghost predicate PendingSized(pending: seq<Pending>, events: seq<Event>) {
    forall i :: 0 <= i < |pending| ==> Sized(Chunk(pending[i].key, pending[i].text), events)
  }

  ghost predicate EmittedSized(out: seq<Event>, events: seq<Event>) {
    forall i :: 0 <= i < |out| && ChunkOf(out[i]).Some? ==> Sized(ChunkOf(out[i]).value, events)
  }

  lemma FlushedSized(pending: seq<Pending>, events: seq<Event>)
    requires AllPending(pending) && PendingSized(pending, events)
    ensures EmittedSized(Flushed(pending), events)
  {
    hide ChunkOf, WithText, Sized;
    forall i | 0 <= i < |pending|
      ensures ChunkOf(Flushed(pending)[i]).Some? && Sized(ChunkOf(Flushed(pending)[i]).value, events)
    {
      assert IsPending(pending[i]);
      WithTextRead(pending[i].event, pending[i].text);
    }
  }

  lemma SizedGrows(c: Chunk, events: seq<Event>, more: seq<Event>)
    requires Sized(c, events)
    ensures Sized(c, events + more)
  {
    hide ChunkOf;
    if |c.text| >= MAX_TEXT {
      var e :| e in events && ChunkOf(e) == Some(c);
      assert e in events + more;
    }
  }

  lemma StepSized(pending: seq<Pending>, events: seq<Event>, e: Event)
    requires AllPending(pending) && PendingSized(pending, events) && e in events
    ensures EmittedSized(Ingested(pending, e).out, events) && PendingSized(Ingested(pending, e).pending, events)
  {
    hide ChunkOf, WithText, Flushed, Distinct, AllArePending, Sized;
    FlushedSized(pending, events);
    if ChunkOf(e).Some? {
      assert Sized(ChunkOf(e).value, events) by { SizedSingle(e, events); }
      var c := ChunkOf(e).value;
      var k := IndexOf(pending, c.key);
      if k < |pending| && !Overflows(pending[k], c.text) {
        SizedShort(Chunk(c.key, pending[k].text + c.text), events);
      }
    }
  }

  lemma SizedSingle(e: Event, events: seq<Event>)
    requires e in events && ChunkOf(e).Some?
    ensures Sized(ChunkOf(e).value, events)
  {
  }

  lemma SizedShort(c: Chunk, events: seq<Event>)
    requires |c.text| < MAX_TEXT
    ensures Sized(c, events)
  {
  }

  /** Every emitted chunk is under the limit unless it is one chunk exactly as ingested. */
  lemma {:induction false} EmittedAreSized(inputs: seq<Input>)
    ensures EmittedSized(Emitted(inputs), Events(inputs)) && PendingSized(After(inputs).pending, Events(inputs))
  {
    hide ChunkOf, Flushed, Ingested, AllPending, Sized;
    if inputs != [] {
      var prefix, last := inputs[..|inputs| - 1], inputs[|inputs| - 1];
      EmittedAreSized(prefix);
      EmittedGrows(inputs);
      var before, old', new' := After(prefix).pending, Events(prefix), Events(inputs);
      forall c | Sized(c, old') ensures Sized(c, new') {
        SizedGrows(c, old', Arrived(last));
      }
      match last
      case Arrive(e) =>
        assert new'[|new'| - 1] == e;
        StepSized(before, new', e);
      case Flush =>
        FlushedSized(before, new');
    }
  }

  // ---- Order

  ghost predicate Increasing(events: seq<Event>) {
    forall i, j :: 0 <= i < j < |events| ==> events[i].seqNo < events[j].seqNo
  }

  /** Every event of one batch is older than every event of a later one. */
  ghost predicate Across(batches: seq<seq<Event>>) {
    forall i, j, a, b :: 0 <= i < j < |batches| && a in batches[i] && b in batches[j] ==> a.seqNo < b.seqNo
  }

  ghost predicate Within(low: int, events: seq<Event>, high: int) {
    forall a :: a in events ==> low < a.seqNo <= high
  }

  ghost predicate PendingWithin(low: int, pending: seq<Pending>, high: int) {
    forall k :: 0 <= k < |pending| ==> low < pending[k].event.seqNo <= high
  }

  ghost predicate InOrder(batches: seq<seq<Event>>, low: int) {
    Across(batches) && forall i :: 0 <= i < |batches| ==> Within(-1, batches[i], low)
  }

  lemma FlushedWithin(low: int, pending: seq<Pending>, high: int)
    requires AllPending(pending) && PendingWithin(low, pending, high)
    ensures Within(low, Flushed(pending), high)
  {
    hide ChunkOf, WithText;
    forall k | 0 <= k < |pending| ensures low < Flushed(pending)[k].seqNo <= high {
      assert IsPending(pending[k]);
      WithTextRead(pending[k].event, pending[k].text);
    }
  }

  /** One input: the mark `low`, at or above everything emitted and below everything
      buffered, moves up past whatever is emitted now. */
  lemma AdvanceInOrder(low: int, pending: seq<Pending>, newest: int, input: Input, latest: int) returns (mark: int)
    requires AllPending(pending) && PendingWithin(low, pending, newest) && low <= newest
    requires if input.Arrive? then newest < latest == input.event.seqNo else newest == latest
    ensures low <= mark <= latest
    ensures Within(low, Advance(pending, input).out, mark) && PendingWithin(mark, Advance(pending, input).pending, latest)
  {
    hide ChunkOf, WithText, Flushed, Distinct, AllArePending;
    FlushedWithin(low, pending, newest);
    match input
    case Flush => return newest;
    case Arrive(e) =>
      var c := ChunkOf(e);
      if c.None? {
        return latest;
      }
      var k := IndexOf(pending, c.value.key);
      if k < |pending| && Overflows(pending[k], c.value.text) {
        return newest;
      }
      return low;
  }

  lemma AppendInOrder(batches: seq<seq<Event>>, low: int, out: seq<Event>, mark: int)
    requires InOrder(batches, low) && Within(low, out, mark) && -1 <= low <= mark
    ensures InOrder(batches + [out], mark)
  {
    var after := batches + [out];
    forall i | 0 <= i < |after| ensures Within(-1, after[i], mark) {
      if i < |batches| {
        assert Within(-1, batches[i], low);
      }
    }
    forall i, j, a: Event, b: Event | 0 <= i < j < |after| && a in after[i] && b in after[j] ensures a.seqNo < b.seqNo {
      assert Within(-1, batches[i], low);
    }
  }

  function Newest(events: seq<Event>): int { if events == [] then -1 else events[|events| - 1].seqNo }

  lemma {:induction false} RunInOrder(inputs: seq<Input>) returns (low: int)
    requires Increasing(Events(inputs))
    ensures -1 <= low <= Newest(Events(inputs))
    ensures InOrder(After(inputs).batches, low) && PendingWithin(low, After(inputs).pending, Newest(Events(inputs)))
  {
    hide Advance, Within, AllPending;
    low := -1;
    if inputs != [] {
      var prefix, last := inputs[..|inputs| - 1], inputs[|inputs| - 1];
      var older := Events(prefix);
      assert older == Events(inputs)[..|older|];
      assert last.Arrive? ==> Events(inputs)[|older|] == last.event;
      low := RunInOrder(prefix);
      var before := After(prefix);
      var mark := AdvanceInOrder(low, before.pending, Newest(older), last, Newest(Events(inputs)));
      AppendInOrder(before.batches, low, Advance(before.pending, last).out, mark);
      low := mark;
    }
  }

  /** With increasing event numbers, everything one flush emits precedes everything
      emitted later. */
  lemma BatchesAreInOrder(inputs: seq<Input>)
    requires Increasing(Events(inputs))
    ensures Across(After(inputs).batches)
  {
    hide After, Events;
    var low := RunInOrder(inputs);
  }

  // ---- Stamps

  /** The last event of a key. */
  function LastOf(key: ChunkKey, events: seq<Event>): Option<Event> {
    if events == [] then None
    else
      var c := ChunkOf(events[|events| - 1]);
      if c.Some? && c.value.key == key then Some(events[|events| - 1]) else LastOf(key, events[..|events| - 1])
  }

  /** A merged chunk carries the number and timestamp of the last chunk merged into it. */
  ghost predicate Stamped(p: Pending, events: seq<Event>) {
    var last := LastOf(p.key, events);
    last.Some? && p.event.seqNo == last.value.seqNo && p.event.timestamp == last.value.timestamp
  }

  lemma IngestedStamps(pending: seq<Pending>, events: seq<Event>, e: Event, k: nat)
    requires AllPending(pending) && forall i :: 0 <= i < |pending| ==> Stamped(pending[i], events)
    requires k < |Ingested(pending, e).pending|
    ensures Stamped(Ingested(pending, e).pending[k], events + [e])
  {
    hide ChunkOf, WithText, Flushed, AllArePending;
    assert (events + [e])[..|events|] == events;
  }

  /** Always, for every buffered chunk. */
  lemma {:induction false} PendingAreStamped(inputs: seq<Input>, k: nat)
    requires k < |After(inputs).pending|
    ensures Stamped(After(inputs).pending[k], Events(inputs))
  {
    hide ChunkOf, Ingested, Flushed, AllPending, Stamped;
    if inputs != [] {
      var prefix, last := inputs[..|inputs| - 1], inputs[|inputs| - 1];
      var before := After(prefix).pending;
      forall i | 0 <= i < |before| ensures Stamped(before[i], Events(prefix)) {
        PendingAreStamped(prefix, i);
      }
      if last.Arrive? {
        IngestedStamps(before, Events(prefix), last.event, k);
      }
    }
  }
}
