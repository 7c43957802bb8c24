/** Which chunks belong together, read from the events themselves: the same update type and
    message id in the payload, and the same channel, session, turn and agent. */
module CoalescerKeys {
  import opened Coalescer
  import opened CoalescerProperties
  import opened Jsons
  import opened ObserverEvents
  import opened Utf8
  import opened Wrappers

  /** `params.update.sessionUpdate`, `params.update.messageId` and
      `params.update.content.text`, each if it is a string. */
  function UpdateType(e: Event): Option<Text> { AsText(Field(UpdateOf(e.payload), SESSION_UPDATE)) }

  function MessageId(e: Event): Option<Text> { AsText(Field(UpdateOf(e.payload), MESSAGE_ID)) }

  function ChunkText(e: Event): Option<Text> { AsText(Field(Field(UpdateOf(e.payload), CONTENT), TEXT)) }

  predicate IsChunk(e: Event) {
    && ChunkText(e).Some?
    && UpdateType(e) in {Some(AGENT_MESSAGE + CHUNK_SUFFIX), Some(USER_MESSAGE + CHUNK_SUFFIX), Some(AGENT_THOUGHT + CHUNK_SUFFIX)}
  }

  lemma ChunkTextSome(e: Event)
    ensures IsChunk(e) ==> ChunkText(e).Some?
  {
  }

  predicate SameMessage(a: Event, b: Event) {
    && UpdateType(a) == UpdateType(b) && MessageId(a) == MessageId(b)
    && a.channelId == b.channelId && a.sessionId == b.sessionId && a.turnId == b.turnId && a.agentIndex == b.agentIndex
  }

  /** An event is coalesced exactly when it is a chunk, with its text; and two chunks share a
      key exactly when they belong to the same message. */
  lemma KeysAreMessages(a: Event, b: Event)
    ensures ChunkOf(a).Some? <==> IsChunk(a)
    ensures IsChunk(a) ==> ChunkOf(a).value.text == ChunkText(a).value
    ensures IsChunk(a) && IsChunk(b) ==> (ChunkOf(a).value.key == ChunkOf(b).value.key <==> SameMessage(a, b))
  {
    hide Field;
  }

  /** The text of the chunks of `x`'s message, in order. */
  function MessageText(x: Event, events: seq<Event>): Text {
    if events == [] then []
    else (if IsChunk(events[0]) && SameMessage(events[0], x) then ChunkText(events[0]).value else [])
         + MessageText(x, events[1..])
  }

  lemma {:induction false} MessageTextIsKeyText(x: Event, events: seq<Event>)
    requires IsChunk(x)
    ensures ChunkOf(x).Some? && MessageText(x, events) == TextOf(ChunkOf(x).value.key, events)
  {
    hide IsChunk, SameMessage, ChunkOf;
    KeysAreMessages(x, x);
    if events != [] {
      MessageTextIsKeyText(x, events[1..]);
      KeysAreMessages(events[0], x);
      KeysAreMessages(x, events[0]);
    }
  }

  /** The text buffered for `x`'s message. */
  function Buffered(x: Event, pending: seq<Pending>): Text {
    if pending == [] then []
    else if SameMessage(pending[0].event, x) then pending[0].text
    else Buffered(x, pending[1..])
  }

  lemma {:induction false} BufferedIsPending(x: Event, pending: seq<Pending>)
    requires IsChunk(x) && AllPending(pending)
    ensures ChunkOf(x).Some? && Buffered(x, pending) == PendingText(ChunkOf(x).value.key, pending)
  {
    hide IsChunk, SameMessage, ChunkOf;
    KeysAreMessages(x, x);
    if pending != [] {
      assert IsPending(pending[0]);
      KeysAreMessages(pending[0].event, x);
      KeysAreMessages(x, pending[0].event);
      BufferedIsPending(x, pending[1..]);
    }
  }

  /** Conservation, message by message: over every run, the text emitted for a message, in
      order, and then what is buffered for it are what was ingested for it. */
  lemma MessageTextIsConserved(inputs: seq<Input>, x: Event)
    requires IsChunk(x)
    ensures MessageText(x, Emitted(inputs)) + Buffered(x, After(inputs).pending) == MessageText(x, Events(inputs))
  {
    hide IsChunk, MessageText, TextOf, ChunkOf, AllPending;
    MessageTextIsKeyText(x, Emitted(inputs));
    MessageTextIsKeyText(x, Events(inputs));
    BufferedIsPending(x, After(inputs).pending);
    TextIsConserved(inputs, ChunkOf(x).value.key);
  }

  // ---- When chunks leave together

  /** `pending[k]` buffers the message of `e`. */
  predicate Holds(pending: seq<Pending>, k: nat, e: Event) {
    k < |pending| && SameMessage(pending[k].event, e)
  }

  lemma HoldsIsKey(pending: seq<Pending>, k: nat, e: Event)
    requires AllPending(pending) && k < |pending| && IsChunk(e)
    ensures ChunkOf(e).Some? && (Holds(pending, k, e) <==> pending[k].key == ChunkOf(e).value.key)
  {
    hide IsChunk, SameMessage, ChunkOf;
    assert IsPending(pending[k]);
    KeysAreMessages(pending[k].event, e);
    KeysAreMessages(e, pending[k].event);
  }

  /** A chunk of a buffered message joins it while both stay under the limit, and nothing is
      emitted; at the limit everything buffered leaves and it starts afresh. A chunk of no
      buffered message is buffered beside the others. */
  lemma ChunksJoinTheirMessage(pending: seq<Pending>, e: Event)
    requires AllPending(pending) && IsChunk(e)
    ensures ChunkOf(e).Some?
    ensures
      var r, text := Ingested(pending, e), ChunkText(e).value;
      && (forall k: nat :: Holds(pending, k, e) ==>
            if |pending[k].text| + |text| < MAX_TEXT then
              r.out == [] && r.pending == pending[k := Extended(pending[k], e, text)]
            else |r.out| == |pending| && |r.pending| == 1 && r.pending[0].text == text && r.pending[0].event == e)
      && ((forall k: nat :: !Holds(pending, k, e)) ==>
            r.out == [] && |r.pending| == |pending| + 1 && r.pending[..|pending|] == pending
            && r.pending[|pending|].text == text && r.pending[|pending|].event == e)
  {
    hide IsChunk, Holds, ChunkOf, Flushed, AllArePending;
    KeysAreMessages(e, e);
    ChunkTextSome(e);
    var key := ChunkOf(e).value.key;
    var i := IndexOf(pending, key);
    forall k: nat ensures Holds(pending, k, e) <==> k == i < |pending| {
      if k < |pending| {
        HoldsIsKey(pending, k, e);
      } else if Holds(pending, k, e) {
        InRange(pending, k, e);
      }
    }
    assert i < |pending| ==> Holds(pending, i, e);
    assert Ingested(pending, e) ==
      if i == |pending| then Step(pending + [Pending(key, e, ChunkText(e).value)], [])
      else if |pending[i].text| + |ChunkText(e).value| >= MAX_TEXT then Step([Pending(key, e, ChunkText(e).value)], Flushed(pending))
      else Step(pending[i := Extended(pending[i], e, ChunkText(e).value)], []);
  }

  lemma InRange(pending: seq<Pending>, k: nat, e: Event)
    requires Holds(pending, k, e)
    ensures k < |pending|
  {
  }

  lemma FlushedKeepsMessage(pending: seq<Pending>, i: nat)
    requires AllPending(pending) && i < |pending|
    ensures ChunkText(Flushed(pending)[i]) == Some(pending[i].text) && SameMessage(Flushed(pending)[i], pending[i].event)
  {
    assert IsPending(pending[i]);
    hide IsPending, AllPending, WithText, ChunkOf;
    var p := pending[i];
    WithTextRead(p.event, p.text);
    KeysAreMessages(WithText(p.event, p.text), p.event);
    KeysAreMessages(p.event, p.event);
    ChunkTextSome(WithText(p.event, p.text));
  }

  /** What is buffered after two chunks. */
  lemma TwoArrivals(a: Event, b: Event) returns (pending: seq<Pending>)
    requires IsChunk(a) && IsChunk(b)
    ensures AllPending(pending) && After([Arrive(a), Arrive(b)]).pending == pending
    ensures ChunkText(a).Some? && ChunkText(b).Some? && 1 <= |pending| <= 2 && SameMessage(pending[0].event, a)
    ensures var ta, tb := ChunkText(a).value, ChunkText(b).value;
      && (!SameMessage(a, b) || |ta| + |tb| < MAX_TEXT ==> Emitted([Arrive(a), Arrive(b)]) == [])
      && (SameMessage(a, b) && |ta| + |tb| < MAX_TEXT ==> |pending| == 1 && pending[0].text == ta + tb)
      && (!SameMessage(a, b) ==>
            |pending| == 2 && pending[0].text == ta && pending[1].text == tb && SameMessage(pending[1].event, b))
  {
    hide IsChunk, ChunkOf, After, Emitted, Advance, Ingested, ChunkText;
    KeysAreMessages(a, a);
    ChunkTextSome(a);
    ChunkTextSome(b);
    NothingYet();
    OneMore([], Arrive(a));
    AdvanceArrives([], a);
    AdvanceArrives(After([Arrive(a)]).pending, b);
    OneMore([Arrive(a)], Arrive(b));
    assert [] + [Arrive(a)] == [Arrive(a)] && [Arrive(a)] + [Arrive(b)] == [Arrive(a), Arrive(b)];
    ChunksJoinTheirMessage([], a);
    var p := After([Arrive(a)]).pending;
    assert forall k: nat :: !Holds([], k, a);
    assert |p| == 1 && p[0].event == a && p[0].text == ChunkText(a).value;
    ChunksJoinTheirMessage(p, b);
    assert forall k: nat :: Holds(p, k, b) <==> k == 0 && SameMessage(a, b);
    pending := After([Arrive(a), Arrive(b)]).pending;
    if SameMessage(a, b) {
      assert Holds(p, 0, b);
    } else {
      assert pending[..1][0] == pending[0] == p[0];
    }
  }

  lemma NothingYet()
    ensures After([]).pending == [] && Emitted([]) == []
  {
  }

  lemma OneMore(inputs: seq<Input>, last: Input)
    ensures var r := Advance(After(inputs).pending, last);
      After(inputs + [last]).pending == r.pending && Emitted(inputs + [last]) == Emitted(inputs) + r.out
  {
    assert (inputs + [last])[..|inputs|] == inputs;
    EmittedGrows(inputs + [last]);
    hide Advance, Emitted;
  }

  lemma AdvanceArrives(pending: seq<Pending>, e: Event)
    requires AllPending(pending)
    ensures Advance(pending, Arrive(e)) == Ingested(pending, e)
    ensures Advance(pending, CoalescerProperties.Flush) == Step([], Flushed(pending))
  {
  }

  /** Two chunks of one message under the limit leave as one event with both texts; two of
      different messages leave as two. */
  lemma TwoChunks(a: Event, b: Event)
    requires IsChunk(a) && IsChunk(b)
    ensures ChunkText(a).Some? && ChunkText(b).Some?
    ensures
      var out, ta, tb := Emitted([Arrive(a), Arrive(b), CoalescerProperties.Flush]), ChunkText(a).value, ChunkText(b).value;
      && (SameMessage(a, b) && |ta| + |tb| < MAX_TEXT ==> |out| == 1 && ChunkText(out[0]) == Some(ta + tb) && SameMessage(out[0], a))
      && (!SameMessage(a, b) ==>
            |out| == 2 && ChunkText(out[0]) == Some(ta) && ChunkText(out[1]) == Some(tb)
            && SameMessage(out[0], a) && SameMessage(out[1], b))
  {
    hide IsChunk, After, Emitted, Advance, ChunkText, SameMessage, AllArePending, Distinct, Flushed, WithText, IsPending;
    var p := TwoArrivals(a, b);
    OneMore([Arrive(a), Arrive(b)], CoalescerProperties.Flush);
    AdvanceArrives(p, a);
    assert [Arrive(a), Arrive(b)] + [CoalescerProperties.Flush] == [Arrive(a), Arrive(b), CoalescerProperties.Flush];
    forall i | 0 <= i < |p|
      ensures ChunkText(Flushed(p)[i]) == Some(p[i].text) && SameMessage(Flushed(p)[i], p[i].event)
    {
      FlushedKeepsMessage(p, i);
    }
    SameAgain(Flushed(p)[0], p[0].event, a);
    if |p| == 2 {
      SameAgain(Flushed(p)[1], p[1].event, b);
    }
  }

  lemma SameAgain(x: Event, y: Event, z: Event)
    ensures SameMessage(x, y) && SameMessage(y, z) ==> SameMessage(x, z)
  {
  }

  // ---- What stays as it was

  /** Writing a text changes nothing else: every other field at every level of the payload, and
      every other field of the event, reads as before. */
  lemma WithTextTouchesOnlyText(e: Event, text: Text, key: Text)
    requires ChunkOf(e).Some?
    ensures WithText(e, text) == e.(payload := WithText(e, text).payload)
    ensures
      var p, q := Some(e.payload), Some(WithText(e, text).payload);
      && (key != PARAMS ==> Field(q, key) == Field(p, key))
      && (key != UPDATE ==> Field(Field(q, PARAMS), key) == Field(Field(p, PARAMS), key))
      && (key != CONTENT ==>
            Field(Field(Field(q, PARAMS), UPDATE), key) == Field(Field(Field(p, PARAMS), UPDATE), key))
      && (key != TEXT ==>
            Field(Field(Field(Field(q, PARAMS), UPDATE), CONTENT), key)
            == Field(Field(Field(Field(p, PARAMS), UPDATE), CONTENT), key))
  {
    ChunkPath(e);
    hide Field, SetField, IsChunkType;
    var params := Field(Some(e.payload), PARAMS).value;
    var update := Field(Some(params), UPDATE).value;
    var content := Field(Some(update), CONTENT).value;
    var content' := SetField(content, TEXT, Str(text));
    var update' := SetField(update, CONTENT, content');
    var params' := SetField(params, UPDATE, update');
    SetFieldRead(e.payload, PARAMS, params', key);
    SetFieldRead(e.payload, PARAMS, params', PARAMS);
    SetFieldRead(params, UPDATE, update', key);
    SetFieldRead(params, UPDATE, update', UPDATE);
    SetFieldRead(update, CONTENT, content', key);
    SetFieldRead(update, CONTENT, content', CONTENT);
    SetFieldRead(content, TEXT, Str(text), key);
  }
}
