/** Merging streamed text chunks of one message before they are published. */
module Coalescer {
  import opened Jsons
  import opened ObserverEvents
  import opened Utf8
  import opened Wrappers

  const MAX_TEXT: nat := 60_000

  const PARAMS: Text := [0x70, 0x61, 0x72, 0x61, 0x6D, 0x73]
  const UPDATE: Text := [0x75, 0x70, 0x64, 0x61, 0x74, 0x65]
  const SESSION_UPDATE: Text := [0x73, 0x65, 0x73, 0x73, 0x69, 0x6F, 0x6E, 0x55, 0x70, 0x64, 0x61, 0x74, 0x65]
  const CONTENT: Text := [0x63, 0x6F, 0x6E, 0x74, 0x65, 0x6E, 0x74]
  const TEXT: Text := [0x74, 0x65, 0x78, 0x74]
  const MESSAGE_ID: Text := [0x6D, 0x65, 0x73, 0x73, 0x61, 0x67, 0x65, 0x49, 0x64]
  const CHUNK_SUFFIX: Text := [0x5F, 0x63, 0x68, 0x75, 0x6E, 0x6B]
  const AGENT_MESSAGE: Text := [0x61, 0x67, 0x65, 0x6E, 0x74, 0x5F, 0x6D, 0x65, 0x73, 0x73, 0x61, 0x67, 0x65]
  const USER_MESSAGE: Text := [0x75, 0x73, 0x65, 0x72, 0x5F, 0x6D, 0x65, 0x73, 0x73, 0x61, 0x67, 0x65]
  const AGENT_THOUGHT: Text := [0x61, 0x67, 0x65, 0x6E, 0x74, 0x5F, 0x74, 0x68, 0x6F, 0x75, 0x67, 0x68, 0x74]

  // ---- Reading and writing a chunk's text

  function Lookup(keys: seq<Text>, items: seq<Json>, key: Text): Option<Json> {
    if keys == [] || items == [] then None
    else if keys[0] == key then Some(items[0])
    else Lookup(keys[1..], items[1..], key)
  }

  /** `Value::get` with a string key. */
  function Field(v: Option<Json>, key: Text): Option<Json> {
    if v.Some? && v.value.Node? && v.value.keys.Some?
    then Lookup(v.value.keys.value, v.value.items, key)
    else None
  }

  function Replace(keys: seq<Text>, items: seq<Json>, key: Text, w: Json): seq<Json> {
    if keys == [] || items == [] then items
    else if keys[0] == key then [w] + items[1..]
    else [items[0]] + Replace(keys[1..], items[1..], key, w)
  }

  /** The object with an existing field replaced. */
  function SetField(v: Json, key: Text, w: Json): Json
    requires Field(Some(v), key).Some?
  {
    Node(v.keys, Replace(v.keys.value, v.items, key, w))
  }

  lemma {:induction false} ReplaceLookup(keys: seq<Text>, items: seq<Json>, key: Text, w: Json, other: Text)
    requires Lookup(keys, items, key).Some?
    ensures Lookup(keys, Replace(keys, items, key, w), other)
         == if other == key then Some(w) else Lookup(keys, items, other)
  {
    if keys[0] != key {
      ReplaceLookup(keys[1..], items[1..], key, w, other);
      assert Replace(keys, items, key, w)[1..] == Replace(keys[1..], items[1..], key, w);
    }
  }

  /** Setting a field is seen by reading that field and by no other. */
  lemma SetFieldRead(v: Json, key: Text, w: Json, other: Text)
    requires Field(Some(v), key).Some?
    ensures Field(Some(SetField(v, key, w)), other) == if other == key then Some(w) else Field(Some(v), other)
  {
    ReplaceLookup(v.keys.value, v.items, key, w, other);
  }

  datatype ChunkKey = ChunkKey(
    updateType: Text,
    messageId: Option<Text>,
    channelId: Option<Text>,
    sessionId: Option<Text>,
    turnId: Option<Text>,
    agentIndex: Option<nat>)

  datatype Chunk = Chunk(key: ChunkKey, text: Text)

  function AsText(v: Option<Json>): Option<Text> {
    if v.Some? && v.value.Str? then Some(v.value.text) else None
  }

  predicate IsChunkType(t: Text) {
    t == AGENT_MESSAGE + CHUNK_SUFFIX || t == USER_MESSAGE + CHUNK_SUFFIX || t == AGENT_THOUGHT + CHUNK_SUFFIX
  }

  function UpdateOf(payload: Json): Option<Json> { Field(Field(Some(payload), PARAMS), UPDATE) }

  /** `observer_chunk_key_and_text`. */
  function ChunkOf(e: Event): Option<Chunk> {
    var update := UpdateOf(e.payload);
    var updateType := AsText(Field(update, SESSION_UPDATE));
    var text := AsText(Field(Field(update, CONTENT), TEXT));
    if updateType.None? || !IsChunkType(updateType.value) || text.None? then None
    else Some(Chunk(ChunkKey(updateType.value, AsText(Field(update, MESSAGE_ID)), e.channelId, e.sessionId, e.turnId,
                             e.agentIndex), text.value))
  }

  /** `set_observer_chunk_text`, on the payload of a chunk. */
  function WithText(e: Event, text: Text): Event
    requires ChunkOf(e).Some?
  {
    var params := Field(Some(e.payload), PARAMS).value;
    var update := Field(Some(params), UPDATE).value;
    var content := Field(Some(update), CONTENT).value;
    var content' := SetField(content, TEXT, Str(text));
    var update' := SetField(update, CONTENT, content');
    var params' := SetField(params, UPDATE, update');
    e.(payload := SetField(e.payload, PARAMS, params'))
  }

  lemma ChunkPath(e: Event)
    requires ChunkOf(e).Some?
    ensures Field(Some(e.payload), PARAMS).Some? && UpdateOf(e.payload).Some?
    ensures Field(UpdateOf(e.payload), CONTENT).Some?
    ensures Field(Field(UpdateOf(e.payload), CONTENT), TEXT).Some?
  {
  }

  /** The written text is read back under the same key. */
  lemma WithTextRead(e: Event, text: Text)
    requires ChunkOf(e).Some?
    ensures ChunkOf(WithText(e, text)) == Some(Chunk(ChunkOf(e).value.key, text))
    ensures WithText(e, text).seqNo == e.seqNo
  {
    hide Field, SetField, IsChunkType;
    ChunkPath(e);
    var params := Field(Some(e.payload), PARAMS).value;
    var update := Field(Some(params), UPDATE).value;
    var content := Field(Some(update), CONTENT).value;
    var content' := SetField(content, TEXT, Str(text));
    var update' := SetField(update, CONTENT, content');
    var params' := SetField(params, UPDATE, update');
    SetFieldRead(e.payload, PARAMS, params', PARAMS);
    SetFieldRead(params, UPDATE, update', UPDATE);
    SetFieldRead(update, CONTENT, content', CONTENT);
    SetFieldRead(update, CONTENT, content', SESSION_UPDATE);
    SetFieldRead(update, CONTENT, content', MESSAGE_ID);
    SetFieldRead(content, TEXT, Str(text), TEXT);
    assert |CONTENT| != |SESSION_UPDATE| && |CONTENT| != |MESSAGE_ID|;
  }

  /** Moving a chunk's event number and timestamp forward keeps it a chunk of its key. */
  lemma RestampedIsChunk(e: Event, seqNo: nat, timestamp: Text)
    ensures ChunkOf(e.(seqNo := seqNo, timestamp := timestamp)) == ChunkOf(e)
  {
  }

  // ---- The buffer

  datatype Pending = Pending(key: ChunkKey, event: Event, text: Text)

  predicate IsPending(p: Pending) { ChunkOf(p.event).Some? && ChunkOf(p.event).value.key == p.key }

  predicate Distinct(pending: seq<Pending>) {
    forall i, j :: 0 <= i < j < |pending| ==> pending[i].key != pending[j].key
  }

  ghost predicate AllPending(pending: seq<Pending>) {
    Distinct(pending) && AllArePending(pending)
  }

  function IndexOf(pending: seq<Pending>, key: ChunkKey): (k: nat)
    ensures k <= |pending|
    ensures k < |pending| ==> pending[k].key == key
    ensures forall i :: 0 <= i < k ==> pending[i].key != key
  {
    if pending == [] || pending[0].key == key then 0 else 1 + IndexOf(pending[1..], key)
  }

  ghost predicate AllArePending(pending: seq<Pending>) {
    forall i :: 0 <= i < |pending| ==> IsPending(pending[i])
  }

  function Flushed(pending: seq<Pending>): (out: seq<Event>)
    requires AllArePending(pending)
    ensures |out| == |pending|
    ensures forall i :: 0 <= i < |out| ==> out[i] == WithText(pending[i].event, pending[i].text)
  {
    seq(|pending|, i requires 0 <= i < |pending| && IsPending(pending[i]) => WithText(pending[i].event, pending[i].text))
  }

  datatype Step = Step(pending: seq<Pending>, out: seq<Event>)

  predicate Overflows(p: Pending, text: Text) { |p.text| + |text| >= MAX_TEXT }

  function Extended(p: Pending, e: Event, text: Text): Pending {
    p.(text := p.text + text, event := p.event.(seqNo := e.seqNo, timestamp := e.timestamp))
  }

  function Ingested(pending: seq<Pending>, e: Event): (r: Step)
    requires AllPending(pending)
    ensures AllPending(r.pending)
  {
    match ChunkOf(e)
    case None => Step([], Flushed(pending) + [e])
    case Some(c) =>
      var k := IndexOf(pending, c.key);
      if k == |pending| then Step(pending + [Pending(c.key, e, c.text)], [])
      else if Overflows(pending[k], c.text) then Step([Pending(c.key, e, c.text)], Flushed(pending))
      else
        RestampedIsChunk(pending[k].event, e.seqNo, e.timestamp);
        Step(pending[k := Extended(pending[k], e, c.text)], [])
  }

  class ChunkCoalescer {
    var pending: seq<Pending>

    ghost predicate Ok() reads this { AllPending(pending) }

    constructor ()
      ensures Ok() && pending == []
    {
      pending := [];
    }

    method Flush() returns (out: seq<Event>)
      requires Ok()
      modifies this
      ensures Ok() && pending == [] && out == Flushed(old(pending))
    {
      out := [];
      var drained := pending;
      pending := [];
      for i := 0 to |drained|
        invariant |out| == i
        invariant forall j :: 0 <= j < i ==> out[j] == WithText(drained[j].event, drained[j].text)
        invariant pending == []
      {
        out := out + [WithText(drained[i].event, drained[i].text)];
      }
    }

    method Ingest(e: Event) returns (out: seq<Event>)
      requires Ok()
      modifies this
      ensures Ok() && Step(pending, out) == Ingested(old(pending), e)
    {
      hide ChunkOf, WithText, Flushed;
      var chunk := ChunkOf(e);
      if chunk.None? {
        out := Flush();
        out := out + [e];
        return;
      }
      var Chunk(key, text) := chunk.value;
      var k := 0;
      while k < |pending| && pending[k].key != key
        invariant k <= |pending| && forall i :: 0 <= i < k ==> pending[i].key != key
      {
        k := k + 1;
      }
      assert k == IndexOf(pending, key);
      if k < |pending| {
        if |pending[k].text| + |text| >= MAX_TEXT {
          out := Flush();
          pending := pending + [Pending(key, e, text)];
          return;
        }
        RestampedIsChunk(pending[k].event, e.seqNo, e.timestamp);
        pending := pending[k := Extended(pending[k], e, text)];
        return [];
      }
      pending := pending + [Pending(key, e, text)];
      out := [];
    }
  }
}
