/** Observer events and the length of their serialized form. */
module ObserverEvents {
  import opened Decimal
  import opened Jsons
  import opened Utf8
  import opened Wrappers

  datatype Event = Event(
    seqNo: nat,
    timestamp: Text,
    kind: Text,
    agentIndex: Option<nat>,
    channelId: Option<Text>,
    sessionId: Option<Text>,
    turnId: Option<Text>,
    startedAt: Option<Text>,
    payload: Json)

  function OptionalLen(t: Option<Text>): nat {
    if t.Some? then 2 + EscapedLen(t.value) else 4
  }

  /** Bytes of the serialized event around its payload: the braces, the nine field names
      and the fields before it; an absent start time is skipped. */
  function EnvelopeLen(e: Event): nat {
    7 + |Digits(e.seqNo)|
    + 13 + 2 + EscapedLen(e.timestamp)
    + 8 + 2 + EscapedLen(e.kind)
    + 14 + (if e.agentIndex.Some? then |Digits(e.agentIndex.value)| else 4)
    + 13 + OptionalLen(e.channelId)
    + 13 + OptionalLen(e.sessionId)
    + 10 + OptionalLen(e.turnId)
    + (if e.startedAt.Some? then 13 + 2 + EscapedLen(e.startedAt.value) else 0)
    + 11 + 1
  }

  lemma EnvelopeIgnoresPayload(e: Event, payload: Json)
    ensures EnvelopeLen(e.(payload := payload)) == EnvelopeLen(e)
  {
  }

  function SerializedLen(e: Event): nat {
    EnvelopeLen(e) + SerLen(e.payload)
  }

  // ---- The serialized event

  function Ascii(s: string): (t: Text)
    ensures |t| == |s|
  {
    seq(|s|, i requires 0 <= i < |s| => if s[i] < 128 as char then s[i] as int else 63)
  }

  const NULL: Text := Ascii("null")

  function PrintOptional(t: Option<Text>): Text {
    if t.Some? then Quoted(t.value) else NULL
  }

  /** The event as `serde_json::to_string` prints it: camel-case names in the order of the
      fields. */
  function Serialized(e: Event): Text
    requires WellFormed(e.payload)
  {
    Ascii("{\"seq\":") + Digits(e.seqNo)
    + Ascii(",\"timestamp\":") + Quoted(e.timestamp)
    + Ascii(",\"kind\":") + Quoted(e.kind)
    + Ascii(",\"agentIndex\":") + (if e.agentIndex.Some? then Digits(e.agentIndex.value) else NULL)
    + Ascii(",\"channelId\":") + PrintOptional(e.channelId)
    + Ascii(",\"sessionId\":") + PrintOptional(e.sessionId)
    + Ascii(",\"turnId\":") + PrintOptional(e.turnId)
    + (if e.startedAt.Some? then Ascii(",\"startedAt\":") + Quoted(e.startedAt.value) else [])
    + Ascii(",\"payload\":") + Print(e.payload) + Ascii("}")
  }

  lemma QuotedLength(s: Text)
    ensures |Quoted(s)| == 2 + EscapedLen(s)
  {
    EscapeLength(s);
  }

  lemma OptionalLength(t: Option<Text>)
    ensures |PrintOptional(t)| == OptionalLen(t)
  {
    if t.Some? {
      QuotedLength(t.value);
    }
  }

  /** The cap is measured in bytes of the serialized event. */
  lemma SerializedLength(e: Event)
    requires WellFormed(e.payload)
    ensures |Serialized(e)| == SerializedLen(e)
  {
    hide Ascii, Print, Quoted, PrintOptional, OptionalLen, SerLen, EscapedLen, Digits;
    PrintLength(e.payload);
    QuotedLength(e.timestamp);
    QuotedLength(e.kind);
    OptionalLength(e.channelId);
    OptionalLength(e.sessionId);
    OptionalLength(e.turnId);
    if e.startedAt.Some? {
      QuotedLength(e.startedAt.value);
    }
    assert |NULL| == 4;
  }
}
