/** A chunk under the coalescer's limit can still be over the plaintext cap, because the
    limit counts raw bytes and the cap counts escaped ones: then part of its text is not
    published.  And exactly when a frame is its event unchanged. */
module OversizedChunk {
  import opened Coalescer
  import opened Decimal
  import opened Jsons
  import opened ObserverEvents
  import opened Trimmer
  import opened TrimmerProperties
  import opened Utf8
  import opened Wrappers

  // ---- Unchanged frames

  /** Trimming leaves an event alone exactly when it is under the cap, or when its payload is
      the very stub it would be replaced with and nothing fits either. */
  lemma UnchangedExactly(e: Event)
    ensures Fitted(e) == e <==>
              || SerializedLen(e) <= MAX_PLAINTEXT
              || (e.payload == Stub(e.kind, SerLen(e.payload)) && SerializedLen(Fitted(e)) > MAX_PLAINTEXT)
  {
    hide Kept, Stub, Exhausted, Trimmed, SerLen, EnvelopeLen;
    var last := FittedResult(e);
  }

  // ---- A chunk of quotation marks

  const CHUNK_TYPE: Text := AGENT_MESSAGE + CHUNK_SUFFIX

  /** An agent message chunk. */
  function ChunkPayload(text: Text): Json {
    Node(Some([PARAMS]), [Node(Some([UPDATE]), [UpdateNode(text)])])
  }

  function UpdateNode(text: Text): Json {
    Node(Some([CONTENT, SESSION_UPDATE]), [Node(Some([TEXT]), [Str(text)]), Str(CHUNK_TYPE)])
  }

  function KeyOf(e: Event): ChunkKey {
    ChunkKey(CHUNK_TYPE, None, e.channelId, e.sessionId, e.turnId, e.agentIndex)
  }

  lemma PayloadIsChunk(e: Event, text: Text)
    requires e.payload == ChunkPayload(text)
    ensures ChunkOf(e) == Some(Chunk(KeyOf(e), text))
  {
    var content, update := Node(Some([TEXT]), [Str(text)]), UpdateNode(text);
    var params := Node(Some([UPDATE]), [update]);
    assert Field(Some(e.payload), PARAMS) == Some(params);
    assert Field(Some(params), UPDATE) == Some(update);
    assert |SESSION_UPDATE| != |CONTENT| && |MESSAGE_ID| != |CONTENT| && |MESSAGE_ID| != |SESSION_UPDATE|;
    LookupTwo(CONTENT, SESSION_UPDATE, content, Str(CHUNK_TYPE), CONTENT);
    LookupTwo(CONTENT, SESSION_UPDATE, content, Str(CHUNK_TYPE), SESSION_UPDATE);
    LookupTwo(CONTENT, SESSION_UPDATE, content, Str(CHUNK_TYPE), MESSAGE_ID);
    assert Field(Some(content), TEXT) == Some(Str(text));
  }

  lemma LookupTwo(k0: Text, k1: Text, v0: Json, v1: Json, key: Text)
    ensures Lookup([k0, k1], [v0, v1], key) == if key == k0 then Some(v0) else if key == k1 then Some(v1) else None
  {
    assert [k0, k1][1..] == [k1] && [v0, v1][1..] == [v1];
    assert Lookup([k1], [v1], key) == if key == k1 then Some(v1) else None by {
      assert Lookup([k1][1..], [v1][1..], key) == None;
    }
  }

  /** The length around the text. */
  lemma PayloadLen(text: Text)
    ensures SerLen(ChunkPayload(text)) == EscapedLen(text) + 83
  {
    hide EscapedLen, SerLen, UpdateNode;
    OneLen(PARAMS, Node(Some([UPDATE]), [UpdateNode(text)]));
    OneLen(UPDATE, UpdateNode(text));
    UpdateLen(text);
    PlainIsUnescaped(PARAMS);
    PlainIsUnescaped(UPDATE);
  }

  lemma UpdateLen(text: Text)
    ensures SerLen(UpdateNode(text)) == EscapedLen(text) + 61
  {
    hide EscapedLen, SerLen;
    OneLen(TEXT, Str(text));
    TwoLen(CONTENT, SESSION_UPDATE, Node(Some([TEXT]), [Str(text)]), Str(CHUNK_TYPE));
    PlainIsUnescaped(TEXT);
    PlainIsUnescaped(CONTENT);
    PlainIsUnescaped(SESSION_UPDATE);
    PlainIsUnescaped(CHUNK_TYPE);
    StrLen(text);
    StrLen(CHUNK_TYPE);
  }

  lemma StrLen(text: Text)
    ensures SerLen(Str(text)) == 2 + EscapedLen(text)
  {
  }

  lemma OneLen(key: Text, v: Json)
    ensures SerLen(Node(Some([key]), [v])) == 5 + EscapedLen(key) + SerLen(v)
  {
    hide EscapedLen;
    assert KeysLen([key][1..]) == 0 && ItemsLen([v][1..]) == 0;
  }

  lemma TwoLen(k0: Text, k1: Text, v0: Json, v1: Json)
    ensures SerLen(Node(Some([k0, k1]), [v0, v1])) == 9 + EscapedLen(k0) + EscapedLen(k1) + SerLen(v0) + SerLen(v1)
  {
    hide EscapedLen;
    TwoKeys(k0, k1);
    TwoItems(v0, v1);
  }

  /** A turn of the trimmer elides the text. */
  lemma PayloadShrinks(text: Text)
    requires LeafShrinks(text)
    ensures Shrink(ChunkPayload(text)) == Some(ChunkPayload(Elide(text)))
  {
    assert !LeafShrinks(CHUNK_TYPE) by { ShortLeafStays(CHUNK_TYPE); }
    hide LeafShrinks, Elide;
    var n := |text|;
    var content := Node(Some([TEXT]), [Str(text)]);
    OneShrinks(Some([TEXT]), Str(text), n);
    SecondStays(content, Str(CHUNK_TYPE), n);
    OneShrinks(Some([UPDATE]), UpdateNode(text), n);
    OneShrinks(Some([PARAMS]), Node(Some([UPDATE]), [UpdateNode(text)]), n);
  }

  lemma ShortLeafStays(s: Text)
    requires |s| <= RETAIN
    ensures !LeafShrinks(s)
  {
    if |s| < RETAIN {
      assert HeadEnd(s) == |s|;
    }
  }

  lemma OneShrinks(keys: Option<seq<Text>>, v: Json, n: nat)
    ensures MaxShrinkable(Node(keys, [v])) == MaxShrinkable(v)
    ensures ElideFirst(v, n).Some? ==> ElideFirst(Node(keys, [v]), n) == Some(Node(keys, [ElideFirst(v, n).value]))
  {
    assert [v][1..] == [];
    NoItems(n);
    hide LeafShrinks, Elide;
    if ElideFirst(v, n).Some? {
      assert [ElideFirst(v, n).value] + [v][1..] == [ElideFirst(v, n).value];
    }
  }

  lemma NoItems(n: nat)
    ensures MaxShrinkableIn([]) == None && ElideFirstIn([], n) == None
  {
  }

  lemma SecondStays(v: Json, w: Json, n: nat)
    requires MaxShrinkable(w) == None
    ensures MaxShrinkableIn([v, w]) == MaxShrinkable(v)
    ensures ElideFirst(v, n).Some? ==> ElideFirstIn([v, w], n) == Some([ElideFirst(v, n).value, w])
  {
    hide LeafShrinks, Elide;
    assert [v, w][1..] == [w] && [w][1..] == [];
    NoItems(n);
    assert MaxShrinkableIn([w]) == None;
    if ElideFirst(v, n).Some? {
      assert [ElideFirst(v, n).value] + [v, w][1..] == [ElideFirst(v, n).value, w];
    }
  }

  function Quotes(n: nat): (t: Text)
    ensures |t| == n && forall i :: 0 <= i < n ==> t[i] == 34
  {
    if n == 0 then [] else [34] + Quotes(n - 1)
  }

  lemma {:induction false} EscapedQuotes(s: Text)
    requires forall i :: 0 <= i < |s| ==> s[i] == 34
    ensures EscapedLen(s) == 2 * |s|
  {
    if s != [] {
      EscapedQuotes(s[1..]);
    }
  }

  lemma ElidedQuotes(s: Text)
    requires |s| >= 2 * RETAIN + 100 && forall i :: 0 <= i < |s| ==> s[i] == 34
    ensures LeafShrinks(s) && |Elide(s)| < |s|
    ensures EscapedLen(Elide(s)) == 4 * RETAIN + |Marker(Removed(s))| && Removed(s) == |s| - 2 * RETAIN
    ensures |Marker(Removed(s))| <= 22 + |s| / 10
  {
    PlainLeafElidedTwice(s);
    ElideEnds(s);
    assert HeadEnd(s) == RETAIN && TailStart(s) == |s| - RETAIN;
    hide HeadEnd, TailStart, LeafShrinks, Marker, EscapedLen, Digits;
    var m := Marker(Removed(s));
    EscapedQuotes(s[..RETAIN]);
    EscapedQuotes(s[|s| - RETAIN..]);
    EscapedLenSplits(s[..RETAIN], m);
    EscapedLenSplits(s[..RETAIN] + m, s[|s| - RETAIN..]);
    MarkerIsPlain(Removed(s));
    DigitCount(Removed(s));
  }

  /** From 32768 quotation marks on, a chunk the coalescer passes on is over the cap, and
      its published text is the elided one, shorter than what was sent. */
  lemma QuotesAreElided(e: Event, n: nat)
    requires e.payload == ChunkPayload(Quotes(n)) && 32_768 <= n < MAX_TEXT && EnvelopeLen(e) <= 40_000
    ensures ChunkOf(e) == Some(Chunk(KeyOf(e), Quotes(n))) && SerializedLen(e) > MAX_PLAINTEXT
    ensures ChunkOf(Fitted(e)) == Some(Chunk(KeyOf(e), Elide(Quotes(n)))) && |Elide(Quotes(n))| < n
  {
    hide EscapedLen, LeafShrinks, Elide, Marker, EnvelopeLen, ChunkOf, SerLen, Shrink, ChunkPayload;
    var text := Quotes(n);
    PayloadIsChunk(e, text);
    PayloadLen(text);
    EscapedQuotes(text);
    ElidedQuotes(text);
    PayloadLen(Elide(text));
    PayloadShrinks(text);
    PayloadIsChunk(e.(payload := ChunkPayload(Elide(text))), Elide(text));
  }
}
