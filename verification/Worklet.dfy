/** The audio worklet: batching samples into frames, gated by push-to-talk. */
module Worklet {
  import opened Wrappers

  const FRAME: nat := 960

  // ---- What one call does, on values

  datatype Tap<Sample> = Tap(buffered: seq<Sample>, transmitting: bool, posts: seq<seq<Sample>>)

  datatype Outcome = Returned | Threw

  /** `process`: a leftover that does not fit the fresh buffer throws. */
  function Processed<Sample>(t: Tap<Sample>, input: Option<seq<Sample>>): (r: (Tap<Sample>, Outcome))
    requires |t.buffered| <= FRAME
    ensures |r.0.buffered| <= FRAME
  {
    if input.None? then (t, Returned)
    else if !t.transmitting then (t.(buffered := []), Returned)
    else
      var remaining := FRAME - |t.buffered|;
      var toCopy := if |input.value| < remaining then |input.value| else remaining;
      var filled := t.buffered + input.value[..toCopy];
      if |filled| < FRAME then (t.(buffered := filled), Returned)
      else
        var leftover := input.value[toCopy..];
        var posted := t.(posts := t.posts + [filled]);
        if |leftover| <= FRAME then (posted.(buffered := leftover), Returned)
        else (posted.(buffered := []), Threw)
  }

  /** It throws exactly when the input overflows the rest of this frame and all of the
      next. */
  lemma ThrowsExactly<Sample>(t: Tap<Sample>, input: seq<Sample>)
    requires |t.buffered| <= FRAME && t.transmitting
    ensures Processed(t, Some(input)).1 == Threw <==> |input| > (FRAME - |t.buffered|) + FRAME
  {
  }

  class SttTapProcessor<Sample(0)> {
    var buffer: array<Sample>
    var offset: nat
    var transmitting: bool
    /** Frames handed to the main thread. */
    var posts: seq<seq<Sample>>

    ghost predicate Valid() reads this {
      buffer.Length == FRAME && offset <= FRAME
    }

    ghost function Abs(): (t: Tap<Sample>)
      requires Valid()
      reads this, buffer
      ensures |t.buffered| <= FRAME
    {
      Tap(buffer[..offset], transmitting, posts)
    }

    constructor ()
      ensures Valid() && fresh(buffer) && Abs() == Tap([], true, [])
    {
      buffer := new Sample[FRAME];
      offset, transmitting, posts := 0, true, [];
    }

    method OnMessage(active: bool)
      requires Valid()
      modifies this`transmitting
      ensures Valid() && Abs() == old(Abs()).(transmitting := active)
    {
      transmitting := active;
    }

    /** `buffer.set(samples, at)` */
    method Copy(samples: seq<Sample>, at: nat)
      requires Valid() && at + |samples| <= FRAME
      modifies buffer
      ensures buffer[..] == old(buffer[..at]) + samples + old(buffer[at + |samples|..])
    {
      for i := 0 to |samples|
        invariant buffer[at..at + i] == samples[..i]
        invariant buffer[..at] == old(buffer[..at])
        invariant buffer[at + i..] == old(buffer[at + i..])
      {
        buffer[at + i] := samples[i];
        assert buffer[at..at + i + 1] == buffer[at..at + i] + [samples[i]];
      }
      assert buffer[..] == buffer[..at] + buffer[at..at + |samples|] + buffer[at + |samples|..];
    }

    method Process(input: Option<seq<Sample>>) returns (outcome: Outcome)
      requires Valid()
      modifies this, buffer
      ensures Valid() && (buffer == old(buffer) || fresh(buffer))
      ensures (Abs(), outcome) == Processed(old(Abs()), input)
    {
      if input.None? {
        return Returned;
      }
      var samples := input.value;
      if !transmitting {
        offset := 0;
        return Returned;
      }
      var remaining := buffer.Length - offset;
      var toCopy := if |samples| < remaining then |samples| else remaining;
      Copy(samples[..toCopy], offset);
      offset := offset + toCopy;
      assert buffer[..offset] == old(buffer[..offset]) + samples[..toCopy];
      if offset >= buffer.Length {
        posts := posts + [buffer[..]];
        assert buffer[..offset] == buffer[..];
        buffer := new Sample[FRAME];
        offset := 0;
        if toCopy < |samples| {
          var leftover := samples[toCopy..];
          if |leftover| > buffer.Length {
            return Threw;
          }
          Copy(leftover, 0);
          offset := |leftover|;
          assert buffer[..offset] == leftover;
        }
      }
      outcome := Returned;
    }
  }

  // ---- Runs

  datatype Call<Sample> = Ptt(active: bool) | Audio(input: Option<seq<Sample>>)

  function Step<Sample>(t: Tap<Sample>, c: Call<Sample>): (r: Tap<Sample>)
    requires |t.buffered| <= FRAME
    ensures |r.buffered| <= FRAME
  {
    match c
    case Ptt(active) => t.(transmitting := active)
    case Audio(input) => Processed(t, input).0
  }

  function After<Sample>(calls: seq<Call<Sample>>): (t: Tap<Sample>)
    ensures |t.buffered| <= FRAME
  {
    if calls == [] then Tap([], true, []) else Step(After(calls[..|calls| - 1]), calls[|calls| - 1])
  }

  /** A stretch of samples cut into whole frames, and what is left. */
  function Frames<Sample>(s: seq<Sample>): (f: seq<seq<Sample>>)
    ensures forall i :: 0 <= i < |f| ==> |f[i]| == FRAME
  {
    if |s| < FRAME then [] else [s[..FRAME]] + Frames(s[FRAME..])
  }

  function Rest<Sample>(s: seq<Sample>): (r: seq<Sample>)
    ensures |r| < FRAME
  {
    if |s| < FRAME then s else Rest(s[FRAME..])
  }

  function Flat<Sample>(f: seq<seq<Sample>>): seq<Sample> {
    if f == [] then [] else f[0] + Flat(f[1..])
  }

  /** Framing keeps every sample, in order. */
  lemma {:induction false} FramesAndRest<Sample>(s: seq<Sample>)
    ensures Flat(Frames(s)) + Rest(s) == s
  {
    if |s| >= FRAME {
      var tail := s[FRAME..];
      FramesAndRest(tail);
      FlatFront(s[..FRAME], Frames(tail));
      assert Frames(s) == [s[..FRAME]] + Frames(tail) && Rest(s) == Rest(tail);
      hide Frames, Rest, Flat;
      assert s[..FRAME] + (Flat(Frames(tail)) + Rest(tail)) == s;
    }
  }

  lemma FlatFront<Sample>(first: seq<Sample>, more: seq<seq<Sample>>)
    ensures Flat([first] + more) == first + Flat(more)
  {
    assert ([first] + more)[1..] == more;
  }

  lemma {:induction false} FramesExtend<Sample>(s: seq<Sample>, more: seq<Sample>)
    ensures Frames(s + more) == Frames(s) + Frames(Rest(s) + more)
    ensures Rest(s + more) == Rest(Rest(s) + more)
  {
    if |s| >= FRAME {
      assert (s + more)[..FRAME] == s[..FRAME] && (s + more)[FRAME..] == s[FRAME..] + more;
      FramesExtend(s[FRAME..], more);
    }
  }

  /** What was heard, by the muted calls: whole frames of the stretches before the last
      one, and the stretch since. */
  datatype Heard<Sample> = Heard(done: seq<seq<Sample>>, current: seq<Sample>, open: bool)

  function Listen<Sample>(calls: seq<Call<Sample>>): Heard<Sample> {
    if calls == [] then Heard([], [], true)
    else
      var h := Listen(calls[..|calls| - 1]);
      match calls[|calls| - 1]
      case Ptt(active) => h.(open := active)
      case Audio(input) =>
        if input.None? then h
        else if h.open then h.(current := h.current + input.value)
        else h.(done := h.done + Frames(h.current), current := [])
  }

  predicate Short<Sample>(c: Call<Sample>) {
    c.Audio? && c.input.Some? ==> |c.input.value| <= FRAME
  }

  lemma AudioStep<Sample>(t: Tap<Sample>, current: seq<Sample>, done: seq<seq<Sample>>, input: seq<Sample>)
    requires t.transmitting && |input| <= FRAME
    requires t.buffered == Rest(current) && t.posts == done + Frames(current)
    ensures var r := Processed(t, Some(input));
      && r.1 == Returned
      && r.0.buffered == Rest(current + input) && r.0.posts == done + Frames(current + input)
  {
    FramesExtend(current, input);
    var b := t.buffered;
    var all := b + input;
    hide Frames, Rest;
    OneFrame(all);
    if |all| >= FRAME {
      var toCopy := FRAME - |b|;
      assert b + input[..toCopy] == all[..FRAME] && input[toCopy..] == all[FRAME..];
    }
  }

  lemma OneFrame<Sample>(s: seq<Sample>)
    requires |s| < 2 * FRAME
    ensures Frames(s) == if |s| < FRAME then [] else [s[..FRAME]]
    ensures Rest(s) == if |s| < FRAME then s else s[FRAME..]
  {
  }

  /** For inputs of at most one frame and any toggling: what is posted is exactly the
      stretches between muted calls, each cut into whole frames from its start; what is
      buffered is the rest of the last stretch; and nothing throws. */
  lemma {:induction false} PostsAreWhatWasHeard<Sample>(calls: seq<Call<Sample>>)
    requires forall i :: 0 <= i < |calls| ==> Short(calls[i])
    ensures var t, h := After(calls), Listen(calls);
      && t.posts == h.done + Frames(h.current)
      && t.buffered == Rest(h.current)
      && t.transmitting == h.open
  {
    if calls != [] {
      var prefix, last := calls[..|calls| - 1], calls[|calls| - 1];
      PostsAreWhatWasHeard(prefix);
      assert Short(last);
      if last.Audio? && last.input.Some? {
        var t, h := After(prefix), Listen(prefix);
        if h.open {
          AudioStep(t, h.current, h.done, last.input.value);
        }
      }
    }
  }

  /** A full frame that still waits in the buffer for the next call. */
  function Waiting<Sample>(buffered: seq<Sample>): seq<seq<Sample>>
    requires |buffered| <= FRAME
  {
    if |buffered| == FRAME then [buffered] else []
  }

  function AfterInputs<Sample>(t: Tap<Sample>, inputs: seq<seq<Sample>>): (r: Tap<Sample>)
    requires |t.buffered| <= FRAME
    ensures |r.buffered| <= FRAME
  {
    if inputs == [] then t else Processed(AfterInputs(t, inputs[..|inputs| - 1]), Some(inputs[|inputs| - 1])).0
  }

  ghost predicate NoneThrows<Sample>(t: Tap<Sample>, inputs: seq<seq<Sample>>)
    requires |t.buffered| <= FRAME
  {
    forall i :: 0 <= i < |inputs| ==> Processed(AfterInputs(t, inputs[..i]), Some(inputs[i])).1 == Returned
  }

  function Joined<Sample>(inputs: seq<seq<Sample>>): seq<Sample> {
    if inputs == [] then [] else Joined(inputs[..|inputs| - 1]) + inputs[|inputs| - 1]
  }

  lemma AnyAudioStep<Sample>(t: Tap<Sample>, current: seq<Sample>, base: seq<seq<Sample>>, input: seq<Sample>)
    requires t.transmitting && |t.buffered| <= FRAME && Processed(t, Some(input)).1 == Returned
    requires t.posts + Waiting(t.buffered) == base + Frames(current)
    requires |t.buffered| < FRAME ==> t.buffered == Rest(current)
    requires |t.buffered| == FRAME ==> Rest(current) == []
    ensures var r := Processed(t, Some(input)).0;
      && r.transmitting
      && r.posts + Waiting(r.buffered) == base + Frames(current + input)
      && (|r.buffered| == FRAME ==> Rest(current + input) == [])
      && (|r.buffered| < FRAME ==> r.buffered == Rest(current + input))
  {
    FramesExtend(current, input);
    var b, r := t.buffered, Processed(t, Some(input)).0;
    hide Frames, Rest;
    if |b| == FRAME {
      assert Rest(current) + input == input;
      UpToTwo(input);
      assert b + input[..0] == b && input[0..] == input;
      assert r.posts == base + Frames(current) && r.buffered == input;
      if |input| == FRAME {
        assert input[..FRAME] == input && input[FRAME..] == [];
      }
    } else {
      AudioIntoRoom(t, current, base, input);
    }
  }

  lemma AudioIntoRoom<Sample>(t: Tap<Sample>, current: seq<Sample>, base: seq<seq<Sample>>, input: seq<Sample>)
    requires t.transmitting && |t.buffered| < FRAME && Processed(t, Some(input)).1 == Returned
    requires t.posts == base + Frames(current) && t.buffered == Rest(current)
    ensures var r := Processed(t, Some(input)).0;
      && r.transmitting
      && r.posts + Waiting(r.buffered) == base + Frames(current + input)
      && (|r.buffered| == FRAME ==> Rest(current + input) == [])
      && (|r.buffered| < FRAME ==> r.buffered == Rest(current + input))
  {
    hide Frames, Rest, Processed;
    var all := t.buffered + input;
    FramesExtend(current, input);
    ProcessedIntoRoom(t, input);
    UpToTwo(all);
    FramesTogether(base, Frames(current), all);
  }

  lemma ProcessedIntoRoom<Sample>(t: Tap<Sample>, input: seq<Sample>)
    requires t.transmitting && |t.buffered| < FRAME && Processed(t, Some(input)).1 == Returned
    ensures var r, all := Processed(t, Some(input)).0, t.buffered + input;
      if |all| < FRAME then r == t.(buffered := all)
      else |all| <= 2 * FRAME && r == t.(posts := t.posts + [all[..FRAME]], buffered := all[FRAME..])
  {
    var all := t.buffered + input;
    if |all| < FRAME {
      assert input[..|input|] == input;
    } else {
      var toCopy := FRAME - |t.buffered|;
      assert t.buffered + input[..toCopy] == all[..FRAME] && input[toCopy..] == all[FRAME..];
    }
  }

  lemma FramesTogether<Sample>(base: seq<seq<Sample>>, frames: seq<seq<Sample>>, all: seq<Sample>)
    requires |all| <= 2 * FRAME
    ensures base + frames + [] == base + (frames + [])
    ensures FRAME <= |all| ==> base + frames + [all[..FRAME]] + [] == base + (frames + [all[..FRAME]])
    ensures FRAME <= |all| ==> base + frames + [all[..FRAME]] + [all[FRAME..]] == base + (frames + [all[..FRAME], all[FRAME..]])
  {
  }

  lemma UpToTwo<Sample>(s: seq<Sample>)
    requires |s| <= 2 * FRAME
    ensures Frames(s) == if |s| < FRAME then [] else if |s| < 2 * FRAME then [s[..FRAME]] else [s[..FRAME], s[FRAME..]]
    ensures Rest(s) == if |s| < FRAME then s else if |s| < 2 * FRAME then s[FRAME..] else []
  {
    if |s| == 2 * FRAME {
      var tail := s[FRAME..];
      assert tail[..FRAME] == tail && tail[FRAME..] == [];
      assert Frames(tail) == [tail] && Rest(tail) == [];
    }
  }

  /** Inputs of any size, as long as no call throws: the posts of a stretch, with the full
      frame that may still wait, are the stretch cut into whole frames, and the buffer holds
      the rest. */
  lemma {:induction false} StretchIsFramed<Sample>(t: Tap<Sample>, inputs: seq<seq<Sample>>)
    requires t.transmitting && t.buffered == [] && NoneThrows(t, inputs)
    ensures var r := AfterInputs(t, inputs);
      && r.transmitting
      && r.posts + Waiting(r.buffered) == t.posts + Frames(Joined(inputs))
      && (|r.buffered| == FRAME ==> Rest(Joined(inputs)) == [])
      && (|r.buffered| < FRAME ==> r.buffered == Rest(Joined(inputs)))
  {
    hide Processed, Frames, Rest;
    UpToTwo<Sample>([]);
    if inputs != [] {
      var n := |inputs| - 1;
      var prefix := inputs[..n];
      assert NoneThrows(t, prefix) by {
        forall i | 0 <= i < n ensures Processed(AfterInputs(t, prefix[..i]), Some(prefix[i])).1 == Returned {
          assert prefix[..i] == inputs[..i];
        }
      }
      StretchIsFramed(t, prefix);
      AnyAudioStep(AfterInputs(t, prefix), Joined(prefix), t.posts, inputs[n]);
    }
  }

  lemma NothingThrows<Sample>(calls: seq<Call<Sample>>, input: Option<seq<Sample>>)
    requires (forall i :: 0 <= i < |calls| ==> Short(calls[i])) && Short(Audio(input))
    ensures Processed(After(calls), input).1 == Returned
    ensures forall i :: 0 <= i < |After(calls).posts| ==> |After(calls).posts[i]| == FRAME
  {
    PostsAreWhatWasHeard(calls);
    EveryPostIsAFrame(calls);
  }

  /** Every posted frame has exactly 960 samples, whatever the inputs. */
  lemma {:induction false} EveryPostIsAFrame<Sample>(calls: seq<Call<Sample>>)
    ensures forall i :: 0 <= i < |After(calls).posts| ==> |After(calls).posts[i]| == FRAME
  {
    if calls != [] {
      EveryPostIsAFrame(calls[..|calls| - 1]);
    }
  }
}
