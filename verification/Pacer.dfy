/** Pacing the frames sent to the relay: one per 167 ms and 90 per minute. */
module Pacer {
  import opened Wrappers

  type Time = nat

  const INTERVAL: Time := 167
  const MINUTE: Time := 60_000
  const LIMIT: nat := 90

  // ---- The pacer's own bookkeeping

  datatype Pacing = Pacing(next: Time, published: seq<Time>)

  function Fresh(start: Time): Pacing { Pacing(start + INTERVAL, []) }

  /** Times a minute old or older are dropped from the front. */
  function Pruned(published: seq<Time>, now: Time): (r: seq<Time>)
    ensures |r| <= |published| && r == published[|published| - |r|..]
    ensures r != [] ==> r[0] + MINUTE > now
    ensures forall i :: 0 <= i < |published| - |r| ==> published[i] + MINUTE <= now
  {
    if published != [] && published[0] + MINUTE <= now then Pruned(published[1..], now) else published
  }

  /** The moment the code waits for. */
  function PublishAt(p: Pacing): Time {
    if |p.published| >= LIMIT then Max(p.published[0] + MINUTE, p.next) else p.next
  }

  function Recorded(p: Pacing, now: Time): Pacing { Pacing(now + INTERVAL, p.published + [now]) }

  // ---- The limits, over the history of all publications

  predicate Spaced(times: seq<Time>) {
    forall i, j :: 0 <= i < j < |times| ==> times[i] + INTERVAL <= times[j]
  }

  predicate AtMostNinety(times: seq<Time>) {
    forall i, j :: 0 <= i && i + LIMIT <= j < |times| ==> times[i] + MINUTE <= times[j]
  }

  /** The earliest moment both limits allow after `times`. */
  function Due(start: Time, times: seq<Time>): Time {
    var n := |times|;
    var spaced := (if n == 0 then start else times[n - 1]) + INTERVAL;
    if n >= LIMIT then Max(spaced, times[n - LIMIT] + MINUTE) else spaced
  }

  /** The bookkeeping after `times`, when the clock has been read up to `seen`: the deque
      holds the latest times, at most ninety, and everything dropped is a minute old. */
  ghost predicate Represents(p: Pacing, start: Time, times: seq<Time>, seen: Time) {
    && |p.published| <= |times| && |p.published| <= LIMIT
    && p.published == times[|times| - |p.published|..]
    && p.next == (if times == [] then start else times[|times| - 1]) + INTERVAL
    && (forall i :: 0 <= i < |times| ==> times[i] <= seen)
    && (forall i :: 0 <= i < |times| - |p.published| ==> times[i] + MINUTE <= seen)
  }

  lemma PruneRepresents(p: Pacing, start: Time, times: seq<Time>, seen: Time, now: Time)
    requires Represents(p, start, times, seen) && seen <= now
    ensures Represents(p.(published := Pruned(p.published, now)), start, times, now)
  {
    hide Pruned;
    var r := Pruned(p.published, now);
    forall i | 0 <= i < |times| - |r| ensures times[i] + MINUTE <= now {
      if i >= |times| - |p.published| {
        assert times[i] == p.published[i - (|times| - |p.published|)];
      }
    }
  }

  /** The wake-up time is exactly the due time: never early, and never later than the two
      limits force. */
  lemma WakesWhenDue(p: Pacing, start: Time, times: seq<Time>, seen: Time, now: Time)
    requires Represents(p, start, times, seen) && seen <= now
    ensures var pruned := p.(published := Pruned(p.published, now));
      Max(now, PublishAt(pruned)) == Max(now, Due(start, times))
  {
    hide Represents, Due, Pruned;
    PruneRepresents(p, start, times, seen, now);
    DueFromDeque(p.(published := Pruned(p.published, now)), start, times, now);
  }

  lemma DueFromDeque(p: Pacing, start: Time, times: seq<Time>, now: Time)
    requires Represents(p, start, times, now)
    ensures Max(now, PublishAt(p)) == Max(now, Due(start, times))
  {
    hide Pruned;
    var n := |times|;
    if n >= LIMIT {
      if |p.published| == LIMIT {
        assert p.published[0] == times[n - LIMIT];
      } else {
        assert times[n - LIMIT] + MINUTE <= now;
      }
    }
  }

  /** Publishing no earlier than due keeps both limits and makes room for the new time:
      an entry over ninety would be a minute old and was dropped. */
  lemma RecordKeepsLimits(p: Pacing, start: Time, times: seq<Time>, now: Time, at: Time)
    requires Represents(p, start, times, now) && Spaced(times) && AtMostNinety(times)
    requires p.published == Pruned(p.published, now) && PublishAt(p) <= now <= at
    ensures Represents(Recorded(p, at), start, times + [at], at)
    ensures Spaced(times + [at]) && AtMostNinety(times + [at])
  {
    WakesWhenDue(p, start, times, now, now);
    RecordRepresents(p, start, times, now, at);
    hide Represents, Pruned, Spaced, AtMostNinety;
    SpacedGrows(times, at);
    NinetyGrows(times, at);
  }

  lemma SpacedGrows(times: seq<Time>, at: Time)
    requires Spaced(times) && (times != [] ==> times[|times| - 1] + INTERVAL <= at)
    ensures Spaced(times + [at])
  {
    forall i | 0 <= i < |times| ensures times[i] + INTERVAL <= at {
      assert times[i] <= times[|times| - 1];
    }
  }

  lemma NinetyGrows(times: seq<Time>, at: Time)
    requires Spaced(times) && AtMostNinety(times) && (|times| >= LIMIT ==> times[|times| - LIMIT] + MINUTE <= at)
    ensures AtMostNinety(times + [at])
  {
    forall i | 0 <= i <= |times| - LIMIT ensures times[i] + MINUTE <= at {
      assert times[i] <= times[|times| - LIMIT];
    }
  }

  lemma RecordRepresents(p: Pacing, start: Time, times: seq<Time>, now: Time, at: Time)
    requires Represents(p, start, times, now)
    requires p.published == Pruned(p.published, now) && PublishAt(p) <= now <= at
    ensures Represents(Recorded(p, at), start, times + [at], at)
  {
    NotFull(p, now);
    hide Pruned, PublishAt;
    var k := |times| - |p.published|;
    assert (times + [at])[k..] == times[k..] + [at];
  }

  lemma NotFull(p: Pacing, now: Time)
    requires p.published == Pruned(p.published, now) && PublishAt(p) <= now
    ensures |p.published| < LIMIT
  {
  }

  // ---- The pacer at work

  /** The clock: readings never decrease and a sleep ends at its target or later. `drift`
      adds up all time that passes other than by sleeping to a target. */
  class Clock {
    var now: Time
    ghost var drift: nat
    ghost var sleeps: nat

    constructor (start: Time)
    {
      now := start;
    }

    method Now() returns (t: Time)
      modifies this
      ensures t == now == old(now) + (drift - old(drift)) && drift >= old(drift) && sleeps == old(sleeps)
    {
      var passed: nat :| passed >= 0;
      now := now + passed;
      drift := drift + passed;
      t := now;
    }

    method SleepUntil(t: Time)
      modifies this
      ensures now == Max(old(now), t) + (drift - old(drift)) && drift >= old(drift) && sleeps == old(sleeps) + 1
    {
      var passed: nat :| passed >= 0;
      now := Max(now, t) + passed;
      drift := drift + passed;
      sleeps := sleeps + 1;
    }
  }

  class PublishPacer {
    var next: Time
    var published: seq<Time>
    ghost var start: Time
    ghost var times: seq<Time>

    ghost predicate Ok(seen: Time) reads this {
      && Represents(Pacing(next, published), start, times, seen)
      && Spaced(times) && AtMostNinety(times)
    }

    constructor (clock: Clock)
      modifies clock
      ensures Ok(clock.now) && times == [] && start == clock.now
    {
      var t := clock.Now();
      next, published := t + INTERVAL, [];
      start, times := t, [];
    }

    method DropOld(now: Time)
      modifies this`published
      ensures published == Pruned(old(published), now)
    {
      while published != [] && now >= published[0] + MINUTE
        invariant Pruned(published, now) == Pruned(old(published), now)
        decreases |published|
      {
        published := published[1..];
      }
    }

    /** Drops what is a minute old and computes when the next frame may go. */
    method NextSlot(now: Time, ghost seen: Time) returns (publishAt: Time)
      requires Ok(seen) && seen <= now
      modifies this`published
      ensures Ok(now) && published == Pruned(published, now)
      ensures publishAt == PublishAt(Pacing(next, published))
      ensures Max(now, publishAt) == Max(now, Due(start, times))
    {
      hide Represents, Due, Spaced, AtMostNinety, Pruned;
      ghost var before := Pacing(next, published);
      WakesWhenDue(before, start, times, seen, now);
      PruneRepresents(before, start, times, seen, now);
      DropOld(now);
      PrunedTwice(before.published, now);
      publishAt := if |published| >= LIMIT then Max(published[0] + MINUTE, next) else next;
    }

    /** Returns when a frame may be published. */
    method Wait(clock: Clock)
      requires Ok(clock.now)
      modifies this, clock
      ensures Ok(clock.now) && start == old(start)
      ensures times == old(times) + [clock.now]
      ensures clock.sleeps <= old(clock.sleeps) + 1
      ensures Max(old(clock.now), Due(start, old(times))) <= clock.now
      ensures clock.now <= Max(old(clock.now), Due(start, old(times))) + (clock.drift - old(clock.drift))
    {
      hide Represents, Due, Spaced, AtMostNinety, Pruned, PublishAt;
      ghost var due := Due(start, times);
      while true
        invariant Ok(clock.now) && times == old(times) && start == old(start)
        invariant clock.drift >= old(clock.drift) && old(clock.now) <= clock.now
        invariant clock.sleeps == old(clock.sleeps) || (clock.sleeps == old(clock.sleeps) + 1 && clock.now >= due)
        invariant clock.now <= Max(old(clock.now), due) + (clock.drift - old(clock.drift))
        decreases old(clock.sleeps) + 1 - clock.sleeps
      {
        ghost var seen := clock.now;
        var now := clock.Now();
        var publishAt := NextSlot(now, seen);
        if publishAt > now {
          clock.SleepUntil(publishAt);
          StillRepresents(Pacing(next, published), start, times, now, clock.now);
          continue;
        }
        var publishedAt := clock.Now();
        RecordKeepsLimits(Pacing(next, published), start, times, now, publishedAt);
        published := published + [publishedAt];
        next := publishedAt + INTERVAL;
        times := times + [publishedAt];
        return;
      }
    }
  }

  lemma PrunedTwice(published: seq<Time>, now: Time)
    ensures Pruned(Pruned(published, now), now) == Pruned(published, now)
  {
  }

  lemma StillRepresents(p: Pacing, start: Time, times: seq<Time>, seen: Time, now: Time)
    requires Represents(p, start, times, seen) && seen <= now
    ensures Represents(p, start, times, now)
  {
  }
}
