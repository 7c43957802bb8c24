/** The per-slot circuit breaker.  Times are in milliseconds of a clock that never
    goes back. */
module SlotCircuits {
  import opened Wrappers

  type Time = nat

  const THRESHOLD: nat := 3
  const WINDOW: nat := 60_000
  const COOLDOWN: nat := 300_000
  const BASE_DELAY: nat := 1_000
  const MAX_DELAY: nat := 30_000

  /** `Respawn` carries the backoff before its jitter factor. */
  datatype Verdict = Respawn(base: nat) | CircuitOpen | HalfOpenProbe

  datatype Circuit = Circuit(crashes: seq<Time>, openUntil: Option<Time>)

  const CLOSED := Circuit([], None)

  // --------------------------------------------------------------------- the model

  function Recent(crashes: seq<Time>, now: Time): (r: seq<Time>)
    ensures forall t :: t in r ==> t in crashes && now < t + WINDOW
    ensures |r| <= |crashes|
  {
    if crashes == [] then []
    else (if now < crashes[0] + WINDOW then [crashes[0]] else []) + Recent(crashes[1..], now)
  }

  lemma {:induction false} RecentAppend(a: seq<Time>, b: seq<Time>, now: Time)
    ensures Recent(a + b, now) == Recent(a, now) + Recent(b, now)
  {
    if a == [] {
      assert a + b == b;
    } else {
      assert (a + b)[1..] == a[1..] + b;
      RecentAppend(a[1..], b, now);
    }
  }

  /** The crash being recorded is itself recent. */
  lemma RecentKeepsNow(crashes: seq<Time>, now: Time)
    ensures Recent(crashes + [now], now) == Recent(crashes, now) + [now]
  {
    RecentAppend(crashes, [now], now);
  }

  function Power2(n: nat): (p: nat)
    ensures p > 0
  {
    if n == 0 then 1 else 2 * Power2(n - 1)
  }

  function Min(a: nat, b: nat): nat { if a < b then a else b }

  /** 1 s * 2^(recent-1), the shift capped at 5 and the product at 30 s. */
  function Backoff(recent: nat): nat
    requires recent >= 1
  {
    Min(BASE_DELAY * Power2(Min(recent - 1, 5)), MAX_DELAY)
  }

  /** A probe is seeded so that one crash within the window reopens the circuit. */
  function Probe(now: Time): Circuit {
    Circuit([now, now], None)
  }

  function Recorded(c: Circuit, now: Time): (Circuit, Verdict) {
    match c.openUntil
    case Some(until) => if now >= until then (Probe(now), HalfOpenProbe) else (c, CircuitOpen)
    case None =>
      var recent := Recent(c.crashes + [now], now);
      RecentKeepsNow(c.crashes, now);
      if |recent| >= THRESHOLD then (Circuit(recent, Some(now + COOLDOWN)), CircuitOpen)
      else (Circuit(recent, None), Respawn(Backoff(|recent|)))
  }

  function SpawnFailedAt(c: Circuit, now: Time): Circuit {
    c.(openUntil := Some(now + COOLDOWN))
  }

  function Refilled(c: Circuit, now: Time): (Circuit, bool) {
    match c.openUntil
    case Some(until) => if now >= until then (Probe(now), true) else (c, false)
    case None => (c, true)
  }

  // --------------------------------------------------------------------- the object

  class SlotCircuit {
    var crashTimes: seq<Time>
    var openUntil: Option<Time>

    constructor ()
      ensures Abs() == CLOSED
    {
      crashTimes, openUntil := [], None;
    }

    function Abs(): Circuit
      reads this`crashTimes, this`openUntil
    {
      Circuit(crashTimes, openUntil)
    }

    /** Record a crash and decide; `jitter` is the sub-second clock fraction. */
    method RecordCrash(now: Time, jitter: real) returns (verdict: Verdict, delay: real)
      requires 0.0 <= jitter < 1.0
      modifies this`crashTimes, this`openUntil
      ensures (Abs(), verdict) == Recorded(old(Abs()), now)
      ensures delay == if verdict.Respawn? then verdict.base as real * (0.8 + jitter * 0.4) else 0.0
    {
      delay := 0.0;
      if openUntil.Some? {
        if now >= openUntil.value {
          StartProbe(now);
          return HalfOpenProbe, 0.0;
        } else {
          return CircuitOpen, 0.0;
        }
      }
      crashTimes := crashTimes + [now];
      RecentKeepsNow(old(crashTimes), now);
      Retain(now);
      var recent := |crashTimes|;
      if recent >= THRESHOLD {
        openUntil := Some(now + COOLDOWN);
        return CircuitOpen, 0.0;
      }
      var base := Backoff(recent);
      return Respawn(base), base as real * (0.8 + jitter * 0.4);
    }

    /** Seed the history one short of the threshold and close the circuit. */
    method StartProbe(now: Time)
      modifies this`crashTimes, this`openUntil
      ensures Abs() == Probe(now)
    {
      crashTimes := [];
      for i := 0 to THRESHOLD - 1
        invariant crashTimes == seq(i, _ => now)
      {
        crashTimes := crashTimes + [now];
      }
      openUntil := None;
    }

    /** Prune the crashes that have left the window. */
    method Retain(now: Time)
      modifies this`crashTimes
      ensures crashTimes == Recent(old(crashTimes), now)
    {
      var kept: seq<Time>, i := [], 0;
      while i < |crashTimes|
        invariant i <= |crashTimes| && crashTimes == old(crashTimes)
        invariant kept == Recent(crashTimes[..i], now)
      {
        if now < crashTimes[i] + WINDOW { kept := kept + [crashTimes[i]]; }
        RecentAppend(crashTimes[..i], [crashTimes[i]], now);
        assert crashTimes[..i + 1] == crashTimes[..i] + [crashTimes[i]];
        i := i + 1;
      }
      assert crashTimes[..i] == crashTimes;
      crashTimes := kept;
    }

    method MarkSpawnFailed(now: Time)
      modifies this`openUntil
      ensures Abs() == SpawnFailedAt(old(Abs()), now)
    {
      openUntil := Some(now + COOLDOWN);
    }

    method CanRefill(now: Time) returns (ok: bool)
      modifies this`crashTimes, this`openUntil
      ensures (Abs(), ok) == Refilled(old(Abs()), now)
    {
      if openUntil.None? { return true; }
      if now < openUntil.value { return false; }
      StartProbe(now);
      return true;
    }
  }

  // ------------------------------------------------------------------ runs of calls

  datatype Call = Crash(at: Time) | SpawnFailed(at: Time) | Refill(at: Time)

  /** What a call answered: a crash verdict, or whether a refill is allowed. */
  datatype Answer = Said(verdict: Verdict) | Noted | Allowed(ok: bool)

  function Apply(c: Circuit, call: Call): (Circuit, Answer) {
    match call
    case Crash(t) => var (c', v) := Recorded(c, t); (c', Said(v))
    case SpawnFailed(t) => (SpawnFailedAt(c, t), Noted)
    case Refill(t) => var (c', ok) := Refilled(c, t); (c', Allowed(ok))
  }

  function After(c: Circuit, calls: seq<Call>): Circuit {
    if calls == [] then c else Apply(After(c, calls[..|calls| - 1]), calls[|calls| - 1]).0
  }

  function AnswerAt(c: Circuit, calls: seq<Call>, i: nat): Answer
    requires i < |calls|
  {
    Apply(After(c, calls[..i]), calls[i]).1
  }

  predicate Ordered(calls: seq<Call>) {
    forall i, j :: 0 <= i <= j < |calls| ==> calls[i].at <= calls[j].at
  }

  predicate Grants(a: Answer) {
    (a.Said? && a.verdict != CircuitOpen) || (a.Allowed? && a.ok)
  }

  /** A closed circuit remembers at most two crashes, an open one at most three. */
  predicate Sized(c: Circuit) {
    |c.crashes| <= 3 && (c.openUntil.None? ==> |c.crashes| <= 2)
  }

  lemma ApplySized(c: Circuit, call: Call)
    requires Sized(c)
    ensures Sized(Apply(c, call).0)
  {
    if call.Crash? { RecentKeepsNow(c.crashes, call.at); }
  }

  lemma {:induction false} AfterSized(calls: seq<Call>)
    ensures Sized(After(CLOSED, calls))
  {
    if calls != [] {
      AfterSized(calls[..|calls| - 1]);
      ApplySized(After(CLOSED, calls[..|calls| - 1]), calls[|calls| - 1]);
    }
  }

  /** In every run the backoff is 1 s or 2 s, so with its jitter factor it lies between
      0.8 s and 2.4 s: neither the shift cap nor the 30 s cap ever binds. */
  lemma BackoffIsShort(calls: seq<Call>, i: nat, jitter: real)
    requires i < |calls| && AnswerAt(CLOSED, calls, i).Said? && AnswerAt(CLOSED, calls, i).verdict.Respawn?
    requires 0.0 <= jitter < 1.0
    ensures var base := AnswerAt(CLOSED, calls, i).verdict.base;
      base in {1_000, 2_000} && 800.0 <= base as real * (0.8 + jitter * 0.4) < 2_400.0
  {
    var c, now := After(CLOSED, calls[..i]), calls[i].at;
    AfterSized(calls[..i]);
    RecentKeepsNow(c.crashes, now);
    assert Power2(0) == 1 && Power2(1) == 2;
  }

  // ----------------------------------------------------------- what the breaker recalls

  /** How many remembered crashes are at or after `t`. */
  function CountFrom(crashes: seq<Time>, t: Time): (n: nat)
    ensures n <= |crashes|
  {
    if crashes == [] then 0 else (if crashes[0] >= t then 1 else 0) + CountFrom(crashes[1..], t)
  }

  lemma {:induction false} CountFromAppend(a: seq<Time>, b: seq<Time>, t: Time)
    ensures CountFrom(a + b, t) == CountFrom(a, t) + CountFrom(b, t)
  {
    if a == [] {
      assert a + b == b;
    } else {
      assert (a + b)[1..] == a[1..] + b;
      CountFromAppend(a[1..], b, t);
    }
  }

  lemma {:induction false} PruneKeepsFresh(crashes: seq<Time>, t: Time, now: Time)
    requires now < t + WINDOW
    ensures CountFrom(Recent(crashes, now), t) == CountFrom(crashes, t)
  {
    if crashes != [] {
      PruneKeepsFresh(crashes[1..], t, now);
      CountFromAppend(if now < crashes[0] + WINDOW then [crashes[0]] else [], Recent(crashes[1..], now), t);
    }
  }

  /** Until one window after `t` the circuit recalls `n` crashes from `t` on, or is
      open for at least a cooldown after `t`. */
  predicate Recalls(c: Circuit, t: Time, n: nat) {
    match c.openUntil
    case Some(until) => until >= t + COOLDOWN
    case None => CountFrom(c.crashes, t) >= n
  }

  lemma RecallsStep(c: Circuit, call: Call, t: Time, n: nat)
    requires Recalls(c, t, n) && t <= call.at < t + WINDOW
    ensures Recalls(Apply(c, call).0, t, n)
    ensures Apply(c, call).1.Said? && Apply(c, call).1.verdict != CircuitOpen ==>
      n + 1 < THRESHOLD && Recalls(Apply(c, call).0, t, n + 1)
  {
    if call.Crash? && c.openUntil.None? {
      PruneKeepsFresh(c.crashes + [call.at], t, call.at);
      CountFromAppend(c.crashes, [call.at], t);
    }
  }

  lemma {:induction false} RecallsRun(c: Circuit, calls: seq<Call>, t: Time, n: nat, i: nat, j: nat)
    requires i <= j <= |calls| && Recalls(After(c, calls[..i]), t, n)
    requires forall k :: i <= k < j ==> t <= calls[k].at < t + WINDOW
    ensures Recalls(After(c, calls[..j]), t, n)
    decreases j
  {
    if i < j {
      RecallsRun(c, calls, t, n, i, j - 1);
      assert calls[..j][..j - 1] == calls[..j - 1];
      RecallsStep(After(c, calls[..j - 1]), calls[j - 1], t, n);
    }
  }

  predicate RespawnAt(calls: seq<Call>, i: nat)
    requires i < |calls|
  {
    AnswerAt(CLOSED, calls, i).Said? && AnswerAt(CLOSED, calls, i).verdict.Respawn?
  }

  /** Any three respawn verdicts span at least one window. */
  lemma ThreeRespawnsSpanAWindow(calls: seq<Call>, i: nat, j: nat, k: nat)
    requires Ordered(calls) && i < j < k < |calls|
    requires RespawnAt(calls, i) && RespawnAt(calls, j) && RespawnAt(calls, k)
    ensures calls[k].at >= calls[i].at + WINDOW
  {
    hide After, Recorded, Refilled, Recent, Recalls, CountFrom;
    if calls[k].at < calls[i].at + WINDOW {
      var t := calls[i].at;
      RespawnRecalls(After(CLOSED, calls[..i]), calls[i]);
      AfterOneMore(CLOSED, calls, i);
      RecallsRun(CLOSED, calls, t, 1, i + 1, j);
      RecallsStep(After(CLOSED, calls[..j]), calls[j], t, 1);
      AfterOneMore(CLOSED, calls, j);
      RecallsRun(CLOSED, calls, t, 2, j + 1, k);
      RecallsStep(After(CLOSED, calls[..k]), calls[k], t, 2);
    }
  }

  lemma RespawnRecalls(c: Circuit, call: Call)
    requires Apply(c, call).1.Said? && Apply(c, call).1.verdict.Respawn?
    ensures Recalls(Apply(c, call).0, call.at, 1)
  {
    RecentKeepsNow(c.crashes, call.at);
    CountFromAppend(Recent(c.crashes, call.at), [call.at], call.at);
  }

  lemma AfterOneMore(c: Circuit, calls: seq<Call>, i: nat)
    requires i < |calls|
    ensures After(c, calls[..i + 1]) == Apply(After(c, calls[..i]), calls[i]).0
  {
    assert calls[..i + 1][..i] == calls[..i];
  }

  /** A probe recalls two crashes at its own time. */
  lemma ProbeRecalls(c: Circuit, call: Call)
    requires c.openUntil.Some? && Grants(Apply(c, call).1)
    ensures Recalls(Apply(c, call).0, call.at, 2)
  {
    assert CountFrom([call.at, call.at], call.at) == 2;
  }

  /** A crash within one window of a half-open probe, however the probe was granted,
      is not answered with a respawn. */
  lemma ProbeMustProveItself(calls: seq<Call>, i: nat, j: nat)
    requires Ordered(calls) && i < j < |calls|
    requires After(CLOSED, calls[..i]).openUntil.Some? && Grants(AnswerAt(CLOSED, calls, i))
    requires calls[j].Crash? && calls[j].at < calls[i].at + WINDOW
    ensures AnswerAt(CLOSED, calls, j) == Said(CircuitOpen)
  {
    var t := calls[i].at;
    ProbeRecalls(After(CLOSED, calls[..i]), calls[i]);
    AfterOneMore(CLOSED, calls, i);
    RecallsRun(CLOSED, calls, t, 2, i + 1, j);
    RecallsStep(After(CLOSED, calls[..j]), calls[j], t, 2);
  }

  /** Once opened, by the threshold or by a failed spawn, the circuit grants nothing for
      a whole cooldown. */
  lemma OpenMeansCooldown(calls: seq<Call>, i: nat, j: nat)
    requires Ordered(calls) && i < j < |calls|
    requires calls[i].SpawnFailed? ||
      (After(CLOSED, calls[..i]).openUntil.None? && AnswerAt(CLOSED, calls, i) == Said(CircuitOpen))
    requires calls[j].at < calls[i].at + COOLDOWN
    ensures !Grants(AnswerAt(CLOSED, calls, j))
  {
    AfterOneMore(CLOSED, calls, i);
    StaysOpen(CLOSED, calls, calls[i].at + COOLDOWN, i + 1, j);
  }

  lemma StaysOpenStep(c: Circuit, call: Call, until: Time)
    requires c.openUntil.Some? && c.openUntil.value >= until && call.at < until <= call.at + COOLDOWN
    ensures var c' := Apply(c, call).0; c'.openUntil.Some? && c'.openUntil.value >= until
  {
  }

  lemma {:induction false} StaysOpen(c: Circuit, calls: seq<Call>, until: Time, i: nat, j: nat)
    requires i <= j <= |calls|
    requires After(c, calls[..i]).openUntil.Some? && After(c, calls[..i]).openUntil.value >= until
    requires forall k :: i <= k < j ==> calls[k].at < until && until <= calls[k].at + COOLDOWN
    ensures After(c, calls[..j]).openUntil.Some? && After(c, calls[..j]).openUntil.value >= until
    decreases j
  {
    hide After, Recorded, Refilled;
    if i < j {
      StaysOpen(c, calls, until, i, j - 1);
      AfterOneMore(c, calls, j - 1);
      StaysOpenStep(After(c, calls[..j - 1]), calls[j - 1], until);
    }
  }
}
