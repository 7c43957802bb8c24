/** Starting an agent pool lazily: wake attempts, retries, and the main loop around them. */
module PoolLifecycles {
  import opened Wrappers

  type Pool = nat
  type Time = nat

  const U32_MAX: nat := 0xFFFF_FFFF
  const U64_MAX: nat := 0xFFFF_FFFF_FFFF_FFFF
  const INITIAL_DELAY: nat := 5
  const MAX_DELAY: nat := 300

  function Min(a: nat, b: nat): nat { if a < b then a else b }

  // ---- The delay

  function Pow2(n: nat): (p: nat)
    ensures p > 0
  {
    if n == 0 then 1 else 2 * Pow2(n - 1)
  }

  /** `retry_delay`, with the shift and the multiplication of 64-bit numbers. */
  function RetryDelay(attempt: nat): nat {
    var exponent := Min(if attempt == 0 then 0 else attempt - 1, 63);
    var shifted := if exponent < 64 then Pow2(exponent) % (U64_MAX + 1) else U64_MAX;
    Min(Min(INITIAL_DELAY * shifted, U64_MAX), MAX_DELAY)
  }

  lemma {:induction false} Pow2Grows(a: nat, b: nat)
    requires a <= b
    ensures Pow2(a) <= Pow2(b)
  {
    if a < b {
      Pow2Grows(a, b - 1);
    }
  }

  lemma Pow2Values()
    ensures Pow2(6) == 64 && Pow2(63) == 0x8000_0000_0000_0000
  {
    assert Pow2(8) == 256;
    assert Pow2(16) == 0x1_0000;
    assert Pow2(24) == 0x100_0000;
    assert Pow2(32) == 0x1_0000_0000;
    assert Pow2(40) == 0x100_0000_0000;
    assert Pow2(48) == 0x1_0000_0000_0000;
    assert Pow2(56) == 0x100_0000_0000_0000;
  }

  /** For every attempt the delay doubles from five seconds up to five minutes: capping the
      exponent, shifting and saturating never show. */
  lemma DelayDoublesToTheCap(attempt: nat)
    requires attempt >= 1
    ensures RetryDelay(attempt) == Min(MAX_DELAY, INITIAL_DELAY * Pow2(attempt - 1))
  {
    Pow2Values();
    hide Pow2;
    var exponent := Min(attempt - 1, 63);
    ShiftFits(exponent);
    if attempt - 1 >= 6 {
      Pow2Grows(6, attempt - 1);
      Pow2Grows(6, exponent);
    }
  }

  lemma ShiftFits(exponent: nat)
    requires exponent <= 63
    ensures Pow2(exponent) % (U64_MAX + 1) == Pow2(exponent)
  {
    hide Pow2;
    Pow2Values();
    Pow2Grows(exponent, 63);
    SmallModulo(Pow2(exponent), U64_MAX + 1);
  }

  lemma SmallModulo(a: nat, m: nat)
    requires a < m
    ensures a % m == a
  {
  }

  // ---- The lifecycle

  datatype Lifecycle =
    | Listening
    | Waking(attempt: nat)
    | Ready(pool: Pool)
    | Failed(failedAttempt: nat, retryAt: Time, error: string)

  /** The attempt to start now, if any. */
  function DueAttempt(l: Lifecycle, pendingWork: bool, now: Time): Option<nat> {
    if !pendingWork then None
    else
      match l
      case Listening => Some(1)
      case Failed(attempt, retryAt, _) => if now >= retryAt then Some(Min(attempt + 1, U32_MAX)) else None
      case Waking(_) => None
      case Ready(_) => None
  }

  function Started(l: Lifecycle, pendingWork: bool, now: Time): Lifecycle {
    var due := DueAttempt(l, pendingWork, now);
    if due.Some? then Waking(due.value) else l
  }

  predicate Fresh(l: Lifecycle, attempt: nat) { l == Waking(attempt) }

  function Completed(l: Lifecycle, attempt: nat, result: Result<Pool, string>, now: Time): Lifecycle {
    if !Fresh(l, attempt) then l
    else
      match result
      case Ok(pool) => Ready(pool)
      case Err(error) => Failed(attempt, now + RetryDelay(attempt), error)
  }

  class PoolLifecycle {
    var state: Lifecycle

    constructor ()
      ensures state == Listening
    {
      state := Listening;
    }

    method StartWakeIfDue(pendingWork: bool, now: Time) returns (attempt: Option<nat>)
      modifies this
      ensures attempt == DueAttempt(old(state), pendingWork, now)
      ensures state == Started(old(state), pendingWork, now)
      ensures attempt.Some? <==>
        pendingWork && (old(state).Listening? || (old(state).Failed? && now >= old(state).retryAt))
      ensures attempt.Some? ==> state == Waking(attempt.value)
    {
      if !pendingWork {
        return None;
      }
      attempt := None;
      match state {
        case Listening => attempt := Some(1);
        case Failed(failed, retryAt, _) =>
          if now >= retryAt {
            attempt := Some(Min(failed + 1, U32_MAX));
          }
        case Waking(_) =>
        case Ready(_) =>
      }
      if attempt.Some? {
        state := Waking(attempt.value);
      }
    }

    method TakeReady() returns (pool: Option<Pool>)
      modifies this
      ensures old(state).Ready? ==> pool == Some(old(state).pool) && state == Listening
      ensures !old(state).Ready? ==> pool == None && state == old(state)
    {
      var was := state;
      state := Listening;
      if was.Ready? {
        return Some(was.pool);
      }
      state := was;
      pool := None;
    }

    method WakingAttempt() returns (attempt: Option<nat>)
      ensures attempt == if state.Waking? then Some(state.attempt) else None
    {
      attempt := if state.Waking? then Some(state.attempt) else None;
    }

    method CompleteWake(attempt: nat, result: Result<Pool, string>, now: Time) returns (ok: bool)
      modifies this
      ensures ok == Fresh(old(state), attempt) && state == Completed(old(state), attempt, result, now)
    {
      if state.Waking? && state.attempt == attempt {
        match result {
          case Ok(pool) => state := Ready(pool);
          case Err(error) => state := Failed(attempt, now + RetryDelay(attempt), error);
        }
        return true;
      }
      ok := false;
    }

    method CancelWake(attempt: nat, error: string, now: Time) returns (ok: bool)
      modifies this
      ensures ok == Fresh(old(state), attempt) && state == Completed(old(state), attempt, Err(error), now)
    {
      ok := CompleteWake(attempt, Err(error), now);
    }
  }

  // ---- The main loop

  /** The loop's state: wake tasks running, results queued and panics not yet joined, by
      attempt; whether a pool is installed; and how many wakes were ever started. */
  datatype Loop = Loop(
    lifecycle: Lifecycle,
    poolReady: bool,
    installed: seq<Pool>,
    running: multiset<nat>,
    results: seq<(nat, Result<Pool, string>)>,
    panicked: multiset<nat>,
    now: Time,
    started: nat)

  function InitialLoop(now: Time): Loop { Loop(Listening, false, [], multiset{}, [], multiset{}, now, 0) }

  datatype Action =
    | Top(pendingWork: bool)
    | Finish(attempt: nat, result: Result<Pool, string>)
    | Panic(attempt: nat)
    | Receive
    | Join(panicAttempt: nat, message: string)
    | Elapse(time: nat)

  function Next(s: Loop, a: Action): Loop {
    match a
    case Top(pendingWork) =>
      if s.poolReady then s
      else
        var due := DueAttempt(s.lifecycle, pendingWork, s.now);
        if due.None? then s
        else
          s.(lifecycle := Started(s.lifecycle, pendingWork, s.now),
             running := s.running + multiset{due.value},
             started := s.started + 1)
    case Finish(attempt, result) =>
      if attempt in s.running then
        s.(running := s.running - multiset{attempt}, results := s.results + [(attempt, result)])
      else s
    case Panic(attempt) =>
      if attempt in s.running then
        s.(running := s.running - multiset{attempt}, panicked := s.panicked + multiset{attempt})
      else s
    case Receive =>
      if s.poolReady || s.results == [] then s
      else
        var (attempt, result) := s.results[0];
        var rest := s.(results := s.results[1..]);
        var done := Completed(s.lifecycle, attempt, result, s.now);
        if Fresh(s.lifecycle, attempt) && result.Ok? then
          rest.(lifecycle := Listening, poolReady := true, installed := s.installed + [result.value])
        else rest.(lifecycle := done)
    case Join(attempt, message) =>
      if attempt in s.panicked then
        var rest := s.(panicked := s.panicked - multiset{attempt});
        if s.lifecycle.Waking? then
          rest.(lifecycle := Completed(s.lifecycle, s.lifecycle.attempt, Err(message), s.now))
        else rest
      else s
    case Elapse(time) => s.(now := s.now + time)
  }

  function After(actions: seq<Action>, now: Time): Loop {
    if actions == [] then InitialLoop(now)
    else Next(After(actions[..|actions| - 1], now), actions[|actions| - 1])
  }

  /** Wakes still owing an outcome. */
  function InFlight(s: Loop): nat { |s.running| + |s.results| + |s.panicked| }

  ghost predicate Inv(s: Loop) {
    && |s.installed| == (if s.poolReady then 1 else 0)
    && (s.poolReady ==> s.lifecycle == Listening && InFlight(s) == 0)
    && !s.lifecycle.Ready?
    && InFlight(s) == (if s.lifecycle.Waking? then 1 else 0)
    && (s.lifecycle.Waking? ==>
          && s.lifecycle.attempt == Min(s.started, U32_MAX)
          && (s.running == multiset{s.lifecycle.attempt}
              || s.panicked == multiset{s.lifecycle.attempt}
              || (s.results != [] && s.results[0].0 == s.lifecycle.attempt)))
    && (s.lifecycle.Failed? ==> s.lifecycle.failedAttempt == Min(s.started, U32_MAX))
    && (s.lifecycle.Listening? && !s.poolReady ==> s.started == 0)
  }

  lemma OneOnly(m: multiset<nat>, x: nat)
    requires |m| <= 1 && x in m
    ensures m == multiset{x} && |m| == 1 && m - multiset{x} == multiset{}
  {
    assert m == multiset{x} + (m - multiset{x});
    assert |m| == 1 + |m - multiset{x}|;
  }

  lemma OutcomeKeepsInv(s: Loop, a: Action)
    requires Inv(s) && (a.Finish? || a.Panic?)
    ensures Inv(Next(s, a))
  {
    var attempt := a.attempt;
    if attempt in s.running {
      OneOnly(s.running, attempt);
      assert |s.panicked| == 0 && |s.results| == 0;
      assert s.panicked + multiset{attempt} == multiset{attempt};
      assert s.running == multiset{s.lifecycle.attempt} && attempt == s.lifecycle.attempt;
    }
  }

  lemma ReceiveKeepsInv(s: Loop)
    requires Inv(s)
    ensures Inv(Next(s, Receive))
  {
    hide RetryDelay;
    if !s.poolReady && s.results != [] {
      assert |s.running| == 0 && |s.panicked| == 0 && |s.results| == 1;
      assert Fresh(s.lifecycle, s.results[0].0);
    }
  }

  lemma JoinKeepsInv(s: Loop, a: Action)
    requires Inv(s) && a.Join?
    ensures Inv(Next(s, a))
  {
    hide RetryDelay;
    if a.panicAttempt in s.panicked {
      OneOnly(s.panicked, a.panicAttempt);
      assert |s.running| == 0 && |s.results| == 0;
    }
  }

  lemma TopKeepsInv(s: Loop, a: Action)
    requires Inv(s) && a.Top?
    ensures Inv(Next(s, a))
  {
    if !s.poolReady && DueAttempt(s.lifecycle, a.pendingWork, s.now).Some? {
      assert |s.running| == 0;
      assert s.running == multiset{};
    }
  }

  lemma StepKeepsInv(s: Loop, a: Action)
    requires Inv(s)
    ensures Inv(Next(s, a))
  {
    if a.Elapse? {
    } else {
      hide Inv, Next;
      if a.Top? {
        TopKeepsInv(s, a);
      } else if a.Receive? {
        ReceiveKeepsInv(s);
      } else if a.Join? {
        JoinKeepsInv(s, a);
      } else {
        OutcomeKeepsInv(s, a);
      }
    }
  }

  /** Every run: at most one wake owes an outcome, exactly while the lifecycle is waking, and
      at most one pool is ever installed. */
  lemma {:induction false} EveryRunWakesOnceAtATime(actions: seq<Action>, now: Time)
    ensures Inv(After(actions, now))
    ensures InFlight(After(actions, now)) <= 1 && |After(actions, now).installed| <= 1
  {
    hide Next;
    if actions != [] {
      EveryRunWakesOnceAtATime(actions[..|actions| - 1], now);
      StepKeepsInv(After(actions[..|actions| - 1], now), actions[|actions| - 1]);
    }
  }

  /** Attempts count up by one from one, up to the largest 32-bit number: the attempt a new
      wake carries is its number. */
  lemma AttemptsCountWakes(actions: seq<Action>, now: Time, pendingWork: bool)
    requires After(actions + [Top(pendingWork)], now).started > After(actions, now).started
    ensures After(actions + [Top(pendingWork)], now).started == After(actions, now).started + 1
    ensures After(actions + [Top(pendingWork)], now).lifecycle
         == Waking(Min(After(actions, now).started + 1, U32_MAX))
  {
    var all := actions + [Top(pendingWork)];
    assert all[..|all| - 1] == actions;
    EveryRunWakesOnceAtATime(actions, now);
    hide After;
  }

  /** No stale result ever arrives: one that is queued is the only outcome due and carries
      the attempt the lifecycle is waking with. */
  lemma QueuedResultIsCurrent(actions: seq<Action>, now: Time)
    requires After(actions, now).results != []
    ensures var s := After(actions, now); |s.results| == 1 && Fresh(s.lifecycle, s.results[0].0) && !s.poolReady
  {
    EveryRunWakesOnceAtATime(actions, now);
    hide After;
    var s := After(actions, now);
    assert |s.running| == 0 && |s.panicked| == 0;
  }

  /** When the retry timer has fired and work is still pending, the next pass of the loop
      starts a new wake. */
  lemma FiredTimerWakes(actions: seq<Action>, now: Time)
    requires var s := After(actions, now); s.lifecycle.Failed? && s.now >= s.lifecycle.retryAt
    ensures
      var s, t := After(actions, now), After(actions + [Top(true)], now);
      t.lifecycle.Waking? && t.started == s.started + 1 && t.running == multiset{t.lifecycle.attempt}
  {
    var all := actions + [Top(true)];
    assert all[..|all| - 1] == actions;
    EveryRunWakesOnceAtATime(actions, now);
    hide After;
    var s := After(actions, now);
    assert |s.running| == 0;
    assert s.running == multiset{};
  }

  // ---- When a wake starts and what it brings

  lemma AfterOneMore(actions: seq<Action>, a: Action, now: Time)
    ensures After(actions + [a], now) == Next(After(actions, now), a)
  {
    assert (actions + [a])[..|actions|] == actions;
  }

  /** A pass of the loop starts a wake exactly when there is work, no pool yet, and the
      lifecycle is idle: fresh, or failed with its retry time reached. The first attempt is
      number one. */
  lemma WakeStartsExactly(actions: seq<Action>, now: Time, pendingWork: bool)
    ensures
      var s, t := After(actions, now), After(actions + [Top(pendingWork)], now);
      var starts := pendingWork && !s.poolReady
        && (s.lifecycle == Listening || (s.lifecycle.Failed? && s.now >= s.lifecycle.retryAt));
      && (starts ==> t.lifecycle == Waking(Min(s.started + 1, U32_MAX)) && t.started == s.started + 1
                     && t.running == multiset{t.lifecycle.attempt})
      && (!starts ==> t == s)
      && (s.lifecycle == Listening && !s.poolReady ==> s.started == 0)
  {
    hide After, Inv, Next, InFlight;
    AfterOneMore(actions, Top(pendingWork), now);
    EveryRunWakesOnceAtATime(actions, now);
    NothingRunsWhenIdle(After(actions, now));
    TopStarts(After(actions, now), pendingWork);
  }

  lemma TopStarts(s: Loop, pendingWork: bool)
    requires !s.poolReady && !s.lifecycle.Waking? ==> s.running == multiset{}
    requires s.lifecycle == Listening && !s.poolReady ==> s.started == 0
    requires s.lifecycle.Failed? ==> s.lifecycle.failedAttempt == Min(s.started, U32_MAX)
    ensures
      var t := Next(s, Top(pendingWork));
      var starts := pendingWork && !s.poolReady
        && (s.lifecycle == Listening || (s.lifecycle.Failed? && s.now >= s.lifecycle.retryAt));
      && (starts ==> t.lifecycle == Waking(Min(s.started + 1, U32_MAX)) && t.started == s.started + 1
                     && t.running == multiset{t.lifecycle.attempt})
      && (!starts ==> t == s)
  {
  }

  lemma NothingRunsWhenIdle(s: Loop)
    requires Inv(s)
    ensures !s.poolReady && !s.lifecycle.Waking? ==> s.running == multiset{}
    ensures s.lifecycle == Listening && !s.poolReady ==> s.started == 0
    ensures s.lifecycle.Failed? ==> !s.poolReady && s.lifecycle.failedAttempt == Min(s.started, U32_MAX)
    ensures !s.lifecycle.Ready?
  {
    if !s.lifecycle.Waking? {
      assert |s.running| == 0;
    }
  }

  /** The result of a wake decides: its pool is the one installed, and the lifecycle is
      fresh for the next; its error is kept with the time of the next attempt. */
  lemma ResultDecides(actions: seq<Action>, now: Time)
    requires After(actions, now).results != []
    ensures
      var s, t := After(actions, now), After(actions + [Receive], now);
      && t.results == [] && t.running == s.running && t.started == s.started
      && match s.results[0].1
         case Ok(pool) => t.poolReady && t.installed == [pool] && t.lifecycle == Listening
         case Err(error) =>
           && !t.poolReady && t.installed == []
           && t.lifecycle.Failed? && t.lifecycle.error == error && t.lifecycle.failedAttempt == s.results[0].0
           && t.lifecycle.retryAt == s.now + RetryDelay(s.results[0].0)
  {
    var all := actions + [Receive];
    assert all[..|all| - 1] == actions;
    EveryRunWakesOnceAtATime(actions, now);
    QueuedResultIsCurrent(actions, now);
    hide After, RetryDelay;
    var s := After(actions, now);
    assert s.installed == [];
  }

  /** A wake that panicked is a failed one. */
  lemma PanicFails(actions: seq<Action>, now: Time, attempt: nat, message: string)
    requires attempt in After(actions, now).panicked
    ensures
      var s, t := After(actions, now), After(actions + [Join(attempt, message)], now);
      && s.lifecycle == Waking(attempt)
      && t.lifecycle == Failed(attempt, s.now + RetryDelay(attempt), message)
      && InFlight(t) == 0 && t.installed == s.installed == []
  {
    var all := actions + [Join(attempt, message)];
    assert all[..|all| - 1] == actions;
    EveryRunWakesOnceAtATime(actions, now);
    hide After, RetryDelay;
    var s := After(actions, now);
    OneOnly(s.panicked, attempt);
    assert |s.running| == 0 && |s.results| == 0;
  }
}
