/** What a circuit must grant, stated on the calls made and the answers given. */
module CircuitLaws {
  import opened Wrappers
  import opened SlotCircuits

  // ------------------------------------------------------------------ cooling down

  /** The `j`-th call opens the circuit: a failed spawn, or a crash that a closed circuit
      answers as open. */
  predicate Opens(calls: seq<Call>, j: nat)
    requires j < |calls|
  {
    calls[j].SpawnFailed? || (After(CLOSED, calls[..j]).openUntil.None? && AnswerAt(CLOSED, calls, j) == Said(CircuitOpen))
  }

  /** The `i`-th call comes within the cooldown of an opening before it. */
  ghost predicate Cooling(calls: seq<Call>, i: nat)
    requires i < |calls|
  {
    exists j: nat :: j < i && Opens(calls, j) && calls[i].at < calls[j].at + COOLDOWN
  }

  lemma {:induction false} DeadlineOf(calls: seq<Call>, n: nat) returns (j: nat)
    requires n <= |calls| && After(CLOSED, calls[..n]).openUntil.Some?
    ensures j < n && Opens(calls, j) && After(CLOSED, calls[..n]).openUntil.value == calls[j].at + COOLDOWN
    decreases n
  {
    AfterOneMore(CLOSED, calls, n - 1);
    hide Recent;
    var before := After(CLOSED, calls[..n - 1]);
    if before.openUntil.Some? && !calls[n - 1].SpawnFailed? {
      j := DeadlineOf(calls, n - 1);
    } else {
      j := n - 1;
    }
  }

  lemma OpeningSets(calls: seq<Call>, j: nat)
    requires j < |calls| && Opens(calls, j)
    ensures After(CLOSED, calls[..j + 1]).openUntil == Some(calls[j].at + COOLDOWN)
  {
    AfterOneMore(CLOSED, calls, j);
    hide Recent;
  }

  /** The circuit is open at a call exactly while that call is within the cooldown of some
      opening. */
  lemma OpenExactlyWhileCooling(calls: seq<Call>, i: nat)
    requires Ordered(calls) && i < |calls|
    ensures var c := After(CLOSED, calls[..i]);
      (c.openUntil.Some? && calls[i].at < c.openUntil.value) <==> Cooling(calls, i)
  {
    var c := After(CLOSED, calls[..i]);
    if c.openUntil.Some? && calls[i].at < c.openUntil.value {
      var j := DeadlineOf(calls, i);
    }
    hide After, Opens;
    if Cooling(calls, i) {
      var j: nat :| j < i && Opens(calls, j) && calls[i].at < calls[j].at + COOLDOWN;
      OpenSince(calls, j, i);
    }
  }

  lemma OpenSince(calls: seq<Call>, j: nat, i: nat)
    requires Ordered(calls) && j < i < |calls| && Opens(calls, j) && calls[i].at < calls[j].at + COOLDOWN
    ensures var c := After(CLOSED, calls[..i]); c.openUntil.Some? && calls[i].at < c.openUntil.value
  {
    OpeningSets(calls, j);
    hide After, Opens;
    forall k | j + 1 <= k < i ensures calls[k].at < calls[j].at + COOLDOWN <= calls[k].at + COOLDOWN {
      assert calls[j].at <= calls[k].at <= calls[i].at;
    }
    hide Ordered;
    StaysOpen(CLOSED, calls, calls[j].at + COOLDOWN, j + 1, i);
  }

  /** A refill is allowed exactly when no opening is still cooling down. */
  lemma RefillExactly(calls: seq<Call>, i: nat)
    requires Ordered(calls) && i < |calls| && calls[i].Refill?
    ensures AnswerAt(CLOSED, calls, i) == Allowed(!Cooling(calls, i))
  {
    OpenExactlyWhileCooling(calls, i);
    hide After, Cooling;
  }

  /** A crash is refused while the circuit cools down; afterwards the first crash gets a
      probe. */
  lemma CrashAfterCooldown(calls: seq<Call>, i: nat)
    requires Ordered(calls) && i < |calls| && calls[i].Crash? && After(CLOSED, calls[..i]).openUntil.Some?
    ensures AnswerAt(CLOSED, calls, i) == Said(if Cooling(calls, i) then CircuitOpen else HalfOpenProbe)
  {
    OpenExactlyWhileCooling(calls, i);
    hide After, Cooling, Recent;
  }

  /** After five minutes without a call anything is granted, a crash with the shortest delay
      or as a probe. */
  lemma QuietSlotIsGranted(calls: seq<Call>, i: nat)
    requires Ordered(calls) && i < |calls| && !calls[i].SpawnFailed?
    requires forall j :: 0 <= j < i ==> calls[j].at + COOLDOWN <= calls[i].at
    ensures Grants(AnswerAt(CLOSED, calls, i))
    ensures calls[i].Crash? ==> AnswerAt(CLOSED, calls, i) in {Said(Respawn(BASE_DELAY)), Said(HalfOpenProbe)}
  {
    if calls[i].Refill? {
      RefillExactly(calls, i);
    } else {
      var c := After(CLOSED, calls[..i]);
      if c.openUntil.Some? {
        CrashAfterCooldown(calls, i);
      } else {
        CrashesAreCalls(calls, i);
        hide After;
        RecentKeepsNow(c.crashes, calls[i].at);
        NoneRecent(c.crashes, calls[i].at);
        assert Power2(0) == 1;
      }
    }
  }

  lemma {:induction false} NoneRecent(crashes: seq<Time>, now: Time)
    requires forall t :: t in crashes ==> t + WINDOW <= now
    ensures Recent(crashes, now) == []
  {
    if crashes != [] {
      assert crashes[0] in crashes && forall t :: t in crashes[1..] ==> t in crashes;
      NoneRecent(crashes[1..], now);
    }
  }

  /** Every remembered crash is the time of some call. */
  lemma {:induction false} CrashesAreCalls(calls: seq<Call>, n: nat)
    requires n <= |calls|
    ensures forall t :: t in After(CLOSED, calls[..n]).crashes ==> exists j :: 0 <= j < n && calls[j].at == t
    decreases n
  {
    if n > 0 {
      CrashesAreCalls(calls, n - 1);
      AfterOneMore(CLOSED, calls, n - 1);
      hide After;
    }
  }

  // ------------------------------------------------------------- before any opening

  /** Times of the crashes among the first `n` calls that are recent at `now`. */
  function RecentCrashes(calls: seq<Call>, n: nat, now: Time): seq<Time>
    requires n <= |calls|
  {
    if n == 0 then []
    else
      RecentCrashes(calls, n - 1, now)
      + if calls[n - 1].Crash? && now < calls[n - 1].at + WINDOW then [calls[n - 1].at] else []
  }

  lemma {:induction false} RecentTwice(crashes: seq<Time>, before: Time, now: Time)
    requires before <= now
    ensures Recent(Recent(crashes, before), now) == Recent(crashes, now)
  {
    if crashes != [] {
      RecentTwice(crashes[1..], before, now);
      RecentAppend(if before < crashes[0] + WINDOW then [crashes[0]] else [], Recent(crashes[1..], before), now);
    }
  }

  lemma Nothing(now: Time)
    ensures After(CLOSED, []) == CLOSED && Recent([], now) == []
  {
  }

  lemma {:induction false} RemembersRecent(calls: seq<Call>, n: nat, now: Time)
    requires Ordered(calls) && n <= |calls| && forall j :: 0 <= j < n ==> !Opens(calls, j) && calls[j].at <= now
    ensures After(CLOSED, calls[..n]).openUntil.None?
    ensures Recent(After(CLOSED, calls[..n]).crashes, now) == RecentCrashes(calls, n, now)
    decreases n
  {
    hide After, Apply, Recent, Ordered;
    if n == 0 {
      Nothing(now);
    } else {
      RemembersRecent(calls, n - 1, now);
      AfterOneMore(CLOSED, calls, n - 1);
      assert !Opens(calls, n - 1);
      StepRemembers(After(CLOSED, calls[..n - 1]), calls[n - 1], now);
    }
  }

  lemma StepRemembers(c: Circuit, call: Call, now: Time)
    requires c.openUntil.None? && !call.SpawnFailed? && call.at <= now
    requires Apply(c, call).1 != Said(CircuitOpen)
    ensures Apply(c, call).0.openUntil.None?
    ensures Recent(Apply(c, call).0.crashes, now)
         == Recent(c.crashes, now) + if call.Crash? && now < call.at + WINDOW then [call.at] else []
  {
    if call.Crash? {
      RecentTwice(c.crashes + [call.at], call.at, now);
      RecentAppend(c.crashes, [call.at], now);
      OneRecent(call.at, now);
    }
    hide Recent;
  }

  lemma OneRecent(t: Time, now: Time)
    ensures Recent([t], now) == if now < t + WINDOW then [t] else []
  {
    assert Recent([t][1..], now) == [];
  }

  /** As long as nothing has opened the circuit, a crash is answered by how many crashes, it
      included, fall into the last minute: the first with one second, the second with two,
      and the third opens the circuit. */
  lemma CrashCountsDecide(calls: seq<Call>, i: nat)
    requires Ordered(calls) && i < |calls| && calls[i].Crash? && forall j :: 0 <= j < i ==> !Opens(calls, j)
    ensures var n := |RecentCrashes(calls, i, calls[i].at)|;
      AnswerAt(CLOSED, calls, i)
      == Said(if n == 0 then Respawn(1_000) else if n == 1 then Respawn(2_000) else CircuitOpen)
  {
    RemembersRecent(calls, i, calls[i].at);
    hide After, Opens, RecentCrashes, Recent, Ordered, Recorded;
    VerdictByCount(After(CLOSED, calls[..i]), calls[i].at);
  }

  lemma VerdictByCount(c: Circuit, now: Time)
    requires c.openUntil.None?
    ensures var n := |Recent(c.crashes, now)|;
      Recorded(c, now).1 == if n == 0 then Respawn(1_000) else if n == 1 then Respawn(2_000) else CircuitOpen
  {
    RecentKeepsNow(c.crashes, now);
    hide Recent;
    assert Power2(0) == 1 && Power2(1) == 2;
  }
}
