/** What becomes of an agent and its slot: a dead one is never put back, its crash counts and
    a respawn starts unless the circuit is open; and a slot is idle only for a reason. */
module AgentFates {
  import opened Wrappers
  import opened AgentSlots
  import C = SlotCircuits

  /** Slot `j` is as it was. */
  predicate Untouched(p: Pool, r: Pool, j: nat)
    requires Shaped(p) && Shaped(r) && Slots(p) == Slots(r) && j < Slots(p)
  {
    && r.idle[j] == p.idle[j] && r.circuits[j] == p.circuits[j] && r.inFlight[j] == p.inFlight[j]
    && Count(r.tasks, j) == Count(p.tasks, j) && Respawns(r, j) == Respawns(p, j)
  }

  /** Refused: the circuit is open at this time. */
  predicate OpenAt(c: C.Circuit, at: Time) { c.openUntil.Some? && at < c.openUntil.value }

  /** A prompt task that ended with its agent dead or by a panic, and when. */
  predicate EndsDead(p: Pool, s: Step, a: nat, at: Time) {
    || (s.Finish? && s.k < |p.tasks| && p.tasks[s.k] == a && s.fate == Dead(at))
    || (s.Panic? && s.k < |p.tasks| && p.tasks[s.k] == a && s.at == at)
  }

  lemma CrashOutcome(c: C.Circuit, at: Time)
    ensures var (c', v) := C.Recorded(c, at);
      && (v.CircuitOpen? <==> OpenAt(c', at))
      && (c.openUntil.None? ==> at in c'.crashes)
      && (c.openUntil.None? && |C.Recent(c.crashes, at)| < C.THRESHOLD - 1 ==> !v.CircuitOpen?)
      && (c.openUntil.Some? ==> (v.CircuitOpen? <==> at < c.openUntil.value))
  {
    C.RecentKeepsNow(c.crashes, at);
  }

  lemma TaskEnds(p: Pool, s: Step, a: nat, at: Time) returns (p1: Pool)
    requires Inv(p) && Enabled(p, s) && EndsDead(p, s, a, at)
    ensures a < Slots(p) && p1 == p.(tasks := p1.tasks) && Inv(p1) && Next(p, s) == Crashed(p1, a, at)
    ensures Owners(p1, a) == 0 && !p.idle[a]
    ensures forall j :: 0 <= j < Slots(p) && j != a ==> Count(p1.tasks, j) == Count(p.tasks, j)
  {
    hide Crashed;
    assert a in p.tasks;
    InTasks(p, a);
    assert OwnedAt(p, a);
    if s.Finish? {
      p1 := p.(tasks := Retain(p.tasks, a));
      RetainKeeps(p, a);
      forall j | 0 <= j < Slots(p) && j != a ensures Count(p1.tasks, j) == Count(p.tasks, j) {
        CountRetain(p.tasks, a, j);
      }
    } else {
      p1 := p.(tasks := Drop(p.tasks, s.k));
      forall j | 0 <= j < Slots(p)
        ensures OwnedAt(p1, j) && (j == a ==> Owners(p1, j) == 0)
        ensures j != a ==> Count(p1.tasks, j) == Count(p.tasks, j)
      {
        assert OwnedAt(p, j);
        CountDrop(p.tasks, s.k, j);
      }
    }
  }

  /** A dead agent, or one whose task panicked, is not put back and its task is gone. Its
      crash goes through the slot's circuit: either exactly one respawn of it starts, with the
      flag set, or the circuit is open. With a closed circuit and fewer than two crashes in
      the window it is the respawn. No other slot is touched. */
  lemma DeadAgentsAreReplaced(p: Pool, s: Step, a: nat, at: Time)
    requires Inv(p) && Enabled(p, s) && EndsDead(p, s, a, at)
    ensures Inv(Next(p, s)) && a < Slots(p) && Slots(Next(p, s)) == Slots(p)
    ensures
      var r := Next(p, s);
      && !r.idle[a] && a !in r.tasks
      && (if OpenAt(r.circuits[a], at) then Respawns(r, a) == 0 && !r.inFlight[a]
          else Respawns(r, a) == 1 && a in r.running && r.inFlight[a])
      && (p.circuits[a].openUntil.None? ==> at in r.circuits[a].crashes)
      && (p.circuits[a].openUntil.None? && |C.Recent(p.circuits[a].crashes, at)| < 2 ==> !OpenAt(r.circuits[a], at))
      && (p.circuits[a].openUntil.Some? ==> (OpenAt(r.circuits[a], at) <==> at < p.circuits[a].openUntil.value))
    ensures forall j :: 0 <= j < Slots(p) && j != a ==> Untouched(p, Next(p, s), j)
  {
    var p1 := TaskEnds(p, s, a, at);
    CrashKeeps(p1, a, at);
    CrashOutcome(p1.circuits[a], at);
    CrashedShape(p1, a, at);
    hide Next, Inv, C.Recorded, Crashed;
  }

  lemma CrashedShape(p: Pool, a: nat, at: Time)
    requires Inv(p) && a < Slots(p) && Owners(p, a) == 0
    ensures
      var r := Crashed(p, a, at);
      && Shaped(r) && Slots(r) == Slots(p)
      && !r.idle[a] && a !in r.tasks && r.circuits[a] == C.Recorded(p.circuits[a], at).0
      && (if C.Recorded(p.circuits[a], at).1.CircuitOpen? then Respawns(r, a) == 0 && !r.inFlight[a]
          else Respawns(r, a) == 1 && a in r.running && r.inFlight[a])
      && forall j :: 0 <= j < Slots(p) && j != a ==> Untouched(p, r, j)
  {
    hide C.Recorded;
    assert OwnedAt(p, a);
    if a in p.tasks {
      InTasks(p, a);
    }
    var r := Crashed(p, a, at);
    forall j | 0 <= j < Slots(p) ensures j != a ==> Untouched(p, r, j) {
      CountAppend(p.running, a, j);
    }
    CountAppend(p.running, a, a);
  }

  /** Claiming checks the agent out: the slot is no longer idle and one task holds it. */
  lemma ClaimChecksOut(p: Pool, i: nat)
    requires Inv(p) && Enabled(p, Claim(i))
    ensures
      var r := Next(p, Claim(i));
      && Inv(r) && !r.idle[i] && Count(r.tasks, i) == 1 && !r.inFlight[i]
      && forall j :: 0 <= j < Slots(p) && j != i ==> Untouched(p, r, j)
  {
    ClaimKeeps(p, i);
    assert OwnedAt(p, i);
    forall j | 0 <= j < Slots(p)
      ensures Count(p.tasks + [i], j) == Count(p.tasks, j) + if j == i then 1 else 0
    {
      CountAppend(p.tasks, i, j);
    }
  }

  /** An empty slot without a respawn in flight is refilled exactly when its circuit is not
      open; a circuit whose cooldown is over is then closed with two crashes on record, so
      that the next one in their window reopens it. Any other slot is left alone. */
  lemma MaintenanceRefills(p: Pool, i: nat, at: Time)
    requires Inv(p) && i < Slots(p)
    ensures
      var r := Next(p, Maintain(i, at));
      && Shaped(r) && r.idle == p.idle && r.tasks == p.tasks && r.channel == p.channel
      && (if !p.idle[i] && i !in p.tasks && !p.inFlight[i] && !OpenAt(p.circuits[i], at) then
            && r.running == p.running + [i] && r.inFlight == p.inFlight[i := true]
            && r.circuits == p.circuits[i := if p.circuits[i].openUntil.None? then p.circuits[i] else C.Circuit([at, at], None)]
          else r == p)
  {
    assert p.circuits[i := p.circuits[i]] == p.circuits;
  }

  /** Collecting a result clears the slot's flag; a success fills the slot, a failure leaves it
      empty with its circuit open for a whole cooldown. */
  lemma CollectionSettles(p: Pool, at: Time)
    requires Inv(p) && p.channel != []
    ensures p.channel[0].index < Slots(p)
    ensures
      var r, i := Next(p, Collect(at)), p.channel[0].index;
      && !r.inFlight[i] && r.channel == p.channel[1..] && r.running == p.running
      && (p.channel[0].ok ==> r.idle == p.idle[i := true] && r.circuits == p.circuits)
      && (!p.channel[0].ok ==> r.idle == p.idle && !r.idle[i] && r.circuits[i].openUntil == Some(at + C.COOLDOWN))
  {
    var i := p.channel[0].index;
    assert p.channel[0] in p.channel && OwnedAt(p, i);
    assert Indices(p.channel)[0] == i;
    CountDrop(Indices(p.channel), 0, i);
  }

  // --------------------------------------------------------------- why a slot is idle

  /** The step puts an agent into slot `i`: a healthy finish of it or a successful collect. */
  predicate Restores(p: Pool, s: Step, i: nat) {
    || (s.Finish? && s.k < |p.tasks| && p.tasks[s.k] == i && s.fate.Healthy?)
    || (s.Collect? && p.channel != [] && p.channel[0] == Respawned(i, true))
  }

  lemma OnlyRestoringFills(p: Pool, s: Step, i: nat)
    requires Inv(p) && Enabled(p, s) && i < Slots(p) && !p.idle[i]
    ensures Slots(Next(p, s)) == Slots(p) && (Next(p, s).idle[i] <==> Restores(p, s, i))
  {
    hide C.Recorded, C.Refilled;
    assert s.Collect? ==> p.channel[0] in p.channel;
    assert s.Finish? || s.Panic? ==> p.tasks[s.k] in p.tasks;
  }

  lemma SlotsStay(p: Pool, s: Step)
    requires Enabled(p, s)
    ensures Slots(Next(p, s)) == Slots(p)
  {
    hide C.Recorded, C.Refilled;
    assert s.Collect? ==> p.channel[0] in p.channel;
    assert s.Finish? || s.Panic? ==> p.tasks[s.k] in p.tasks;
  }

  lemma {:induction false} PlayKeepsSlots(p: Pool, steps: seq<Step>)
    requires Play(p, steps).Some?
    ensures Slots(Play(p, steps).value) == Slots(p)
  {
    hide Next, Enabled;
    if steps != [] {
      PlayKeepsSlots(p, steps[..|steps| - 1]);
      SlotsStay(Play(p, steps[..|steps| - 1]).value, steps[|steps| - 1]);
    }
  }

  ghost predicate IdleSince(p: Pool, steps: seq<Step>, j: nat, i: nat) {
    && j <= |steps|
    && forall n :: j <= n <= |steps| ==>
         Play(p, steps[..n]).Some? && i < Slots(Play(p, steps[..n]).value) && Play(p, steps[..n]).value.idle[i]
  }

  /** Every idle slot of every run has been idle since it was filled at the start, or since a
      step that restored it: a healthy finish or a successful collect. */
  lemma {:induction false} IdleForAReason(p: Pool, steps: seq<Step>, i: nat) returns (j: nat)
    requires Initial(p) && Play(p, steps).Some? && i < Slots(p)
    requires Slots(Play(p, steps).value) == Slots(p) && Play(p, steps).value.idle[i]
    ensures IdleSince(p, steps, j, i)
    ensures j == 0 || (Play(p, steps[..j - 1]).Some? && Restores(Play(p, steps[..j - 1]).value, steps[j - 1], i))
  {
    hide Next, Enabled, Restores, Inv, Initial;
    assert steps[..|steps|] == steps;
    j := |steps|;
    if steps != [] {
      var n := |steps| - 1;
      var before := Play(p, steps[..n]).value;
      OwnershipHolds(p, steps[..n]);
      PlayKeepsSlots(p, steps[..n]);
      if before.idle[i] {
        j := IdleForAReason(p, steps[..n], i);
        forall m | j <= m <= |steps|
          ensures Play(p, steps[..m]).Some? && i < Slots(Play(p, steps[..m]).value) && Play(p, steps[..m]).value.idle[i]
        {
          if m <= n {
            assert steps[..n][..m] == steps[..m];
          }
        }
        if j > 0 {
          assert steps[..n][..j - 1] == steps[..j - 1];
        }
      } else {
        OnlyRestoringFills(before, steps[n], i);
      }
    }
  }
}
