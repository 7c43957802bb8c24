/** Agent slot ownership: pool slots, prompt tasks, respawn tasks and the bounded
    channel their results come back through.  Each step is one thing the main loop or
    a task does; the invariant holds in every reachable state. */
module AgentSlots {
  import opened Wrappers
  import C = SlotCircuits

  type Time = C.Time

  /** A respawn task's result for a slot. */
  datatype Respawned = Respawned(index: nat, ok: bool)

  /** `idle[i]`: an agent sits in slot i.  `tasks` are the agent indices of the prompt
      tasks in the map of tasks, `running` those of the respawn tasks, `channel` the
      results not yet collected; its capacity is the number of slots. */
  datatype Pool = Pool(
    idle: seq<bool>,
    tasks: seq<nat>,
    circuits: seq<C.Circuit>,
    inFlight: seq<bool>,
    running: seq<nat>,
    channel: seq<Respawned>)

  function Slots(p: Pool): nat { |p.idle| }

  datatype Fate = Healthy | Dead(at: Time)

  datatype Step =
    | Claim(i: nat)
    | Finish(k: nat, fate: Fate)
    | Panic(k: nat, at: Time)
    | Maintain(i: nat, at: Time)
    | RespawnEnds(r: nat, ok: bool)
    | RespawnAborts(r: nat)
    | Collect(at: Time)

  function Drop<T>(s: seq<T>, k: nat): (r: seq<T>)
    requires k < |s|
    ensures forall x :: x in r ==> x in s
  {
    s[..k] + s[k + 1..]
  }

  /** `task_map.retain(|m| m.agent_index != a)`. */
  function Retain(tasks: seq<nat>, a: nat): (r: seq<nat>)
    ensures a !in r && forall x :: x in r ==> x in tasks
  {
    if tasks == [] then [] else (if tasks[0] == a then [] else [tasks[0]]) + Retain(tasks[1..], a)
  }

  predicate Alive(p: Pool, i: nat)
    requires i < Slots(p)
  {
    p.idle[i] || i in p.tasks
  }

  function LiveCount(p: Pool): nat {
    CountTrue(p.idle) + |p.tasks|
  }

  function CountTrue(bs: seq<bool>): (n: nat)
    ensures n == 0 <==> forall i :: 0 <= i < |bs| ==> !bs[i]
  {
    if bs == [] then 0 else CountTrue(bs[..|bs| - 1]) + (if bs[|bs| - 1] then 1 else 0)
  }

  /** A crash is recorded; unless the circuit is open a respawn task starts. */
  function Crashed(p: Pool, i: nat, at: Time): Pool
    requires i < |p.circuits| && i < |p.inFlight|
  {
    var (c, verdict) := C.Recorded(p.circuits[i], at);
    var p1 := p.(circuits := p.circuits[i := c]);
    if verdict.CircuitOpen? then p1 else Spawned(p1, i)
  }

  function Spawned(p: Pool, i: nat): Pool
    requires i < |p.inFlight|
  {
    p.(inFlight := p.inFlight[i := true], running := p.running + [i])
  }

  /** The guard's `try_send`, and the second attempt its destructor makes. */
  function TrySend(channel: seq<Respawned>, capacity: nat, r: Respawned): (seq<Respawned>, bool) {
    if |channel| < capacity then (channel + [r], true) else (channel, false)
  }

  function GuardSends(channel: seq<Respawned>, capacity: nat, r: Respawned): seq<Respawned> {
    var (c, sent) := TrySend(channel, capacity, r);
    if sent then c else TrySend(c, capacity, Respawned(r.index, false)).0
  }

  predicate Shaped(p: Pool) {
    && |p.circuits| == Slots(p) && |p.inFlight| == Slots(p)
    && (forall i :: i in p.tasks ==> i < Slots(p))
    && (forall i :: i in p.running ==> i < Slots(p))
    && (forall r :: r in p.channel ==> r.index < Slots(p))
  }

  predicate Enabled(p: Pool, s: Step)
  {
    && Shaped(p)
    && match s
       case Claim(i) => i < Slots(p) && p.idle[i]
       case Finish(k, _) => k < |p.tasks|
       case Panic(k, _) => k < |p.tasks|
       case Maintain(i, _) => i < Slots(p)
       case RespawnEnds(r, _) => r < |p.running|
       case RespawnAborts(r) => r < |p.running|
       case Collect(_) => p.channel != []
  }

  function Next(p: Pool, s: Step): Pool
    requires Enabled(p, s)
  {
    match s
    case Claim(i) => p.(idle := p.idle[i := false], tasks := p.tasks + [i])
    case Finish(k, fate) =>
      var a := p.tasks[k];
      assert a in p.tasks;
      var p1 := p.(tasks := Retain(p.tasks, a));
      if fate.Healthy? then p1.(idle := p.idle[a := true]) else Crashed(p1, a, fate.at)
    case Panic(k, at) =>
      var a := p.tasks[k];
      assert a in p.tasks;
      Crashed(p.(tasks := Drop(p.tasks, k)), a, at)
    case Maintain(i, at) =>
      if Alive(p, i) || p.inFlight[i] then p
      else
        var (c, ok) := C.Refilled(p.circuits[i], at);
        var p1 := p.(circuits := p.circuits[i := c]);
        if ok then Spawned(p1, i) else p1
    case RespawnEnds(r, ok) =>
      p.(running := Drop(p.running, r), channel := GuardSends(p.channel, Slots(p), Respawned(p.running[r], ok)))
    case RespawnAborts(r) =>
      p.(running := Drop(p.running, r), channel := TrySend(p.channel, Slots(p), Respawned(p.running[r], false)).0)
    case Collect(at) =>
      var r := p.channel[0];
      assert r in p.channel;
      var p1 := p.(channel := p.channel[1..], inFlight := p.inFlight[r.index := false]);
      if r.ok then p1.(idle := p.idle[r.index := true])
      else p1.(circuits := p.circuits[r.index := C.SpawnFailedAt(p.circuits[r.index], at)])
  }

  function Play(p: Pool, steps: seq<Step>): Option<Pool> {
    if steps == [] then Some(p)
    else
      match Play(p, steps[..|steps| - 1])
      case None => None
      case Some(q) => if Enabled(q, steps[|steps| - 1]) then Some(Next(q, steps[|steps| - 1])) else None
  }

  // ---------------------------------------------------------------------- ownership

  function Indices(channel: seq<Respawned>): (r: seq<nat>)
    ensures |r| == |channel|
  {
    seq(|channel|, i requires 0 <= i < |channel| => channel[i].index)
  }

  function Count(s: seq<nat>, i: nat): nat { multiset(s)[i] }

  /** How many respawns of slot i are running or waiting to be collected. */
  function Respawns(p: Pool, i: nat): nat {
    Count(p.running, i) + Count(Indices(p.channel), i)
  }

  /** How many owners slot i has. */
  function Owners(p: Pool, i: nat): nat
    requires i < Slots(p)
  {
    (if p.idle[i] then 1 else 0) + Count(p.tasks, i) + Respawns(p, i)
  }

  /** Every slot has at most one owner, and its flag is set exactly while a respawn
      task runs for it or a result waits for it. */
  ghost predicate OwnedAt(p: Pool, i: nat)
    requires i < Slots(p) && |p.inFlight| == Slots(p)
  {
    Owners(p, i) <= 1 && (p.inFlight[i] <==> Respawns(p, i) == 1)
  }

  ghost predicate Inv(p: Pool) {
    Shaped(p) && forall i :: 0 <= i < Slots(p) ==> OwnedAt(p, i)
  }

  datatype Status = Idle | CheckedOut | Respawning | Empty

  /** The four conditions a slot can be in, each stated by itself. */
  predicate Is(p: Pool, i: nat, s: Status)
    requires i < Slots(p) && |p.inFlight| == Slots(p)
  {
    match s
    case Idle => p.idle[i]
    case CheckedOut => i in p.tasks
    case Respawning => p.inFlight[i]
    case Empty => !Alive(p, i) && !p.inFlight[i]
  }

  /** Every slot is always in exactly one of them. */
  lemma ExactlyOneStatus(p: Pool, i: nat)
    requires Inv(p) && i < Slots(p)
    ensures exists s :: Is(p, i, s) && forall t :: Is(p, i, t) ==> t == s
  {
    assert OwnedAt(p, i);
    var s := if p.idle[i] then Idle else if i in p.tasks then CheckedOut else if p.inFlight[i] then Respawning else Empty;
    assert Is(p, i, s);
    forall t | Is(p, i, t) ensures t == s {
    }
  }

  // ------------------------------------------------------------------------ counting

  lemma CountAppend(s: seq<nat>, x: nat, i: nat)
    ensures Count(s + [x], i) == Count(s, i) + (if x == i then 1 else 0)
  {
  }

  lemma CountDrop(s: seq<nat>, k: nat, i: nat)
    requires k < |s|
    ensures Count(s, i) == Count(Drop(s, k), i) + (if s[k] == i then 1 else 0)
  {
    assert s == s[..k] + [s[k]] + s[k + 1..];
  }

  lemma {:induction false} CountRetain(s: seq<nat>, a: nat, i: nat)
    ensures Count(Retain(s, a), i) == if i == a then 0 else Count(s, i)
  {
    if s != [] {
      CountRetain(s[1..], a, i);
      assert s == [s[0]] + s[1..];
    }
  }

  lemma NoneBelowZero(s: seq<nat>)
    ensures s == [] || s[0] in s
  {
  }

  /** Distinct indices below n are at most n. */
  lemma {:induction false} Pigeonhole(s: seq<nat>, n: nat)
    requires forall x :: x in s ==> x < n && Count(s, x) <= 1
    ensures |s| <= n
  {
    if n > 0 && n - 1 in s {
      var k :| 0 <= k < |s| && s[k] == n - 1;
      var d := Drop(s, k);
      forall x | x in d ensures x < n - 1 && Count(d, x) <= 1 {
        CountDrop(s, k, x);
        CountDrop(s, k, n - 1);
        assert x in s;
      }
      Pigeonhole(d, n - 1);
    } else if n > 0 {
      Pigeonhole(s, n - 1);
    } else {
      NoneBelowZero(s);
    }
  }

  /** Running tasks and waiting results together never exceed the slots. */
  lemma RespawnsFit(p: Pool)
    requires Inv(p)
    ensures |p.running| + |p.channel| <= Slots(p)
  {
    var all := p.running + Indices(p.channel);
    forall x | x in all ensures x < Slots(p) && Count(all, x) <= 1 {
      if x !in p.running {
        var k :| 0 <= k < |p.channel| && Indices(p.channel)[k] == x;
        assert p.channel[k] in p.channel;
      }
      assert OwnedAt(p, x);
    }
    Pigeonhole(all, Slots(p));
  }

  /** The guard's `try_send` never finds the channel full, so each respawn task leaves
      exactly its own result, a failure if it panicked or was aborted. */
  lemma TrySendNeverFails(p: Pool, r: nat)
    requires Inv(p) && r < |p.running|
    ensures |p.channel| < Slots(p)
    ensures forall ok :: Next(p, RespawnEnds(r, ok)).channel == p.channel + [Respawned(p.running[r], ok)]
    ensures Next(p, RespawnAborts(r)).channel == p.channel + [Respawned(p.running[r], false)]
  {
    RespawnsFit(p);
  }

  // --------------------------------------------------------------------- preservation

  lemma ClaimKeeps(p: Pool, i: nat)
    requires Inv(p) && Enabled(p, Claim(i))
    ensures Inv(Next(p, Claim(i)))
  {
    var q := Next(p, Claim(i));
    forall j | 0 <= j < Slots(p) ensures OwnedAt(q, j) {
      assert OwnedAt(p, j);
      CountAppend(p.tasks, i, j);
    }
  }

  /** A slot whose task is over has no owner left, so a respawn may begin. */
  lemma CrashKeeps(p: Pool, i: nat, at: Time)
    requires Inv(p) && i < Slots(p) && Owners(p, i) == 0
    ensures Inv(Crashed(p, i, at))
  {
    hide C.Recorded;
    var (c, v) := C.Recorded(p.circuits[i], at);
    var p1 := p.(circuits := p.circuits[i := c]);
    forall j | 0 <= j < Slots(p) ensures OwnedAt(p1, j) { assert OwnedAt(p, j); }
    SpawnKeeps(p1, i);
  }

  lemma SpawnKeeps(p: Pool, i: nat)
    requires Inv(p) && i < Slots(p) && Owners(p, i) == 0
    ensures Inv(Spawned(p, i))
  {
    var q := Spawned(p, i);
    forall j | 0 <= j < Slots(p) ensures OwnedAt(q, j) {
      assert OwnedAt(p, j);
      CountAppend(p.running, i, j);
    }
  }

  lemma ReturnKeeps(p: Pool, i: nat)
    requires Inv(p) && i < Slots(p) && Owners(p, i) == 0
    ensures Inv(p.(idle := p.idle[i := true]))
  {
    var q := p.(idle := p.idle[i := true]);
    forall j | 0 <= j < Slots(p) ensures OwnedAt(q, j) { assert OwnedAt(p, j); }
  }

  lemma RetainKeeps(p: Pool, a: nat)
    requires Inv(p) && a in p.tasks
    ensures var p1 := p.(tasks := Retain(p.tasks, a)); Inv(p1) && Owners(p1, a) == 0
  {
    hide Retain, Count;
    var p1 := p.(tasks := Retain(p.tasks, a));
    assert OwnedAt(p, a) && Count(p.tasks, a) >= 1 by { InTasks(p, a); }
    forall j | 0 <= j < Slots(p) ensures OwnedAt(p1, j) && (j == a ==> Owners(p1, j) == 0) {
      assert OwnedAt(p, j);
      CountRetain(p.tasks, a, j);
    }
  }

  lemma InTasks(p: Pool, a: nat)
    requires a in p.tasks
    ensures Count(p.tasks, a) >= 1
  {
  }

  lemma FinishKeeps(p: Pool, k: nat, fate: Fate)
    requires Inv(p) && Enabled(p, Finish(k, fate))
    ensures Inv(Next(p, Finish(k, fate)))
  {
    hide Crashed, Inv, Owners, Retain;
    var a := p.tasks[k];
    assert a in p.tasks;
    var p1 := p.(tasks := Retain(p.tasks, a));
    RetainKeeps(p, a);
    if fate.Healthy? {
      ReturnKeeps(p1, a);
    } else {
      CrashKeeps(p1, a, fate.at);
    }
  }

  lemma PanicKeeps(p: Pool, k: nat, at: Time)
    requires Inv(p) && Enabled(p, Panic(k, at))
    ensures Inv(Next(p, Panic(k, at)))
  {
    hide Crashed;
    var a := p.tasks[k];
    assert a in p.tasks;
    var p1 := p.(tasks := Drop(p.tasks, k));
    forall j | 0 <= j < Slots(p) ensures OwnedAt(p1, j) && (j == a ==> Owners(p1, j) == 0) {
      assert OwnedAt(p, j);
      CountDrop(p.tasks, k, j);
    }
    CrashKeeps(p1, a, at);
  }

  lemma MaintainKeeps(p: Pool, i: nat, at: Time)
    requires Inv(p) && Enabled(p, Maintain(i, at))
    ensures Inv(Next(p, Maintain(i, at)))
  {
    hide C.Refilled;
    if !Alive(p, i) && !p.inFlight[i] {
      var (c, ok) := C.Refilled(p.circuits[i], at);
      var p1 := p.(circuits := p.circuits[i := c]);
      forall j | 0 <= j < Slots(p) ensures OwnedAt(p1, j) { assert OwnedAt(p, j); }
      assert OwnedAt(p, i);
      if ok { SpawnKeeps(p1, i); }
    }
  }

  lemma RespawnOverKeeps(p: Pool, r: nat, ok: bool)
    requires Inv(p) && r < |p.running|
    ensures Inv(p.(running := Drop(p.running, r), channel := p.channel + [Respawned(p.running[r], ok)]))
  {
    var q := p.(running := Drop(p.running, r), channel := p.channel + [Respawned(p.running[r], ok)]);
    assert p.running[r] in p.running;
    assert Indices(q.channel) == Indices(p.channel) + [p.running[r]];
    forall j | 0 <= j < Slots(p) ensures OwnedAt(q, j) {
      assert OwnedAt(p, j);
      CountDrop(p.running, r, j);
      CountAppend(Indices(p.channel), p.running[r], j);
    }
  }

  lemma CollectKeeps(p: Pool, at: Time)
    requires Inv(p) && Enabled(p, Collect(at))
    ensures Inv(Next(p, Collect(at)))
  {
    var q, r := Next(p, Collect(at)), p.channel[0];
    assert r in p.channel;
    assert Indices(q.channel) == Drop(Indices(p.channel), 0);
    forall j | 0 <= j < Slots(p) ensures OwnedAt(q, j) {
      assert OwnedAt(p, j);
      CountDrop(Indices(p.channel), 0, j);
    }
  }

  lemma StepKeeps(p: Pool, s: Step)
    requires Inv(p) && Enabled(p, s)
    ensures Inv(Next(p, s))
  {
    hide Inv;
    match s
    case Claim(i) => ClaimKeeps(p, i);
    case Finish(k, fate) => FinishKeeps(p, k, fate);
    case Panic(k, at) => PanicKeeps(p, k, at);
    case Maintain(i, at) => MaintainKeeps(p, i, at);
    case RespawnEnds(r, ok) => TrySendNeverFails(p, r); RespawnOverKeeps(p, r, ok);
    case RespawnAborts(r) => TrySendNeverFails(p, r); RespawnOverKeeps(p, r, false);
    case Collect(at) => CollectKeeps(p, at);
  }

  /** A pool as `from_slots` builds it: some slots filled, nothing in flight. */
  predicate Initial(p: Pool) {
    && Shaped(p) && p.tasks == [] && p.running == [] && p.channel == []
    && forall i :: 0 <= i < Slots(p) ==> !p.inFlight[i]
  }

  /** Slot ownership holds in every reachable state. */
  lemma {:induction false} OwnershipHolds(p: Pool, steps: seq<Step>)
    requires Initial(p)
    ensures Play(p, steps).Some? ==> Inv(Play(p, steps).value)
  {
    hide Inv, Next, Enabled;
    if steps == [] {
      InitialHolds(p);
    } else {
      OwnershipHolds(p, steps[..|steps| - 1]);
      var before := Play(p, steps[..|steps| - 1]);
      if before.Some? && Enabled(before.value, steps[|steps| - 1]) {
        StepKeeps(before.value, steps[|steps| - 1]);
      }
    }
  }

  lemma InitialHolds(p: Pool)
    requires Initial(p)
    ensures Inv(p)
  {
    forall i | 0 <= i < Slots(p) ensures OwnedAt(p, i) {
      assert |Indices(p.channel)| == 0;
    }
  }

  // -------------------------------------------------------------------- consequences

  /** Whenever an agent comes back to a slot, from a task or a respawn, the slot is
      vacant: nothing idle there, no other task, no other respawn. */
  lemma NoLiveAgentOverwritten(p: Pool, s: Step)
    requires Inv(p) && Enabled(p, s)
    requires (s.Finish? && s.fate.Healthy?) || (s.Collect? && p.channel[0].ok)
    ensures var i := if s.Finish? then p.tasks[s.k] else p.channel[0].index;
      && i < Slots(p) && !p.idle[i]
      && Next(p, s).idle == p.idle[i := true]
      && i !in Next(p, s).tasks && Respawns(Next(p, s), i) == 0
  {
    if s.Finish? {
      assert p.tasks[s.k] in p.tasks && OwnedAt(p, p.tasks[s.k]);
    } else {
      var r := p.channel[0];
      assert r in p.channel && OwnedAt(p, r.index);
      assert Indices(p.channel)[0] == r.index;
      CountDrop(Indices(p.channel), 0, r.index);
      assert Indices(p.channel[1..]) == Drop(Indices(p.channel), 0);
    }
  }

  /** Handling a result removes exactly its own entry from the map of tasks. */
  lemma OneEntryRetired(p: Pool, k: nat)
    requires Inv(p) && k < |p.tasks|
    ensures |Retain(p.tasks, p.tasks[k])| == |p.tasks| - 1
  {
    var a := p.tasks[k];
    assert a in p.tasks && OwnedAt(p, a);
    RetainLength(p.tasks, a);
  }

  lemma {:induction false} RetainLength(s: seq<nat>, a: nat)
    ensures |Retain(s, a)| + Count(s, a) == |s|
  {
    if s != [] {
      RetainLength(s[1..], a);
      assert s == [s[0]] + s[1..];
    }
  }

  /** The "all agents dead" test holds exactly when every slot is empty. */
  lemma AllDeadMeansAllEmpty(p: Pool)
    requires Inv(p)
    ensures LiveCount(p) == 0 && (forall i :: 0 <= i < Slots(p) ==> !p.inFlight[i])
      <==> forall i :: 0 <= i < Slots(p) ==> Is(p, i, Empty)
  {
    if forall i :: 0 <= i < Slots(p) ==> Is(p, i, Empty) {
      forall i | 0 <= i < Slots(p) ensures !p.idle[i] && !p.inFlight[i] {
        assert Is(p, i, Empty);
      }
      NoneBelowZero(p.tasks);
      assert p.tasks == [] || Is(p, p.tasks[0], Empty);
    }
  }
}
