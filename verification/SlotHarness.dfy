/** The objects behind slot ownership: the bounded respawn channel, the guard that
    always leaves a result, and the main loop's slot tables. */
module SlotHarnesses {
  import opened Wrappers
  import opened AgentSlots
  import C = SlotCircuits

  class RespawnChannel {
    const capacity: nat
    var queue: seq<Respawned>

    constructor (capacity: nat)
      ensures this.capacity == capacity && queue == []
    {
      this.capacity, queue := capacity, [];
    }

    method Offer(r: Respawned) returns (ok: bool)
      modifies this`queue
      ensures (queue, ok) == TrySend(old(queue), capacity, r)
    {
      if |queue| >= capacity { return false; }
      queue := queue + [r];
      return true;
    }
  }

  /** Owned by one respawn task.  Whether that sends, panics or is aborted, the
      guard goes out of scope and its destructor runs. */
  class RespawnGuard {
    const index: nat
    const tx: RespawnChannel
    var sent: bool

    constructor (index: nat, tx: RespawnChannel)
      ensures this.index == index && this.tx == tx && !sent
    {
      this.index, this.tx, sent := index, tx, false;
    }

    /** Send the result; the guard is consumed, so the destructor follows. */
    method Send(ok: bool)
      requires !sent
      modifies this`sent, tx`queue
      ensures tx.queue == GuardSends(old(tx.queue), tx.capacity, Respawned(index, ok))
    {
      var done := tx.Offer(Respawned(index, ok));
      if done { sent := true; }
      Destroy();
    }

    method Destroy()
      modifies tx`queue
      ensures tx.queue == if sent then old(tx.queue) else TrySend(old(tx.queue), tx.capacity, Respawned(index, false)).0
    {
      if !sent {
        var _ := tx.Offer(Respawned(index, false));
      }
    }
  }

  class SlotHarness {
    const agents: array<bool>
    const circuits: array<C.Circuit>
    const respawnInFlight: array<bool>
    var taskMap: seq<nat>
    var running: seq<nat>
    const tx: RespawnChannel

    /** As `from_slots`: some slots filled, closed circuits, nothing in flight. */
    constructor (filled: seq<bool>)
      ensures Valid() && fresh(agents) && fresh(circuits) && fresh(respawnInFlight) && fresh(tx)
      ensures Initial(Abs()) && Abs().idle == filled
    {
      var a, c, f := new bool[|filled|](i requires 0 <= i < |filled| => filled[i]),
                     new C.Circuit[|filled|](_ => C.CLOSED), new bool[|filled|](_ => false);
      agents, circuits, respawnInFlight, taskMap, running := a, c, f, [], [];
      tx := new RespawnChannel(|filled|);
      new;
      assert agents[..] == filled;
    }

    ghost predicate Valid()
      reads this, tx
    {
      && agents != respawnInFlight
      && agents.Length == circuits.Length == respawnInFlight.Length == tx.capacity
    }

    ghost function Abs(): Pool
      reads this, agents, circuits, respawnInFlight, tx
    {
      Pool(agents[..], taskMap, circuits[..], respawnInFlight[..], running, tx.queue)
    }

    /** Prefer the first idle agent with a session for the channel, else the first idle. */
    method TryClaim(withSession: seq<bool>) returns (claimed: Option<nat>)
      requires Valid() && Shaped(Abs()) && |withSession| == agents.Length
      modifies this`taskMap, agents
      ensures Valid()
      ensures claimed.None? <==> forall i :: 0 <= i < agents.Length ==> !old(agents[..])[i]
      ensures claimed.Some? ==>
        && old(Enabled(Abs(), Claim(claimed.value)))
        && Abs() == Next(old(Abs()), Claim(claimed.value))
        && (withSession[claimed.value] || forall i :: 0 <= i < agents.Length && old(agents[..])[i] ==> !withSession[i])
      ensures claimed.None? ==> Abs() == old(Abs())
    {
      var i := 0;
      while i < agents.Length && !(agents[i] && withSession[i])
        invariant i <= agents.Length
        invariant forall j :: 0 <= j < i ==> !(agents[j] && withSession[j])
      {
        i := i + 1;
      }
      if i == agents.Length {
        i := 0;
        while i < agents.Length && !agents[i]
          invariant i <= agents.Length
          invariant forall j :: 0 <= j < i ==> !agents[j]
        {
          i := i + 1;
        }
        if i == agents.Length { return None; }
      }
      agents[i] := false;
      taskMap := taskMap + [i];
      assert agents[..] == old(agents[..])[i := false];
      return Some(i);
    }

    method ReturnAgent(i: nat)
      requires Valid() && i < agents.Length
      modifies agents
      ensures Valid() && agents[..] == old(agents[..])[i := true]
      ensures Abs() == old(Abs()).(idle := old(agents[..])[i := true])
    {
      agents[i] := true;
    }

    /** Record a crash; unless the circuit is open, start a respawn task. */
    method SpawnRespawnTask(i: nat, now: Time) returns (spawned: bool)
      requires Valid() && i < agents.Length
      modifies this`running, circuits, respawnInFlight
      ensures Valid() && Abs() == Crashed(old(Abs()), i, now)
      ensures spawned <==> !C.Recorded(old(circuits[i]), now).1.CircuitOpen?
    {
      hide C.Recorded;
      ghost var c0, f0 := circuits[..], respawnInFlight[..];
      var (c, verdict) := C.Recorded(circuits[i], now);
      circuits[i] := c;
      assert circuits[..] == c0[i := c];
      if verdict.CircuitOpen? { return false; }
      respawnInFlight[i] := true;
      running := running + [i];
      assert respawnInFlight[..] == f0[i := true];
      return true;
    }

    /** A prompt task's result reaches the main loop. */
    method HandlePromptResult(k: nat, fate: Fate)
      requires Valid() && Enabled(Abs(), Finish(k, fate))
      modifies this`taskMap, this`running, agents, circuits, respawnInFlight
      ensures Valid() && Abs() == Next(old(Abs()), Finish(k, fate))
    {
      hide Crashed;
      var a := taskMap[k];
      assert a in taskMap;
      taskMap := Retain(taskMap, a);
      match fate
      case Healthy => ReturnAgent(a);
      case Dead(at) => var _ := SpawnRespawnTask(a, at);
    }

    method RecoverPanickedAgent(k: nat, at: Time)
      requires Valid() && Enabled(Abs(), Panic(k, at))
      modifies this`taskMap, this`running, circuits, respawnInFlight
      ensures Valid() && Abs() == Next(old(Abs()), Panic(k, at))
    {
      hide Crashed;
      var a := taskMap[k];
      assert a in taskMap;
      taskMap := Drop(taskMap, k);
      var _ := SpawnRespawnTask(a, at);
    }

    method SlotAlive(i: nat) returns (alive: bool)
      requires Valid() && i < agents.Length
      ensures alive == Alive(Abs(), i)
    {
      return agents[i] || i in taskMap;
    }

    /** One slot of the maintenance sweep. */
    method MaintainSlot(i: nat, at: Time)
      requires Valid() && Enabled(Abs(), Maintain(i, at))
      modifies this`running, circuits, respawnInFlight
      ensures Valid() && Abs() == Next(old(Abs()), Maintain(i, at))
    {
      hide C.Refilled;
      ghost var c0, f0 := circuits[..], respawnInFlight[..];
      var alive := SlotAlive(i);
      if alive || respawnInFlight[i] { return; }
      var (c, ok) := C.Refilled(circuits[i], at);
      circuits[i] := c;
      assert circuits[..] == c0[i := c];
      if !ok { return; }
      respawnInFlight[i] := true;
      running := running + [i];
      assert respawnInFlight[..] == f0[i := true];
    }

    /** A respawn task finishes and sends, or dies and leaves it to the destructor. */
    method RespawnTaskEnds(r: nat, result: Option<bool>)
      requires Valid() && Shaped(Abs()) && r < |running|
      modifies this`running, tx`queue
      ensures Valid()
      ensures Abs() == Next(old(Abs()), if result.Some? then RespawnEnds(r, result.value) else RespawnAborts(r))
    {
      var guard := new RespawnGuard(running[r], tx);
      running := Drop(running, r);
      match result
      case Some(ok) => guard.Send(ok);
      case None => guard.Destroy();
    }

    /** Collect one respawn result. */
    method CollectRespawn(now: Time)
      requires Valid() && Enabled(Abs(), Collect(now))
      modifies agents, circuits, respawnInFlight, tx`queue
      ensures Valid() && Abs() == Next(old(Abs()), Collect(now))
    {
      ghost var c0, f0 := circuits[..], respawnInFlight[..];
      var r := tx.queue[0];
      assert r in tx.queue;
      tx.queue := tx.queue[1..];
      respawnInFlight[r.index] := false;
      assert respawnInFlight[..] == f0[r.index := false];
      if r.ok {
        ReturnAgent(r.index);
      } else {
        circuits[r.index] := C.SpawnFailedAt(circuits[r.index], now);
        assert circuits[..] == c0[r.index := C.SpawnFailedAt(c0[r.index], now)];
      }
    }
  }
}
