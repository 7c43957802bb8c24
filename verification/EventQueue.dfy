/** The event queue's side table for steered events.  Each channel has a queue and a
    list of withheld events; a map without the channel stands for an empty list. */
module EventQueues {
  import opened Wrappers

  const MAX_PENDING_PER_CHANNEL: nat := 500

  type Channel = nat

  datatype Event = Event(id: nat, receivedAt: nat)

  datatype Chan = Chan(queue: seq<Event>, withheld: seq<Event>)

  // ------------------------------------------------------------- one channel's model

  /** Position of the first event with an id, or the length. */
  function Find(es: seq<Event>, id: nat): (i: nat)
    ensures i <= |es|
    ensures i < |es| ==> es[i].id == id
    ensures forall j :: 0 <= j < i ==> es[j].id != id
  {
    if es == [] then 0 else if es[0].id == id then 0 else 1 + Find(es[1..], id)
  }

  function RemoveAt(es: seq<Event>, i: nat): seq<Event>
    requires i < |es|
  {
    es[..i] + es[i + 1..]
  }

  lemma RemoveAtTakesOne(es: seq<Event>, i: nat)
    requires i < |es|
    ensures multiset(RemoveAt(es, i)) + multiset{es[i]} == multiset(es)
  {
    assert es == es[..i] + [es[i]] + es[i + 1..];
  }

  function Without(es: seq<Event>, id: nat): (r: seq<Event>)
    ensures forall e :: e in r <==> e in es && e.id != id
  {
    if es == [] then [] else (if es[0].id == id then [] else [es[0]]) + Without(es[1..], id)
  }

  function Capped(es: seq<Event>): seq<Event> {
    if |es| <= MAX_PENDING_PER_CHANNEL then es else es[..MAX_PENDING_PER_CHANNEL]
  }

  /** A full queue drops its oldest event to make room. */
  function Enqueue(c: Chan, e: Event): Chan {
    c.(queue := (if |c.queue| >= MAX_PENDING_PER_CHANNEL then c.queue[1..] else c.queue) + [e])
  }

  function Withhold(c: Chan, id: nat): Chan {
    var i := Find(c.queue, id);
    if i == |c.queue| then c
    else Chan(RemoveAt(c.queue, i), c.withheld + [c.queue[i]])
  }

  function Release(c: Chan, id: nat): Chan {
    var i := Find(c.withheld, id);
    if i == |c.withheld| then c
    else Chan(Capped([c.withheld[i]] + c.queue), RemoveAt(c.withheld, i))
  }

  function Remove(c: Chan, id: nat): Chan {
    Chan(Without(c.queue, id), Without(c.withheld, id))
  }

  function Recover(c: Chan): Chan {
    if c.withheld == [] then c else Chan(Capped(c.withheld + c.queue), [])
  }

  // ---------------------------------------------------------------------- the object

  class EventQueue {
    var queues: map<Channel, seq<Event>>
    var withheld: map<Channel, seq<Event>>
    var inFlight: set<Channel>
    const dropWhileInFlight: bool

    constructor (drop: bool)
      ensures Valid() && dropWhileInFlight == drop && inFlight == {}
      ensures forall c :: Of(c) == Chan([], [])
    {
      queues, withheld, inFlight, dropWhileInFlight := map[], map[], {}, drop;
    }

    /** The withheld table never keeps an empty entry. */
    ghost predicate Valid()
      reads this
    {
      forall c :: c in withheld ==> withheld[c] != []
    }

    function Of(c: Channel): Chan
      reads this
    {
      Chan(if c in queues then queues[c] else [], if c in withheld then withheld[c] else [])
    }

    method Push(c: Channel, e: Event) returns (accepted: bool)
      requires Valid()
      modifies this`queues
      ensures Valid()
      ensures accepted <==> !(dropWhileInFlight && c in inFlight)
      ensures Of(c) == if accepted then Enqueue(old(Of(c)), e) else old(Of(c))
      ensures forall d :: d != c ==> Of(d) == old(Of(d))
    {
      if dropWhileInFlight && c in inFlight { return false; }
      var q := if c in queues then queues[c] else [];
      if |q| >= MAX_PENDING_PER_CHANNEL { q := q[1..]; }
      queues := queues[c := q + [e]];
      return true;
    }

    /** Move an event from the queue to the side table, so that no flush can see it. */
    method MarkNativeSteerPending(c: Channel, id: nat) returns (found: bool)
      requires Valid()
      modifies this`queues, this`withheld
      ensures Valid()
      ensures found <==> Find(old(Of(c)).queue, id) < |old(Of(c)).queue|
      ensures Of(c) == Withhold(old(Of(c)), id)
      ensures forall d :: d != c ==> Of(d) == old(Of(d))
    {
      if c !in queues { return false; }
      var q := queues[c];
      var pos := Find(q, id);
      if pos == |q| { return false; }
      var e := q[pos];
      q := RemoveAt(q, pos);
      queues := if q == [] then queues - {c} else queues[c := q];
      withheld := withheld[c := (if c in withheld then withheld[c] else []) + [e]];
      return true;
    }

    /** Give a withheld event back to the front of its queue; nothing if it is gone. */
    method ReleaseNativeSteer(c: Channel, id: nat)
      requires Valid()
      modifies this`queues, this`withheld
      ensures Valid() && Of(c) == Release(old(Of(c)), id)
      ensures forall d :: d != c ==> Of(d) == old(Of(d))
    {
      if c !in withheld { return; }
      var entries := withheld[c];
      var pos := Find(entries, id);
      if pos == |entries| { return; }
      var e := entries[pos];
      entries := RemoveAt(entries, pos);
      withheld := if entries == [] then withheld - {c} else withheld[c := entries];
      var q := [e] + (if c in queues then queues[c] else []);
      ghost var full := q;
      while |q| > MAX_PENDING_PER_CHANNEL
        invariant |q| <= |full| && q == full[..|q|]
        invariant |q| >= MAX_PENDING_PER_CHANNEL || q == full
      {
        q := q[..|q| - 1];
      }
      queues := queues[c := q];
    }

    /** A delivered event leaves both stores. */
    method RemoveEvent(c: Channel, id: nat)
      requires Valid()
      modifies this`queues, this`withheld
      ensures Valid() && Of(c) == Remove(old(Of(c)), id)
      ensures forall d :: d != c ==> Of(d) == old(Of(d))
    {
      if c in withheld {
        var entries := Without(withheld[c], id);
        withheld := if entries == [] then withheld - {c} else withheld[c := entries];
      }
      if c in queues {
        var q := Without(queues[c], id);
        queues := if q == [] then queues - {c} else queues[c := q];
      }
    }

    /** An in-flight entry expired: everything withheld goes back, in order. */
    method RecoverWithheld(c: Channel)
      requires Valid()
      modifies this`queues, this`withheld
      ensures Valid() && Of(c) == Recover(old(Of(c)))
      ensures forall d :: d != c ==> Of(d) == old(Of(d))
    {
      if c !in withheld { return; }
      var entries := withheld[c];
      withheld := withheld - {c};
      var q := if c in queues then queues[c] else [];
      ghost var q0 := q;
      var i := |entries|;
      while i > 0
        invariant 0 <= i <= |entries| && q == entries[i..] + q0
      {
        i := i - 1;
        q := [entries[i]] + q;
      }
      ghost var full := q;
      while |q| > MAX_PENDING_PER_CHANNEL
        invariant |q| <= |full| && q == full[..|q|]
        invariant |q| >= MAX_PENDING_PER_CHANNEL || q == full
      {
        q := q[..|q| - 1];
      }
      queues := queues[c := q];
    }

    /** The agent was removed from the channel: its events are stale. */
    method DrainChannel(c: Channel) returns (ids: seq<nat>)
      requires Valid()
      modifies this`queues, this`withheld
      ensures Valid() && Of(c) == Chan([], [])
      ensures |ids| == |old(Of(c)).queue| && forall i :: 0 <= i < |ids| ==> ids[i] == old(Of(c)).queue[i].id
      ensures forall d :: d != c ==> Of(d) == old(Of(d))
    {
      var q := if c in queues then queues[c] else [];
      ids := seq(|q|, i requires 0 <= i < |q| => q[i].id);
      queues := queues - {c};
      withheld := withheld - {c};
    }
  }

  // ------------------------------------------------------------------------ properties

  /** Withholding hides an event without losing any. */
  lemma WithholdMoves(c: Chan, id: nat)
    ensures var r := Withhold(c, id);
      && multiset(r.queue) + multiset(r.withheld) == multiset(c.queue) + multiset(c.withheld)
      && |r.withheld| == |c.withheld| + (if Find(c.queue, id) < |c.queue| then 1 else 0)
  {
    if Find(c.queue, id) < |c.queue| { RemoveAtTakesOne(c.queue, Find(c.queue, id)); }
  }

  /** A release puts the event at the head; when the queue was full exactly its newest
      event makes room. */
  lemma ReleaseReturns(c: Chan, id: nat)
    requires |c.queue| <= MAX_PENDING_PER_CHANNEL && Find(c.withheld, id) < |c.withheld|
    ensures var r := Release(c, id);
      && r.queue != [] && r.queue[0] == c.withheld[Find(c.withheld, id)]
      && multiset(r.queue) + multiset(r.withheld) + multiset(if |c.queue| == MAX_PENDING_PER_CHANNEL then [c.queue[|c.queue| - 1]] else [])
         == multiset(c.queue) + multiset(c.withheld)
  {
    var i := Find(c.withheld, id);
    hide RemoveAt, Capped;
    var e, r := c.withheld[i], Release(c, id);
    var shed: seq<Event> := if |c.queue| == MAX_PENDING_PER_CHANNEL then [c.queue[|c.queue| - 1]] else [];
    RemoveAtTakesOne(c.withheld, i);
    CappedFront(e, c.queue);
    assert r == Chan(Capped([e] + c.queue), RemoveAt(c.withheld, i));
    Moved(multiset(r.queue), multiset(r.withheld), multiset(shed), multiset(c.queue), multiset(c.withheld), e);
  }

  lemma Moved<T>(q: multiset<T>, w: multiset<T>, shed: multiset<T>, q0: multiset<T>, w0: multiset<T>, e: T)
    requires q + shed == q0 + multiset{e} && w + multiset{e} == w0
    ensures q + w + shed == q0 + w0
  {
    forall x ensures (q + w + shed)[x] == (q0 + w0)[x] {
      assert (q + shed)[x] == (q0 + multiset{e})[x] && (w + multiset{e})[x] == w0[x];
    }
  }

  lemma CappedFront(e: Event, queue: seq<Event>)
    requires |queue| <= MAX_PENDING_PER_CHANNEL
    ensures var r, full := Capped([e] + queue), |queue| == MAX_PENDING_PER_CHANNEL;
      && r != [] && r[0] == e
      && multiset(r) + multiset(if full then [queue[|queue| - 1]] else []) == multiset(queue) + multiset{e}
  {
    if |queue| == MAX_PENDING_PER_CHANNEL {
      var n := |queue| - 1;
      assert Capped([e] + queue) == [e] + queue[..n];
      assert queue == queue[..n] + [queue[n]];
    }
  }

  /** Withholding the newest event and releasing it again only moves it to the front;
      room was made for it, if at all, when it arrived. */
  lemma WithholdRelease(c: Chan, e: Event)
    requires |c.queue| <= MAX_PENDING_PER_CHANNEL
    requires Find(c.queue, e.id) == |c.queue| && Find(c.withheld, e.id) == |c.withheld|
    ensures var rest := if |c.queue| == MAX_PENDING_PER_CHANNEL then c.queue[1..] else c.queue;
      Release(Withhold(Enqueue(c, e), e.id), e.id) == Chan([e] + rest, c.withheld)
  {
    var rest := if |c.queue| == MAX_PENDING_PER_CHANNEL then c.queue[1..] else c.queue;
    FindInTail(c.queue, e);
    FindAppended(rest, e);
    FindAppended(c.withheld, e);
    var w := Withhold(Enqueue(c, e), e.id);
    assert w.queue == rest && w.withheld == c.withheld + [e];
    assert RemoveAt(w.withheld, |c.withheld|) == c.withheld;
  }

  lemma FindInTail(es: seq<Event>, e: Event)
    requires Find(es, e.id) == |es|
    ensures es != [] ==> Find(es[1..], e.id) == |es[1..]|
  {
  }

  lemma {:induction false} FindAppended(es: seq<Event>, e: Event)
    requires Find(es, e.id) == |es|
    ensures Find(es + [e], e.id) == |es|
  {
    if es != [] {
      assert (es + [e])[1..] == es[1..] + [e];
      FindAppended(es[1..], e);
    }
  }

  // ----------------------------------------------------------------------------- order

  /** `kept` is the newest end of `all`, as much of it as the bound allows. */
  predicate IsNewestOf(kept: seq<Event>, all: seq<Event>) {
    && |kept| == (if |all| <= MAX_PENDING_PER_CHANNEL then |all| else MAX_PENDING_PER_CHANNEL)
    && forall i :: 0 <= i < |kept| ==> kept[i] == all[|all| - |kept| + i]
  }

  /** `kept` is the oldest end of `all`, as much of it as the bound allows. */
  predicate IsOldestOf(kept: seq<Event>, all: seq<Event>) {
    && |kept| == (if |all| <= MAX_PENDING_PER_CHANNEL then |all| else MAX_PENDING_PER_CHANNEL)
    && kept == all[..|kept|]
  }

  /** `es` is `a`, an event with this id that is the first one, and `b`. */
  predicate SplitsAt(es: seq<Event>, id: nat, a: seq<Event>, x: Event, b: seq<Event>) {
    es == a + [x] + b && x.id == id && forall i :: 0 <= i < |a| ==> a[i].id != id
  }

  predicate Lists(es: seq<Event>, id: nat) { exists i :: 0 <= i < |es| && es[i].id == id }

  function PushAll(c: Chan, es: seq<Event>): Chan {
    if es == [] then c else Enqueue(PushAll(c, es[..|es| - 1]), es[|es| - 1])
  }

  lemma EnqueueKeepsTheNewest(c: Chan, all: seq<Event>, e: Event)
    requires IsNewestOf(c.queue, all)
    ensures IsNewestOf(Enqueue(c, e).queue, all + [e]) && Enqueue(c, e).withheld == c.withheld
  {
    var q, r := c.queue, Enqueue(c, e).queue;
    forall i | 0 <= i < |r| ensures r[i] == (all + [e])[|all| + 1 - |r| + i] {
      if i < |r| - 1 {
        assert r[i] == q[i + |q| + 1 - |r|];
      }
    }
  }

  /** After any run of pushes the queue holds the newest of what it held and was given, in
      order of arrival. */
  lemma {:induction false} PushesKeepTheNewest(c: Chan, es: seq<Event>)
    requires |c.queue| <= MAX_PENDING_PER_CHANNEL
    ensures IsNewestOf(PushAll(c, es).queue, c.queue + es) && PushAll(c, es).withheld == c.withheld
  {
    if es == [] {
      assert c.queue + es == c.queue;
    } else {
      var n := |es| - 1;
      PushesKeepTheNewest(c, es[..n]);
      EnqueueKeepsTheNewest(PushAll(c, es[..n]), c.queue + es[..n], es[n]);
      assert c.queue + es == c.queue + es[..n] + [es[n]];
    }
  }

  /** Withholding takes the first event with the id out, closes the gap, and appends it to
      the withheld ones. */
  lemma WithheldInOrder(c: Chan, id: nat)
    ensures !Lists(c.queue, id) ==> Withhold(c, id) == c
    ensures forall a, x, b :: SplitsAt(c.queue, id, a, x, b) ==> Withhold(c, id) == Chan(a + b, c.withheld + [x])
    ensures Lists(c.queue, id) ==> exists a, x, b :: SplitsAt(c.queue, id, a, x, b)
  {
    var i := Find(c.queue, id);
    forall a, x, b | SplitsAt(c.queue, id, a, x, b) ensures i == |a| && RemoveAt(c.queue, i) == a + b {
      FoundAt(c.queue, id, a, x, b);
    }
    if Lists(c.queue, id) {
      SplitAtFound(c.queue, id);
    }
  }

  lemma FoundAt(es: seq<Event>, id: nat, a: seq<Event>, x: Event, b: seq<Event>)
    requires SplitsAt(es, id, a, x, b)
    ensures Find(es, id) == |a| && |a| < |es| && es[|a|] == x && RemoveAt(es, |a|) == a + b
  {
    assert es[|a|] == x && forall i :: 0 <= i < |a| ==> es[i] == a[i];
  }

  lemma SplitAtFound(es: seq<Event>, id: nat)
    requires Lists(es, id)
    ensures exists a, x, b :: SplitsAt(es, id, a, x, b)
  {
    var i := Find(es, id);
    assert es == es[..i] + [es[i]] + es[i + 1..];
    assert SplitsAt(es, id, es[..i], es[i], es[i + 1..]);
  }

  /** A release takes the first withheld event with the id to the head of the queue, whose
      newest end gives way. */
  lemma ReleasedToTheHead(c: Chan, id: nat)
    ensures !Lists(c.withheld, id) ==> Release(c, id) == c
    ensures forall a, x, b :: SplitsAt(c.withheld, id, a, x, b) ==>
      Release(c, id).withheld == a + b && IsOldestOf(Release(c, id).queue, [x] + c.queue)
    ensures Lists(c.withheld, id) ==> exists a, x, b :: SplitsAt(c.withheld, id, a, x, b)
  {
    forall a, x, b | SplitsAt(c.withheld, id, a, x, b)
      ensures Find(c.withheld, id) == |a| && |a| < |c.withheld| && c.withheld[|a|] == x && RemoveAt(c.withheld, |a|) == a + b
    {
      FoundAt(c.withheld, id, a, x, b);
    }
    if Lists(c.withheld, id) {
      SplitAtFound(c.withheld, id);
    }
  }

  /** Recovery puts all withheld events, in their order, before the queue, whose newest end
      gives way; nothing stays withheld. */
  lemma RecoveredInOrder(c: Chan)
    requires |c.queue| <= MAX_PENDING_PER_CHANNEL
    ensures IsOldestOf(Recover(c).queue, c.withheld + c.queue) && Recover(c).withheld == []
  {
    if c.withheld == [] {
      assert c.withheld + c.queue == c.queue;
    }
  }

  lemma {:induction false} WithoutOfBoth(a: seq<Event>, b: seq<Event>, id: nat)
    ensures Without(a + b, id) == Without(a, id) + Without(b, id)
    decreases |a|
  {
    hide Without;
    WithoutStep(a, id);
    if a == [] {
      assert a + b == b;
    } else {
      assert (a + b)[1..] == a[1..] + b && (a + b)[0] == a[0];
      WithoutStep(a + b, id);
      WithoutOfBoth(a[1..], b, id);
    }
  }

  lemma WithoutStep(es: seq<Event>, id: nat)
    ensures Without(es, id) ==
      if es == [] then [] else if es[0].id == id then Without(es[1..], id) else [es[0]] + Without(es[1..], id)
  {
  }

  /** Removal works event by event, in both stores: an event with the id goes, any other
      stays where it was among the others. */
  lemma RemovedInOrder(a: seq<Event>, b: seq<Event>, v: seq<Event>, w: seq<Event>, x: Event, id: nat)
    ensures var r, t := Remove(Chan(a, v), id), Remove(Chan(b, w), id);
      Remove(Chan(a + b, v + w), id) == Chan(r.queue + t.queue, r.withheld + t.withheld)
    ensures var kept := if x.id == id then [] else [x];
      Remove(Chan([x], []), id) == Chan(kept, []) && Remove(Chan([], [x]), id) == Chan([], kept)
  {
    WithoutOfBoth(a, b, id);
    WithoutOfBoth(v, w, id);
    hide Without;
    WithoutStep([], id);
    WithoutStep([x], id);
    assert [x][1..] == [];
  }
}
