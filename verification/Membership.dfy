/** Membership notifications: bounded duplicate detection, a timestamp watermark per
    channel, and the set of channels the agent was removed from. */
module Membership {
  import opened Wrappers

  type Id = nat
  type Channel = nat

  const GENERATION: nat := 1_000

  datatype Notice = Notice(id: Id, channel: Channel, ts: nat, added: bool)

  datatype Verdict = Duplicate | Stale | Accepted

  datatype State = State(current: set<Id>, previous: set<Id>, newest: map<Channel, nat>, removed: set<Channel>)

  function InitialState(): State { State({}, {}, map[], {}) }

  predicate Seen(s: State, id: Id) { id in s.current || id in s.previous }

  function Inserted(s: State, id: Id): State {
    var grown := s.current + {id};
    if |grown| >= GENERATION then s.(current := {}, previous := grown) else s.(current := grown)
  }

  function VerdictOn(s: State, n: Notice): Verdict {
    if Seen(s, n.id) then Duplicate
    else if n.channel in s.newest && n.ts < s.newest[n.channel] then Stale
    else Accepted
  }

  function Handled(s: State, n: Notice): State {
    match VerdictOn(s, n)
    case Duplicate => s
    case Stale => Inserted(s, n.id)
    case Accepted =>
      Inserted(s, n.id).(
        newest := s.newest[n.channel := n.ts],
        removed := if n.added then s.removed - {n.channel} else s.removed + {n.channel})
  }

  class MembershipTracker {
    var seenCurrent: set<Id>
    var seenPrevious: set<Id>
    var newestTs: map<Channel, nat>
    var removedChannels: set<Channel>

    function Abs(): State reads this { State(seenCurrent, seenPrevious, newestTs, removedChannels) }

    constructor ()
      ensures Abs() == InitialState()
    {
      seenCurrent, seenPrevious, newestTs, removedChannels := {}, {}, map[], {};
    }

    method Handle(n: Notice) returns (verdict: Verdict)
      modifies this
      ensures verdict == VerdictOn(old(Abs()), n) && Abs() == Handled(old(Abs()), n)
    {
      if n.id in seenCurrent || n.id in seenPrevious {
        return Duplicate;
      }
      seenCurrent := seenCurrent + {n.id};
      if |seenCurrent| >= GENERATION {
        seenPrevious := seenCurrent;
        seenCurrent := {};
      }
      if n.channel in newestTs && n.ts < newestTs[n.channel] {
        return Stale;
      }
      newestTs := newestTs[n.channel := n.ts];
      if n.added {
        removedChannels := removedChannels - {n.channel};
      } else {
        removedChannels := removedChannels + {n.channel};
      }
      verdict := Accepted;
    }
  }

  function After(notices: seq<Notice>): State {
    if notices == [] then InitialState()
    else Handled(After(notices[..|notices| - 1]), notices[|notices| - 1])
  }

  /** The verdict on the `i`-th notice of a run. */
  function VerdictAt(notices: seq<Notice>, i: nat): Verdict
    requires i < |notices|
  {
    VerdictOn(After(notices[..i]), notices[i])
  }

  // ---- Bounded memory

  ghost predicate Bounded(s: State) {
    |s.current| < GENERATION && |s.previous| <= GENERATION
  }

  lemma {:induction false} GenerationsAreBounded(notices: seq<Notice>)
    ensures Bounded(After(notices))
  {
    if notices != [] {
      GenerationsAreBounded(notices[..|notices| - 1]);
    }
  }

  /** Notices from `lo` to before `hi` that were not duplicates: the insertions. */
  function Insertions(notices: seq<Notice>, lo: nat, hi: nat): nat
    requires lo <= hi <= |notices|
  {
    if lo == hi then 0
    else Insertions(notices, lo, hi - 1) + if VerdictAt(notices, hi - 1) == Duplicate then 0 else 1
  }

  lemma AfterNext(notices: seq<Notice>, k: nat)
    requires k < |notices|
    ensures After(notices[..k + 1]) == Handled(After(notices[..k]), notices[k])
  {
    assert notices[..k + 1][..k] == notices[..k];
  }

  /** Since its insertion an id is in the current generation, or in the previous one with
      at least as many insertions after it as the current one has grown, or there were a
      thousand of them. */
  ghost predicate Remembered(s: State, id: Id, insertions: nat) {
    id in s.current || (id in s.previous && |s.current| <= insertions) || insertions >= GENERATION
  }

  lemma RememberedStep(s: State, id: Id, insertions: nat, n: Notice)
    requires Remembered(s, id, insertions) && Bounded(s)
    ensures Remembered(Handled(s, n), id, insertions + if VerdictOn(s, n) == Duplicate then 0 else 1)
  {
  }

  lemma {:induction false} StaysRemembered(notices: seq<Notice>, i: nat, j: nat)
    requires i < j <= |notices| && VerdictAt(notices, i) != Duplicate
    ensures Remembered(After(notices[..j]), notices[i].id, Insertions(notices, i + 1, j))
  {
    AfterNext(notices, j - 1);
    GenerationsAreBounded(notices[..j - 1]);
    hide After, Bounded;
    if j > i + 1 {
      StaysRemembered(notices, i, j - 1);
      RememberedStep(After(notices[..j - 1]), notices[i].id, Insertions(notices, i + 1, j - 1), notices[j - 1]);
    } else {
      JustInserted(After(notices[..i]), notices[i]);
    }
  }

  lemma JustInserted(s: State, n: Notice)
    requires VerdictOn(s, n) != Duplicate
    ensures Remembered(Handled(s, n), n.id, 0)
  {
  }

  /** An id passes duplicate detection twice only with a thousand insertions in between. */
  lemma ForgottenOnlyAfterAThousand(notices: seq<Notice>, i: nat, j: nat)
    requires i < j < |notices| && notices[i].id == notices[j].id
    requires VerdictAt(notices, i) != Duplicate && VerdictAt(notices, j) != Duplicate
    ensures Insertions(notices, i + 1, j) >= GENERATION
  {
    StaysRemembered(notices, i, j);
  }

  // ---- The watermark

  predicate AtLeast(s: State, c: Channel, ts: nat) { c in s.newest && s.newest[c] >= ts }

  lemma WatermarkStep(s: State, n: Notice, c: Channel, ts: nat)
    requires AtLeast(s, c, ts)
    ensures AtLeast(Handled(s, n), c, ts)
  {
  }

  lemma {:induction false} WatermarkStays(notices: seq<Notice>, i: nat, j: nat)
    requires i < j <= |notices| && VerdictAt(notices, i) == Accepted
    ensures AtLeast(After(notices[..j]), notices[i].channel, notices[i].ts)
  {
    AfterNext(notices, j - 1);
    if j > i + 1 {
      hide After, Handled;
      WatermarkStays(notices, i, j - 1);
      WatermarkStep(After(notices[..j - 1]), notices[j - 1], notices[i].channel, notices[i].ts);
    }
  }

  /** Accepted timestamps of a channel never decrease. */
  lemma AcceptedNeverDecrease(notices: seq<Notice>, i: nat, j: nat)
    requires i < j < |notices| && notices[i].channel == notices[j].channel
    requires VerdictAt(notices, i) == Accepted && VerdictAt(notices, j) == Accepted
    ensures notices[i].ts <= notices[j].ts
  {
    WatermarkStays(notices, i, j);
  }

  // ---- Convergence

  /** An id names one notice. */
  ghost predicate IdsIdentify(notices: seq<Notice>) {
    forall a, b :: a in notices && b in notices && a.id == b.id ==> a == b
  }

  /** `top` is a notice of its channel that none of the channel's others is newer than. */
  ghost predicate IsNewest(notices: seq<Notice>, top: Notice) {
    top in notices && forall n :: n in notices && n.channel == top.channel ==> n.ts <= top.ts
  }

  /** The channel's newest notices all say the same. */
  ghost predicate Agreed(notices: seq<Notice>, top: Notice) {
    IsNewest(notices, top)
    && forall n :: n in notices && n.channel == top.channel && n.ts == top.ts ==> n.added == top.added
  }

  /** Duplicate detection only remembers notices that arrived. */
  lemma {:induction false} SeenArrived(notices: seq<Notice>, id: Id)
    requires Seen(After(notices), id)
    ensures exists n :: n in notices && n.id == id
  {
    var prefix, last := notices[..|notices| - 1], notices[|notices| - 1];
    if last.id == id {
      assert last in notices;
    } else {
      SeenArrived(prefix, id);
      assert forall n :: n in prefix ==> n in notices;
    }
  }

  /** What holds of a channel at any time: its watermark is the newest arrived timestamp,
      and it counts as removed according to some notice with that timestamp. */
  ghost predicate Reflects(s: State, notices: seq<Notice>, c: Channel) {
    if c in s.newest then
      exists top :: IsNewest(notices, top) && top.channel == c && s.newest[c] == top.ts && (c in s.removed <==> !top.added)
    else
      c !in s.removed && forall n :: n in notices ==> n.channel != c
  }

  lemma {:induction false} AlwaysReflects(notices: seq<Notice>, c: Channel)
    requires IdsIdentify(notices)
    ensures Reflects(After(notices), notices, c)
  {
    if notices != [] {
      var prefix, last := notices[..|notices| - 1], notices[|notices| - 1];
      assert notices == prefix + [last];
      AlwaysReflects(prefix, c);
      if Seen(After(prefix), last.id) {
        SeenArrived(prefix, last.id);
      }
      assert last in notices;
      ReflectsStep(After(prefix), prefix, last, c);
    }
  }

  lemma ReflectsStep(s: State, prefix: seq<Notice>, last: Notice, c: Channel)
    requires Reflects(s, prefix, c)
    requires Seen(s, last.id) ==> last in prefix
    ensures Reflects(Handled(s, last), prefix + [last], c)
  {
    var t, notices := Handled(s, last), prefix + [last];
    assert last in notices && forall n :: n in prefix ==> n in notices;
    if c in s.newest {
      var top :| IsNewest(prefix, top) && top.channel == c && s.newest[c] == top.ts && (c in s.removed <==> !top.added);
      if last.channel == c && VerdictOn(s, last) == Accepted {
        assert IsNewest(notices, last);
      } else {
        assert IsNewest(notices, top);
      }
    } else if last.channel == c {
      assert VerdictOn(s, last) == Accepted;
      assert IsNewest(notices, last);
    }
  }

  /** Convergence: whatever the order and however often each arrives, even after being
      forgotten, the channel ends as its newest notices say. */
  lemma Converges(notices: seq<Notice>, top: Notice)
    requires IdsIdentify(notices) && Agreed(notices, top)
    ensures top.channel in After(notices).removed <==> !top.added
    ensures AtLeast(After(notices), top.channel, top.ts) && After(notices).newest[top.channel] == top.ts
  {
    AlwaysReflects(notices, top.channel);
  }

  /** Two orders or multiplicities of the same notices agree on every channel whose newest
      notices agree. */
  lemma SameNoticesSameState(a: seq<Notice>, b: seq<Notice>, top: Notice)
    requires IdsIdentify(a) && Agreed(a, top) && (forall n :: n in a <==> n in b)
    ensures top.channel in After(a).removed <==> top.channel in After(b).removed
  {
    Converges(a, top);
    Converges(b, top);
  }

  /** And only then: if two newest notices of a channel disagree, the last one to arrive
      decides, so their order shows. */
  lemma TiesDiverge(rest: seq<Notice>, a: Notice, b: Notice)
    requires IdsIdentify(rest + [a, b]) && a !in rest && b !in rest
    requires a.channel == b.channel && a.ts == b.ts && a.added != b.added
    requires forall n :: n in rest && n.channel == a.channel ==> n.ts <= a.ts
    ensures a.channel in After(rest + [a, b]).removed <==> a.channel !in After(rest + [b, a]).removed
  {
    LastFreshNewestDecides(rest + [a], b);
    assert rest + [a] + [b] == rest + [a, b];
    assert IdsIdentify(rest + [b] + [a]) by {
      assert forall n :: n in rest + [b] + [a] <==> n in rest + [a, b];
    }
    LastFreshNewestDecides(rest + [b], a);
    assert rest + [b] + [a] == rest + [b, a];
  }

  lemma LastFreshNewestDecides(prefix: seq<Notice>, last: Notice)
    requires IdsIdentify(prefix + [last]) && last !in prefix
    requires forall n :: n in prefix && n.channel == last.channel ==> n.ts <= last.ts
    ensures last.channel in After(prefix + [last]).removed <==> !last.added
  {
    var all := prefix + [last];
    assert all[..|all| - 1] == prefix && all[|all| - 1] == last;
    assert last in all && forall n :: n in prefix ==> n in all;
    if Seen(After(prefix), last.id) {
      SeenArrived(prefix, last.id);
    }
    AlwaysReflects(prefix, last.channel);
    assert VerdictOn(After(prefix), last) == Accepted;
  }
}
