/** Matching an event against ordered rules: first match wins, and anything wrong with a
    filter on the way means no match at all. */
module RuleMatch {
  import opened Rules
  import opened Wrappers

  const MAX_TIMEOUTS: nat := 5

  /** What evaluating a rule's filter yields. */
  datatype Outcome = True | False | Timeout | Error

  /** One call: the event, where it came from, and what each rule's filter would yield. */
  datatype Call = Call(event: Event, channel: Channel, agent: string, outcomes: seq<Outcome>)

  datatype MatchedRule = MatchedRule(ruleIndex: nat, promptTag: string)

  predicate CallFits(call: Call, rules: seq<Rule>) { |call.outcomes| == |rules| }

  predicate ReachedBy(rules: seq<Rule>, i: nat, call: Call, show: Printer)
    requires i < |rules|
  {
    Reached(rules[i], call.event, call.channel, call.agent, show)
  }

  datatype Matching = Matching(winner: Option<nat>, timeouts: seq<nat>)

  /** The rest of the loop from rule `i` on. */
  function MatchFrom(rules: seq<Rule>, i: nat, call: Call, timeouts: seq<nat>, show: Printer): (r: Matching)
    requires i <= |rules| == |timeouts| && CallFits(call, rules)
    ensures |r.timeouts| == |timeouts|
    decreases |rules| - i
  {
    if i == |rules| then Matching(None, timeouts)
    else if !ReachedBy(rules, i, call, show) then MatchFrom(rules, i + 1, call, timeouts, show)
    else if rules[i].filter.None? then Matching(Some(i), timeouts)
    else if timeouts[i] >= MAX_TIMEOUTS then Matching(None, timeouts)
    else
      match call.outcomes[i]
      case True => Matching(Some(i), timeouts[i := 0])
      case False => MatchFrom(rules, i + 1, call, timeouts[i := 0], show)
      case Timeout => Matching(None, timeouts[i := timeouts[i] + 1])
      case Error => Matching(None, timeouts)
  }

  function Tag(rule: Rule): string { rule.promptTag.GetOr(rule.name) }

  class RuleMatcher {
    const rules: seq<Rule>
    /** The rules' consecutive-timeout counters. */
    var timeouts: seq<nat>

    ghost predicate Valid() reads this { |timeouts| == |rules| }

    constructor (rules: seq<Rule>)
      ensures Valid() && this.rules == rules && forall i :: 0 <= i < |rules| ==> timeouts[i] == 0
    {
      this.rules := rules;
      timeouts := seq(|rules|, _ => 0);
    }

    /** `match_event`. */
    method MatchEvent(call: Call, show: Printer) returns (matched: Option<MatchedRule>)
      requires Valid() && CallFits(call, rules)
      modifies this
      ensures Valid()
      ensures var r := MatchFrom(rules, 0, call, old(timeouts), show);
        && timeouts == r.timeouts
        && matched.Some? == r.winner.Some?
        && (matched.Some? ==> matched.value.ruleIndex == r.winner.value < |rules|
                              && (match rules[r.winner.value].promptTag
                                  case Some(tag) => matched.value.promptTag == tag
                                  case None => matched.value.promptTag == rules[r.winner.value].name))
    {
      for index := 0 to |rules|
        invariant Valid()
        invariant MatchFrom(rules, index, call, timeouts, show) == MatchFrom(rules, 0, call, old(timeouts), show)
      {
        var rule := rules[index];
        if !ReachedBy(rules, index, call, show) {
          continue;
        }
        if rule.filter.Some? {
          if timeouts[index] >= MAX_TIMEOUTS {
            return None;
          }
          match call.outcomes[index] {
            case True =>
              timeouts := timeouts[index := 0];
            case False =>
              timeouts := timeouts[index := 0];
              continue;
            case Timeout =>
              timeouts := timeouts[index := timeouts[index] + 1];
              return None;
            case Error =>
              return None;
          }
        }
        return Some(MatchedRule(index, Tag(rule)));
      }
      matched := None;
    }
  }

  // ---- Which rule wins

  /** Rule `i` lets the event through. */
  predicate Passes(rules: seq<Rule>, i: nat, call: Call, timeouts: seq<nat>, show: Printer)
    requires i < |rules| == |timeouts| && CallFits(call, rules)
  {
    ReachedBy(rules, i, call, show)
    && (rules[i].filter.None? || (timeouts[i] < MAX_TIMEOUTS && call.outcomes[i] == True))
  }

  /** Rule `i` lets the search go on. */
  predicate Yields(rules: seq<Rule>, i: nat, call: Call, timeouts: seq<nat>, show: Printer)
    requires i < |rules| == |timeouts| && CallFits(call, rules)
  {
    ReachedBy(rules, i, call, show) ==>
      rules[i].filter.Some? && timeouts[i] < MAX_TIMEOUTS && call.outcomes[i] == False
  }

  /** From rule `i`, rule `w` wins exactly when it passes and every earlier rule either was
      not reached or had its filter evaluate to false. */
  lemma {:induction false} WinnerFrom(rules: seq<Rule>, i: nat, call: Call, timeouts: seq<nat>, show: Printer, w: nat)
    requires i <= w < |rules| == |timeouts| && CallFits(call, rules)
    ensures MatchFrom(rules, i, call, timeouts, show).winner == Some(w) <==>
              && Passes(rules, w, call, timeouts, show)
              && forall j :: i <= j < w ==> Yields(rules, j, call, timeouts, show)
    decreases |rules| - i
  {
    hide Rules.Reached;
    if i < w && Yields(rules, i, call, timeouts, show) {
      var t := if ReachedBy(rules, i, call, show) then timeouts[i := 0] else timeouts;
      WinnerFrom(rules, i + 1, call, t, show, w);
      assert forall j :: i < j < w ==> Yields(rules, j, call, t, show) == Yields(rules, j, call, timeouts, show);
      assert Passes(rules, w, call, t, show) == Passes(rules, w, call, timeouts, show);
    } else if i == w {
      WinnerIsNotBefore(rules, i, call, timeouts, show);
    }
  }

  lemma {:induction false} WinnerIsNotBefore(rules: seq<Rule>, i: nat, call: Call, timeouts: seq<nat>, show: Printer)
    requires i <= |rules| == |timeouts| && CallFits(call, rules)
    ensures var w := MatchFrom(rules, i, call, timeouts, show).winner; w.Some? ==> i <= w.value < |rules|
    ensures i < |rules| && Yields(rules, i, call, timeouts, show) ==>
              MatchFrom(rules, i, call, timeouts, show).winner != Some(i)
    decreases |rules| - i
  {
    hide Rules.Reached;
    if i < |rules| && Yields(rules, i, call, timeouts, show) {
      WinnerIsNotBefore(rules, i + 1, call, if ReachedBy(rules, i, call, show) then timeouts[i := 0] else timeouts, show);
    }
  }

  /** First match, fail closed: the winner is the least rule that passes all its checks,
      and then every earlier reached rule has a filter that evaluated to false. */
  lemma FirstMatchWins(rules: seq<Rule>, call: Call, timeouts: seq<nat>, show: Printer, w: nat)
    requires w < |rules| == |timeouts| && CallFits(call, rules)
    ensures MatchFrom(rules, 0, call, timeouts, show).winner == Some(w) <==>
              && Passes(rules, w, call, timeouts, show)
              && forall j :: 0 <= j < w ==> Yields(rules, j, call, timeouts, show)
  {
    WinnerFrom(rules, 0, call, timeouts, show, w);
  }

  /** Breaking a filter never widens anything: with any outcome turned into a failure, the
      result is the same rule as before or none. */
  lemma BrokenFilterNeverWidens(rules: seq<Rule>, call: Call, timeouts: seq<nat>, show: Printer, k: nat, broken: Outcome)
    requires k < |rules| == |timeouts| && CallFits(call, rules) && broken in {Timeout, Error}
    ensures
      var before := MatchFrom(rules, 0, call, timeouts, show).winner;
      var after := MatchFrom(rules, 0, call.(outcomes := call.outcomes[k := broken]), timeouts, show).winner;
      after == before || after == None
  {
    var call' := call.(outcomes := call.outcomes[k := broken]);
    var after := MatchFrom(rules, 0, call', timeouts, show).winner;
    WinnerIsNotBefore(rules, 0, call', timeouts, show);
    if after.Some? {
      var w := after.value;
      FirstMatchWins(rules, call', timeouts, show, w);
      FirstMatchWins(rules, call, timeouts, show, w);
      hide MatchFrom;
      forall j | 0 <= j < w ensures Yields(rules, j, call, timeouts, show) {
        assert Yields(rules, j, call', timeouts, show);
      }
    }
  }

  // ---- The timeout counters, over serial calls

  /** Rule `d`'s filter is evaluated: the search reaches it and it is not disabled. */
  predicate Evaluated(rules: seq<Rule>, d: nat, call: Call, timeouts: seq<nat>, show: Printer)
    requires d < |rules| == |timeouts| && CallFits(call, rules)
  {
    && ReachedBy(rules, d, call, show) && rules[d].filter.Some? && timeouts[d] < MAX_TIMEOUTS
    && forall j :: 0 <= j < d ==> Yields(rules, j, call, timeouts, show)
  }

  /** A counter after one evaluation: any answer resets it, a timeout adds one, another
      error leaves it. */
  function Counted(n: nat, outcome: Outcome): nat {
    match outcome
    case True => 0
    case False => 0
    case Timeout => n + 1
    case Error => n
  }

  /** A call changes exactly the counters of the rules it evaluates. */
  lemma CountersAfterCall(rules: seq<Rule>, call: Call, timeouts: seq<nat>, show: Printer, d: nat)
    requires d < |rules| == |timeouts| && CallFits(call, rules)
    ensures MatchFrom(rules, 0, call, timeouts, show).timeouts[d]
         == if Evaluated(rules, d, call, timeouts, show) then Counted(timeouts[d], call.outcomes[d]) else timeouts[d]
  {
    CountersFrom(rules, 0, call, timeouts, show, d);
  }

  lemma {:induction false} CountersFrom(rules: seq<Rule>, i: nat, call: Call, timeouts: seq<nat>, show: Printer, d: nat)
    requires i <= |rules| == |timeouts| && d < |rules| && CallFits(call, rules)
    ensures
      var evaluated := i <= d && ReachedBy(rules, d, call, show) && rules[d].filter.Some? && timeouts[d] < MAX_TIMEOUTS
                       && forall j :: i <= j < d ==> Yields(rules, j, call, timeouts, show);
      MatchFrom(rules, i, call, timeouts, show).timeouts[d]
      == if evaluated then Counted(timeouts[d], call.outcomes[d]) else timeouts[d]
    decreases |rules| - i
  {
    hide Rules.Reached;
    if i < |rules| && Yields(rules, i, call, timeouts, show) {
      var t := if ReachedBy(rules, i, call, show) then timeouts[i := 0] else timeouts;
      CountersFrom(rules, i + 1, call, t, show, d);
      assert forall j :: i < j < d ==> Yields(rules, j, call, t, show) == Yields(rules, j, call, timeouts, show);
    }
  }

  predicate Capped(timeouts: seq<nat>) {
    forall i :: 0 <= i < |timeouts| ==> timeouts[i] <= MAX_TIMEOUTS
  }

  lemma {:induction false} MatchKeepsCaps(rules: seq<Rule>, i: nat, call: Call, timeouts: seq<nat>, show: Printer)
    requires i <= |rules| == |timeouts| && CallFits(call, rules) && Capped(timeouts)
    ensures Capped(MatchFrom(rules, i, call, timeouts, show).timeouts)
    decreases |rules| - i
  {
    hide Rules.Reached;
    if i < |rules| {
      if !ReachedBy(rules, i, call, show) {
        MatchKeepsCaps(rules, i + 1, call, timeouts, show);
      } else if rules[i].filter.Some? && timeouts[i] < MAX_TIMEOUTS && call.outcomes[i] == False {
        MatchKeepsCaps(rules, i + 1, call, timeouts[i := 0], show);
      }
    }
  }

  lemma {:induction false} DisabledStays(rules: seq<Rule>, i: nat, call: Call, timeouts: seq<nat>, show: Printer, d: nat)
    requires i <= |rules| == |timeouts| && CallFits(call, rules)
    requires d < |rules| && rules[d].filter.Some? && timeouts[d] >= MAX_TIMEOUTS
    ensures MatchFrom(rules, i, call, timeouts, show).timeouts[d] == timeouts[d]
    decreases |rules| - i
  {
    hide Rules.Reached;
    if i < |rules| {
      if !ReachedBy(rules, i, call, show) {
        DisabledStays(rules, i + 1, call, timeouts, show, d);
      } else if rules[i].filter.Some? && timeouts[i] < MAX_TIMEOUTS && call.outcomes[i] == False {
        DisabledStays(rules, i + 1, call, timeouts[i := 0], show, d);
      }
    }
  }

  /** The counters after a run of calls. */
  function After(rules: seq<Rule>, calls: seq<Call>, timeouts: seq<nat>, show: Printer): (t: seq<nat>)
    requires |timeouts| == |rules| && forall k :: 0 <= k < |calls| ==> CallFits(calls[k], rules)
    ensures |t| == |rules|
  {
    if calls == [] then timeouts
    else
      var before := After(rules, calls[..|calls| - 1], timeouts, show);
      MatchFrom(rules, 0, calls[|calls| - 1], before, show).timeouts
  }

  /** No counter ever passes five. */
  lemma {:induction false} CountersAreCapped(rules: seq<Rule>, calls: seq<Call>, timeouts: seq<nat>, show: Printer)
    requires |timeouts| == |rules| && (forall k :: 0 <= k < |calls| ==> CallFits(calls[k], rules)) && Capped(timeouts)
    ensures Capped(After(rules, calls, timeouts, show))
  {
    if calls != [] {
      CountersAreCapped(rules, calls[..|calls| - 1], timeouts, show);
      MatchKeepsCaps(rules, 0, calls[|calls| - 1], After(rules, calls[..|calls| - 1], timeouts, show), show);
    }
  }

  /** Once a rule's counter is at five it stays there, and every event that passes the
      rule's other checks is rejected unless an earlier rule takes it: no later rule ever
      gets it. */
  lemma {:induction false} DisabledRejectsForever(rules: seq<Rule>, calls: seq<Call>, timeouts: seq<nat>, show: Printer,
                                                  d: nat, call: Call)
    requires |timeouts| == |rules| && (forall k :: 0 <= k < |calls| ==> CallFits(calls[k], rules))
    requires d < |rules| && rules[d].filter.Some? && timeouts[d] >= MAX_TIMEOUTS && CallFits(call, rules)
    ensures After(rules, calls, timeouts, show)[d] == timeouts[d]
    ensures ReachedBy(rules, d, call, show) ==>
              var w := MatchFrom(rules, 0, call, After(rules, calls, timeouts, show), show).winner;
              w.None? || w.value < d
  {
    if calls != [] {
      DisabledRejectsForever(rules, calls[..|calls| - 1], timeouts, show, d, call);
      DisabledStays(rules, 0, calls[|calls| - 1], After(rules, calls[..|calls| - 1], timeouts, show), show, d);
    }
    var now := After(rules, calls, timeouts, show);
    WinnerIsNotBefore(rules, 0, call, now, show);
    var w := MatchFrom(rules, 0, call, now, show).winner;
    if w.Some? && w.value >= d {
      FirstMatchWins(rules, call, now, show, w.value);
      assert w.value == d || Yields(rules, d, call, now, show);
    }
  }
}
