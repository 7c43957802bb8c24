/** The relay subscription per channel: merging rules, in batch and one channel at a time. */
module Subscriptions {
  import opened Rules
  import opened Wrappers

  const KIND_STREAM_MESSAGE: nat := 9
  const KIND_WORKFLOW_APPROVAL_REQUESTED: nat := 46010
  const KIND_STREAM_REMINDER: nat := 40007
  const DEFAULT_KINDS: seq<nat> := [KIND_STREAM_MESSAGE, KIND_WORKFLOW_APPROVAL_REQUESTED, KIND_STREAM_REMINDER]

  datatype Mode = MentionsMode | AllMode | ConfigMode

  datatype Config = Config(
    mode: Mode,
    channelsOverride: Option<seq<string>>,
    kindsOverride: Option<seq<nat>>,
    noMentionFilter: bool)

  datatype ChannelFilter = ChannelFilter(kinds: Option<seq<nat>>, requireMention: bool)

  /** What the relay lets through. */
  predicate Accepts(f: ChannelFilter, e: Event, agent: string) {
    (f.kinds.None? || e.kind in f.kinds.value) && (f.requireMention ==> Mentions(e, agent))
  }

  // ---- Merging the rules of one channel

  datatype Merge = Merge(kinds: Option<seq<nat>>, requireMention: bool, hasRule: bool)

  ghost predicate NoDuplicates(s: seq<nat>) {
    forall i, j :: 0 <= i < j < |s| ==> s[i] != s[j]
  }

  /** The merge says of `rules`: kinds are their duplicate-free union, or a wildcard if one
      rule is; a mention is required only if every one requires it. */
  ghost predicate Merges(m: Merge, rules: seq<Rule>, c: Channel, parse: Parser) {
    && (m.hasRule <==> exists r :: r in rules && AppliesTo(r, c, parse))
    && (m.kinds.None? <==> exists r :: r in rules && AppliesTo(r, c, parse) && r.kinds == [])
    && (m.kinds.Some? ==>
          && NoDuplicates(m.kinds.value)
          && forall k :: k in m.kinds.value <==> exists r :: r in rules && AppliesTo(r, c, parse) && k in r.kinds)
    && (m.requireMention <==> forall r :: r in rules && AppliesTo(r, c, parse) ==> r.requireMention)
  }

  function UnionKinds(kinds: seq<nat>, more: seq<nat>): (r: seq<nat>)
    ensures forall k :: k in r <==> k in kinds || k in more
    ensures NoDuplicates(kinds) ==> NoDuplicates(r)
    decreases |more|
  {
    if more == [] then kinds
    else
      var grown := if more[0] in kinds then kinds else kinds + [more[0]];
      UnionKinds(grown, more[1..])
  }

  function Absorb(m: Merge, rule: Rule, c: Channel, parse: Parser): Merge {
    if !AppliesTo(rule, c, parse) then m
    else
      Merge(
        if rule.kinds == [] || m.kinds.None? then None else Some(UnionKinds(m.kinds.value, rule.kinds)),
        m.requireMention && rule.requireMention,
        true)
  }

  function Merged(rules: seq<Rule>, c: Channel, parse: Parser): Merge {
    if rules == [] then Merge(Some([]), true, false)
    else Absorb(Merged(rules[..|rules| - 1], c, parse), rules[|rules| - 1], c, parse)
  }

  lemma {:induction false} MergedMerges(rules: seq<Rule>, c: Channel, parse: Parser)
    ensures Merges(Merged(rules, c, parse), rules, c, parse)
  {
    hide AppliesTo;
    if rules != [] {
      var prefix, last := rules[..|rules| - 1], rules[|rules| - 1];
      MergedMerges(prefix, c, parse);
      assert forall r :: r in rules <==> r in prefix || r == last by {
        assert rules == prefix + [last];
      }
      AbsorbMerges(Merged(prefix, c, parse), prefix, rules, last, c, parse);
    }
  }

  lemma AbsorbMerges(m: Merge, prefix: seq<Rule>, rules: seq<Rule>, last: Rule, c: Channel, parse: Parser)
    requires Merges(m, prefix, c, parse) && forall r :: r in rules <==> r in prefix || r == last
    ensures Merges(Absorb(m, last, c, parse), rules, c, parse)
  {
    hide AppliesTo;
    var after := Absorb(m, last, c, parse);
    assert last in rules;
    if after.kinds.Some? {
      forall k ensures k in after.kinds.value <==> exists r :: r in rules && AppliesTo(r, c, parse) && k in r.kinds {
        if k in m.kinds.value {
          var r :| r in prefix && AppliesTo(r, c, parse) && k in r.kinds;
          assert r in rules;
        }
      }
    }
  }

  method MergeRules(rules: seq<Rule>, c: Channel, parse: Parser) returns (m: Merge)
    ensures m == Merged(rules, c, parse)
  {
    var kinds: Option<seq<nat>>, requireMention, hasRule := Some([]), true, false;
    for i := 0 to |rules|
      invariant Merge(kinds, requireMention, hasRule) == Merged(rules[..i], c, parse)
    {
      var rule := rules[i];
      assert rules[..i + 1][..i] == rules[..i];
      if !AppliesTo(rule, c, parse) {
        continue;
      }
      hasRule := true;
      if rule.kinds == [] {
        kinds := None;
      } else if kinds.Some? {
        var grown := AddKinds(kinds.value, rule.kinds);
        kinds := Some(grown);
      }
      if !rule.requireMention {
        requireMention := false;
      }
    }
    assert rules[..|rules|] == rules;
    m := Merge(kinds, requireMention, hasRule);
  }

  method AddKinds(kinds: seq<nat>, more: seq<nat>) returns (r: seq<nat>)
    ensures r == UnionKinds(kinds, more)
  {
    r := kinds;
    for i := 0 to |more|
      invariant UnionKinds(r, more[i..]) == UnionKinds(kinds, more)
    {
      assert more[i..][1..] == more[i + 1..];
      if more[i] !in r {
        r := r + [more[i]];
      }
    }
  }

  // ---- The two resolvers

  function ModeFilter(config: Config): ChannelFilter
    requires config.mode != ConfigMode
  {
    if config.mode == MentionsMode then
      ChannelFilter(Some(config.kindsOverride.GetOr(DEFAULT_KINDS)), !config.noMentionFilter)
    else ChannelFilter(config.kindsOverride, false)
  }

  predicate Allowed(config: Config, c: Channel, parse: Parser) {
    config.channelsOverride.None?
    || exists i :: 0 <= i < |config.channelsOverride.value| && parse(config.channelsOverride.value[i]) == Some(c)
  }

  /** The subscription of one channel, if it has one. */
  function Resolved(config: Config, c: Channel, rules: seq<Rule>, parse: Parser): Option<ChannelFilter> {
    if config.mode == ConfigMode then
      var m := Merged(rules, c, parse);
      if m.hasRule then Some(ChannelFilter(m.kinds, m.requireMention)) else None
    else if Allowed(config, c, parse) then Some(ModeFilter(config))
    else None
  }

  /** `resolve_dynamic_channel_filter`. */
  method ResolveDynamicChannelFilter(config: Config, c: Channel, rules: seq<Rule>, parse: Parser)
    returns (r: Option<ChannelFilter>)
    ensures r == Resolved(config, c, rules, parse)
  {
    if config.mode != ConfigMode && config.channelsOverride.Some? {
      if !Allowed(config, c, parse) {
        return None;
      }
    }
    match config.mode
    case MentionsMode => r := Some(ModeFilter(config));
    case AllMode => r := Some(ModeFilter(config));
    case ConfigMode =>
      var m := MergeRules(rules, c, parse);
      if !m.hasRule {
        return None;
      }
      r := Some(ChannelFilter(m.kinds, m.requireMention));
  }

  /** `resolve_channel_filters`: for every channel, the batch holds what the dynamic
      resolver gives, if the channel was discovered. */
  method ResolveChannelFilters(config: Config, discovered: seq<Channel>, rules: seq<Rule>, parse: Parser)
    returns (result: map<Channel, ChannelFilter>)
    ensures forall c :: c in result <==> c in discovered && Resolved(config, c, rules, parse).Some?
    ensures forall c :: c in result ==> Some(result[c]) == Resolved(config, c, rules, parse)
  {
    result := map[];
    if config.mode == ConfigMode {
      hide Merged;
      for i := 0 to |discovered|
        invariant forall c :: c in result <==> c in discovered[..i] && Resolved(config, c, rules, parse).Some?
        invariant forall c :: c in result ==> Some(result[c]) == Resolved(config, c, rules, parse)
      {
        var ch := discovered[i];
        var m := MergeRules(rules, ch, parse);
        assert forall c :: c in discovered[..i + 1] <==> c in discovered[..i] || c == ch;
        if m.hasRule {
          result := result[ch := ChannelFilter(m.kinds, m.requireMention)];
        }
      }
    } else {
      var targets := discovered;
      if config.channelsOverride.Some? {
        targets := TargetsOf(config.channelsOverride.value, discovered, parse);
      }
      assert forall c :: c in targets <==> c in discovered && Allowed(config, c, parse);
      for i := 0 to |targets|
        invariant forall c :: c in result <==> c in targets[..i]
        invariant forall c :: c in result ==> result[c] == ModeFilter(config)
      {
        assert forall c :: c in targets[..i + 1] <==> c in targets[..i] || c == targets[i];
        result := result[targets[i] := ModeFilter(config)];
      }
      assert targets[..|targets|] == targets;
    }
  }

  method TargetsOf(overrides: seq<string>, discovered: seq<Channel>, parse: Parser) returns (targets: seq<Channel>)
    ensures forall c :: c in targets <==>
      c in discovered && exists i :: 0 <= i < |overrides| && parse(overrides[i]) == Some(c)
  {
    targets := [];
    for i := 0 to |overrides|
      invariant forall c :: c in targets <==>
        c in discovered && exists k :: 0 <= k < i && parse(overrides[k]) == Some(c)
    {
      var id := parse(overrides[i]);
      if id.Some? && id.value in discovered {
        targets := targets + [id.value];
      }
    }
  }

  // ---- Soundness

  /** The rules the harness matches with: the configured ones, or one of its own. */
  function RulesFor(config: Config, configured: seq<Rule>): seq<Rule> {
    match config.mode
    case MentionsMode =>
      [Rule("mentions", All("all"), config.kindsOverride.GetOr(DEFAULT_KINDS), !config.noMentionFilter, None,
            Some("@mention"))]
    case AllMode => [Rule("all", All("all"), config.kindsOverride.GetOr([]), false, None, Some("all"))]
    case ConfigMode => configured
  }

  ghost predicate SomeRuleReached(rules: seq<Rule>, e: Event, c: Channel, agent: string, show: Printer) {
    exists r :: r in rules && Reached(r, e, c, agent, show)
  }

  /** In config mode the subscription lets through every event some rule could match. */
  lemma ConfigModeIsSound(config: Config, rules: seq<Rule>, e: Event, c: Channel, agent: string, parse: Parser,
                          show: Printer)
    requires config.mode == ConfigMode && RoundTrips(parse, show) && SomeRuleReached(rules, e, c, agent, show)
    ensures Resolved(config, c, rules, parse).Some? && Accepts(Resolved(config, c, rules, parse).value, e, agent)
  {
    var r :| r in rules && Reached(r, e, c, agent, show);
    TextMatchParses(r, c, parse, show);
    MergedMerges(rules, c, parse);
    hide AppliesTo, Merged, RoundTrips;
  }

  /** How much wider it is: it accepts exactly when some rule of the channel passes the
      kind and some rule of the channel, maybe another, passes the mention. */
  lemma ConfigModeAcceptsExactly(config: Config, rules: seq<Rule>, e: Event, c: Channel, agent: string, parse: Parser)
    requires config.mode == ConfigMode && Resolved(config, c, rules, parse).Some?
    ensures Accepts(Resolved(config, c, rules, parse).value, e, agent) <==>
              && (exists r :: r in rules && AppliesTo(r, c, parse) && KindPasses(r, e))
              && (exists r :: r in rules && AppliesTo(r, c, parse) && MentionPasses(r, e, agent))
  {
    MergedMerges(rules, c, parse);
    hide AppliesTo, Merged, Mentions;
    var m := Merged(rules, c, parse);
    if m.kinds.Some? && e.kind in m.kinds.value {
      var r :| r in rules && AppliesTo(r, c, parse) && e.kind in r.kinds;
      assert KindPasses(r, e);
    }
    if m.kinds.None? {
      var r :| r in rules && AppliesTo(r, c, parse) && r.kinds == [];
      assert KindPasses(r, e);
    }
    if !m.requireMention {
      var r :| r in rules && AppliesTo(r, c, parse) && !r.requireMention;
      assert MentionPasses(r, e, agent);
    }
  }

  /** In the other modes it is sound for all events of a subscribed channel exactly when the
      kinds override is not the empty list, which only a hand-built configuration can hold:
      matching reads it as a wildcard, the subscription as no kind at all. */
  lemma OtherModesSoundExactly(config: Config, c: Channel, agent: string, parse: Parser, show: Printer)
    requires config.mode != ConfigMode && Allowed(config, c, parse)
    ensures (forall e :: SomeRuleReached(RulesFor(config, []), e, c, agent, show) ==>
               Accepts(Resolved(config, c, [], parse).value, e, agent))
            <==> config.kindsOverride != Some([])
  {
    var rule := RulesFor(config, [])[0];
    if config.kindsOverride == Some([]) {
      var e := Event(0, [["p", agent]]);
      assert e.tags[0] == ["p", agent] && e.tags[0][0] == "p" && e.tags[0][1] == agent;
      assert Mentions(e, agent);
      assert rule in RulesFor(config, []) && Reached(rule, e, c, agent, show);
      assert SomeRuleReached(RulesFor(config, []), e, c, agent, show);
    } else {
      forall e | SomeRuleReached(RulesFor(config, []), e, c, agent, show)
        ensures Accepts(Resolved(config, c, [], parse).value, e, agent)
      {
        assert Reached(rule, e, c, agent, show);
      }
    }
  }

  // ---- What the other modes let through

  /** A channel is subscribed unless there is a list of channels without it. */
  predicate Subscribes(config: Config, c: Channel, parse: Parser) {
    config.channelsOverride.Some? ==>
      exists i :: 0 <= i < |config.channelsOverride.value| && parse(config.channelsOverride.value[i]) == Some(c)
  }

  /** The kinds asked for by default: stream messages, approval requests and reminders. */
  predicate IsDefaultKind(k: nat) { k == 9 || k == 46010 || k == 40007 }

  /** Mentions mode lets an event through exactly when it has one of the kinds, the default
      ones unless overridden, and mentions the agent, unless that is switched off. */
  lemma MentionsModeAccepts(config: Config, rules: seq<Rule>, e: Event, c: Channel, agent: string, parse: Parser)
    requires config.mode == MentionsMode
    ensures var r := Resolved(config, c, rules, parse);
      && (r.Some? <==> Subscribes(config, c, parse))
      && (r.Some? ==>
            (Accepts(r.value, e, agent) <==>
             && (if config.kindsOverride.Some? then e.kind in config.kindsOverride.value else IsDefaultKind(e.kind))
             && (config.noMentionFilter || Mentions(e, agent))))
  {
    hide Mentions;
    assert e.kind in DEFAULT_KINDS <==> IsDefaultKind(e.kind) by {
      assert DEFAULT_KINDS[0] == 9 && DEFAULT_KINDS[1] == 46010 && DEFAULT_KINDS[2] == 40007;
    }
  }

  /** All mode asks for no mention, and for kinds only when they are overridden. */
  lemma AllModeAccepts(config: Config, rules: seq<Rule>, e: Event, c: Channel, agent: string, parse: Parser)
    requires config.mode == AllMode
    ensures var r := Resolved(config, c, rules, parse);
      && (r.Some? <==> Subscribes(config, c, parse))
      && (r.Some? ==>
            (Accepts(r.value, e, agent) <==> (config.kindsOverride.Some? ==> e.kind in config.kindsOverride.value)))
  {
  }

  /** Config mode subscribes a channel exactly when a rule applies to it, whatever the
      overrides say. */
  lemma ConfigModeSubscribes(config: Config, rules: seq<Rule>, c: Channel, parse: Parser)
    requires config.mode == ConfigMode
    ensures Resolved(config, c, rules, parse).Some? <==> exists r :: r in rules && AppliesTo(r, c, parse)
  {
    MergedMerges(rules, c, parse);
    hide Merged, AppliesTo;
  }

  /** In both modes the harness matches exactly the events of a subscribed channel that its
      subscription lets through, unless the kinds override is the empty list. */
  lemma OtherModesMatchWhatTheySubscribe(config: Config, e: Event, c: Channel, agent: string, parse: Parser, show: Printer)
    requires config.mode != ConfigMode && config.kindsOverride != Some([]) && Subscribes(config, c, parse)
    ensures Resolved(config, c, [], parse).Some?
    ensures SomeRuleReached(RulesFor(config, []), e, c, agent, show)
            <==> Accepts(Resolved(config, c, [], parse).value, e, agent)
  {
    hide Mentions;
    var rules := RulesFor(config, []);
    assert rules == [rules[0]] && rules[0] in rules;
    assert SomeRuleReached(rules, e, c, agent, show) <==> Reached(rules[0], e, c, agent, show);
  }
}
