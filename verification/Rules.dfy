/** Subscription rules and the checks shared by matching and by subscribing. */
module Rules {
  import opened Wrappers

  /** A channel's UUID; parsing and printing UUID text are parameters. */
  type Channel = nat
  type Parser = string -> Option<Channel>
  type Printer = Channel -> string

  datatype Scope = All(word: string) | List(ids: seq<string>)

  datatype Rule = Rule(
    name: string,
    channels: Scope,
    kinds: seq<nat>,
    requireMention: bool,
    filter: Option<string>,
    promptTag: Option<string>)

  datatype Event = Event(kind: nat, tags: seq<seq<string>>)

  /** Printed UUIDs parse back. */
  ghost predicate RoundTrips(parse: Parser, show: Printer) {
    forall c: Channel :: parse(show(c)) == Some(c)
  }

  /** `ChannelScope::matches`: by text. */
  predicate ScopeMatches(scope: Scope, c: Channel, show: Printer) {
    match scope
    case All(word) => word == "all"
    case List(ids) => show(c) in ids
  }

  /** `rule_applies_to_channel`: by parsed UUID. */
  predicate AppliesTo(rule: Rule, c: Channel, parse: Parser) {
    match rule.channels
    case All(word) => word == "all"
    case List(ids) => exists i :: 0 <= i < |ids| && parse(ids[i]) == Some(c)
  }

  predicate KindPasses(rule: Rule, e: Event) { rule.kinds == [] || e.kind in rule.kinds }

  predicate Mentions(e: Event, agent: string) {
    exists i :: 0 <= i < |e.tags| && |e.tags[i]| >= 2 && e.tags[i][0] == "p" && e.tags[i][1] == agent
  }

  predicate MentionPasses(rule: Rule, e: Event, agent: string) { !rule.requireMention || Mentions(e, agent) }

  /** Channel, kind and mention checks: everything before the filter expression. */
  predicate Reached(rule: Rule, e: Event, c: Channel, agent: string, show: Printer) {
    ScopeMatches(rule.channels, c, show) && KindPasses(rule, e) && MentionPasses(rule, e, agent)
  }

  /** A textual match is a parsed match. */
  lemma TextMatchParses(rule: Rule, c: Channel, parse: Parser, show: Printer)
    requires RoundTrips(parse, show) && ScopeMatches(rule.channels, c, show)
    ensures AppliesTo(rule, c, parse)
  {
    if rule.channels.List? {
      var i :| 0 <= i < |rule.channels.ids| && rule.channels.ids[i] == show(c);
      assert parse(rule.channels.ids[i]) == Some(c);
    }
  }

  /** The converse fails for every other spelling of a UUID that the parser accepts: such a
      rule subscribes its channel and never matches an event on it. */
  lemma OtherSpellingOnlySubscribes(rule: Rule, c: Channel, id: string, parse: Parser, show: Printer)
    requires rule.channels == List([id]) && parse(id) == Some(c) && id != show(c)
    ensures AppliesTo(rule, c, parse) && !ScopeMatches(rule.channels, c, show)
  {
    assert [id][0] == id;
  }
}
