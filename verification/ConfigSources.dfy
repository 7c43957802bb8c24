/** The `CODEX_CONFIG` of a spawned agent: which source each value comes from, with network
    access forced on. */
module ConfigSources {
  import opened ConfigMerge
  import opened Wrappers

  const CONFIG_KEY := "CODEX_CONFIG"
  const SANDBOX := "sandbox_workspace_write"
  const NETWORK := "network_access"

  datatype Source = Persona | Generated | Parent

  datatype ConfigError = NotJson(source: Source) | NotObject(source: Source) | SandboxNotObject(value: Value)

  type Parser = string -> Option<Value>

  // ---- The sources

  function Entries(env: seq<(string, string)>): seq<string> {
    if env == [] then []
    else (if env[0].0 == CONFIG_KEY then [env[0].1] else []) + Entries(env[1..])
  }

  lemma EntriesStep(env: seq<(string, string)>)
    ensures Entries(env) ==
      if env == [] then [] else if env[0].0 == CONFIG_KEY then [env[0].1] + Entries(env[1..]) else Entries(env[1..])
  {
  }

  /** Exactly the entries under the key are taken, in their order. */
  lemma {:induction false} EntriesInOrder(a: seq<(string, string)>, b: seq<(string, string)>, x: (string, string))
    ensures Entries(a + b) == Entries(a) + Entries(b)
    ensures Entries([x]) == if x.0 == CONFIG_KEY then [x.1] else []
  {
    hide Entries;
    EntriesStep(a);
    EntriesStep([]);
    EntriesStep([x]);
    assert [x][1..] == [];
    if a == [] {
      assert a + b == b;
    } else {
      EntriesInOrder(a[1..], b, x);
      EntriesStep(a + b);
      assert (a + b)[1..] == a[1..] + b;
    }
  }

  /** The texts of all sources, a later one winning over an earlier one. */
  function Texts(env: seq<(string, string)>, parent: Option<string>): seq<string> {
    Entries(env) + match parent case None => [] case Some(raw) => [raw]
  }

  /** What the `i`-th source is called in an error. */
  function SourceOf(i: nat, env: seq<(string, string)>): Source {
    if i == |Entries(env)| then Parent else if i == 0 then Persona else Generated
  }

  predicate IsObjectText(raw: string, parse: Parser) { parse(raw).Some? && parse(raw).value.Object? }

  /** The sources parse as these objects. */
  predicate ParseAs(texts: seq<string>, parse: Parser, sources: seq<Value>) {
    && |sources| == |texts|
    && forall i :: 0 <= i < |texts| ==> parse(texts[i]) == Some(sources[i]) && sources[i].Object?
  }

  // ---- Which source a value comes from

  /** A source with nothing at a path or on the way to it but objects. */
  predicate Untouched(v: Value, path: seq<string>) { At(v, path).None? && !CutsOff(v, path) }

  /** The `i`-th source has a value that is no object at the path, and no later one has
      anything there or cuts the path off. */
  predicate HasLeaf(sources: seq<Value>, i: nat, path: seq<string>) {
    && i < |sources| && At(sources[i], path).Some? && !At(sources[i], path).value.Object?
    && forall j :: i < j < |sources| ==> Untouched(sources[j], path)
  }

  /** The `i`-th source has an object there, and the later ones nothing but objects. */
  predicate HasObject(sources: seq<Value>, i: nat, path: seq<string>) {
    && i < |sources| && At(sources[i], path).Some? && At(sources[i], path).value.Object?
    && forall j :: i < j < |sources| ==>
         Untouched(sources[j], path) || (At(sources[j], path).Some? && At(sources[j], path).value.Object?)
  }

  /** What is found at a path: the last source's value that is no object, an object when
      some source has one that no later one replaces or cuts off, and nothing else. */
  ghost predicate ComesFrom(sources: seq<Value>, path: seq<string>, found: Option<Value>) {
    && (forall i: nat :: HasLeaf(sources, i, path) ==> found == At(sources[i], path))
    && (found.Some? && !found.value.Object? ==> exists i: nat :: HasLeaf(sources, i, path))
    && (found.Some? && found.value.Object? <==> exists i: nat :: HasObject(sources, i, path))
  }

  /** All sources merged, in order. */
  function Merged(sources: seq<Value>): Value
    requires sources != []
  {
    if |sources| == 1 then sources[0] else Merge(Merged(sources[..|sources| - 1]), sources[|sources| - 1])
  }

  lemma HasInPrefix(sources: seq<Value>, i: nat, path: seq<string>)
    requires sources != [] && i < |sources| - 1
    ensures var before, last := sources[..|sources| - 1], sources[|sources| - 1];
      && (HasLeaf(sources, i, path) <==> HasLeaf(before, i, path) && Untouched(last, path))
      && (HasObject(sources, i, path) <==>
            HasObject(before, i, path) && (Untouched(last, path) || (At(last, path).Some? && At(last, path).value.Object?)))
  {
    hide At, CutsOff, Untouched;
    var before := sources[..|sources| - 1];
    forall j | 0 <= j < |before| ensures sources[j] == before[j] {
    }
    if HasLeaf(before, i, path) && Untouched(sources[|before|], path) {
      forall j | i < j < |sources| ensures Untouched(sources[j], path) {
        if j < |before| {
          assert Untouched(before[j], path);
        }
      }
    }
  }

  /** Path by path, the merge of all sources is what the last source to say something
      says. */
  lemma {:induction false} MergedComesFrom(sources: seq<Value>, path: seq<string>)
    requires sources != []
    ensures ComesFrom(sources, path, At(Merged(sources), path))
  {
    hide At, CutsOff, Merge, HasLeaf, HasObject;
    var n := |sources| - 1;
    var before, last := sources[..n], sources[n];
    LastHas(sources, path);
    forall i: nat
      ensures HasLeaf(sources, i, path) ==> i <= n
      ensures HasObject(sources, i, path) ==> i <= n
    {
      HasInRange(sources, i, path);
    }
    if n > 0 {
      MergedComesFrom(before, path);
      MergeAt(Merged(before), last, path);
      NoLeafWhenCut(last, path);
      forall i: nat | i < n
        ensures HasLeaf(sources, i, path) <==> HasLeaf(before, i, path) && Untouched(last, path)
        ensures HasObject(sources, i, path) <==>
          HasObject(before, i, path) && (Untouched(last, path) || (At(last, path).Some? && At(last, path).value.Object?))
      {
        HasInPrefix(sources, i, path);
      }
      forall i: nat
        ensures HasLeaf(before, i, path) ==> i < n && before[i] == sources[i]
        ensures HasObject(before, i, path) ==> i < n
      {
        HasInRange(before, i, path);
      }
      MergedWith(Merged(before), last, path);
    }
  }

  lemma MergedWith(base: Value, overlay: Value, path: seq<string>)
    ensures At(base, path).Some? && At(overlay, path).Some? ==>
      var m := Merge(At(base, path).value, At(overlay, path).value);
      if At(overlay, path).value.Object? then m.Object? else m == At(overlay, path).value
  {
    hide At;
  }

  lemma {:induction false} NoLeafWhenCut(v: Value, path: seq<string>)
    ensures CutsOff(v, path) ==> At(v, path).None?
  {
    if path != [] && v.Object? && path[0] in v.fields {
      NoLeafWhenCut(v.fields[path[0]], path[1..]);
    }
  }

  lemma HasInRange(sources: seq<Value>, i: nat, path: seq<string>)
    ensures HasLeaf(sources, i, path) || HasObject(sources, i, path) ==> i < |sources|
  {
  }

  lemma LastHas(sources: seq<Value>, path: seq<string>)
    requires sources != []
    ensures var n, found := |sources| - 1, At(sources[|sources| - 1], path);
      && (HasLeaf(sources, n, path) <==> found.Some? && !found.value.Object?)
      && (HasObject(sources, n, path) <==> found.Some? && found.value.Object?)
  {
    hide At;
  }

  lemma {:induction false} MergedIsObject(sources: seq<Value>)
    requires sources != [] && forall i :: 0 <= i < |sources| ==> sources[i].Object?
    ensures Merged(sources).Object?
  {
    if |sources| > 1 {
      MergedIsObject(sources[..|sources| - 1]);
    }
  }

  // ---- The forced flag

  function Forced(config: Value): Result<Value, ConfigError>
    requires config.Object?
  {
    var sandbox := if SANDBOX in config.fields then config.fields[SANDBOX] else Object(map[]);
    if sandbox.Object? then
      Ok(Object(config.fields[SANDBOX := Object(sandbox.fields[NETWORK := Bool(true)])]))
    else Err(SandboxNotObject(sandbox))
  }

  const FLAG: seq<string> := [SANDBOX, NETWORK]

  /** A path that neither passes through the flag nor leads to it. */
  predicate OffFlag(path: seq<string>) { !(path <= FLAG) && !(FLAG <= path) }

  /** The flag is true and every path that neither passes through it nor leads to it is as
      merged. */
  lemma ForcedChangesOnlyTheFlag(config: Value, path: seq<string>)
    requires config.Object? && Forced(config).Ok?
    ensures At(Forced(config).value, FLAG) == Some(Bool(true))
    ensures OffFlag(path) ==> At(Forced(config).value, path) == At(config, path)
  {
    FlagIsTrue(config);
    if path != [] && path[0] == SANDBOX && |path| > 1 && path[1] != NETWORK {
      var rest := path[1..];
      var forced := Forced(config).value.fields[SANDBOX];
      assert rest[0] == path[1] && At(Forced(config).value, path) == At(forced, rest);
      if SANDBOX in config.fields {
        assert At(config, path) == At(config.fields[SANDBOX], rest);
      } else {
        assert At(forced, rest) == None && At(config, path) == None;
      }
    } else if |path| > 1 && path[0] == SANDBOX {
      assert path == FLAG + path[2..];
    } else if |path| == 1 && path[0] == SANDBOX {
      assert path == FLAG[..1];
    }
  }

  lemma FlagIsTrue(config: Value)
    requires config.Object? && Forced(config).Ok?
    ensures At(Forced(config).value, FLAG) == Some(Bool(true))
  {
    var sandbox := Forced(config).value.fields[SANDBOX];
    assert sandbox.fields[NETWORK] == Bool(true);
    assert At(sandbox.fields[NETWORK], FLAG[1..][1..]) == Some(Bool(true));
    assert At(sandbox, FLAG[1..]) == Some(Bool(true));
  }

  lemma SandboxAt(config: Value)
    requires config.Object?
    ensures At(config, [SANDBOX]) == if SANDBOX in config.fields then Some(config.fields[SANDBOX]) else None
  {
    assert [SANDBOX][1..] == [];
  }

  // ---- What the environment variable is set to

  /** The first source that is no JSON object, and the error that names it. */
  predicate FirstBad(env: seq<(string, string)>, parent: Option<string>, parse: Parser, i: nat, error: ConfigError) {
    var texts := Texts(env, parent);
    && i < |texts| && !IsObjectText(texts[i], parse)
    && (forall j :: 0 <= j < i ==> IsObjectText(texts[j], parse))
    && error == if parse(texts[i]).None? then NotJson(SourceOf(i, env)) else NotObject(SourceOf(i, env))
  }

  /** The value is forced to allow network access, and at every other path each source wins
      over the ones before it. */
  ghost predicate Configures(sources: seq<Value>, config: Value) {
    && At(config, FLAG) == Some(Bool(true))
    && forall path :: OffFlag(path) ==> ComesFrom(sources, path, At(config, path))
  }

  /** A value that is no object where the flag's object has to be. */
  ghost predicate BlocksFlag(sources: seq<Value>, value: Value) {
    exists i: nat :: HasLeaf(sources, i, [SANDBOX]) && At(sources[i], [SANDBOX]) == Some(value)
  }

  /** What the variable is set to once all sources are objects. */
  ghost predicate Yields(sources: seq<Value>, r: Result<Option<Value>, ConfigError>) {
    match r
    case Ok(None) => false
    case Ok(Some(config)) => Configures(sources, config) && forall v :: !BlocksFlag(sources, v)
    case Err(e) => e.SandboxNotObject? && BlocksFlag(sources, e.value)
  }

  lemma ForcedConfigures(sources: seq<Value>, config: Value)
    requires sources != [] && config == Merged(sources) && config.Object?
    ensures Forced(config).Ok? ==> Configures(sources, Forced(config).value) && forall v :: !BlocksFlag(sources, v)
    ensures Forced(config).Err? ==> Forced(config).error.SandboxNotObject? && BlocksFlag(sources, Forced(config).error.value)
  {
    SandboxAt(config);
    MergedComesFrom(sources, [SANDBOX]);
    if Forced(config).Ok? {
      forall path | OffFlag(path) ensures ComesFrom(sources, path, At(Forced(config).value, path)) {
        hide At, Forced, Merged, OffFlag, ComesFrom;
        ForcedChangesOnlyTheFlag(config, path);
        MergedComesFrom(sources, path);
      }
      FlagIsTrue(config);
    }
  }

  lemma FirstBadFails(env: seq<(string, string)>, parent: Option<string>, parse: Parser, i: nat, error: ConfigError)
    requires FirstBad(env, parent, parse, i, error)
    ensures forall j: nat, e :: FirstBad(env, parent, parse, j, e) ==> e == error
    ensures forall sources :: !ParseAs(Texts(env, parent), parse, sources)
  {
    hide Texts;
  }

  lemma ParsesOneWay(env: seq<(string, string)>, parent: Option<string>, parse: Parser, sources: seq<Value>)
    requires ParseAs(Texts(env, parent), parse, sources)
    ensures forall i: nat, e :: !FirstBad(env, parent, parse, i, e)
    ensures forall other :: ParseAs(Texts(env, parent), parse, other) ==> other == sources
  {
    hide Texts;
  }

  /** Either all sources parse as objects or one is the first bad one. */
  lemma FailsExactly(env: seq<(string, string)>, parent: Option<string>, parse: Parser)
    ensures var texts := Texts(env, parent);
      && ((exists sources :: ParseAs(texts, parse, sources)) <==> forall j :: 0 <= j < |texts| ==> IsObjectText(texts[j], parse))
      && ((exists i: nat, e :: FirstBad(env, parent, parse, i, e))
          <==> exists j :: 0 <= j < |texts| && !IsObjectText(texts[j], parse))
  {
    hide Texts;
    var texts := Texts(env, parent);
    var i: nat := 0;
    var sources: seq<Value> := [];
    while i < |texts| && IsObjectText(texts[i], parse)
      invariant i <= |texts| && ParseAs(texts[..i], parse, sources)
      invariant forall j :: 0 <= j < i ==> IsObjectText(texts[j], parse)
    {
      sources := sources + [parse(texts[i]).value];
      i := i + 1;
    }
    if i < |texts| {
      var e := if parse(texts[i]).None? then NotJson(SourceOf(i, env)) else NotObject(SourceOf(i, env));
      assert FirstBad(env, parent, parse, i, e);
    } else {
      assert ParseAs(texts, parse, sources);
    }
  }

  /** Parse the `i`-th source, all before it being `parsed`. */
  method ParseObject(env: seq<(string, string)>, parent: Option<string>, parse: Parser, i: nat, raw: string,
                     ghost parsed: seq<Value>) returns (r: Result<Value, ConfigError>)
    requires i < |Texts(env, parent)| && raw == Texts(env, parent)[i] && ParseAs(Texts(env, parent)[..i], parse, parsed)
    ensures r.Ok? ==> r.value.Object? && ParseAs(Texts(env, parent)[..i + 1], parse, parsed + [r.value])
    ensures r.Err? ==> FirstBad(env, parent, parse, i, r.error)
  {
    hide Texts;
    ghost var texts := Texts(env, parent);
    forall j | 0 <= j < i ensures texts[j] == texts[..i][j] {
    }
    match parse(raw) {
      case Some(Object(fields)) => r := Ok(Object(fields));
      case Some(_) => r := Err(NotObject(SourceOf(i, env)));
      case None => r := Err(NotJson(SourceOf(i, env)));
    }
  }

  /** `build_codex_config_env`, up to printing. */
  method BuildCodexConfigEnv(env: seq<(string, string)>, parent: Option<string>, hasGenerated: bool, parse: Parser)
    returns (r: Result<Option<Value>, ConfigError>)
    ensures !hasGenerated || Entries(env) == [] ==> r == Ok(None)
    ensures hasGenerated && Entries(env) != [] ==>
      && (forall i: nat, e :: FirstBad(env, parent, parse, i, e) ==> r == Err(e))
      && forall sources :: ParseAs(Texts(env, parent), parse, sources) ==> Yields(sources, r)
  {
    hide FirstBad, ParseAs, Merged, Configures, BlocksFlag, Merge;
    if !hasGenerated {
      return Ok(None);
    }
    var entries := CollectEntries(env);
    if entries == [] {
      return Ok(None);
    }
    ghost var texts := Texts(env, parent);
    EntriesFirst(env, parent);
    var parsed: seq<Value> := [];
    ParseNone(texts, parse);
    for i := 0 to |entries|
      invariant |parsed| == i && ParseAs(texts[..i], parse, parsed)
    {
      var v := ParseObject(env, parent, parse, i, entries[i], parsed);
      if v.Err? {
        FirstBadFails(env, parent, parse, i, v.error);
        return Err(v.error);
      }
      parsed := parsed + [v.value];
    }
    ParsedAreObjects(texts[..|entries|], parse, parsed);
    var base := parsed[0];
    MergedGrows(parsed, 0);
    for i := 1 to |entries|
      invariant base.Object? && base == Merged(parsed[..i])
    {
      MergedGrows(parsed, i);
      MergedIsObject(parsed[..i + 1]);
      base := DeepMerge(base, parsed[i]);
    }
    assert parsed[..|entries|] == parsed;
    if parent.Some? {
      var p := ParseObject(env, parent, parse, |entries|, parent.value, parsed);
      if p.Err? {
        FirstBadFails(env, parent, parse, |entries|, p.error);
        return Err(p.error);
      }
      parsed := parsed + [p.value];
      MergedGrows(parsed, |entries|);
      assert parsed[..|parsed|] == parsed;
      MergedIsObject(parsed);
      base := DeepMerge(base, p.value);
    }
    ParsesOneWay(env, parent, parse, parsed);
    ForcedConfigures(parsed, base);
    var sandbox := if SANDBOX in base.fields then base.fields[SANDBOX] else Object(map[]);
    if !sandbox.Object? {
      return Err(SandboxNotObject(sandbox));
    }
    sandbox := Object(sandbox.fields[NETWORK := Bool(true)]);
    r := Ok(Some(Object(base.fields[SANDBOX := sandbox])));
  }

  lemma EntriesFirst(env: seq<(string, string)>, parent: Option<string>)
    ensures var texts, n := Texts(env, parent), |Entries(env)|;
      && |texts| == n + (if parent.Some? then 1 else 0)
      && (forall i :: 0 <= i < n ==> texts[i] == Entries(env)[i])
      && (parent.Some? ==> texts[n] == parent.value)
      && texts[..|texts|] == texts
  {
  }

  lemma ParseNone(texts: seq<string>, parse: Parser)
    ensures ParseAs(texts[..0], parse, [])
  {
  }

  lemma ParsedAreObjects(texts: seq<string>, parse: Parser, sources: seq<Value>)
    requires ParseAs(texts, parse, sources)
    ensures forall i :: 0 <= i < |sources| ==> sources[i].Object?
  {
  }

  lemma MergedGrows(sources: seq<Value>, i: nat)
    requires i < |sources|
    ensures Merged(sources[..i + 1]) == if i == 0 then sources[0] else Merge(Merged(sources[..i]), sources[i])
  {
    assert sources[..i + 1][..i] == sources[..i];
  }

  method CollectEntries(env: seq<(string, string)>) returns (entries: seq<string>)
    ensures entries == Entries(env)
  {
    entries := [];
    for i := 0 to |env|
      invariant entries + Entries(env[i..]) == Entries(env)
    {
      assert env[i..][1..] == env[i + 1..];
      if env[i].0 == CONFIG_KEY {
        entries := entries + [env[i].1];
      }
    }
  }
}
