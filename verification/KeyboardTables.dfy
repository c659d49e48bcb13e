/**
 * What the tables of a configuration do once compiled: an entry of the user replaces the default for its key, a
 * disabled default does nothing, and an edit changes what one key does.
 */
module KeyboardTables {
  import opened KeyOrder
  import opened KeyNames
  import opened Matcher
  import opened Compiler
  import opened CompilerMeaning
  import opened KeyboardConfigs
  import opened CompilerTheorems

  // ----- which entry a key has -----

  lemma EffectiveHolds(config: Config)
    ensures forall key, binding ::
              key in Effective(config) && Effective(config)[key] == binding <==> Holds(config, key, binding)
  {
    hide Defaults;
    forall key, binding
      ensures key in Effective(config) && Effective(config)[key] == binding <==> Holds(config, key, binding)
    {
      EffectiveAt(config, key);
    }
  }

  lemma EffectiveAt(config: Config, key: string)
    ensures key in Effective(config) <==>
            key in config.bindings || (key in Defaults() && key !in config.disabled)
    ensures key in Effective(config) ==>
              Effective(config)[key] == if key in config.bindings then config.bindings[key] else Defaults()[key]
  {
    hide Defaults;
  }

  // ----- what can be typed for a key -----

  /** Some entry types this name. */
  ghost predicate IsNamed(config: Config, name: string) { exists source :: Holds(config, source, Binding("key", name)) }

  /**
   * `tokens` is one way to type the key: each component in turn, where a name that entries type is typed as one of
   * these, and any other component as what it stands for.
   */
  ghost predicate Types(config: Config, depth: nat, key: string, tokens: seq<Token>)
    decreases depth, 3
  {
    Components(key).Some? && TypesParts(config, depth, Components(key).value, tokens)
  }

  ghost predicate TypesParts(config: Config, depth: nat, parts: seq<string>, tokens: seq<Token>)
    decreases depth, 2, |parts|
  {
    if parts == [] then tokens == []
    else exists k | 0 <= k <= |tokens| ::
        TypesPart(config, depth, parts[0], tokens[..k]) && TypesParts(config, depth, parts[1..], tokens[k..])
  }

  ghost predicate TypesPart(config: Config, depth: nat, part: string, tokens: seq<Token>)
    decreases depth, 1
  {
    if !IsNamed(config, part) then tokens == LiteralTokens(part)
    else depth > 0 && exists source | Holds(config, source, Binding("key", part)) ::
           Types(config, depth - 1, source, tokens)
  }

  /** Which entries feed a named key. */
  lemma {:induction false} AliasesAreFed(entries: map<string, Binding>, keys: seq<string>, n: nat, name: string)
    requires n <= |keys| && (forall key :: key in keys ==> key in entries) && name in AliasesOf(entries, keys, n)
    ensures AliasesOf(entries, keys, n)[name] != []
  {
    if n > 0 && name in AliasesOf(entries, keys, n - 1) {
      AliasesAreFed(entries, keys, n - 1, name);
    }
  }

  lemma {:induction false} AliasesOfAre(
    entries: map<string, Binding>, keys: seq<string>, n: nat, name: string, source: string)
    requires n <= |keys| && forall key :: key in keys ==> key in entries
    ensures var aliases := AliasesOf(entries, keys, n);
            name in aliases && source in aliases[name] <==>
            source in keys[..n] && source in entries && entries[source] == Binding("key", name)
  {
    if n > 0 {
      AliasesOfAre(entries, keys, n - 1, name, source);
      assert keys[..n] == keys[..n - 1] + [keys[n - 1]];
      assert source in keys[..n] <==> source in keys[..n - 1] || source == keys[n - 1];
      var key := keys[n - 1];
      assert entries[key].action == "key" ==> entries[key] == Binding("key", entries[key].data);
    }
  }

  lemma AliasHolds(config: Config, name: string, source: string)
    ensures var aliases := TableAliases(Effective(config));
            name in aliases && source in aliases[name] <==> Holds(config, source, Binding("key", name))
  {
    hide Effective, Holds;
    var entries := Effective(config);
    var order := InOrder(entries.Keys);
    AliasesOfAre(entries, order, |order|, name, source);
    assert order[..|order|] == order;
    EffectiveHolds(config);
  }

  lemma AliasesHold(config: Config, name: string)
    ensures var aliases := TableAliases(Effective(config));
            && (name in aliases <==> IsNamed(config, name))
            && (name in aliases ==>
                forall source :: source in aliases[name] <==> Holds(config, source, Binding("key", name)))
  {
    var aliases := TableAliases(Effective(config));
    forall source
      ensures name in aliases && source in aliases[name] <==> Holds(config, source, Binding("key", name))
    {
      AliasHolds(config, name, source);
    }
    if name in aliases {
      var order := InOrder(Effective(config).Keys);
      AliasesAreFed(Effective(config), order, |order|, name);
      hide Effective, Holds, TableAliases;
      assert Holds(config, aliases[name][0], Binding("key", name));
    }
  }

  lemma {:induction false} TypesIff(config: Config, d: nat, key: string, tokens: seq<Token>)
    ensures Types(config, d, key, tokens) <==> SpellsKey(TableAliases(Effective(config)), d, key, tokens)
    decreases d, 3
  {
    hide Components;
    if Components(key).Some? {
      TypesPartsIff(config, d, Components(key).value, tokens);
    }
  }

  lemma {:induction false} TypesPartsIff(config: Config, d: nat, parts: seq<string>, tokens: seq<Token>)
    ensures TypesParts(config, d, parts, tokens) <==> SpellsParts(TableAliases(Effective(config)), d, parts, tokens)
    decreases d, 2, |parts|
  {
    hide Effective, TableAliases;
    if parts != [] {
      forall k | 0 <= k <= |tokens|
        ensures TypesPart(config, d, parts[0], tokens[..k]) <==>
                SpellsPart(TableAliases(Effective(config)), d, parts[0], tokens[..k])
        ensures TypesParts(config, d, parts[1..], tokens[k..]) <==>
                SpellsParts(TableAliases(Effective(config)), d, parts[1..], tokens[k..])
      {
        TypesPartIff(config, d, parts[0], tokens[..k]);
        TypesPartsIff(config, d, parts[1..], tokens[k..]);
      }
      hide TypesPart, SpellsPart;
    }
  }

  lemma {:induction false} TypesPartIff(config: Config, d: nat, part: string, tokens: seq<Token>)
    ensures TypesPart(config, d, part, tokens) <==> SpellsPart(TableAliases(Effective(config)), d, part, tokens)
    decreases d, 1
  {
    hide Effective, TableAliases, Holds, LiteralTokens;
    AliasesHold(config, part);
    if IsNamed(config, part) && d > 0 {
      forall source | Holds(config, source, Binding("key", part))
        ensures Types(config, d - 1, source, tokens) <==>
                SpellsKey(TableAliases(Effective(config)), d - 1, source, tokens)
      {
        TypesIff(config, d - 1, source, tokens);
      }
      hide Types, SpellsKey;
    }
  }

  // ----- what a compiled configuration runs -----

  /** The key has an entry that runs something, and can be typed so. */
  ghost predicate Runs(config: Config, key: string, tokens: seq<Token>, binding: Binding) {
    Holds(config, key, binding) && binding.action != "key" && Types(config, MAX_STACK, key, tokens)
  }

  /** The user's own entries come before the defaults, and of two of a kind the one whose key is later. */
  ghost predicate Precedes(config: Config, key: string, other: string) {
    if (key in config.bindings) == (other in config.bindings) then Before(other, key) else key in config.bindings
  }

  /** The entry that precedes every other one that can be typed so. */
  ghost predicate First(config: Config, key: string, tokens: seq<Token>, binding: Binding) {
    && Runs(config, key, tokens, binding)
    && forall other, b | Runs(config, other, tokens, b) && other != key :: Precedes(config, key, other)
  }

  lemma RunsIff(config: Config, key: string, tokens: seq<Token>)
    ensures Candidate(Effective(config), key, tokens) <==> exists binding :: Runs(config, key, tokens, binding)
    ensures forall binding | Runs(config, key, tokens, binding) ::
              key in Effective(config) && Effective(config)[key] == binding
  {
    EffectiveHolds(config);
    TypesIff(config, MAX_STACK, key, tokens);
    hide Effective, Holds, Types, SpellsKey, TableAliases;
    if Candidate(Effective(config), key, tokens) {
      assert Runs(config, key, tokens, Effective(config)[key]);
    }
  }

  lemma FirstIff(config: Config, key: string, tokens: seq<Token>)
    ensures Best(Effective(config), config.bindings.Keys, key, tokens) <==>
            exists binding :: First(config, key, tokens, binding)
    ensures forall binding | First(config, key, tokens, binding) ::
              key in Effective(config) && Effective(config)[key] == binding
  {
    RunsIff(config, key, tokens);
    forall other
      ensures Candidate(Effective(config), other, tokens) <==> exists binding :: Runs(config, other, tokens, binding)
      ensures Precedes(config, key, other) <==> Outranks(config.bindings.Keys, key, other)
    {
      RunsIff(config, other, tokens);
    }
    hide Effective, Candidate, Runs, Before;
    if Best(Effective(config), config.bindings.Keys, key, tokens) {
      var binding :| Runs(config, key, tokens, binding);
      assert First(config, key, tokens, binding);
    }
  }

  /**
   * A compiled configuration waits as long as it says, and runs for a sequence of tokens the first entry that can be
   * typed so: the user's own before the defaults, of which the disabled ones and those the user replaced are none.
   */
  lemma ConfigurationRuns(config: Config, tokens: seq<Token>)
    requires CompileConfig(config).Some?
    ensures var keymap := CompileConfig(config).value;
            && keymap.timeout == config.keyTimeout
            && (tokens in keymap.executable <==> exists key, binding :: Runs(config, key, tokens, binding))
            && (tokens in keymap.executable ==>
                exists key :: First(config, key, tokens, keymap.executable[tokens]))
            && forall key, binding | First(config, key, tokens, binding) ::
                 tokens in keymap.executable && keymap.executable[tokens] == binding
  {
    hide CompileTable, Effective, Candidate, Best, First, Runs;
    var entries, user := Effective(config), config.bindings.Keys;
    OverridePrecedence(entries, user, tokens);
    forall key
      ensures Candidate(entries, key, tokens) <==> exists binding :: Runs(config, key, tokens, binding)
      ensures Best(entries, user, key, tokens) <==> exists binding :: First(config, key, tokens, binding)
      ensures forall binding | First(config, key, tokens, binding) :: key in entries && entries[key] == binding
    {
      RunsIff(config, key, tokens);
      FirstIff(config, key, tokens);
    }
    var executable := CompileTable(entries, user).value;
    forall key, binding | Runs(config, key, tokens, binding)
      ensures Candidate(entries, key, tokens)
    {
    }
    forall key, binding | First(config, key, tokens, binding)
      ensures Best(entries, user, key, tokens) && entries[key] == binding
    {
    }
    if tokens in executable {
      var candidate :| Candidate(entries, candidate, tokens);
      var some :| Runs(config, candidate, tokens, some);
      var key :| Best(entries, user, key, tokens);
      var binding :| First(config, key, tokens, binding);
      assert executable[tokens] == entries[key] == binding;
    }
  }

  /**
   * A configuration compiles exactly if every entry it has is valid, each can be typed within 32 nested names, and all
   * together cost at most 4096.
   */
  lemma ConfigurationCompilesIff(config: Config)
    ensures var entries := Effective(config);
            var keys := EntryOrder(entries, config.bindings.Keys);
            var cost := TotalCost(TableAliases(entries), keys, |keys|);
            CompileConfig(config).Some? <==>
            && (forall key, binding | Holds(config, key, binding) :: key != "" && ValidBinding(binding, 0))
            && cost.Some? && cost.value <= 4096
  {
    hide CompileTable, TableAliases, EntryOrder, TotalCost, ValidBinding;
    CompilesIff(Effective(config), config.bindings.Keys);
    ValidIff(config);
    hide Effective, Holds, EntriesAreValid;
  }

  lemma ValidIff(config: Config)
    ensures EntriesAreValid(Effective(config)) <==>
            forall key, binding | Holds(config, key, binding) :: key != "" && ValidBinding(binding, 0)
  {
    hide ValidBinding, Effective, Holds;
    EffectiveHolds(config);
    var entries := Effective(config);
    if forall key, binding | Holds(config, key, binding) :: key != "" && ValidBinding(binding, 0) {
      forall key | key in entries
        ensures key != "" && ValidBinding(entries[key], 0)
      {
        assert Holds(config, key, entries[key]);
      }
    }
    if EntriesAreValid(entries) {
      forall key, binding | Holds(config, key, binding)
        ensures key != "" && ValidBinding(binding, 0)
      {
        assert key in entries && entries[key] == binding;
      }
    }
  }

  // ----- edits -----

  /**
   * A `set` that succeeds takes effect: whatever can be typed for the key runs this entry, or that of another key of
   * the user's that is later and typed alike; never a default.
   */
  lemma SetTakesEffect(config: Config, key: string, binding: Binding, tokens: seq<Token>)
    requires binding.action != "key" && CompileConfig(WithEntry(config, key, binding)).Some?
    requires Types(WithEntry(config, key, binding), MAX_STACK, key, tokens)
    ensures var executable := CompileConfig(WithEntry(config, key, binding)).value.executable;
            && tokens in executable
            && exists k | k in config.bindings.Keys + {key} ::
                 (k == key || Before(key, k))
                 && executable[tokens] == if k == key then binding else config.bindings[k]
  {
    hide Types, CompileConfig, WithEntry, Defaults, Runs, Holds, First;
    var next := WithEntry(config, key, binding);
    SetRuns(config, key, binding, tokens);
    ConfigurationRuns(next, tokens);
    var executable := CompileConfig(next).value.executable;
    var k :| First(next, k, tokens, executable[tokens]);
    FirstIsOwn(next, key, tokens, binding, k, executable[tokens]);
    assert k in config.bindings.Keys + {key};
    assert executable[tokens] == if k == key then binding else config.bindings[k];
  }

  lemma SetRuns(config: Config, key: string, binding: Binding, tokens: seq<Token>)
    requires binding.action != "key" && Types(WithEntry(config, key, binding), MAX_STACK, key, tokens)
    ensures Runs(WithEntry(config, key, binding), key, tokens, binding)
    ensures WithEntry(config, key, binding).bindings == config.bindings[key := binding]
  {
    hide Types, Defaults;
  }

  lemma FirstIsOwn(config: Config, key: string, tokens: seq<Token>, binding: Binding, first: string, b: Binding)
    requires key in config.bindings && Runs(config, key, tokens, binding) && First(config, first, tokens, b)
    ensures first in config.bindings && config.bindings[first] == b && (first == key || Before(key, first))
  {
    hide Types, Defaults, Before;
    assert first == key || Precedes(config, first, key);
  }

  /** What was removed, or is disabled, runs for no sequence. */
  lemma RemovedRunsNothing(config: Config, key: string, tokens: seq<Token>)
    requires CompileConfig(WithoutEntry(config, key)).Some?
    ensures var executable := CompileConfig(WithoutEntry(config, key)).value.executable;
            tokens in executable ==>
              exists k :: k != key && Runs(WithoutEntry(config, key), k, tokens, executable[tokens])
  {
    hide CompileConfig, Holds, Types, WithoutEntry;
    RemoveHolds(config, key);
    ConfigurationRuns(WithoutEntry(config, key), tokens);
    var executable := CompileConfig(WithoutEntry(config, key)).value.executable;
    if tokens in executable {
      var k :| First(WithoutEntry(config, key), k, tokens, executable[tokens]);
    }
  }
}
