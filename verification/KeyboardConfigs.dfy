/** `KeyboardConfig` of shared/keybindings.rs: its tables, `effective`, `set`, `remove`, `reset` and `compile`. */
module KeyboardConfigs {
  import opened Wrappers
  import opened KeyOrder
  import opened KeyNames
  import opened Matcher
  import opened Compiler

  datatype Config = Config(keyTimeout: U64, bindings: map<string, Binding>, disabled: seq<string>)

  function Defaults(): map<string, Binding> {
    map[
      "^[" := Binding("key", "meta"),
      "meta-a" := Binding("active_window", ""),
      "meta-A" := Binding("active_window", ""),
      "meta-left" := Binding("previous_window", ""),
      "meta-right" := Binding("next_window", ""),
      "meta-l" := Binding("bare_display", ""),
      "meta-0" := Binding("change_window", "0"),
      "meta-1" := Binding("change_window", "1"),
      "meta-2" := Binding("change_window", "2"),
      "meta-3" := Binding("change_window", "3"),
      "meta-4" := Binding("change_window", "4"),
      "meta-5" := Binding("change_window", "5"),
      "meta-6" := Binding("change_window", "6"),
      "meta-7" := Binding("change_window", "7"),
      "meta-8" := Binding("change_window", "8"),
      "meta-9" := Binding("change_window", "9")
    ]
  }

  /** The defaults that are not disabled, overridden by the user's own entries. */
  function Effective(config: Config): map<string, Binding> {
    (Defaults() - (set key | key in config.disabled)) + config.bindings
  }

  /** The key has this entry: the user's own, or else a default that is not disabled. */
  ghost predicate Holds(config: Config, key: string, binding: Binding) {
    if key in config.bindings then config.bindings[key] == binding
    else key !in config.disabled && key in Defaults() && Defaults()[key] == binding
  }

  // ----- compile, as a function -----

  function Select(keys: seq<string>, user: set<string>, wanted: bool): (r: seq<string>)
    ensures forall key :: key in r <==> key in keys && (key in user) == wanted
  {
    if keys == [] then []
    else (if (keys[0] in user) == wanted then [keys[0]] else []) + Select(keys[1..], user, wanted)
  }

  /** The stable sort that puts the user's entries last. */
  function UserLast(keys: seq<string>, user: set<string>): (r: seq<string>)
    ensures forall key :: key in r <==> key in keys
  {
    Select(keys, user, false) + Select(keys, user, true)
  }

  /** Which keys feed each named key, from the first `n` entries. */
  function AliasesOf(entries: map<string, Binding>, keys: seq<string>, n: nat): Aliases
    requires n <= |keys| && forall key :: key in keys ==> key in entries
  {
    if n == 0 then map[]
    else
      var before := AliasesOf(entries, keys, n - 1);
      var key := keys[n - 1];
      var binding := entries[key];
      if binding.action != "key" then before
      else before[binding.data := (if binding.data in before then before[binding.data] else []) + [key]]
  }

  function InsertAll(
    executable: map<seq<Token>, Binding>, sequences: seq<seq<Token>>, n: nat, binding: Binding)
    : map<seq<Token>, Binding>
    requires n <= |sequences|
  {
    if n == 0 then executable else InsertAll(executable, sequences, n - 1, binding)[sequences[n - 1] := binding]
  }

  datatype Compiled = Compiled(executable: map<seq<Token>, Binding>, budget: nat)

  /** The state after the first `n` entries. */
  function CompileEntries(entries: map<string, Binding>, aliases: Aliases, keys: seq<string>, n: nat): Option<Compiled>
    requires n <= |keys| && forall key :: key in keys ==> key in entries
  {
    if n == 0 then Some(Compiled(map[], MAX_EXPANSIONS))
    else match CompileEntries(entries, aliases, keys, n - 1)
      case None => None
      case Some(before) =>
        match Expand(aliases, keys[n - 1], [], before.budget)
        case None => None
        case Some(expanded) =>
          var binding := entries[keys[n - 1]];
          Some(Compiled(
            if binding.action == "key" then before.executable
            else InsertAll(before.executable, expanded.sequences, |expanded.sequences|, binding),
            expanded.budget))
  }

  predicate EntriesAreValid(entries: map<string, Binding>) {
    forall key | key in entries :: key != "" && ValidBinding(entries[key], 0)
  }

  function TableAliases(entries: map<string, Binding>): Aliases {
    var order := InOrder(entries.Keys);
    AliasesOf(entries, order, |order|)
  }

  function EntryOrder(entries: map<string, Binding>, user: set<string>): (r: seq<string>)
    ensures forall key :: key in r <==> key in entries
  {
    UserLast(InOrder(entries.Keys), user)
  }

  /** Compiling a table of entries, of which `user` are the user's own. */
  function CompileTable(entries: map<string, Binding>, user: set<string>): Option<map<seq<Token>, Binding>> {
    var keys := EntryOrder(entries, user);
    if !EntriesAreValid(entries) then None
    else match CompileEntries(entries, TableAliases(entries), keys, |keys|)
      case None => None
      case Some(compiled) => Some(compiled.executable)
  }

  function CompileConfig(config: Config): Option<Keymap> {
    match CompileTable(Effective(config), config.bindings.Keys)
    case None => None
    case Some(executable) => Some(Keymap(executable, config.keyTimeout))
  }

  // ----- expand, as the source's loops -----

  method MultiplyWithin(prefixes: seq<seq<Token>>, suffixes: seq<seq<Token>>, budget: nat)
    returns (r: Option<Expansion>)
    ensures r == Multiply(prefixes, Expansion(suffixes, budget))
  {
    var product: seq<seq<Token>> := [];
    var left := budget;
    var i := 0;
    assert prefixes[..0] == [];
    while i < |prefixes|
      invariant i <= |prefixes|
      invariant product == Product(prefixes[..i], suffixes)
      invariant left == budget - i * |suffixes|
      invariant Fits(prefixes[..i], suffixes)
    {
      var row: seq<seq<Token>> := [];
      var j := 0;
      while j < |suffixes|
        invariant j <= |suffixes| && row == Row(prefixes[i], suffixes)[..j]
        invariant left == budget - i * |suffixes| - j
        invariant forall k | 0 <= k < j :: |prefixes[i]| + |suffixes[k]| <= MAX_SEQUENCE
      {
        if |prefixes[i]| + |suffixes[j]| > MAX_SEQUENCE {
          return None;
        }
        if left == 0 {
          UnitsExceed(|prefixes|, |suffixes|, i, j, budget);
          return None;
        }
        left := left - 1;
        row := row + [prefixes[i] + suffixes[j]];
        j := j + 1;
      }
      product := product + row;
      ProductSnoc(prefixes[..i], prefixes[i], suffixes);
      assert prefixes[..i] + [prefixes[i]] == prefixes[..i + 1];
      assert forall k | 0 <= k < i + 1 :: prefixes[..i + 1][k] == prefixes[k];
      i := i + 1;
      assert left == budget - i * |suffixes| by {
        assert i * |suffixes| == (i - 1) * |suffixes| + |suffixes|;
      }
    }
    assert prefixes[..i] == prefixes;
    r := Some(Expansion(product, left));
  }

  lemma UnitsExceed(rows: nat, columns: nat, i: nat, j: nat, budget: nat)
    requires i < rows && j < columns && budget == i * columns + j
    ensures rows * columns > budget
  {
    assert rows * columns >= (i + 1) * columns;
  }

  lemma {:induction false} ProductSnoc(prefixes: seq<seq<Token>>, last: seq<Token>, suffixes: seq<seq<Token>>)
    ensures Product(prefixes + [last], suffixes) == Product(prefixes, suffixes) + Row(last, suffixes)
  {
    if prefixes == [] {
      assert Product([last], suffixes) == Row(last, suffixes) + Product([], suffixes);
    } else {
      ProductSnoc(prefixes[1..], last, suffixes);
      assert (prefixes + [last])[1..] == prefixes[1..] + [last];
    }
  }

  method ExpandKey(aliases: Aliases, key: string, stack: seq<string>, budget: nat) returns (r: Option<Expansion>)
    requires |stack| <= MAX_STACK
    ensures r == Expand(aliases, key, stack, budget)
    decreases MAX_STACK - |stack|
  {
    if budget == 0 {
      return None;
    }
    var components := ParseComponents(key);
    if components.None? {
      return None;
    }
    var parts := components.value;
    var state := Expansion([[]], budget - 1);
    var i := 0;
    assert parts[0..] == parts;
    while i < |parts|
      invariant i <= |parts|
      invariant Expand(aliases, key, stack, budget) == ExpandParts(aliases, parts[i..], stack, state)
    {
      assert parts[i..][0] == parts[i] && parts[i..][1..] == parts[i + 1..];
      var alternatives: seq<seq<Token>> := [];
      var left := state.budget;
      if parts[i] in aliases {
        if parts[i] in stack || |stack| >= MAX_STACK {
          return None;
        }
        var sources := aliases[parts[i]];
        var inner := stack + [parts[i]];
        var k := 0;
        assert sources[0..] == sources;
        AppendedNothing(ExpandSources(aliases, sources, inner, left));
        while k < |sources|
          invariant k <= |sources|
          invariant ExpandSources(aliases, sources, inner, state.budget) ==
                    Appended(alternatives, ExpandSources(aliases, sources[k..], inner, left))
        {
          assert sources[k..][0] == sources[k] && sources[k..][1..] == sources[k + 1..];
          var expanded := ExpandKey(aliases, sources[k], inner, left);
          if expanded.None? {
            return None;
          }
          AppendedTwice(alternatives, expanded.value.sequences,
                        ExpandSources(aliases, sources[k + 1..], inner, expanded.value.budget));
          alternatives := alternatives + expanded.value.sequences;
          left := expanded.value.budget;
          k := k + 1;
        }
        assert alternatives + [] == alternatives;
      } else {
        alternatives := [LiteralTokens(parts[i])];
      }
      assert ExpandPart(aliases, parts[i], stack, state.budget) == Some(Expansion(alternatives, left));
      var product := MultiplyWithin(state.sequences, alternatives, left);
      if product.None? {
        return None;
      }
      state := product.value;
      i := i + 1;
    }
    r := Some(state);
  }

  ghost function Appended(before: seq<seq<Token>>, rest: Option<Expansion>): Option<Expansion> {
    match rest
    case None => None
    case Some(e) => Some(Expansion(before + e.sequences, e.budget))
  }

  lemma AppendedNothing(rest: Option<Expansion>)
    ensures Appended([], rest) == rest
  {
    if rest.Some? {
      assert [] + rest.value.sequences == rest.value.sequences;
    }
  }

  lemma AppendedTwice(before: seq<seq<Token>>, first: seq<seq<Token>>, rest: Option<Expansion>)
    ensures Appended(before, Appended(first, rest)) == Appended(before + first, rest)
  {
    if rest.Some? {
      assert before + (first + rest.value.sequences) == (before + first) + rest.value.sequences;
    }
  }

  // ----- the loops of compile -----

  /** The validating pass: an error, or which keys feed each named key. */
  method CollectAliases(entries: map<string, Binding>, order: seq<string>) returns (r: Option<Aliases>)
    requires forall key :: key in order <==> key in entries
    ensures r == if EntriesAreValid(entries) then Some(AliasesOf(entries, order, |order|)) else None
  {
    hide ValidBinding;
    var aliases: Aliases := map[];
    for i := 0 to |order|
      invariant aliases == AliasesOf(entries, order, i)
      invariant forall k | 0 <= k < i :: order[k] != "" && ValidBinding(entries[order[k]], 0)
    {
      var key := order[i];
      assert key in entries;
      var binding := entries[key];
      if !ValidBinding(binding, 0) || key == "" {
        return None;
      }
      if binding.action == "key" {
        var sources := if binding.data in aliases then aliases[binding.data] else [];
        aliases := aliases[binding.data := sources + [key]];
      }
    }
    assert EntriesAreValid(entries) by {
      forall key | key in entries
        ensures key != "" && ValidBinding(entries[key], 0)
      {
        assert key in order;
      }
    }
    r := Some(aliases);
  }

  method InsertSequences(before: map<seq<Token>, Binding>, sequences: seq<seq<Token>>, binding: Binding)
    returns (executable: map<seq<Token>, Binding>)
    ensures executable == InsertAll(before, sequences, |sequences|, binding)
  {
    executable := before;
    for k := 0 to |sequences|
      invariant executable == InsertAll(before, sequences, k, binding)
    {
      executable := executable[sequences[k] := binding];
    }
  }

  /** The expanding pass: one budget shared by all the entries. */
  method CompileAll(entries: map<string, Binding>, aliases: Aliases, keys: seq<string>)
    returns (r: Option<map<seq<Token>, Binding>>)
    requires forall key :: key in keys ==> key in entries
    ensures r == (match CompileEntries(entries, aliases, keys, |keys|)
                  case None => None
                  case Some(compiled) => Some(compiled.executable))
  {
    hide Expand, InsertAll;
    var state := Compiled(map[], MAX_EXPANSIONS);
    for i := 0 to |keys|
      invariant CompileEntries(entries, aliases, keys, i) == Some(state)
    {
      var expanded := ExpandKey(aliases, keys[i], [], state.budget);
      if expanded.None? {
        CompileEntriesPrefix(entries, aliases, keys, i + 1, |keys|);
        return None;
      }
      var binding := entries[keys[i]];
      var executable := state.executable;
      if binding.action != "key" {
        executable := InsertSequences(executable, expanded.value.sequences, binding);
      }
      state := Compiled(executable, expanded.value.budget);
    }
    r := Some(state.executable);
  }

  // ----- the source's struct -----

  class KeyboardConfig {
    var keyTimeout: U64
    var bindings: map<string, Binding>
    var disabled: seq<string>

    function Value(): Config
      reads this
    {
      Config(keyTimeout, bindings, disabled)
    }

    /** The source's derived `Default` and `Clone`, in one. */
    constructor (config: Config)
      ensures Value() == config
    {
      keyTimeout, bindings, disabled := config.keyTimeout, config.bindings, config.disabled;
    }

    method CollectEffective() returns (entries: map<string, Binding>)
      ensures entries == Effective(Value())
    {
      entries := Defaults();
      for i := 0 to |disabled|
        invariant entries == Defaults() - (set key | key in disabled[..i])
      {
        entries := entries - {disabled[i]};
        assert disabled[..i + 1] == disabled[..i] + [disabled[i]];
      }
      assert disabled[..|disabled|] == disabled;
      entries := entries + bindings;
    }

    method Compile() returns (r: Option<Keymap>)
      ensures r == CompileConfig(Value())
    {
      var entries := CollectEffective();
      var order := InOrder(entries.Keys);
      var aliases := CollectAliases(entries, order);
      if aliases.None? {
        return None;
      }
      var executable := CompileAll(entries, aliases.value, UserLast(order, bindings.Keys));
      match executable
      case None => return None;
      case Some(map') => return Some(Keymap(map', keyTimeout));
    }

    /** All or nothing: an entry that would not compile leaves the configuration as it was. */
    method Set(key: string, binding: Binding) returns (ok: bool)
      modifies this
      ensures ok == CompileConfig(WithEntry(old(Value()), key, binding)).Some?
      ensures Value() == if ok then WithEntry(old(Value()), key, binding) else old(Value())
      ensures ok ==> forall k, b ::
                Holds(Value(), k, b) <==> if k == key then b == binding else Holds(old(Value()), k, b)
      ensures ok ==> forall k :: k in disabled <==> k in old(disabled) && k != key
    {
      SetHolds(Value(), key, binding);
      var next := new KeyboardConfig(Value());
      next.disabled := Without(next.disabled, key);
      next.bindings := next.bindings[key := binding];
      var compiled := next.Compile();
      ok := compiled.Some?;
      if ok {
        keyTimeout, bindings, disabled := next.keyTimeout, next.bindings, next.disabled;
      }
    }

    method Remove(key: string)
      modifies this
      ensures Value() == WithoutEntry(old(Value()), key)
      ensures forall k, b :: Holds(Value(), k, b) <==> k != key && Holds(old(Value()), k, b)
      ensures forall k :: k in disabled <==> k in old(disabled) || k == key
    {
      RemoveHolds(Value(), key);
      bindings := bindings - {key};
      if key !in disabled {
        disabled := disabled + [key];
      }
    }

    method Reset(key: string)
      modifies this
      ensures Value() == WithDefault(old(Value()), key)
      ensures forall k, b ::
                Holds(Value(), k, b) <==>
                if k == key then key in Defaults() && b == Defaults()[key] else Holds(old(Value()), k, b)
      ensures forall k :: k in disabled <==> k in old(disabled) && k != key
    {
      ResetHolds(Value(), key);
      bindings := bindings - {key};
      disabled := Without(disabled, key);
    }
  }

  function Without(keys: seq<string>, key: string): (r: seq<string>)
    ensures forall k :: k in r <==> k in keys && k != key
  {
    if keys == [] then []
    else (if keys[0] == key then [] else [keys[0]]) + Without(keys[1..], key)
  }

  function WithEntry(config: Config, key: string, binding: Binding): Config {
    config.(bindings := config.bindings[key := binding], disabled := Without(config.disabled, key))
  }

  function WithoutEntry(config: Config, key: string): Config {
    config.(
      bindings := config.bindings - {key},
      disabled := if key in config.disabled then config.disabled else config.disabled + [key])
  }

  function WithDefault(config: Config, key: string): Config {
    config.(bindings := config.bindings - {key}, disabled := Without(config.disabled, key))
  }

  /** After `set` the key has the given entry, and every other key the one it had. */
  lemma SetHolds(config: Config, key: string, binding: Binding)
    ensures forall k, b ::
              Holds(WithEntry(config, key, binding), k, b) <==> if k == key then b == binding else Holds(config, k, b)
  {
    hide Defaults;
  }

  /** After `remove` the key has none. */
  lemma RemoveHolds(config: Config, key: string)
    ensures forall k, b :: Holds(WithoutEntry(config, key), k, b) <==> k != key && Holds(config, k, b)
  {
    hide Defaults;
  }

  /** After `reset` the key has its default, if it has one. */
  lemma ResetHolds(config: Config, key: string)
    ensures forall k, b ::
              Holds(WithDefault(config, key), k, b) <==>
              if k == key then key in Defaults() && b == Defaults()[key] else Holds(config, k, b)
  {
    hide Defaults;
  }

  lemma {:induction false} CompileEntriesPrefix(
    entries: map<string, Binding>, aliases: Aliases, keys: seq<string>, n: nat, m: nat)
    requires n <= m <= |keys| && forall key :: key in keys ==> key in entries
    requires CompileEntries(entries, aliases, keys, n).None?
    ensures CompileEntries(entries, aliases, keys, m).None?
  {
    hide Expand, InsertAll;
    if n < m {
      CompileEntriesPrefix(entries, aliases, keys, n, m - 1);
    }
  }
}
