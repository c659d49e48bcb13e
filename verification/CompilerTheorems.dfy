/** What a successful `compile` guarantees, and exactly when there is one. */
module CompilerTheorems {
  import opened Wrappers
  import opened KeyOrder
  import opened KeyNames
  import opened Matcher
  import opened Compiler
  import opened CompilerMeaning
  import opened KeyboardConfigs

  // ----- every sequence has 1 to 128 tokens, and there are fewer than the cost -----

  predicate AllTokenCounts(sequences: seq<seq<Token>>, least: nat) {
    forall i | 0 <= i < |sequences| :: least <= |sequences[i]|
  }

  lemma {:induction false} ProductCounts(prefixes: seq<seq<Token>>, suffixes: seq<seq<Token>>, least: nat)
    requires AllTokenCounts(prefixes, least) || AllTokenCounts(suffixes, least)
    ensures |Product(prefixes, suffixes)| == |prefixes| * |suffixes|
    ensures AllTokenCounts(Product(prefixes, suffixes), least)
    ensures Fits(prefixes, suffixes) ==>
              forall i | 0 <= i < |Product(prefixes, suffixes)| :: |Product(prefixes, suffixes)[i]| <= MAX_SEQUENCE
  {
    if prefixes != [] {
      ProductCounts(prefixes[1..], suffixes, least);
      var row := Row(prefixes[0], suffixes);
      assert forall j | 0 <= j < |row| :: |row[j]| == |prefixes[0]| + |suffixes[j]|;
      assert |prefixes| * |suffixes| == |suffixes| + |prefixes[1..]| * |suffixes|;
      if Fits(prefixes, suffixes) {
        assert forall i | 0 <= i < |prefixes[1..]| :: prefixes[1..][i] == prefixes[i + 1];
      }
    }
  }

  lemma ComponentsAreNonempty(key: string)
    requires Components(key).Some?
    ensures "" !in Components(key).value
  {
    ComponentsAreWellFormed(key, true);
  }

  lemma LiteralIsNonempty(part: string)
    requires part != ""
    ensures LiteralTokens(part) != []
  {
    TerminalTokensOfEncoded(part);
  }

  lemma {:induction false} KeyCounts(aliases: Aliases, d: nat, key: string)
    requires KeyMeaning(aliases, d, key).Some?
    ensures var meaning := KeyMeaning(aliases, d, key).value;
            && |meaning.sequences| < meaning.cost
            && forall i | 0 <= i < |meaning.sequences| :: 1 <= |meaning.sequences[i]| <= MAX_SEQUENCE
    decreases d, 3
  {
    ComponentsAreNonempty(key);
    PartsCounts(aliases, d, Components(key).value, Meaning([[]], 1));
  }

  lemma {:induction false} PartsCounts(aliases: Aliases, d: nat, parts: seq<string>, before: Meaning)
    requires parts != [] && PartsMeaning(aliases, d, parts, before).Some?
    requires before.cost > 0 && "" !in parts
    ensures var meaning := PartsMeaning(aliases, d, parts, before).value;
            && |meaning.sequences| < meaning.cost
            && forall i | 0 <= i < |meaning.sequences| :: 1 <= |meaning.sequences[i]| <= MAX_SEQUENCE
    decreases d, 2, |parts|
  {
    assert parts[0] in parts && forall part :: part in parts[1..] ==> part in parts;
    PartCounts(aliases, d, parts[0]);
    var part := PartMeaning(aliases, d, parts[0]).value;
    ProductCounts(before.sequences, part.sequences, 1);
    if |parts| > 1 {
      PartsCounts(aliases, d, parts[1..], Then(before, part));
    }
  }

  lemma {:induction false} PartCounts(aliases: Aliases, d: nat, part: string)
    requires part != "" && PartMeaning(aliases, d, part).Some?
    ensures AllTokenCounts(PartMeaning(aliases, d, part).value.sequences, 1)
    decreases d, 1
  {
    if part in aliases {
      SourcesCounts(aliases, d - 1, aliases[part]);
    } else {
      LiteralIsNonempty(part);
    }
  }

  lemma {:induction false} SourcesCounts(aliases: Aliases, d: nat, sources: seq<string>)
    requires SourcesMeaning(aliases, d, sources).Some?
    ensures AllTokenCounts(SourcesMeaning(aliases, d, sources).value.sequences, 1)
    decreases d, 4, |sources|
  {
    if sources != [] {
      KeyCounts(aliases, d, sources[0]);
      SourcesCounts(aliases, d, sources[1..]);
    }
  }

  // ----- exactly which configurations compile -----

  /** What all the entries cost together, the first `n` of them. */
  function TotalCost(aliases: Aliases, keys: seq<string>, n: nat): Option<nat>
    requires n <= |keys|
  {
    if n == 0 then Some(0)
    else match (TotalCost(aliases, keys, n - 1), KeyMeaning(aliases, MAX_STACK, keys[n - 1]))
      case (Some(before), Some(meaning)) => Some(before + meaning.cost)
      case _ => None
  }

  lemma {:induction false} CompileEntriesExact(
    entries: map<string, Binding>, aliases: Aliases, keys: seq<string>, n: nat)
    requires n <= |keys| && forall key :: key in keys ==> key in entries
    ensures var cost := TotalCost(aliases, keys, n);
            var compiled := CompileEntries(entries, aliases, keys, n);
            && (compiled.Some? <==> cost.Some? && cost.value <= MAX_EXPANSIONS)
            && (compiled.Some? ==> compiled.value.budget == MAX_EXPANSIONS - cost.value)
  {
    hide Expand, KeyMeaning, InsertAll;
    if n > 0 {
      CompileEntriesExact(entries, aliases, keys, n - 1);
      var before := CompileEntries(entries, aliases, keys, n - 1);
      if before.Some? {
        ExpandExact(aliases, keys[n - 1], before.value.budget);
      }
    }
  }

  /**
   * A table of entries compiles exactly when the entries are valid, each of them has a meaning within 32 nested
   * aliases, and together they cost at most 4096.
   */
  lemma CompilesIff(entries: map<string, Binding>, user: set<string>)
    ensures var keys := EntryOrder(entries, user);
            var cost := TotalCost(TableAliases(entries), keys, |keys|);
            CompileTable(entries, user).Some? <==>
            EntriesAreValid(entries) && cost.Some? && cost.value <= MAX_EXPANSIONS
  {
    hide TableAliases, CompileEntries, TotalCost, ValidBinding;
    var keys := EntryOrder(entries, user);
    CompileEntriesExact(entries, TableAliases(entries), keys, |keys|);
  }

  lemma {:induction false} EveryEntryHasMeaning(aliases: Aliases, keys: seq<string>, n: nat)
    requires n <= |keys| && TotalCost(aliases, keys, n).Some?
    ensures forall i | 0 <= i < n :: KeyMeaning(aliases, MAX_STACK, keys[i]).Some?
  {
    if n > 0 {
      EveryEntryHasMeaning(aliases, keys, n - 1);
    }
  }

  lemma EntriesHaveMeaning(entries: map<string, Binding>, user: set<string>, key: string)
    requires CompileTable(entries, user).Some? && key in entries
    ensures KeyMeaning(TableAliases(entries), MAX_STACK, key).Some?
  {
    hide TableAliases, CompileTable, TotalCost, KeyMeaning;
    CompilesIff(entries, user);
    var keys := EntryOrder(entries, user);
    EveryEntryHasMeaning(TableAliases(entries), keys, |keys|);
    var i :| 0 <= i < |keys| && keys[i] == key;
  }

  // ----- which entry a token sequence runs -----

  /** Entry `i` is executable and spells `tokens`. */
  ghost predicate Spelled(
    entries: map<string, Binding>, aliases: Aliases, keys: seq<string>, i: nat, tokens: seq<Token>)
    requires i < |keys| && forall key :: key in keys ==> key in entries
  {
    entries[keys[i]].action != "key" && SpellsKey(aliases, MAX_STACK, keys[i], tokens)
  }

  lemma {:induction false} InsertAllEntries(
    before: map<seq<Token>, Binding>, sequences: seq<seq<Token>>, n: nat, binding: Binding, tokens: seq<Token>)
    requires n <= |sequences|
    ensures var after := InsertAll(before, sequences, n, binding);
            && (tokens in after <==> tokens in before || tokens in sequences[..n])
            && (tokens in sequences[..n] ==> after[tokens] == binding)
            && (tokens !in sequences[..n] && tokens in before ==> after[tokens] == before[tokens])
            && |after| <= |before| + n
  {
    if n > 0 {
      InsertAllEntries(before, sequences, n - 1, binding, tokens);
      assert sequences[..n] == sequences[..n - 1] + [sequences[n - 1]];
      var inner := InsertAll(before, sequences, n - 1, binding);
      InsertOne(inner, sequences[n - 1], binding);
    }
  }

  lemma InsertOne<K, V>(m: map<K, V>, k: K, v: V)
    ensures |m[k := v]| <= |m| + 1
  {
    assert m[k := v].Keys == m.Keys + {k};
    assert |m[k := v]| == |m[k := v].Keys| && |m| == |m.Keys|;
  }

  /** `tokens` is in the map exactly when something hit, and then it has the binding of the last hit. */
  ghost predicate LastHitWins(
    executable: map<seq<Token>, Binding>, hits: seq<bool>, bound: seq<Binding>, tokens: seq<Token>)
    requires |hits| == |bound|
  {
    && (tokens in executable <==> true in hits)
    && forall i | 0 <= i < |hits| && hits[i] && true !in hits[i + 1..] ::
         tokens in executable && executable[tokens] == bound[i]
  }

  lemma LastHitStep(
    before: map<seq<Token>, Binding>, after: map<seq<Token>, Binding>,
    hits: seq<bool>, bound: seq<Binding>, hit: bool, binding: Binding, tokens: seq<Token>)
    requires |hits| == |bound| && LastHitWins(before, hits, bound, tokens)
    requires hit ==> tokens in after && after[tokens] == binding
    requires !hit ==> (tokens in after <==> tokens in before)
    requires !hit && tokens in before ==> after[tokens] == before[tokens]
    ensures LastHitWins(after, hits + [hit], bound + [binding], tokens)
  {
    var all := hits + [hit];
    forall i | 0 <= i < |all| && all[i] && true !in all[i + 1..]
      ensures tokens in after && after[tokens] == (bound + [binding])[i]
    {
      if i < |hits| {
        assert all[i + 1..] == hits[i + 1..] + [hit];
        assert hit in all[i + 1..];
        assert hits[i + 1..] <= all[i + 1..];
      }
    }
  }

  ghost function Hits(
    entries: map<string, Binding>, aliases: Aliases, keys: seq<string>, n: nat, tokens: seq<Token>): (hits: seq<bool>)
    requires n <= |keys| && forall key :: key in keys ==> key in entries
    ensures |hits| == n
    ensures forall i | 0 <= i < n :: hits[i] == Spelled(entries, aliases, keys, i, tokens)
  {
    if n == 0 then []
    else Hits(entries, aliases, keys, n - 1, tokens) + [Spelled(entries, aliases, keys, n - 1, tokens)]
  }

  function Bound(entries: map<string, Binding>, keys: seq<string>, n: nat): (bound: seq<Binding>)
    requires n <= |keys| && forall key :: key in keys ==> key in entries
    ensures |bound| == n && forall i | 0 <= i < n :: bound[i] == entries[keys[i]]
  {
    if n == 0 then [] else Bound(entries, keys, n - 1) + [entries[keys[n - 1]]]
  }

  lemma {:induction false} LastSpellingWins(
    entries: map<string, Binding>, aliases: Aliases, keys: seq<string>, n: nat, tokens: seq<Token>)
    requires n <= |keys| && forall key :: key in keys ==> key in entries
    requires CompileEntries(entries, aliases, keys, n).Some?
    ensures LastHitWins(CompileEntries(entries, aliases, keys, n).value.executable,
                        Hits(entries, aliases, keys, n, tokens), Bound(entries, keys, n), tokens)
  {
    hide Expand, SpellsKey, InsertAll;
    if n > 0 {
      LastSpellingWins(entries, aliases, keys, n - 1, tokens);
      var before := CompileEntries(entries, aliases, keys, n - 1).value;
      var after := CompileEntries(entries, aliases, keys, n).value;
      var key := keys[n - 1];
      EntryStep(entries, aliases, before, key, tokens);
      LastHitStep(before.executable, after.executable, Hits(entries, aliases, keys, n - 1, tokens),
                  Bound(entries, keys, n - 1), Spelled(entries, aliases, keys, n - 1, tokens), entries[key], tokens);
    }
  }

  lemma EntryStep(entries: map<string, Binding>, aliases: Aliases, before: Compiled, key: string, tokens: seq<Token>)
    requires key in entries && Expand(aliases, key, [], before.budget).Some?
    ensures var sequences := Expand(aliases, key, [], before.budget).value.sequences;
            var after := if entries[key].action == "key" then before.executable
                         else InsertAll(before.executable, sequences, |sequences|, entries[key]);
            var hit := entries[key].action != "key" && SpellsKey(aliases, MAX_STACK, key, tokens);
            && (hit ==> tokens in after && after[tokens] == entries[key])
            && (!hit ==> (tokens in after <==> tokens in before.executable))
            && (!hit && tokens in before.executable ==> after[tokens] == before.executable[tokens])
  {
    ExpandExact(aliases, key, before.budget);
    KeyLanguage(aliases, MAX_STACK, key, tokens);
    var sequences := KeyMeaning(aliases, MAX_STACK, key).value.sequences;
    InsertAllEntries(before.executable, sequences, |sequences|, entries[key], tokens);
    assert sequences[..|sequences|] == sequences;
  }

  /** The entry for `key` is executable and the alias language of the table lets it be typed as `tokens`. */
  ghost predicate Candidate(entries: map<string, Binding>, key: string, tokens: seq<Token>) {
    key in entries && entries[key].action != "key" && SpellsKey(TableAliases(entries), MAX_STACK, key, tokens)
  }

  lemma {:induction false} SelectAscends(keys: seq<string>, user: set<string>, wanted: bool)
    requires Ascending(keys)
    ensures Ascending(Select(keys, user, wanted))
  {
    if keys != [] {
      assert forall i, j | 0 <= i < j < |keys[1..]| :: keys[1..][i] == keys[i + 1] && keys[1..][j] == keys[j + 1];
      SelectAscends(keys[1..], user, wanted);
      var rest := Select(keys[1..], user, wanted);
      forall j | 0 <= j < |rest|
        ensures Before(keys[0], rest[j])
      {
        assert rest[j] in keys[1..];
        var i :| 0 <= i < |keys[1..]| && keys[1..][i] == rest[j];
        assert keys[i + 1] == rest[j];
      }
    }
  }

  /** `key` outranks `other`: the user's entries over the defaults, and then the later key. */
  predicate Outranks(user: set<string>, key: string, other: string) {
    if (key in user) == (other in user) then Before(other, key) else key in user
  }

  lemma OutranksIsAsymmetric(user: set<string>, a: string, b: string)
    requires Outranks(user, a, b)
    ensures a != b && !Outranks(user, b, a)
  {
    if (a in user) == (b in user) {
      BeforeIsAsymmetric(b, a);
    }
  }

  lemma EntryOrderRanks(entries: map<string, Binding>, user: set<string>, i: nat, j: nat)
    requires i < j < |EntryOrder(entries, user)|
    ensures Outranks(user, EntryOrder(entries, user)[j], EntryOrder(entries, user)[i])
  {
    hide Select, Before;
    var order := InOrder(entries.Keys);
    SelectAscends(order, user, false);
    SelectAscends(order, user, true);
    var defaults, users := Select(order, user, false), Select(order, user, true);
    var keys := EntryOrder(entries, user);
    assert keys == defaults + users;
    assert keys[i] in (if i < |defaults| then defaults else users);
    assert keys[j] in (if j < |defaults| then defaults else users);
  }

  /** `key` is a candidate and outranks every other one. */
  ghost predicate Best(entries: map<string, Binding>, user: set<string>, key: string, tokens: seq<Token>) {
    && Candidate(entries, key, tokens)
    && forall other | Candidate(entries, other, tokens) && other != key :: Outranks(user, key, other)
  }

  lemma HitIsCandidate(entries: map<string, Binding>, user: set<string>, i: nat, tokens: seq<Token>)
    requires i < |EntryOrder(entries, user)|
    ensures var keys := EntryOrder(entries, user);
            Hits(entries, TableAliases(entries), keys, |keys|, tokens)[i] <==> Candidate(entries, keys[i], tokens)
  {
    hide TableAliases, SpellsKey, UserLast;
    assert EntryOrder(entries, user)[i] in EntryOrder(entries, user);
  }

  /** The last entry that hits is the best candidate, and the only one. */
  lemma LastHitIsBest(entries: map<string, Binding>, user: set<string>, i: nat, tokens: seq<Token>)
    requires i < |EntryOrder(entries, user)| && Candidate(entries, EntryOrder(entries, user)[i], tokens)
    ensures var keys := EntryOrder(entries, user);
            var hits := Hits(entries, TableAliases(entries), keys, |keys|, tokens);
            true !in hits[i + 1..] <==> Best(entries, user, keys[i], tokens)
  {
    hide TableAliases, EntryOrder, Candidate, Outranks, Hits;
    var keys := EntryOrder(entries, user);
    var hits := Hits(entries, TableAliases(entries), keys, |keys|, tokens);
    forall j | 0 <= j < |keys|
      ensures hits[j] <==> Candidate(entries, keys[j], tokens)
      ensures i < j ==> Outranks(user, keys[j], keys[i]) && !Outranks(user, keys[i], keys[j]) && keys[i] != keys[j]
      ensures j < i ==> Outranks(user, keys[i], keys[j])
    {
      HitIsCandidate(entries, user, j, tokens);
      if i < j {
        EntryOrderRanks(entries, user, i, j);
        OutranksIsAsymmetric(user, keys[j], keys[i]);
      } else if j < i {
        EntryOrderRanks(entries, user, j, i);
      }
    }
    forall other | Candidate(entries, other, tokens)
      ensures exists j | 0 <= j < |keys| :: keys[j] == other && hits[j]
    {
      CandidateIsEntry(entries, user, other, tokens);
      var j :| 0 <= j < |keys| && keys[j] == other;
    }
    assert forall j | i < j < |keys| :: hits[j] == hits[i + 1..][j - i - 1];
  }

  lemma CandidateIsEntry(entries: map<string, Binding>, user: set<string>, key: string, tokens: seq<Token>)
    requires Candidate(entries, key, tokens)
    ensures key in EntryOrder(entries, user)
  {
  }

  lemma {:induction false} LastHitExists(hits: seq<bool>) returns (i: nat)
    requires true in hits
    ensures i < |hits| && hits[i] && true !in hits[i + 1..]
  {
    var n := |hits| - 1;
    if hits[n] {
      i := n;
    } else {
      assert hits == hits[..n] + [hits[n]];
      i := LastHitExists(hits[..n]);
      assert hits[i + 1..] == hits[..n][i + 1..] + [hits[n]];
    }
  }

  /**
   * Override precedence after expansion: a token sequence runs something exactly when some executable entry spells it,
   * and then it runs the entry that outranks every other one spelling it, however differently they are written.
   */
  lemma OverridePrecedence(entries: map<string, Binding>, user: set<string>, tokens: seq<Token>)
    requires CompileTable(entries, user).Some?
    ensures var executable := CompileTable(entries, user).value;
            && (tokens in executable <==> exists key :: Candidate(entries, key, tokens))
            && (tokens in executable ==> exists key :: Best(entries, user, key, tokens))
            && forall key | Best(entries, user, key, tokens) ::
                 tokens in executable && executable[tokens] == entries[key]
  {
    hide TableAliases, EntryOrder, Best, Candidate, CompileEntries, ValidBinding, Hits, Bound;
    var aliases, keys := TableAliases(entries), EntryOrder(entries, user);
    var hits := Hits(entries, aliases, keys, |keys|, tokens);
    LastSpellingWins(entries, aliases, keys, |keys|, tokens);
    if true in hits {
      var last := LastHitExists(hits);
      HitIsCandidate(entries, user, last, tokens);
      LastHitIsBest(entries, user, last, tokens);
    }
    forall key | Candidate(entries, key, tokens)
      ensures key in entries && tokens in CompileTable(entries, user).value
      ensures Best(entries, user, key, tokens) ==> CompileTable(entries, user).value[tokens] == entries[key]
    {
      CandidateIsEntry(entries, user, key, tokens);
      var i :| 0 <= i < |keys| && keys[i] == key;
      HitIsCandidate(entries, user, i, tokens);
      LastHitIsBest(entries, user, i, tokens);
    }
    BestIsCandidate(entries, user, tokens);
  }

  lemma BestIsCandidate(entries: map<string, Binding>, user: set<string>, tokens: seq<Token>)
    ensures forall key | Best(entries, user, key, tokens) :: Candidate(entries, key, tokens) && key in entries
  {
  }

  // ----- sizes and cycles -----

  lemma {:induction false} ExecutableIsSmall(
    entries: map<string, Binding>, aliases: Aliases, keys: seq<string>, n: nat)
    requires n <= |keys| && forall key :: key in keys ==> key in entries
    requires CompileEntries(entries, aliases, keys, n).Some?
    ensures var compiled := CompileEntries(entries, aliases, keys, n).value;
            && |compiled.executable| + compiled.budget <= MAX_EXPANSIONS
            && forall tokens | tokens in compiled.executable :: 1 <= |tokens| <= MAX_SEQUENCE
  {
    hide Expand, KeyMeaning, InsertAll;
    if n > 0 {
      ExecutableIsSmall(entries, aliases, keys, n - 1);
      var before := CompileEntries(entries, aliases, keys, n - 1).value;
      ExpandExact(aliases, keys[n - 1], before.budget);
      KeyCounts(aliases, MAX_STACK, keys[n - 1]);
      var sequences := KeyMeaning(aliases, MAX_STACK, keys[n - 1]).value.sequences;
      forall tokens
        ensures var after := InsertAll(before.executable, sequences, |sequences|, entries[keys[n - 1]]);
                && |after| <= |before.executable| + |sequences|
                && (tokens in after ==> tokens in before.executable || tokens in sequences)
      {
        InsertAllEntries(before.executable, sequences, |sequences|, entries[keys[n - 1]], tokens);
        assert sequences[..|sequences|] == sequences;
      }
    }
  }

  /** A compiled table has at most 4096 executable sequences, of 1 to 128 tokens each. */
  lemma CompiledSize(entries: map<string, Binding>, user: set<string>)
    requires CompileTable(entries, user).Some?
    ensures |CompileTable(entries, user).value| <= MAX_EXPANSIONS
    ensures forall tokens | tokens in CompileTable(entries, user).value :: 1 <= |tokens| <= MAX_SEQUENCE
  {
    hide TableAliases, CompileEntries, ValidBinding;
    var keys := EntryOrder(entries, user);
    ExecutableIsSmall(entries, TableAliases(entries), keys, |keys|);
  }

  /** Expanding named key `name` can run into named key `used`. */
  predicate Uses(aliases: Aliases, name: string, used: string) {
    && name in aliases && used in aliases
    && exists source | source in aliases[name] ::
         Components(source).Some? && used in Components(source).value
  }

  predicate IsChain(aliases: Aliases, chain: seq<string>) {
    forall i | 0 <= i < |chain| - 1 :: Uses(aliases, chain[i], chain[i + 1])
  }

  lemma {:induction false} PartsHaveMeaning(aliases: Aliases, d: nat, parts: seq<string>, before: Meaning, part: string)
    requires PartsMeaning(aliases, d, parts, before).Some? && part in parts
    ensures PartMeaning(aliases, d, part).Some?
    decreases |parts|
  {
    if part != parts[0] {
      assert part in parts[1..];
      PartsHaveMeaning(aliases, d, parts[1..], Then(before, PartMeaning(aliases, d, parts[0]).value), part);
    }
  }

  lemma {:induction false} SourcesHaveMeaning(aliases: Aliases, d: nat, sources: seq<string>)
    ensures SourcesMeaning(aliases, d, sources).Some? <==>
            forall source :: source in sources ==> KeyMeaning(aliases, d, source).Some?
  {
    if sources != [] {
      SourcesHaveMeaning(aliases, d, sources[1..]);
      assert sources[0] in sources && forall source :: source in sources[1..] ==> source in sources;
      assert forall source :: source in sources ==> source == sources[0] || source in sources[1..];
    }
  }

  lemma UsesLowersRank(aliases: Aliases, d: nat, name: string, used: string)
    requires Uses(aliases, name, used) && PartMeaning(aliases, d, name).Some? && PartMeaning(aliases, d, used).Some?
    ensures Rank(aliases, d, used) < Rank(aliases, d, name)
  {
    hide Components, PartsMeaning, LiteralTokens;
    var rank := Rank(aliases, d, name);
    var source :| source in aliases[name] && Components(source).Some? && used in Components(source).value;
    SourcesHaveMeaning(aliases, rank - 1, aliases[name]);
    PartsHaveMeaning(aliases, rank - 1, Components(source).value, Meaning([[]], 1), used);
    if Rank(aliases, d, used) > rank - 1 {
      PartMeaningMonotone(aliases, rank - 1, Rank(aliases, d, used) - 1, used);
    }
  }

  lemma {:induction false} ChainLowersRank(aliases: Aliases, d: nat, chain: seq<string>)
    requires |chain| >= 2 && IsChain(aliases, chain)
    requires forall name | name in aliases :: PartMeaning(aliases, d, name).Some?
    ensures chain[0] in aliases && chain[|chain| - 1] in aliases
    ensures Rank(aliases, d, chain[|chain| - 1]) + |chain| - 1 <= Rank(aliases, d, chain[0])
  {
    assert Uses(aliases, chain[0], chain[1]);
    UsesLowersRank(aliases, d, chain[0], chain[1]);
    if |chain| > 2 {
      forall i | 0 <= i < |chain[1..]| - 1
        ensures Uses(aliases, chain[1..][i], chain[1..][i + 1])
      {
        assert Uses(aliases, chain[i + 1], chain[i + 2]);
      }
      ChainLowersRank(aliases, d, chain[1..]);
    }
  }

  lemma {:induction false} AliasSourcesAreEntries(entries: map<string, Binding>, keys: seq<string>, n: nat)
    requires n <= |keys| && forall key :: key in keys ==> key in entries
    ensures forall name | name in AliasesOf(entries, keys, n) ::
              forall source | source in AliasesOf(entries, keys, n)[name] :: source in entries
  {
    if n > 0 {
      AliasSourcesAreEntries(entries, keys, n - 1);
    }
  }

  /** A table that compiles has an acyclic alias graph: no chain of uses comes back, or is longer than 33. */
  lemma CompiledAliasesAreAcyclic(entries: map<string, Binding>, user: set<string>, chain: seq<string>)
    requires CompileTable(entries, user).Some? && |chain| >= 2 && IsChain(TableAliases(entries), chain)
    ensures chain[0] != chain[|chain| - 1]
    ensures |chain| <= MAX_STACK + 1
  {
    hide AliasesOf, CompileTable, KeyMeaning;
    var aliases := TableAliases(entries);
    var order := InOrder(entries.Keys);
    AliasSourcesAreEntries(entries, order, |order|);
    forall name | name in aliases
      ensures PartMeaning(aliases, MAX_STACK + 1, name).Some?
    {
      forall source | source in aliases[name]
        ensures KeyMeaning(aliases, MAX_STACK, source).Some?
      {
        EntriesHaveMeaning(entries, user, source);
      }
      SourcesHaveMeaning(aliases, MAX_STACK, aliases[name]);
    }
    ChainLowersRank(aliases, MAX_STACK + 1, chain);
  }
}
