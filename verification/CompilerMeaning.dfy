/**
 * `Expand` computes exactly `KeyMeaning`, whatever stack and budget it is given, and `KeyMeaning` is the alias
 * language.
 */
module CompilerMeaning {
  import opened Wrappers
  import opened KeyNames
  import opened Matcher
  import opened Compiler

  // ----- the meaning does not depend on the depth it was found at -----

  lemma {:induction false} KeyMeaningMonotone(aliases: Aliases, d: nat, e: nat, key: string)
    requires d <= e && KeyMeaning(aliases, d, key).Some?
    ensures KeyMeaning(aliases, e, key) == KeyMeaning(aliases, d, key)
    decreases d, 3
  {
    PartsMeaningMonotone(aliases, d, e, Components(key).value, Meaning([[]], 1));
  }

  lemma {:induction false} PartsMeaningMonotone(aliases: Aliases, d: nat, e: nat, parts: seq<string>, before: Meaning)
    requires d <= e && PartsMeaning(aliases, d, parts, before).Some?
    ensures PartsMeaning(aliases, e, parts, before) == PartsMeaning(aliases, d, parts, before)
    decreases d, 2, |parts|
  {
    if parts != [] {
      PartMeaningMonotone(aliases, d, e, parts[0]);
      PartsMeaningMonotone(aliases, d, e, parts[1..], Then(before, PartMeaning(aliases, d, parts[0]).value));
    }
  }

  lemma {:induction false} PartMeaningMonotone(aliases: Aliases, d: nat, e: nat, part: string)
    requires d <= e && PartMeaning(aliases, d, part).Some?
    ensures PartMeaning(aliases, e, part) == PartMeaning(aliases, d, part)
    decreases d, 1
  {
    if part in aliases {
      SourcesMeaningMonotone(aliases, d - 1, e - 1, aliases[part]);
    }
  }

  lemma {:induction false} SourcesMeaningMonotone(aliases: Aliases, d: nat, e: nat, sources: seq<string>)
    requires d <= e && SourcesMeaning(aliases, d, sources).Some?
    ensures SourcesMeaning(aliases, e, sources) == SourcesMeaning(aliases, d, sources)
    decreases d, 4, |sources|
  {
    if sources != [] {
      KeyMeaningMonotone(aliases, d, e, sources[0]);
      SourcesMeaningMonotone(aliases, d, e, sources[1..]);
    }
  }

  // ----- whatever Expand returns is the meaning -----

  /** `after` has the sequences of `meaning` and has spent its cost out of `budget`. */
  predicate Spends(meaning: Meaning, budget: nat, after: Expansion) {
    meaning.sequences == after.sequences && meaning.cost + after.budget == budget
  }

  lemma {:induction false} ExpandIsSound(aliases: Aliases, key: string, stack: seq<string>, budget: nat)
    requires |stack| <= MAX_STACK && Expand(aliases, key, stack, budget).Some?
    ensures KeyMeaning(aliases, MAX_STACK - |stack|, key).Some?
    ensures Spends(KeyMeaning(aliases, MAX_STACK - |stack|, key).value, budget,
            Expand(aliases, key, stack, budget).value)
    decreases MAX_STACK - |stack|, 3
  {
    ExpandPartsIsSound(aliases, Components(key).value, stack, Expansion([[]], budget - 1), 1);
  }

  lemma {:induction false} ExpandPartsIsSound(
    aliases: Aliases, parts: seq<string>, stack: seq<string>, before: Expansion, cost: nat)
    requires |stack| <= MAX_STACK && ExpandParts(aliases, parts, stack, before).Some?
    ensures var meaning := PartsMeaning(aliases, MAX_STACK - |stack|, parts, Meaning(before.sequences, cost));
            meaning.Some?
              && Spends(meaning.value, before.budget + cost, ExpandParts(aliases, parts, stack, before).value)
    decreases MAX_STACK - |stack|, 2, |parts|
  {
    if parts != [] {
      ExpandPartIsSound(aliases, parts[0], stack, before.budget);
      var expanded := ExpandPart(aliases, parts[0], stack, before.budget).value;
      var part := PartMeaning(aliases, MAX_STACK - |stack|, parts[0]).value;
      var joined := Then(Meaning(before.sequences, cost), part);
      ExpandPartsIsSound(aliases, parts[1..], stack, Multiply(before.sequences, expanded).value, joined.cost);
    }
  }

  lemma {:induction false} ExpandPartIsSound(aliases: Aliases, part: string, stack: seq<string>, budget: nat)
    requires |stack| <= MAX_STACK && ExpandPart(aliases, part, stack, budget).Some?
    ensures PartMeaning(aliases, MAX_STACK - |stack|, part).Some?
    ensures Spends(PartMeaning(aliases, MAX_STACK - |stack|, part).value, budget,
                   ExpandPart(aliases, part, stack, budget).value)
    decreases MAX_STACK - |stack|, 1
  {
    if part in aliases {
      ExpandSourcesIsSound(aliases, aliases[part], stack + [part], budget);
    }
  }

  lemma {:induction false} ExpandSourcesIsSound(aliases: Aliases, sources: seq<string>, stack: seq<string>, budget: nat)
    requires |stack| <= MAX_STACK && ExpandSources(aliases, sources, stack, budget).Some?
    ensures SourcesMeaning(aliases, MAX_STACK - |stack|, sources).Some?
    ensures Spends(SourcesMeaning(aliases, MAX_STACK - |stack|, sources).value, budget,
                   ExpandSources(aliases, sources, stack, budget).value)
    decreases MAX_STACK - |stack|, 4, |sources|
  {
    if sources != [] {
      ExpandIsSound(aliases, sources[0], stack, budget);
      ExpandSourcesIsSound(aliases, sources[1..], stack, Expand(aliases, sources[0], stack, budget).value.budget);
    }
  }

  // ----- whatever has a meaning that the budget can pay for is returned -----

  /** No name on the stack has a meaning at this depth, so none of them can occur below. */
  predicate Above(aliases: Aliases, stack: seq<string>, depth: nat) {
    depth + |stack| <= MAX_STACK && forall name :: name in stack ==> PartMeaning(aliases, depth, name).None?
  }

  lemma {:induction false} PartsCostGrows(aliases: Aliases, d: nat, parts: seq<string>, before: Meaning)
    requires PartsMeaning(aliases, d, parts, before).Some?
    ensures PartsMeaning(aliases, d, parts, before).value.cost >= before.cost
    decreases |parts|
  {
    if parts != [] {
      PartsCostGrows(aliases, d, parts[1..], Then(before, PartMeaning(aliases, d, parts[0]).value));
    }
  }

  lemma {:induction false} ExpandIsComplete(aliases: Aliases, d: nat, key: string, stack: seq<string>, budget: nat)
    requires Above(aliases, stack, d) && KeyMeaning(aliases, d, key).Some?
    requires KeyMeaning(aliases, d, key).value.cost <= budget
    ensures Expand(aliases, key, stack, budget).Some?
    ensures Spends(KeyMeaning(aliases, d, key).value, budget, Expand(aliases, key, stack, budget).value)
    decreases d, 3
  {
    PartsCostGrows(aliases, d, Components(key).value, Meaning([[]], 1));
    ExpandPartsIsComplete(aliases, d, Components(key).value, stack, Expansion([[]], budget - 1), 1);
  }

  lemma {:induction false} ExpandPartsIsComplete(
    aliases: Aliases, d: nat, parts: seq<string>, stack: seq<string>, before: Expansion, cost: nat)
    requires Above(aliases, stack, d)
    requires PartsMeaning(aliases, d, parts, Meaning(before.sequences, cost)).Some?
    requires PartsMeaning(aliases, d, parts, Meaning(before.sequences, cost)).value.cost <= before.budget + cost
    ensures ExpandParts(aliases, parts, stack, before).Some?
    ensures Spends(PartsMeaning(aliases, d, parts, Meaning(before.sequences, cost)).value, before.budget + cost,
                   ExpandParts(aliases, parts, stack, before).value)
    decreases d, 2, |parts|
  {
    if parts != [] {
      var part := PartMeaning(aliases, d, parts[0]).value;
      var joined := Then(Meaning(before.sequences, cost), part);
      PartsCostGrows(aliases, d, parts[1..], joined);
      ExpandPartIsComplete(aliases, d, parts[0], stack, before.budget);
      var expanded := ExpandPart(aliases, parts[0], stack, before.budget).value;
      ExpandPartsIsComplete(aliases, d, parts[1..], stack, Multiply(before.sequences, expanded).value, joined.cost);
    }
  }

  lemma {:induction false} ExpandPartIsComplete(aliases: Aliases, d: nat, part: string, stack: seq<string>, budget: nat)
    requires Above(aliases, stack, d) && PartMeaning(aliases, d, part).Some?
    requires PartMeaning(aliases, d, part).value.cost <= budget
    ensures ExpandPart(aliases, part, stack, budget).Some?
    ensures Spends(PartMeaning(aliases, d, part).value, budget, ExpandPart(aliases, part, stack, budget).value)
    decreases d, 1
  {
    if part in aliases {
      var least := Rank(aliases, d, part);
      PartMeaningMonotone(aliases, least, d, part);
      forall name | name in stack + [part]
        ensures PartMeaning(aliases, least - 1, name).None?
      {
        if PartMeaning(aliases, least - 1, name).Some? {
          PartMeaningMonotone(aliases, least - 1, d, name);
        }
      }
      ExpandSourcesIsComplete(aliases, least - 1, aliases[part], stack + [part], budget);
    }
  }

  lemma {:induction false} ExpandSourcesIsComplete(
    aliases: Aliases, d: nat, sources: seq<string>, stack: seq<string>, budget: nat)
    requires Above(aliases, stack, d) && SourcesMeaning(aliases, d, sources).Some?
    requires SourcesMeaning(aliases, d, sources).value.cost <= budget
    ensures ExpandSources(aliases, sources, stack, budget).Some?
    ensures Spends(SourcesMeaning(aliases, d, sources).value, budget,
            ExpandSources(aliases, sources, stack, budget).value)
    decreases d, 4, |sources|
  {
    if sources != [] {
      ExpandIsComplete(aliases, d, sources[0], stack, budget);
      ExpandSourcesIsComplete(aliases, d, sources[1..], stack, Expand(aliases, sources[0], stack, budget).value.budget);
    }
  }

  /** The least depth at which a part has a meaning. */
  function Rank(aliases: Aliases, d: nat, part: string): (least: nat)
    requires PartMeaning(aliases, d, part).Some?
    ensures least <= d && PartMeaning(aliases, least, part).Some?
    ensures least > 0 ==> PartMeaning(aliases, least - 1, part).None?
    ensures part in aliases ==> least > 0
  {
    if d == 0 || PartMeaning(aliases, d - 1, part).None? then d else Rank(aliases, d - 1, part)
  }

  /**
   * From an empty stack, expansion succeeds exactly when the key has a meaning within 32 nested aliases and its cost is
   * within the budget; it then returns that meaning and has used exactly its cost.
   */
  lemma ExpandExact(aliases: Aliases, key: string, budget: nat)
    ensures var meaning := KeyMeaning(aliases, MAX_STACK, key);
            Expand(aliases, key, [], budget) ==
            if meaning.Some? && meaning.value.cost <= budget
            then Some(Expansion(meaning.value.sequences, budget - meaning.value.cost)) else None
  {
    var meaning := KeyMeaning(aliases, MAX_STACK, key);
    if meaning.Some? && meaning.value.cost <= budget {
      ExpandIsComplete(aliases, MAX_STACK, key, [], budget);
    } else if Expand(aliases, key, [], budget).Some? {
      ExpandIsSound(aliases, key, [], budget);
      assert false;
    }
  }

  /** Two successful expansions of one key agree, whatever stacks and budgets they started from. */
  lemma ExpandIgnoresStackAndBudget(
    aliases: Aliases, key: string, stack: seq<string>, budget: nat, stack': seq<string>, budget': nat)
    requires |stack| <= |stack'| <= MAX_STACK
    requires Expand(aliases, key, stack, budget).Some? && Expand(aliases, key, stack', budget').Some?
    ensures Expand(aliases, key, stack, budget).value.sequences == Expand(aliases, key, stack', budget').value.sequences
  {
    ExpandIsSound(aliases, key, stack, budget);
    ExpandIsSound(aliases, key, stack', budget');
    KeyMeaningMonotone(aliases, MAX_STACK - |stack'|, MAX_STACK - |stack|, key);
  }

  // ----- the alias language -----

  /** `tokens` is one spelling of the key: a spelling of each component in turn, one after the other. */
  ghost predicate SpellsKey(aliases: Aliases, depth: nat, key: string, tokens: seq<Token>)
    decreases depth, 3
  {
    Components(key).Some? && SpellsParts(aliases, depth, Components(key).value, tokens)
  }

  ghost predicate SpellsParts(aliases: Aliases, depth: nat, parts: seq<string>, tokens: seq<Token>)
    decreases depth, 2, |parts|
  {
    if parts == [] then tokens == []
    else exists k | 0 <= k <= |tokens| ::
        SpellsPart(aliases, depth, parts[0], tokens[..k]) && SpellsParts(aliases, depth, parts[1..], tokens[k..])
  }

  ghost predicate SpellsPart(aliases: Aliases, depth: nat, part: string, tokens: seq<Token>)
    decreases depth, 1
  {
    if part !in aliases then tokens == LiteralTokens(part)
    else depth > 0 && exists source | source in aliases[part] :: SpellsKey(aliases, depth - 1, source, tokens)
  }

  lemma {:induction false} ProductMembers(prefixes: seq<seq<Token>>, suffixes: seq<seq<Token>>, tokens: seq<Token>)
    ensures tokens in Product(prefixes, suffixes) <==>
            exists k | 0 <= k <= |tokens| :: tokens[..k] in prefixes && tokens[k..] in suffixes
  {
    if prefixes != [] {
      ProductMembers(prefixes[1..], suffixes, tokens);
      var p := prefixes[0];
      var row := Row(p, suffixes);
      assert Product(prefixes, suffixes) == row + Product(prefixes[1..], suffixes);
      assert prefixes == [p] + prefixes[1..];
      if tokens in row {
        var i :| 0 <= i < |row| && row[i] == tokens;
        assert tokens[..|p|] == p && tokens[|p|..] == suffixes[i];
      }
      forall k | 0 <= k <= |tokens| && tokens[..k] == p && tokens[k..] in suffixes
        ensures tokens in row
      {
        var i :| 0 <= i < |suffixes| && suffixes[i] == tokens[k..];
        assert row[i] == p + suffixes[i] == tokens;
      }
    }
  }

  lemma {:induction false} KeyLanguage(aliases: Aliases, d: nat, key: string, tokens: seq<Token>)
    requires KeyMeaning(aliases, d, key).Some?
    ensures tokens in KeyMeaning(aliases, d, key).value.sequences <==> SpellsKey(aliases, d, key, tokens)
    decreases d, 3
  {
    var parts := Components(key).value;
    PartsLanguage(aliases, d, parts, Meaning([[]], 1), tokens);
    if SpellsParts(aliases, d, parts, tokens) {
      assert tokens[..0] in [[]] && tokens[0..] == tokens;
    }
    forall k | 0 <= k <= |tokens| && tokens[..k] in [[]] && SpellsParts(aliases, d, parts, tokens[k..])
      ensures SpellsParts(aliases, d, parts, tokens)
    {
      assert tokens[..k] == [];
      assert tokens[k..] == tokens;
    }
  }

  lemma {:induction false} PartsLanguage(
    aliases: Aliases, d: nat, parts: seq<string>, before: Meaning, tokens: seq<Token>)
    requires PartsMeaning(aliases, d, parts, before).Some?
    ensures tokens in PartsMeaning(aliases, d, parts, before).value.sequences <==>
            exists k | 0 <= k <= |tokens| ::
              tokens[..k] in before.sequences && SpellsParts(aliases, d, parts, tokens[k..])
    decreases d, 2, |parts|
  {
    hide Product, Components, LiteralTokens;
    if parts == [] {
      assert tokens[..|tokens|] == tokens;
    } else {
      var part := PartMeaning(aliases, d, parts[0]).value;
      var joined := Then(before, part);
      PartsLanguage(aliases, d, parts[1..], joined, tokens);
      if exists j | 0 <= j <= |tokens| ::
           tokens[..j] in joined.sequences && SpellsParts(aliases, d, parts[1..], tokens[j..])
      {
        var j :| 0 <= j <= |tokens| && tokens[..j] in joined.sequences &&
                 SpellsParts(aliases, d, parts[1..], tokens[j..]);
        ProductMembers(before.sequences, part.sequences, tokens[..j]);
        var k :| 0 <= k <= j && tokens[..j][..k] in before.sequences && tokens[..j][k..] in part.sequences;
        PartLanguage(aliases, d, parts[0], tokens[..j][k..]);
        MoveSplitLeft(aliases, d, parts, before, tokens, j, k);
      }
      if k :| 0 <= k <= |tokens| && tokens[..k] in before.sequences && SpellsParts(aliases, d, parts, tokens[k..]) {
        var i :| 0 <= i <= |tokens[k..]| && SpellsPart(aliases, d, parts[0], tokens[k..][..i]) &&
          SpellsParts(aliases, d, parts[1..], tokens[k..][i..]);
        PartLanguage(aliases, d, parts[0], tokens[k..][..i]);
        MoveSplitRight(aliases, d, parts, before, part, tokens, k, i);
      }
    }
  }

  lemma MoveSplitLeft(
    aliases: Aliases, d: nat, parts: seq<string>, before: Meaning, tokens: seq<Token>, j: nat, k: nat)
    requires parts != [] && k <= j <= |tokens| && tokens[..j][..k] in before.sequences
    requires SpellsPart(aliases, d, parts[0], tokens[..j][k..]) && SpellsParts(aliases, d, parts[1..], tokens[j..])
    ensures tokens[..k] in before.sequences && SpellsParts(aliases, d, parts, tokens[k..])
  {
    var rest, i := tokens[k..], j - k;
    assert tokens[..j][..k] == tokens[..k];
    assert tokens[..j][k..] == rest[..i];
    assert rest[i..] == tokens[j..];
  }

  lemma MoveSplitRight(
    aliases: Aliases, d: nat, parts: seq<string>, before: Meaning, part: Meaning, tokens: seq<Token>, k: nat, i: nat)
    requires parts != [] && k + i <= |tokens| && tokens[..k] in before.sequences
    requires tokens[k..][..i] in part.sequences && SpellsParts(aliases, d, parts[1..], tokens[k..][i..])
    ensures tokens[..k + i] in Product(before.sequences, part.sequences)
    ensures SpellsParts(aliases, d, parts[1..], tokens[k + i..])
  {
    var all := tokens[..k + i];
    ProductMembers(before.sequences, part.sequences, all);
    assert all[..k] == tokens[..k] && all[k..] == tokens[k..][..i];
    assert tokens[k..][i..] == tokens[k + i..];
  }

  lemma {:induction false} PartLanguage(aliases: Aliases, d: nat, part: string, tokens: seq<Token>)
    requires PartMeaning(aliases, d, part).Some?
    ensures tokens in PartMeaning(aliases, d, part).value.sequences <==> SpellsPart(aliases, d, part, tokens)
    decreases d, 1
  {
    if part in aliases {
      SourcesLanguage(aliases, d - 1, aliases[part], tokens);
    }
  }

  lemma {:induction false} SourcesLanguage(aliases: Aliases, d: nat, sources: seq<string>, tokens: seq<Token>)
    requires SourcesMeaning(aliases, d, sources).Some?
    ensures tokens in SourcesMeaning(aliases, d, sources).value.sequences <==>
            exists source | source in sources :: SpellsKey(aliases, d, source, tokens)
    decreases d, 4, |sources|
  {
    if sources != [] {
      KeyLanguage(aliases, d, sources[0], tokens);
      SourcesLanguage(aliases, d, sources[1..], tokens);
      assert sources == [sources[0]] + sources[1..];
    }
  }
}
