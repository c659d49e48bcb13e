/**
 * The keyboard-configuration compiler: `expand`, `validate_binding` and `KeyboardConfig` of shared/keybindings.rs.
 * Error texts are not modelled: every error is `None` (or `false`).
 *
 * `KeyMeaning` is the reference: what a key description denotes under the aliases, with neither stack nor budget.
 * `Expand` is the source's algorithm, as a function; `ExpandKey` is the source's loops, proved equal to it.
 */
module Compiler {
  import opened Wrappers
  import opened Text
  import opened KeyNames
  import opened Matcher

  const MAX_EXPANSIONS: nat := 4096
  const MAX_STACK: nat := 32
  const MAX_NESTED_MULTI: nat := 8

  // ----- bindings -----

  function NewBinding(action: string, data: string): Binding {
    Binding(AsciiLower(action), data)
  }

  const ACTIONS: set<string> := {
    "key", "command", "multi", "nothing", "change_window", "active_window", "previous_window", "next_window",
    "backward_character", "forward_character", "backward_word", "forward_word", "beginning_of_line", "end_of_line",
    "backward_history", "forward_history", "backspace", "delete_character", "delete_previous_word", "erase_line",
    "erase_to_beg_of_line", "erase_to_end_of_line", "send_line", "word_completion", "scroll_backward",
    "scroll_forward", "scroll_start", "scroll_end", "seek_previous_highlight", "seek_next_highlight",
    "bare_display", "refresh_screen", "insert_text"
  }

  function DecimalValue(digits: string): nat
    requires forall c :: c in digits ==> IsDigit(c)
  {
    if digits == "" then 0
    else
      assert IsDigit(digits[|digits| - 1]);
      assert forall c :: c in digits[..|digits| - 1] ==> c in digits;
      10 * DecimalValue(digits[..|digits| - 1]) + (digits[|digits| - 1] as int - '0' as int)
  }

  /** `parse::<usize>()` succeeds, on a 64-bit target. */
  predicate ParsesAsUsize(s: string) {
    var digits := if s != "" && s[0] == '+' then s[1..] else s;
    digits != "" && (forall c :: c in digits ==> IsDigit(c)) && DecimalValue(digits) < U64_LIMIT
  }

  /** One item of a `multi` list, parsed into its own binding. */
  function MultiItem(item: string): Binding {
    match SplitOnce(TrimStart(item), ' ')
    case Some((action, data)) => NewBinding(action, data)
    case None => NewBinding(Trim(item), "")
  }

  predicate ValidBinding(binding: Binding, depth: nat)
    decreases MAX_NESTED_MULTI + 1 - depth
  {
    && depth <= MAX_NESTED_MULTI
    && binding.action in ACTIONS
    && (binding.action == "key" ==>
        binding.data != "" && forall c :: c in binding.data ==> IsAsciiAlphanumeric(c) || c == '_')
    && (binding.action == "change_window" ==> ParsesAsUsize(binding.data))
    && (binding.action == "command" ==>
        Trim(binding.data) != "" && '\r' !in binding.data && '\n' !in binding.data && '\0' !in binding.data)
    && (binding.action == "multi" ==>
        && binding.data != ""
        && forall item :: item in Split(binding.data, ';') ==>
             MultiItem(item).action != "key" && ValidBinding(MultiItem(item), depth + 1))
  }

  // ----- what a key description denotes -----

  type Aliases = map<string, seq<string>>

  /** Tokens of a component that no alias names. */
  function LiteralTokens(component: string): seq<Token> {
    match component
    case "space" => [" "]
    case "return" => ["^M"]
    case "tab" => ["^I"]
    case "escape" => ["^["]
    case "backspace" => ["backspace"]
    case _ =>
      if Encoding(component).Some? then TerminalTokens(component)
      else if component != "" && component[0] == '^' then [component]
      else Singles(component)
  }

  function Row(prefix: seq<Token>, suffixes: seq<seq<Token>>): (r: seq<seq<Token>>)
    ensures |r| == |suffixes|
  {
    seq(|suffixes|, i requires 0 <= i < |suffixes| => prefix + suffixes[i])
  }

  /** Every prefix followed by every suffix, prefix-major. */
  function Product(prefixes: seq<seq<Token>>, suffixes: seq<seq<Token>>): seq<seq<Token>> {
    if prefixes == [] then []
    else Row(prefixes[0], suffixes) + Product(prefixes[1..], suffixes)
  }

  predicate Fits(prefixes: seq<seq<Token>>, suffixes: seq<seq<Token>>) {
    forall i, j | 0 <= i < |prefixes| && 0 <= j < |suffixes| :: |prefixes[i]| + |suffixes[j]| <= MAX_SEQUENCE
  }

  /** The ordered sequences of a key, and how many budget units expanding it takes. */
  datatype Meaning = Meaning(sequences: seq<seq<Token>>, cost: nat)

  function KeyMeaning(aliases: Aliases, depth: nat, key: string): Option<Meaning>
    decreases depth, 3
  {
    match Components(key)
    case None => None
    case Some(parts) => PartsMeaning(aliases, depth, parts, Meaning([[]], 1))
  }

  function PartsMeaning(aliases: Aliases, depth: nat, parts: seq<string>, before: Meaning): Option<Meaning>
    decreases depth, 2, |parts|
  {
    if parts == [] then Some(before)
    else match PartMeaning(aliases, depth, parts[0])
      case None => None
      case Some(part) =>
        if !Fits(before.sequences, part.sequences) then None
        else PartsMeaning(aliases, depth, parts[1..], Then(before, part))
  }

  function Then(before: Meaning, part: Meaning): Meaning {
    Meaning(Product(before.sequences, part.sequences),
            before.cost + part.cost + |before.sequences| * |part.sequences|)
  }

  function PartMeaning(aliases: Aliases, depth: nat, part: string): Option<Meaning>
    decreases depth, 1
  {
    if part !in aliases then Some(Meaning([LiteralTokens(part)], 0))
    else if depth == 0 then None
    else SourcesMeaning(aliases, depth - 1, aliases[part])
  }

  function SourcesMeaning(aliases: Aliases, depth: nat, sources: seq<string>): Option<Meaning>
    decreases depth, 4, |sources|
  {
    if sources == [] then Some(Meaning([], 0))
    else match (KeyMeaning(aliases, depth, sources[0]), SourcesMeaning(aliases, depth, sources[1..]))
      case (Some(first), Some(rest)) => Some(Meaning(first.sequences + rest.sequences, first.cost + rest.cost))
      case _ => None
  }

  // ----- the algorithm -----

  datatype Expansion = Expansion(sequences: seq<seq<Token>>, budget: nat)

  function Expand(aliases: Aliases, key: string, stack: seq<string>, budget: nat): Option<Expansion>
    decreases MAX_STACK - |stack|, 3
  {
    if budget == 0 then None
    else match Components(key)
      case None => None
      case Some(parts) => ExpandParts(aliases, parts, stack, Expansion([[]], budget - 1))
  }

  function ExpandParts(aliases: Aliases, parts: seq<string>, stack: seq<string>, before: Expansion): Option<Expansion>
    decreases MAX_STACK - |stack|, 2, |parts|
  {
    if parts == [] then Some(before)
    else match ExpandPart(aliases, parts[0], stack, before.budget)
      case None => None
      case Some(part) =>
        match Multiply(before.sequences, part)
        case None => None
        case Some(product) => ExpandParts(aliases, parts[1..], stack, product)
  }

  /** The product loops: they stop at a sequence that is too long and when the budget is used up. */
  function Multiply(prefixes: seq<seq<Token>>, part: Expansion): Option<Expansion> {
    var units := |prefixes| * |part.sequences|;
    if Fits(prefixes, part.sequences) && units <= part.budget then
      Some(Expansion(Product(prefixes, part.sequences), part.budget - units))
    else None
  }

  function ExpandPart(aliases: Aliases, part: string, stack: seq<string>, budget: nat): Option<Expansion>
    decreases MAX_STACK - |stack|, 1
  {
    if part !in aliases then Some(Expansion([LiteralTokens(part)], budget))
    else if part in stack || |stack| >= MAX_STACK then None
    else ExpandSources(aliases, aliases[part], stack + [part], budget)
  }

  function ExpandSources(aliases: Aliases, sources: seq<string>, stack: seq<string>, budget: nat): Option<Expansion>
    decreases MAX_STACK - |stack|, 4, |sources|
  {
    if sources == [] then Some(Expansion([], budget))
    else match Expand(aliases, sources[0], stack, budget)
      case None => None
      case Some(first) =>
        match ExpandSources(aliases, sources[1..], stack, first.budget)
        case None => None
        case Some(rest) => Some(Expansion(first.sequences + rest.sequences, rest.budget))
  }
}
