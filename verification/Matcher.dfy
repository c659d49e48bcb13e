/**
 * The online key-sequence matcher: `Sequence::feed_event`, `expire`, `drain` and `deadline` of shared/keybindings.rs.
 *
 * `Feed`, `Expire` and `Drain` are the specification, over values. Each returns *emissions*, which say more than the
 * dispatches of the source do: a fired binding also names the executable sequence it consumed and whether a timeout
 * fired it. Class `Sequence` is the source's own struct and is proved against these functions.
 */
module Matcher {
  import opened Wrappers

  type Token = string

  const U64_LIMIT: nat := 0x1_0000_0000_0000_0000
  type U64 = x: int | 0 <= x < U64_LIMIT

  const ESCAPE: Token := "^["
  const ESCAPE_TIMEOUT: U64 := 500

  datatype Binding = Binding(action: string, data: string)
  datatype Dispatch = Action(binding: Binding) | Replay(token: Token)
  datatype Keymap = Keymap(executable: map<seq<Token>, Binding>, timeout: U64)

  /** Some executable sequence is strictly longer than `tokens` and starts with it. */
  predicate Extends(keymap: Keymap, tokens: seq<Token>) {
    exists key | key in keymap.executable.Keys :: tokens < key
  }

  datatype Buffered = Buffered(tokens: seq<Token>, lastInput: U64)

  datatype Emission =
    | Fired(keys: seq<Token>, binding: Binding)
    | TimedOut(keys: seq<Token>, binding: Binding)
    | Returned(token: Token)

  function ToDispatch(emission: Emission): Dispatch {
    match emission
    case Fired(_, binding) => Action(binding)
    case TimedOut(_, binding) => Action(binding)
    case Returned(token) => Replay(token)
  }

  function Dispatches(emissions: seq<Emission>): (r: seq<Dispatch>)
    ensures |r| == |emissions|
  {
    seq(|emissions|, i requires 0 <= i < |emissions| => ToDispatch(emissions[i]))
  }

  lemma DispatchesConcat(a: seq<Emission>, b: seq<Emission>)
    ensures Dispatches(a + b) == Dispatches(a) + Dispatches(b)
  {
  }

  function SaturatingAdd(x: U64, y: U64): U64 {
    if x + y < U64_LIMIT then x + y else U64_LIMIT - 1
  }

  function Deadline(keymap: Keymap, state: Buffered): Option<U64> {
    var timeout := if state.tokens == [ESCAPE] then ESCAPE_TIMEOUT else keymap.timeout;
    if state.tokens == [] || timeout == 0 then None else Some(SaturatingAdd(state.lastInput, timeout))
  }

  function Returns(tokens: seq<Token>): (r: seq<Emission>)
    ensures |r| == |tokens|
  {
    seq(|tokens|, i requires 0 <= i < |tokens| => Returned(tokens[i]))
  }

  function Expire(keymap: Keymap, state: Buffered, now: U64): (Buffered, seq<Emission>) {
    var deadline := Deadline(keymap, state);
    if deadline.None? || now < deadline.value then (state, [])
    else if state.tokens in keymap.executable then
      (state.(tokens := []), [TimedOut(state.tokens, keymap.executable[state.tokens])])
    else (state.(tokens := []), Returns(state.tokens))
  }

  /** What one event does once the timeout has been dealt with. */
  function Absorb(keymap: Keymap, held: seq<Token>, tokens: seq<Token>): (seq<Token>, seq<Emission>)
    decreases |held|
  {
    var all := held + tokens;
    if Extends(keymap, all) then (all, [])
    else if all in keymap.executable then ([], [Fired(all, keymap.executable[all])])
    else if held != [] then
      var (rest, emissions) := Absorb(keymap, [], tokens);
      (rest, Returns(held) + emissions)
    else ([], Returns(all))
  }

  function Feed(keymap: Keymap, state: Buffered, tokens: seq<Token>, now: U64): (Buffered, seq<Emission>) {
    var (expired, first) := Expire(keymap, state, now);
    var (held, second) := Absorb(keymap, expired.tokens, tokens);
    (Buffered(held, now), first + second)
  }

  // ----- the source's struct -----

  class Sequence {
    var pending: seq<Token>
    var lastInput: U64

    function State(): Buffered
      reads this
    {
      Buffered(pending, lastInput)
    }

    constructor ()
      ensures State() == Buffered([], 0)
    {
      pending, lastInput := [], 0;
    }

    method Clear()
      modifies this
      ensures State() == old(State()).(tokens := [])
    {
      pending := [];
    }

    method DrainAll() returns (output: seq<Dispatch>)
      modifies this
      ensures State() == old(State()).(tokens := [])
      ensures output == Dispatches(Returns(old(pending)))
    {
      output := seq(|pending|, i requires 0 <= i < |pending| reads this => Replay(pending[i]));
      pending := [];
    }

    method ExpireAt(keymap: Keymap, now: U64) returns (output: seq<Dispatch>)
      modifies this
      ensures State() == Expire(keymap, old(State()), now).0
      ensures output == Dispatches(Expire(keymap, old(State()), now).1)
    {
      var deadline := Deadline(keymap, State());
      if deadline.None? || now < deadline.value {
        return [];
      }
      if pending in keymap.executable {
        var action := keymap.executable[pending];
        Clear();
        output := [Action(action)];
        assert output == Dispatches([TimedOut(old(pending), action)]);
      } else {
        output := DrainAll();
      }
    }

    method FeedEvent(keymap: Keymap, tokens: seq<Token>, now: U64) returns (output: seq<Dispatch>)
      modifies this
      ensures State() == Feed(keymap, old(State()), tokens, now).0
      ensures output == Dispatches(Feed(keymap, old(State()), tokens, now).1)
      decreases |pending|
    {
      output := ExpireAt(keymap, now);
      ghost var held := pending;
      ghost var first := Expire(keymap, old(State()), now).1;
      assert output == Dispatches(first);
      lastInput := now;
      var previousLen := |pending|;
      pending := pending + tokens;
      if Extends(keymap, pending) {
        assert first + [] == first;
        return;
      }
      if pending in keymap.executable {
        output := output + [Action(keymap.executable[pending])];
        DispatchesConcat(first, [Fired(pending, keymap.executable[pending])]);
        assert Dispatches([Fired(pending, keymap.executable[pending])]) == [Action(keymap.executable[pending])];
        Clear();
      } else if previousLen > 0 {
        pending := pending[..previousLen];
        assert pending == held;
        var drained := DrainAll();
        var again := FeedEvent(keymap, tokens, now);
        output := output + drained + again;
        ghost var rest := Absorb(keymap, [], tokens).1;
        assert [] + rest == rest;
        DispatchesConcat(Returns(held), rest);
        DispatchesConcat(first, Returns(held) + rest);
        assert output == Dispatches(first) + (drained + again);
      } else {
        var drained := DrainAll();
        output := output + drained;
        assert held + tokens == tokens;
        DispatchesConcat(first, Returns(tokens));
      }
    }
  }
}
