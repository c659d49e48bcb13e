/** Whole-run properties of the matcher under a fixed keymap, for any interleaving of events, ticks and drains. */
module MatcherRuns {
  import opened Matcher
  import opened Seqs

  datatype Input = Fed(tokens: seq<Token>, now: U64) | Ticked(now: U64) | Drained

  function Step(keymap: Keymap, state: Buffered, input: Input): (Buffered, seq<Emission>) {
    match input
    case Fed(tokens, now) => Feed(keymap, state, tokens, now)
    case Ticked(now) => Expire(keymap, state, now)
    case Drained => (state.(tokens := []), Returns(state.tokens))
  }

  function Run(keymap: Keymap, state: Buffered, inputs: seq<Input>): (Buffered, seq<Emission>)
    decreases |inputs|
  {
    if inputs == [] then (state, [])
    else
      var (next, first) := Step(keymap, state, inputs[0]);
      var (last, rest) := Run(keymap, next, inputs[1..]);
      (last, first + rest)
  }

  /** The tokens an emission accounts for: all the keys of a fired sequence, or the one replayed token. */
  function Spent(emission: Emission): seq<Token> {
    match emission
    case Fired(keys, _) => keys
    case TimedOut(keys, _) => keys
    case Returned(token) => [token]
  }

  function Consumed(emissions: seq<Emission>): seq<Token> {
    if emissions == [] then [] else Spent(emissions[0]) + Consumed(emissions[1..])
  }

  function Typed(inputs: seq<Input>): seq<Token> {
    if inputs == [] then []
    else (if inputs[0].Fed? then inputs[0].tokens else []) + Typed(inputs[1..])
  }

  lemma {:induction false} ConsumedConcat(a: seq<Emission>, b: seq<Emission>)
    ensures Consumed(a + b) == Consumed(a) + Consumed(b)
  {
    if a == [] {
      assert a + b == b;
    } else {
      assert (a + b)[1..] == a[1..] + b;
      ConsumedConcat(a[1..], b);
    }
  }

  lemma {:induction false} ConsumedReturns(tokens: seq<Token>)
    ensures Consumed(Returns(tokens)) == tokens
  {
    if tokens != [] {
      assert Returns(tokens)[1..] == Returns(tokens[1..]);
      ConsumedReturns(tokens[1..]);
    }
  }

  lemma ConsumedOne(emission: Emission)
    ensures Consumed([emission]) == Spent(emission)
  {
    assert [emission][1..] == [];
  }

  lemma ExpireConserves(keymap: Keymap, state: Buffered, now: U64)
    ensures var (next, out) := Expire(keymap, state, now);
            Consumed(out) + next.tokens == state.tokens
  {
    var (next, out) := Expire(keymap, state, now);
    ConsumedReturns(state.tokens);
    if out != [] && out[0].TimedOut? {
      ConsumedOne(out[0]);
    }
  }

  lemma {:induction false} AbsorbConserves(keymap: Keymap, held: seq<Token>, tokens: seq<Token>)
    ensures var (rest, out) := Absorb(keymap, held, tokens);
            Consumed(out) + rest == held + tokens
    decreases |held|
  {
    hide Extends;
    var all := held + tokens;
    if Extends(keymap, all) {
      EmptyConcat(all);
    } else if all in keymap.executable {
      ConsumedOne(Fired(all, keymap.executable[all]));
      EmptyConcat(all);
    } else if held != [] {
      AbsorbConserves(keymap, [], tokens);
      var (rest, out) := Absorb(keymap, [], tokens);
      ConsumedReturns(held);
      ConsumedConcat(Returns(held), out);
      Associative(held, Consumed(out), rest);
      EmptyConcat(tokens);
    } else {
      ConsumedReturns(all);
      EmptyConcat(all);
    }
  }

  lemma FeedConserves(keymap: Keymap, state: Buffered, tokens: seq<Token>, now: U64)
    ensures var (next, out) := Feed(keymap, state, tokens, now);
            Consumed(out) + next.tokens == state.tokens + tokens
  {
    var (expired, first) := Expire(keymap, state, now);
    var (held, second) := Absorb(keymap, expired.tokens, tokens);
    ExpireConserves(keymap, state, now);
    AbsorbConserves(keymap, expired.tokens, tokens);
    ConsumedConcat(first, second);
    ChainConcat(Consumed(first), Consumed(second), held, expired.tokens, tokens, state.tokens);
  }

  lemma StepConserves(keymap: Keymap, state: Buffered, input: Input)
    ensures var (next, out) := Step(keymap, state, input);
            Consumed(out) + next.tokens == state.tokens + (if input.Fed? then input.tokens else [])
  {
    match input
    case Fed(tokens, now) => FeedConserves(keymap, state, tokens, now);
    case Ticked(now) => ExpireConserves(keymap, state, now);
    case Drained => ConsumedReturns(state.tokens);
  }

  /** No token is lost, duplicated or reordered by any run. */
  lemma {:induction false} Conservation(keymap: Keymap, state: Buffered, inputs: seq<Input>)
    ensures var (last, out) := Run(keymap, state, inputs);
            Consumed(out) + last.tokens == state.tokens + Typed(inputs)
    decreases |inputs|
  {
    if inputs != [] {
      var (next, first) := Step(keymap, state, inputs[0]);
      var (last, rest) := Run(keymap, next, inputs[1..]);
      StepConserves(keymap, state, inputs[0]);
      Conservation(keymap, next, inputs[1..]);
      ConsumedConcat(first, rest);
      var typed := if inputs[0].Fed? then inputs[0].tokens else [];
      assert state.tokens + Typed(inputs) == (state.tokens + typed) + Typed(inputs[1..]);
      ChainConcat(Consumed(first), Consumed(rest), last.tokens, next.tokens, Typed(inputs[1..]), state.tokens + typed);
    }
  }

  /** Idle, or part-way through some executable sequence. */
  predicate Settled(keymap: Keymap, state: Buffered) {
    state.tokens == [] || Extends(keymap, state.tokens)
  }

  /** A binding fires at once exactly when nothing longer could follow, and by timeout only when something could. */
  predicate Justified(keymap: Keymap, emission: Emission) {
    match emission
    case Fired(keys, binding) =>
      keys in keymap.executable && keymap.executable[keys] == binding && !Extends(keymap, keys)
    case TimedOut(keys, binding) =>
      keys in keymap.executable && keymap.executable[keys] == binding && Extends(keymap, keys)
    case Returned(_) => true
  }

  lemma {:induction false} AbsorbSettles(keymap: Keymap, held: seq<Token>, tokens: seq<Token>)
    ensures var (rest, out) := Absorb(keymap, held, tokens);
            && (rest == [] || Extends(keymap, rest))
            && (forall e :: e in out ==> Justified(keymap, e))
    decreases |held|
  {
    if !Extends(keymap, held + tokens) && held + tokens !in keymap.executable && held != [] {
      AbsorbSettles(keymap, [], tokens);
    }
  }

  /** Every run keeps the matcher settled, and every emission of it is justified. */
  lemma {:induction false} RunIsJustified(keymap: Keymap, state: Buffered, inputs: seq<Input>)
    requires Settled(keymap, state)
    ensures var (last, out) := Run(keymap, state, inputs);
            Settled(keymap, last) && (forall e :: e in out ==> Justified(keymap, e))
    decreases |inputs|
  {
    if inputs != [] {
      if inputs[0].Fed? {
        AbsorbSettles(keymap, Expire(keymap, state, inputs[0].now).0.tokens, inputs[0].tokens);
      }
      RunIsJustified(keymap, Step(keymap, state, inputs[0]).0, inputs[1..]);
    }
  }

  /** Whether a timeout is due, and therefore whether `Expire` does anything at all. */
  predicate Due(keymap: Keymap, state: Buffered, now: U64) {
    var deadline := Deadline(keymap, state);
    deadline.Some? && deadline.value <= now
  }

  lemma ExpireActsIffDue(keymap: Keymap, state: Buffered, now: U64)
    ensures var (next, out) := Expire(keymap, state, now);
            && (out != [] <==> Due(keymap, state, now))
            && (Due(keymap, state, now) ==> next.tokens == [])
            && (!Due(keymap, state, now) ==> next == state)
  {
    if Due(keymap, state, now) {
      assert |Returns(state.tokens)| == |state.tokens| > 0;
    }
  }

  /** Every input is an event, and each arrives before the timeout of what was pending. */
  predicate InTime(keymap: Keymap, state: Buffered, inputs: seq<Input>)
    decreases |inputs|
  {
    inputs == [] ||
    (inputs[0].Fed? && !Due(keymap, state, inputs[0].now) &&
     InTime(keymap, Step(keymap, state, inputs[0]).0, inputs[1..]))
  }

  /**
   * Completeness: an executable sequence that no longer one extends fires, once and alone, when its tokens are typed
   * in time, however they are grouped into events. `state` may already hold a first part of it.
   */
  lemma {:induction false} TypedSequenceFires(keymap: Keymap, state: Buffered, inputs: seq<Input>, keys: seq<Token>)
    requires keys in keymap.executable && !Extends(keymap, keys)
    requires state.tokens < keys && state.tokens + Typed(inputs) == keys
    requires InTime(keymap, state, inputs)
    ensures Run(keymap, state, inputs).0.tokens == []
    ensures Run(keymap, state, inputs).1 == [Fired(keys, keymap.executable[keys])]
    decreases |inputs|
  {
    assert inputs != [] by {
      assert state.tokens + [] == state.tokens;
    }
    var rest := inputs[1..];
    var all := state.tokens + inputs[0].tokens;
    Associative(state.tokens, inputs[0].tokens, Typed(rest));
    OneEventTowards(keymap, state, inputs[0], keys);
    var (next, first) := Step(keymap, state, inputs[0]);
    if all == keys {
      assert Typed(rest) == [];
      IdleEventsDoNothing(keymap, next, rest, keys);
    } else {
      assert all < keys;
      TypedSequenceFires(keymap, next, rest, keys);
    }
  }

  /** One event in time that leads to `keys`: it is held, or it completes `keys` and fires it. */
  lemma OneEventTowards(keymap: Keymap, state: Buffered, input: Input, keys: seq<Token>)
    requires keys in keymap.executable && !Extends(keymap, keys)
    requires input.Fed? && !Due(keymap, state, input.now) && state.tokens + input.tokens <= keys
    ensures var all := state.tokens + input.tokens;
            Step(keymap, state, input) ==
            if all == keys then (Buffered([], input.now), [Fired(keys, keymap.executable[keys])])
            else (Buffered(all, input.now), [])
  {
    var all := state.tokens + input.tokens;
    ExpireActsIffDue(keymap, state, input.now);
    assert all != keys ==> all < keys && Extends(keymap, all);
    var out := Absorb(keymap, state.tokens, input.tokens).1;
    assert [] + out == out;
  }

  /** Events without tokens change nothing in an idle matcher whose keymap is not empty. */
  lemma {:induction false} IdleEventsDoNothing(keymap: Keymap, state: Buffered, inputs: seq<Input>, keys: seq<Token>)
    requires state.tokens == [] && Typed(inputs) == [] && InTime(keymap, state, inputs)
    requires keys in keymap.executable && keys != []
    ensures Run(keymap, state, inputs).0.tokens == [] && Run(keymap, state, inputs).1 == []
    decreases |inputs|
  {
    if inputs != [] {
      assert [] < keys;
      assert Extends(keymap, []);
      assert inputs[0].tokens == [] && Typed(inputs[1..]) == [];
      assert [] + inputs[0].tokens == [];
      IdleEventsDoNothing(keymap, Step(keymap, state, inputs[0]).0, inputs[1..], keys);
    }
  }

  // ----- timeouts, and what breaks a sequence -----

  /** How long what is pending waits for more: an escape alone half a second, all else the keymap's timeout. */
  function Wait(keymap: Keymap, tokens: seq<Token>): nat { if tokens == ["^["] then 500 else keymap.timeout }

  lemma DueIff(keymap: Keymap, state: Buffered, now: U64)
    ensures Due(keymap, state, now) <==>
            && state.tokens != [] && Wait(keymap, state.tokens) > 0
            && (now >= state.lastInput + Wait(keymap, state.tokens) || now == 0xFFFF_FFFF_FFFF_FFFF)
  {
  }

  /** What a key leaves pending waits from that key on. */
  lemma WaitStartsWithKey(keymap: Keymap, state: Buffered, tokens: seq<Token>, now: U64, later: U64)
    ensures var next := Step(keymap, state, Fed(tokens, now)).0;
            Due(keymap, next, later) <==>
            && next.tokens != [] && Wait(keymap, next.tokens) > 0
            && (later >= now + Wait(keymap, next.tokens) || later == 0xFFFF_FFFF_FFFF_FFFF)
  {
    hide Absorb, Expire;
    DueIff(keymap, Step(keymap, state, Fed(tokens, now)).0, later);
  }

  /** The prefixes of what a longer sequence extends are extended by it too. */
  lemma PrefixExtends(keymap: Keymap, tokens: seq<Token>, keys: seq<Token>)
    requires Extends(keymap, keys) && tokens <= keys
    ensures Extends(keymap, tokens)
  {
    var key :| key in keymap.executable.Keys && keys < key;
    assert tokens < key;
  }

  /** What a longer sequence extends is held while it is typed in time, however it is grouped into events. */
  lemma {:induction false} TypedPrefixIsHeld(keymap: Keymap, state: Buffered, inputs: seq<Input>, keys: seq<Token>)
    requires Extends(keymap, keys) && state.tokens + Typed(inputs) == keys && InTime(keymap, state, inputs)
    ensures Run(keymap, state, inputs).0.tokens == keys && Run(keymap, state, inputs).1 == []
    decreases |inputs|
  {
    if inputs == [] {
      assert state.tokens + [] == state.tokens;
    } else {
      var rest, all := inputs[1..], state.tokens + inputs[0].tokens;
      Associative(state.tokens, inputs[0].tokens, Typed(rest));
      assert all <= keys;
      PrefixExtends(keymap, all, keys);
      ExpireActsIffDue(keymap, state, inputs[0].now);
      var (next, first) := Step(keymap, state, inputs[0]);
      assert next.tokens == all && first == [];
      TypedPrefixIsHeld(keymap, next, rest, keys);
    }
  }

  /** What a timeout makes of pending tokens. */
  function AtTimeout(keymap: Keymap, keys: seq<Token>): seq<Emission> {
    if keys in keymap.executable then [TimedOut(keys, keymap.executable[keys])] else Returns(keys)
  }

  lemma {:induction false} RunConcat(keymap: Keymap, state: Buffered, a: seq<Input>, b: seq<Input>)
    ensures var (mid, first) := Run(keymap, state, a);
            var (last, second) := Run(keymap, mid, b);
            Run(keymap, state, a + b) == (last, first + second)
    decreases |a|
  {
    if a == [] {
      assert a + b == b;
      EmptyConcat(Run(keymap, state, b).1);
    } else {
      assert (a + b)[0] == a[0] && (a + b)[1..] == a[1..] + b;
      var (next, first) := Step(keymap, state, a[0]);
      RunConcat(keymap, next, a[1..], b);
      var (mid, rest) := Run(keymap, next, a[1..]);
      Associative(first, rest, Run(keymap, mid, b).1);
    }
  }

  /**
   * A sequence that a longer one extends, typed in time and followed by nothing until its timeout, fires then, once and
   * alone; tokens that are no sequence by themselves are given back. A key that comes that late finds the matcher idle.
   */
  lemma TimeoutFires(
    keymap: Keymap, state: Buffered, inputs: seq<Input>, keys: seq<Token>, late: Input, rest: seq<Input>)
    requires Extends(keymap, keys) && state.tokens + Typed(inputs) == keys && InTime(keymap, state, inputs)
    requires !late.Drained? && Due(keymap, Run(keymap, state, inputs).0, late.now)
    ensures var idle := Buffered([], Run(keymap, state, inputs).0.lastInput);
            Run(keymap, state, inputs + [late] + rest) ==
            (Run(keymap, idle, [late] + rest).0, AtTimeout(keymap, keys) + Run(keymap, idle, [late] + rest).1)
  {
    TypedPrefixIsHeld(keymap, state, inputs, keys);
    var held := Run(keymap, state, inputs).0;
    var idle := Buffered([], held.lastInput);
    assert inputs + [late] + rest == inputs + ([late] + rest);
    RunConcat(keymap, state, inputs, [late] + rest);
    assert ([late] + rest)[1..] == rest;
    var (next, out) := Step(keymap, held, late);
    assert Step(keymap, idle, late).0 == next && out == AtTimeout(keymap, keys) + Step(keymap, idle, late).1 by {
      LateStep(keymap, held, late);
    }
    Associative(AtTimeout(keymap, keys), Step(keymap, idle, late).1, Run(keymap, next, rest).1);
    EmptyConcat(Run(keymap, held, [late] + rest).1);
  }

  lemma LateStep(keymap: Keymap, held: Buffered, late: Input)
    requires !late.Drained? && Due(keymap, held, late.now)
    ensures var idle := Buffered([], held.lastInput);
            && Step(keymap, held, late).0 == Step(keymap, idle, late).0
            && Step(keymap, held, late).1 == AtTimeout(keymap, held.tokens) + Step(keymap, idle, late).1
  {
    var idle := Buffered([], held.lastInput);
    assert Expire(keymap, held, late.now) == (idle, AtTimeout(keymap, held.tokens));
    assert Expire(keymap, idle, late.now) == (idle, []);
    if late.Fed? {
      EmptyConcat(Absorb(keymap, [], late.tokens).1);
    } else {
      EmptyConcat(AtTimeout(keymap, held.tokens));
    }
  }

  /**
   * A key in time with which the pending tokens neither are nor begin a sequence breaks it: they are given back, and
   * the key and all that follows are matched as by an idle matcher.
   */
  lemma BrokenPrefixStartsAfresh(
    keymap: Keymap, state: Buffered, tokens: seq<Token>, now: U64, rest: seq<Input>)
    requires state.tokens != [] && !Due(keymap, state, now)
    requires !Extends(keymap, state.tokens + tokens) && state.tokens + tokens !in keymap.executable
    ensures var idle, inputs := Buffered([], state.lastInput), [Fed(tokens, now)] + rest;
            Run(keymap, state, inputs) ==
            (Run(keymap, idle, inputs).0, Returns(state.tokens) + Run(keymap, idle, inputs).1)
  {
    var idle, inputs := Buffered([], state.lastInput), [Fed(tokens, now)] + rest;
    assert inputs[1..] == rest;
    ExpireActsIffDue(keymap, state, now);
    var (held, fresh') := Absorb(keymap, [], tokens);
    assert Absorb(keymap, state.tokens, tokens) == (held, Returns(state.tokens) + fresh');
    EmptyConcat(Returns(state.tokens) + fresh');
    EmptyConcat(fresh');
    Associative(Returns(state.tokens), fresh', Run(keymap, Buffered(held, now), rest).1);
  }

  /** What an idle matcher makes of a key: it is held, or it fires, or its tokens are given back. */
  lemma IdleKey(keymap: Keymap, lastInput: U64, tokens: seq<Token>, now: U64)
    ensures Step(keymap, Buffered([], lastInput), Fed(tokens, now)) ==
            if Extends(keymap, tokens) then (Buffered(tokens, now), [])
            else
              (Buffered([], now),
               if tokens in keymap.executable then [Fired(tokens, keymap.executable[tokens])] else Returns(tokens))
  {
    assert [] + tokens == tokens;
    EmptyConcat(Absorb(keymap, [], tokens).1);
  }
}
