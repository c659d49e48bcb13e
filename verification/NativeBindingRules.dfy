/**
 * Which bindings the driver runs: those its matcher fires, for every run of keys, ticks and cancellations; under a new
 * keymap only with keys pressed since; and the key names of a configuration are typed by the keys they name.
 */
module NativeBindingRules {
  import opened Wrappers
  import opened Seqs
  import opened Text
  import opened KeyNames
  import opened Matcher
  import opened Compiler
  import opened NativeBinding
  import Matching = MatcherRuns
  import Driving = NativeBindingRuns

  // ----- which bindings run -----

  function BindingOf(emission: Emission): seq<Binding> {
    match emission
    case Fired(_, binding) => [binding]
    case TimedOut(_, binding) => [binding]
    case Returned(_) => []
  }

  function FiredBy(emissions: seq<Emission>): seq<Binding> {
    if emissions == [] then [] else BindingOf(emissions[0]) + FiredBy(emissions[1..])
  }

  function RunBy(delivery: Delivery): seq<Binding> { if delivery.Executed? then [delivery.binding] else [] }

  function Ran(deliveries: seq<Delivery>): seq<Binding> {
    if deliveries == [] then [] else RunBy(deliveries[0]) + Ran(deliveries[1..])
  }

  function Acts(actions: seq<Dispatch>): seq<Binding> {
    if actions == [] then [] else (if actions[0].Action? then [actions[0].binding] else []) + Acts(actions[1..])
  }

  lemma {:induction false} RanConcat(a: seq<Delivery>, b: seq<Delivery>)
    ensures Ran(a + b) == Ran(a) + Ran(b)
  {
    if a == [] {
      assert a + b == b;
    } else {
      TailConcat(a, b);
      RanConcat(a[1..], b);
      Associative(RunBy(a[0]), Ran(a[1..]), Ran(b));
    }
  }

  lemma {:induction false} FiredByConcat(a: seq<Emission>, b: seq<Emission>)
    ensures FiredBy(a + b) == FiredBy(a) + FiredBy(b)
  {
    if a == [] {
      assert a + b == b;
    } else {
      TailConcat(a, b);
      FiredByConcat(a[1..], b);
      Associative(BindingOf(a[0]), FiredBy(a[1..]), FiredBy(b));
    }
  }

  lemma {:induction false} ActsAreFired(emissions: seq<Emission>)
    ensures Acts(Dispatches(emissions)) == FiredBy(emissions)
  {
    if emissions != [] {
      assert Dispatches(emissions)[1..] == Dispatches(emissions[1..]);
      ActsAreFired(emissions[1..]);
    }
  }

  lemma {:induction false} ReplaysDoNotAct(actions: seq<Dispatch>, n: nat)
    requires n <= |actions| && forall i | 0 <= i < n :: actions[i].Replay?
    ensures Acts(actions[n..]) == Acts(actions)
    decreases n
  {
    if n > 0 {
      ReplaysDoNotAct(actions[1..], n - 1);
      assert actions[1..][n - 1..] == actions[n..];
    } else {
      assert actions[0..] == actions;
    }
  }

  /** Whatever is queued, a delivery runs the bindings it is given, in order. */
  lemma {:induction false} DeliverRuns(keymap: Keymap, actions: seq<Dispatch>, events: seq<Queued>)
    ensures Ran(Deliver(keymap, actions, events).1) == Acts(actions)
    decreases |actions|
  {
    if actions != [] {
      var rest := actions[1..];
      match actions[0]
      case Replay(token) =>
        if WholeEventReplayed(events, token, rest) {
          var n := |events[0].tokens|;
          DeliverRuns(keymap, actions[n..], events[1..]);
          assert forall i | 0 <= i < n - 1 :: rest[i] == actions[i + 1];
          ReplaysDoNotAct(actions, n);
          var more := Deliver(keymap, actions[n..], events[1..]).1;
          RanConcat([Unbound(events[0].key)], more);
          assert [Unbound(events[0].key)][1..] == [];
        } else {
          DeliverRuns(keymap, rest, events);
          var more := Deliver(keymap, rest, events).1;
          var made := match TokenKey(token) case Some(key) => [Synthesised(key)] case None => [];
          RanConcat(made, more);
          assert made != [] ==> made[1..] == [];
        }
      case Action(binding) =>
        DeliverRuns(keymap, rest, []);
        var more := Deliver(keymap, rest, []).1;
        RanConcat([Executed(binding, Keys(events), keymap)], more);
        assert [Executed(binding, Keys(events), keymap)][1..] == [];
    }
  }

  lemma DispatchedRuns(driver: Driver, emissions: seq<Emission>)
    ensures Ran(Dispatched(driver, emissions).delivered) == Ran(driver.delivered) + FiredBy(emissions)
  {
    var out := Deliver(driver.keymap, Dispatches(emissions), driver.events).1;
    RanConcat(driver.delivered, out);
    DeliverRuns(driver.keymap, Dispatches(emissions), driver.events);
    ActsAreFired(emissions);
  }

  lemma CancelRuns(driver: Driver)
    ensures Ran(Cancel(driver).delivered) == Ran(driver.delivered)
  {
    var cancelled := [Cancelled(Keys(driver.events))];
    RanConcat(driver.delivered, cancelled);
    assert cancelled[1..] == [];
  }

  lemma UnboundRuns(driver: Driver, key: KeyEvent)
    ensures Ran(driver.delivered + [Unbound(key)]) == Ran(driver.delivered)
  {
    RanConcat(driver.delivered, [Unbound(key)]);
    assert [Unbound(key)][1..] == [];
  }

  // ----- the run of the matcher behind a run of the driver -----

  /** The keymap stays. */
  predicate Steady(reading: Reading) { reading.resync.None? }

  predicate AllSteady(inputs: seq<Driving.Input>) {
    forall i | 0 <= i < |inputs| ::
      match inputs[i]
      case Key(_, first, second) => Steady(first) && Steady(second)
      case Ticked(reading) => Steady(reading)
      case CancelNow => true
  }

  /**
   * What the matcher is given: a key goes to it after whatever is due, unless it has no tokens or goes past the
   * bindings, which drops what is pending.
   */
  function Given(keymap: Keymap, state: Buffered, input: Driving.Input): seq<Matching.Input> {
    match input
    case Key(key, first, second) =>
      if first.bypass then [Matching.Drained]
      else if KeyTokens(key) == [] then []
      else if !Matching.Due(keymap, state, first.now) then [Matching.Fed(KeyTokens(key), first.now)]
      else [Matching.Ticked(first.now)] +
           (if second.bypass then [Matching.Drained] else [Matching.Fed(KeyTokens(key), second.now)])
    case Ticked(reading) => if reading.bypass then [] else [Matching.Ticked(reading.now)]
    case CancelNow => [Matching.Drained]
  }

  function AllGiven(keymap: Keymap, state: Buffered, inputs: seq<Driving.Input>): seq<Matching.Input>
    decreases |inputs|
  {
    if inputs == [] then []
    else
      var given := Given(keymap, state, inputs[0]);
      given + AllGiven(keymap, Matching.Run(keymap, state, given).0, inputs[1..])
  }

  lemma OneMatched(keymap: Keymap, state: Buffered, input: Matching.Input)
    ensures Matching.Run(keymap, state, [input]) == Matching.Step(keymap, state, input)
  {
    assert [input][1..] == [];
    EmptyConcat(Matching.Step(keymap, state, input).1);
  }

  lemma {:induction false} DrainingFires(tokens: seq<Token>)
    ensures FiredBy(Returns(tokens)) == []
  {
    if tokens != [] {
      assert Returns(tokens)[1..] == Returns(tokens[1..]);
      DrainingFires(tokens[1..]);
    }
  }

  /** The driver has the keymap and the pending tokens of the matcher, and has run what that has fired since. */
  predicate Follows(before: Driver, after: Driver, given: seq<Matching.Input>) {
    var (state, emissions) := Matching.Run(before.keymap, before.buffered, given);
    && after.keymap == before.keymap && after.buffered == state
    && Ran(after.delivered) == Ran(before.delivered) + FiredBy(emissions)
  }

  lemma FollowsTwice(a: Driver, b: Driver, c: Driver, first: seq<Matching.Input>, second: seq<Matching.Input>)
    requires Follows(a, b, first) && Follows(b, c, second)
    ensures Follows(a, c, first + second)
  {
    Matching.RunConcat(a.keymap, a.buffered, first, second);
    var (mid, out) := Matching.Run(a.keymap, a.buffered, first);
    var more := Matching.Run(a.keymap, mid, second).1;
    FiredByConcat(out, more);
    Associative(Ran(a.delivered), FiredBy(out), FiredBy(more));
  }

  lemma CancelFollows(driver: Driver, after: Driver)
    requires after.keymap == driver.keymap && after.buffered == driver.buffered.(tokens := [])
    requires Ran(after.delivered) == Ran(driver.delivered)
    ensures Follows(driver, after, [Matching.Drained])
  {
    OneMatched(driver.keymap, driver.buffered, Matching.Drained);
    DrainingFires(driver.buffered.tokens);
    EmptyConcat(Ran(driver.delivered));
  }

  lemma ExpireFollows(driver: Driver, now: U64)
    ensures Follows(driver, ExpireNow(driver, now), [Matching.Ticked(now)])
  {
    OneMatched(driver.keymap, driver.buffered, Matching.Ticked(now));
    DispatchedRuns(driver.(buffered := Expire(driver.keymap, driver.buffered, now).0),
      Expire(driver.keymap, driver.buffered, now).1);
  }

  lemma AcceptFollows(driver: Driver, key: KeyEvent, now: U64)
    ensures Follows(driver, Accept(driver, key, now), [Matching.Fed(KeyTokens(key), now)])
  {
    hide KeyTokens;
    OneMatched(driver.keymap, driver.buffered, Matching.Fed(KeyTokens(key), now));
    var (buffered, out) := Feed(driver.keymap, driver.buffered, KeyTokens(key), now);
    DispatchedRuns(driver.(buffered := buffered, events := driver.events + [Queued(key, KeyTokens(key))]), out);
  }

  lemma BypassFollows(driver: Driver, key: KeyEvent)
    ensures var cancelled := Cancel(driver);
            Follows(driver, cancelled.(delivered := cancelled.delivered + [Unbound(key)]), [Matching.Drained])
  {
    CancelRuns(driver);
    UnboundRuns(Cancel(driver), key);
    var cancelled := Cancel(driver);
    CancelFollows(driver, cancelled.(delivered := cancelled.delivered + [Unbound(key)]));
  }

  lemma NothingFollows(driver: Driver, after: Driver)
    requires after.keymap == driver.keymap && after.buffered == driver.buffered
    requires Ran(after.delivered) == Ran(driver.delivered)
    ensures Follows(driver, after, [])
  {
    EmptyConcat(Ran(driver.delivered));
  }

  lemma KeyFollows(driver: Driver, key: KeyEvent, first: Reading, second: Reading)
    requires Steady(first) && Steady(second)
    ensures Follows(driver, HandleKey(driver, key, first, second),
            Given(driver.keymap, driver.buffered, Driving.Key(key, first, second)))
  {
    hide KeyTokens, Follows, Matching.Run, Cancel, Accept, ExpireNow;
    if first.bypass {
      BypassFollows(driver, key);
    } else if KeyTokens(key) == [] {
      UnboundRuns(driver, key);
      NothingFollows(driver, driver.(delivered := driver.delivered + [Unbound(key)]));
    } else if Matching.Due(driver.keymap, driver.buffered, first.now) {
      var expired := ExpireNow(driver, first.now);
      ExpireFollows(driver, first.now);
      IdleAfterDue(driver, first.now);
      if second.bypass {
        BypassFollows(expired, key);
        FollowsTwice(driver, expired, HandleKey(expired, key, second, second), [Matching.Ticked(first.now)],
          [Matching.Drained]);
      } else {
        AcceptFollows(expired, key, second.now);
        FollowsTwice(driver, expired, HandleKey(expired, key, second, second), [Matching.Ticked(first.now)],
          [Matching.Fed(KeyTokens(key), second.now)]);
      }
    } else {
      AcceptFollows(driver, key, first.now);
    }
  }

  lemma IdleAfterDue(driver: Driver, now: U64)
    requires Matching.Due(driver.keymap, driver.buffered, now)
    ensures var expired := ExpireNow(driver, now);
            expired.buffered.tokens == [] && forall later :: !Matching.Due(expired.keymap, expired.buffered, later)
  {
    Matching.ExpireActsIffDue(driver.keymap, driver.buffered, now);
  }

  /**
   * Over every run of keys, ticks and cancellations under one keymap, the driver holds what the matcher holds and runs
   * exactly the bindings it fires, in order: a key is fed to it once, when nothing is due any more, and a key that goes
   * past the bindings only makes it forget.
   */
  lemma {:induction false} BindingsFollowTheMatcher(driver: Driver, inputs: seq<Driving.Input>)
    requires AllSteady(inputs)
    ensures Follows(driver, Driving.Run(driver, inputs), AllGiven(driver.keymap, driver.buffered, inputs))
    decreases |inputs|
  {
    hide Follows, HandleKey, Given, Matching.Run, Cancel, ExpireNow;
    if inputs == [] {
      NothingFollows(driver, driver);
    } else {
      var next, rest := Driving.Step(driver, inputs[0]), inputs[1..];
      var given := Given(driver.keymap, driver.buffered, inputs[0]);
      assert forall i | 0 <= i < |rest| :: rest[i] == inputs[i + 1];
      StepFollows(driver, inputs[0]);
      FollowedState(driver, next, given);
      BindingsFollowTheMatcher(next, rest);
      FollowsTwice(driver, next, Driving.Run(next, rest), given, AllGiven(next.keymap, next.buffered, rest));
    }
  }

  lemma FollowedState(before: Driver, after: Driver, given: seq<Matching.Input>)
    requires Follows(before, after, given)
    ensures after.keymap == before.keymap
    ensures after.buffered == Matching.Run(before.keymap, before.buffered, given).0
  {
  }

  lemma StepFollows(driver: Driver, input: Driving.Input)
    requires AllSteady([input])
    ensures Follows(driver, Driving.Step(driver, input), Given(driver.keymap, driver.buffered, input))
  {
    hide Follows, HandleKey, Matching.Run, ExpireNow;
    assert [input][0] == input;
    match input
    case Key(key, first, second) => KeyFollows(driver, key, first, second);
    case Ticked(reading) =>
      if reading.bypass {
        NothingFollows(driver, driver);
      } else {
        ExpireFollows(driver, reading.now);
      }
    case CancelNow =>
      CancelRuns(driver);
      CancelFollows(driver, Cancel(driver));
  }

  // ----- a new keymap -----

  /** Every binding that has run since `before` ran under the keymap and absorbed no other key than this one. */
  predicate OnlyUnder(before: Driver, after: Driver, keymap: Keymap, key: KeyEvent) {
    && before.delivered <= after.delivered
    && forall i | |before.delivered| <= i < |after.delivered| && after.delivered[i].Executed? ::
         after.delivered[i].under == keymap && after.delivered[i].absorbed == [key]
  }

  /**
   * When the keymap changes, keys pressed before the change are no part of any binding that runs after it: a key
   * pressed next runs bindings of the new keymap with that key alone, and a tick runs none.
   */
  lemma NewKeymapForgets(driver: Driver, key: KeyEvent, first: Reading, second: Reading)
    requires Driving.Healthy(driver) && first.resync.Some?
    ensures var pressed, ticked := HandleKey(driver, key, first, second), Tick(driver, first);
            && pressed.keymap == first.resync.value && OnlyUnder(driver, pressed, first.resync.value, key)
            && ticked.keymap == first.resync.value && ticked.events == []
            && Ran(ticked.delivered) == Ran(driver.delivered)
  {
    hide KeyTokens, Accept, Matching.Due, Deliver, Feed;
    var synced := Sync(driver, first);
    CancelRuns(driver);
    Driving.CancelAccounts(driver);
    NothingIsDue(synced, first.now);
    if !first.bypass && KeyTokens(key) != [] {
      FreshKey(synced, key, first.now);
    }
  }

  lemma NothingIsDue(driver: Driver, now: U64)
    requires driver.buffered.tokens == []
    ensures !Matching.Due(driver.keymap, driver.buffered, now)
    ensures var next := ExpireNow(driver, now);
            next.keymap == driver.keymap && next.events == driver.events && Ran(next.delivered) == Ran(driver.delivered)
  {
    assert Expire(driver.keymap, driver.buffered, now) == (driver.buffered, []);
    EmptyConcat(driver.delivered);
  }

  lemma FreshKey(driver: Driver, key: KeyEvent, now: U64)
    requires driver.events == [] && driver.buffered.tokens == [] && KeyTokens(key) != []
    ensures var next := Accept(driver, key, now);
            next.keymap == driver.keymap && OnlyUnder(driver, next, driver.keymap, key)
  {
    var tokens := KeyTokens(key);
    var event := Queued(key, tokens);
    assert Driving.Tokenised([event]);
    hide KeyTokens;
    Matching.IdleKey(driver.keymap, driver.buffered.lastInput, tokens, now);
    var emissions := Feed(driver.keymap, driver.buffered, tokens, now).1;
    assert driver.events + [event] == [event];
    if emissions != [] && emissions[0].Fired? {
      assert Dispatches(emissions) == [Action(emissions[0].binding)];
      Driving.ExecutedAll(driver.keymap, [event], emissions[0].binding);
      assert Keys([event]) == [key];
    } else if emissions != [] {
      Driving.ReturnsAreReplays(tokens);
      Driving.FlatOne(event);
      Driving.ReplayedAll(driver.keymap, [event]);
    }
  }

  /** After a tick that is not held back, nothing is due. */
  lemma TickSettles(driver: Driver, reading: Reading)
    requires !reading.bypass
    ensures var next := Tick(driver, reading); !Matching.Due(next.keymap, next.buffered, reading.now)
  {
    var synced := Sync(driver, reading);
    Matching.ExpireActsIffDue(synced.keymap, synced.buffered, reading.now);
  }

  // ----- keys and their names -----

  /** A key without modifiers that a component names. */
  function NameOf(code: KeyCode): Option<string> {
    match code
    case Char(ch) => Some(if ch == ' ' then "space" else [ch])
    case Enter => Some("return")
    case Tab => Some("tab")
    case Esc => Some("escape")
    case Backspace => Some("backspace")
    case Delete => Some("delete")
    case BackTab => Some("stab")
    case Left => Some("left")
    case Right => Some("right")
    case Up => Some("up")
    case Down => Some("down")
    case Home => Some("home")
    case End => Some("end")
    case PageUp => Some("prior")
    case PageDown => Some("next")
    case F(number) => if 1 <= number <= 12 then Some("f" + NativeBinding.Digits(number)) else None
    case OtherKey => None
  }

  lemma ShortNames(name: string)
    requires |name| == 1 || (|name| == 2 && name[0] == '^')
    ensures Encoding(name).None? && TerminalTokens(name) == [name]
  {
  }

  lemma CharacterTypes(ch: char)
    ensures ch != ' ' ==> LiteralTokens([ch]) == [[ch]]
    ensures LiteralTokens("space") == [" "]
  {
    ShortNames([ch]);
    hide TerminalTokens, Encoding;
    assert Singles([ch]) == [[ch]];
  }

  lemma ControlTypes(component: string)
    requires |component| == 2 && component[0] == '^'
    ensures LiteralTokens(component) == [component]
  {
    ShortNames(component);
    hide TerminalTokens, Encoding;
  }

  lemma EncodedTypes(name: string)
    requires Encoding(name).Some?
    ensures LiteralTokens(name) == TerminalTokens(name)
  {
    hide TerminalTokens, Singles;
  }

  lemma EncodedNames(code: KeyCode)
    requires !code.Char? && !code.Enter? && !code.Tab? && !code.Esc? && !code.Backspace? && NameOf(code).Some?
    ensures Encoding(NameOf(code).value).Some? && KeyName(KeyEvent(code, {})) == NameOf(code)
  {
    if code.F? {
      FunctionNames(code.number);
    }
  }

  lemma FunctionNames(number: nat)
    requires 1 <= number <= 12
    ensures Encoding("f" + NativeBinding.Digits(number)).Some?
  {
    if number < 10 {
      var c := ('0' as int + number) as char;
      assert "f" + NativeBinding.Digits(number) == ['f', c];
      assert c == '1' || c == '2' || c == '3' || c == '4' || c == '5' || c == '6' || c == '7' || c == '8' || c == '9';
    } else {
      assert NativeBinding.Digits(1) == "1" && NativeBinding.Digits(0) == "0" && NativeBinding.Digits(2) == "2";
      assert NativeBinding.Digits(number) == "1" + NativeBinding.Digits(number - 10);
      assert "f" + ("1" + "0") == "f10" && "f" + ("1" + "1") == "f11" && "f" + ("1" + "2") == "f12";
    }
  }

  lemma BackspaceTypes()
    ensures LiteralTokens("backspace") == ["backspace"] && TerminalTokens("backspace") == ["backspace"]
  {
    assert |"backspace"| == 9;
    assert Encoding("backspace").None?;
  }

  lemma ReturnTypes()
    ensures LiteralTokens("return") == ["^M"]
  {
  }

  lemma TabTypes()
    ensures LiteralTokens("tab") == ["^I"]
  {
  }

  lemma EscapeTypes()
    ensures LiteralTokens("escape") == ["^["]
  {
  }

  /** Pressing a key types what its name stands for in a configuration. */
  lemma KeysTypeTheirNames(code: KeyCode)
    requires NameOf(code).Some?
    ensures KeyTokens(KeyEvent(code, {})) == LiteralTokens(NameOf(code).value)
  {
    BackspaceTypes();
    ReturnTypes();
    TabTypes();
    EscapeTypes();
    if code.Char? {
      CharacterTypes(code.ch);
      ShortNames([code.ch]);
    } else if !code.Enter? && !code.Tab? && !code.Esc? && !code.Backspace? {
      EncodedNames(code);
      EncodedTypes(NameOf(code).value);
    } else {
      ShortNames("^M");
      ShortNames("^I");
      ShortNames("^[");
    }
    hide LiteralTokens, TerminalTokens, NameOf, NativeBinding.Digits;
  }

  /** With Control a letter types its caret name, and with Alt any key types an escape first. */
  lemma ModifiedKeysType(key: KeyEvent)
    ensures key.code.Char? && key.modifiers == {Control} ==>
              KeyTokens(key) == LiteralTokens(['^', ToAsciiUpper(key.code.ch)])
    ensures KeyTokens(key) != [] && Alt !in key.modifiers ==>
              KeyTokens(key.(modifiers := key.modifiers + {Alt})) == ["^["] + KeyTokens(key)
  {
    if key.code.Char? && key.modifiers == {Control} {
      ControlTypes(['^', ToAsciiUpper(key.code.ch)]);
      ShortNames(['^', ToAsciiUpper(key.code.ch)]);
    }
    hide TerminalTokens, LiteralTokens;
    var alt := key.(modifiers := key.modifiers + {Alt});
    assert Control in alt.modifiers <==> Control in key.modifiers;
    assert KeyName(alt) == KeyName(key);
  }

  lemma SingleToken(key: KeyEvent, token: Token)
    requires KeyTokens(key) == [token]
    ensures KeyName(key) == Some(token) && Encoding(token).None?
  {
    var name := KeyName(key).value;
    TerminalTokensOfEncoded(name);
    EncodingsAreLong(name);
    hide TerminalTokens, KeyName, Encoding;
    var prefix: seq<Token> := if Alt in key.modifiers then [ESCAPE] else [];
    assert KeyTokens(key) == prefix + TerminalTokens(name);
    assert |TerminalTokens(name)| > 0;
    assert prefix == [] && TerminalTokens(name) == [token];
  }

  lemma EncodingsAreLong(name: string)
    ensures Encoding(name).Some? ==> |TerminalTokens(name)| > 1
  {
    TerminalTokensOfEncoded(name);
    hide TerminalTokens;
    assert Encoding(name).Some? ==> |Encoding(name).value| > 2;
  }

  /** The key that stands in for a token types that token. */
  lemma SynthesisedTypes(token: Token, key: KeyEvent, typed: KeyEvent)
    requires KeyTokens(typed) == [token] && TokenKey(token) == Some(key)
    ensures KeyTokens(key) == [token]
  {
    SingleToken(typed, token);
    TerminalTokensOfEncoded(token);
    hide TerminalTokens, Encoding;
    StandsIn(token, key, typed);
  }

  lemma StandsIn(token: Token, key: KeyEvent, typed: KeyEvent)
    requires KeyName(typed) == Some(token) && Encoding(token).None? && TokenKey(token) == Some(key)
    ensures KeyName(key) == Some(token) && Alt !in key.modifiers
  {
    DigitsAreSome(if typed.code.F? then typed.code.number else 0);
    hide NativeBinding.Digits;
    assert typed.code.Char? ==> |token| <= 2;
    assert typed.code.F? ==> |token| > 1 && token[0] == 'f';
  }

  lemma {:induction false} DigitsAreSome(n: nat)
    ensures NativeBinding.Digits(n) != ""
  {
    if n >= 10 {
      DigitsAreSome(n / 10);
    }
  }
}
