/** Exactly-once key delivery, over every run of keys, ticks and cancels. */
module NativeBindingRuns {
  import opened Seqs
  import opened Matcher
  import opened MatcherRuns
  import opened NativeBinding

  predicate Tokenised(events: seq<Queued>) {
    forall i | 0 <= i < |events| :: events[i].tokens == KeyTokens(events[i].key) != []
  }

  /** The queue holds exactly the key events whose tokens are pending. */
  predicate InStep(driver: Driver) {
    Tokenised(driver.events) && Flat(driver.events) == driver.buffered.tokens
  }

  function TokensOf(keys: seq<KeyEvent>): seq<Token> {
    if keys == [] then [] else KeyTokens(keys[0]) + TokensOf(keys[1..])
  }

  /** The key events a delivery disposes of, those without tokens aside: they are never queued. */
  function Disposed(delivery: Delivery): seq<KeyEvent> {
    match delivery
    case Unbound(key) => if KeyTokens(key) == [] then [] else [key]
    case Executed(_, absorbed, _) => absorbed
    case Cancelled(keys) => keys
    case Synthesised(_) => []
  }

  function AllDisposed(deliveries: seq<Delivery>): seq<KeyEvent> {
    if deliveries == [] then [] else Disposed(deliveries[0]) + AllDisposed(deliveries[1..])
  }

  /** Nothing was made up, and a binding that ran is the one bound to the tokens of the key events it absorbed. */
  predicate Genuine(delivery: Delivery) {
    match delivery
    case Executed(binding, absorbed, under) =>
      TokensOf(absorbed) in under.executable && under.executable[TokensOf(absorbed)] == binding
    case Synthesised(_) => false
    case _ => true
  }

  predicate AllGenuine(deliveries: seq<Delivery>) {
    forall i | 0 <= i < |deliveries| :: Genuine(deliveries[i])
  }

  lemma {:induction false} AllDisposedConcat(a: seq<Delivery>, b: seq<Delivery>)
    ensures AllDisposed(a + b) == AllDisposed(a) + AllDisposed(b)
  {
    if a == [] {
      assert a + b == b;
    } else {
      assert (a + b)[1..] == a[1..] + b;
      AllDisposedConcat(a[1..], b);
    }
  }

  lemma DisposedOne(delivery: Delivery)
    ensures AllDisposed([delivery]) == Disposed(delivery)
  {
    assert [delivery][1..] == [];
  }

  lemma {:induction false} FlatConcat(a: seq<Queued>, b: seq<Queued>)
    ensures Flat(a + b) == Flat(a) + Flat(b)
  {
    if a == [] {
      assert a + b == b;
    } else {
      assert (a + b)[1..] == a[1..] + b;
      FlatConcat(a[1..], b);
    }
  }

  lemma FlatOne(event: Queued)
    ensures Flat([event]) == event.tokens
  {
    assert [event][1..] == [];
  }

  lemma {:induction false} TokensOfKeys(events: seq<Queued>)
    requires Tokenised(events)
    ensures TokensOf(Keys(events)) == Flat(events)
  {
    if events != [] {
      assert Keys(events)[1..] == Keys(events[1..]);
      TokensOfKeys(events[1..]);
    }
  }

  function Unbounds(events: seq<Queued>): (r: seq<Delivery>)
    ensures |r| == |events|
  {
    seq(|events|, i requires 0 <= i < |events| => Unbound(events[i].key))
  }

  lemma {:induction false} UnboundsDispose(events: seq<Queued>)
    requires Tokenised(events)
    ensures AllDisposed(Unbounds(events)) == Keys(events)
  {
    if events != [] {
      assert Unbounds(events)[1..] == Unbounds(events[1..]);
      UnboundsDispose(events[1..]);
      assert Keys(events) == [events[0].key] + Keys(events[1..]);
    }
  }

  function Replays(tokens: seq<Token>): (r: seq<Dispatch>)
    ensures |r| == |tokens|
  {
    seq(|tokens|, i requires 0 <= i < |tokens| => Replay(tokens[i]))
  }

  lemma ReturnsAreReplays(tokens: seq<Token>)
    ensures Dispatches(Returns(tokens)) == Replays(tokens)
  {
  }

  lemma ReplaysConcat(a: seq<Token>, b: seq<Token>)
    ensures Replays(a + b) == Replays(a) + Replays(b)
  {
  }

  lemma ReplayedEvent(keymap: Keymap, event: Queued, queue: seq<Queued>, actions: seq<Dispatch>)
    requires event.tokens != []
    ensures var (left, out) := Deliver(keymap, actions, queue);
            Deliver(keymap, Replays(event.tokens) + actions, [event] + queue) == (left, [Unbound(event.key)] + out)
  {
    var tokens := event.tokens;
    var all := Replays(tokens) + actions;
    assert all[|tokens|..] == actions;
    assert ([event] + queue)[1..] == queue;
    assert WholeEventReplayed([event] + queue, tokens[0], all[1..]) by {
      assert forall i | 0 <= i < |tokens| - 1 :: all[1..][i] == all[i + 1];
    }
  }

  /** Replaying all the tokens of some queued events hands over those events, whole and in order. */
  lemma {:induction false} ReplayedEvents(keymap: Keymap, front: seq<Queued>, back: seq<Queued>, actions: seq<Dispatch>)
    requires Tokenised(front)
    ensures var (left, out) := Deliver(keymap, actions, back);
            Deliver(keymap, Replays(Flat(front)) + actions, front + back) == (left, Unbounds(front) + out)
    decreases |front|
  {
    var out := Deliver(keymap, actions, back).1;
    if front == [] {
      assert Replays(Flat(front)) + actions == actions;
      assert front + back == back;
      assert Unbounds(front) + out == out;
    } else {
      ReplayedEvents(keymap, front[1..], back, actions);
      var more := Replays(Flat(front[1..])) + actions;
      ReplayedEvent(keymap, front[0], front[1..] + back, more);
      ReplayedSplit(front, back, actions, out);
    }
  }

  lemma ReplayedSplit(front: seq<Queued>, back: seq<Queued>, actions: seq<Dispatch>, out: seq<Delivery>)
    requires front != []
    ensures Replays(Flat(front)) + actions == Replays(front[0].tokens) + (Replays(Flat(front[1..])) + actions)
    ensures front + back == [front[0]] + (front[1..] + back)
    ensures Unbounds(front) + out == [Unbound(front[0].key)] + (Unbounds(front[1..]) + out)
  {
    ReplaysConcat(front[0].tokens, Flat(front[1..]));
    Associative(Replays(front[0].tokens), Replays(Flat(front[1..])), actions);
    HeadTail(front);
    Associative([front[0]], front[1..], back);
    UnboundsCons(front);
    Associative([Unbound(front[0].key)], Unbounds(front[1..]), out);
  }

  lemma UnboundsCons(events: seq<Queued>)
    requires events != []
    ensures Unbounds(events) == [Unbound(events[0].key)] + Unbounds(events[1..])
  {
  }

  lemma ReplayedAll(keymap: Keymap, events: seq<Queued>)
    requires Tokenised(events)
    ensures Deliver(keymap, Replays(Flat(events)), events) == ([], Unbounds(events))
  {
    ReplayedEvents(keymap, events, [], []);
    assert Replays(Flat(events)) + [] == Replays(Flat(events));
    assert events + [] == events && Unbounds(events) + [] == Unbounds(events);
  }

  lemma ExecutedAll(keymap: Keymap, events: seq<Queued>, binding: Binding)
    ensures Deliver(keymap, [Action(binding)], events) == ([], [Executed(binding, Keys(events), keymap)])
  {
    assert [Action(binding)][1..] == [];
    assert Deliver(keymap, [], []) == ([], []);
    assert [Executed(binding, Keys(events), keymap)] + [] == [Executed(binding, Keys(events), keymap)];
  }

  /** `events` became `left` and `out`, and every key event is in one of them. */
  predicate Delivered(events: seq<Queued>, left: seq<Queued>, out: seq<Delivery>) {
    AllGenuine(out) && AllDisposed(out) + Keys(left) == Keys(events)
  }

  /** What delivering the outcome of a timeout does. */
  lemma ExpireDelivers(driver: Driver, now: U64)
    requires InStep(driver)
    ensures var (buffered, emissions) := Expire(driver.keymap, driver.buffered, now);
            var (left, out) := Deliver(driver.keymap, Dispatches(emissions), driver.events);
            Tokenised(left) && Flat(left) == buffered.tokens && Delivered(driver.events, left, out)
  {
    var events, tokens := driver.events, driver.buffered.tokens;
    var emissions := Expire(driver.keymap, driver.buffered, now).1;
    if !Due(driver.keymap, driver.buffered, now) {
      assert [] + Keys(events) == Keys(events);
    } else if tokens in driver.keymap.executable {
      var binding := driver.keymap.executable[tokens];
      assert Dispatches(emissions) == [Action(binding)];
      Executes(driver.keymap, events, binding);
    } else {
      ReturnsAreReplays(tokens);
      ReplayedAll(driver.keymap, events);
      UnboundsDispose(events);
    }
  }

  lemma Executes(keymap: Keymap, events: seq<Queued>, binding: Binding)
    requires Tokenised(events) && Flat(events) in keymap.executable && keymap.executable[Flat(events)] == binding
    ensures var (left, out) := Deliver(keymap, [Action(binding)], events);
            left == [] && Delivered(events, left, out)
  {
    ExecutedAll(keymap, events, binding);
    TokensOfKeys(events);
    DisposedOne(Executed(binding, Keys(events), keymap));
  }

  /** `events` was queued; delivering `emissions` leaves events whose tokens are `held`, and loses none. */
  ghost predicate Delivers(keymap: Keymap, held: seq<Token>, emissions: seq<Emission>, events: seq<Queued>) {
    var (left, out) := Deliver(keymap, Dispatches(emissions), events);
    Tokenised(left) && Flat(left) == held && Delivered(events, left, out)
  }

  /** The first judgement of a token run: hold it, fire it, or replay it if no earlier event is pending. */
  lemma AbsorbOnceDelivers(keymap: Keymap, queue: seq<Queued>)
    requires Tokenised(queue)
    ensures Extends(keymap, Flat(queue)) ==> Delivers(keymap, Flat(queue), [], queue)
    ensures Flat(queue) in keymap.executable ==>
              Delivers(keymap, [], [Fired(Flat(queue), keymap.executable[Flat(queue)])], queue)
    ensures Delivers(keymap, [], Returns(Flat(queue)), queue)
  {
    var all := Flat(queue);
    assert [] + Keys(queue) == Keys(queue);
    if all in keymap.executable {
      var binding := keymap.executable[all];
      assert Dispatches([Fired(all, binding)]) == [Action(binding)];
      Executes(keymap, queue, binding);
    }
    ReturnsAreReplays(all);
    ReplayedAll(keymap, queue);
    UnboundsDispose(queue);
    assert Keys(queue) + [] == Keys(queue);
  }

  /** The pending events are replayed whole before whatever the new event brings. */
  lemma ReplayThenDelivers(
    keymap: Keymap, events: seq<Queued>, event: Queued, held: seq<Token>, emissions: seq<Emission>)
    requires Tokenised(events) && Delivers(keymap, held, emissions, [event])
    ensures Delivers(keymap, held, Returns(Flat(events)) + emissions, events + [event])
  {
    hide Deliver, Dispatches, KeyTokens, Flat, AllDisposed;
    var (left, out) := Deliver(keymap, Dispatches(emissions), [event]);
    DispatchesConcat(Returns(Flat(events)), emissions);
    ReturnsAreReplays(Flat(events));
    ReplayedEvents(keymap, events, [event], Dispatches(emissions));
    UnboundsDispose(events);
    AllDisposedConcat(Unbounds(events), out);
    assert Keys(events + [event]) == Keys(events) + Keys([event]);
    assert (Keys(events) + AllDisposed(out)) + Keys(left) == Keys(events) + (AllDisposed(out) + Keys(left));
  }

  /** What delivering the outcome of one more event does, the event being already queued. */
  lemma AbsorbDelivers(keymap: Keymap, events: seq<Queued>, event: Queued)
    requires Tokenised(events) && Tokenised([event])
    ensures var (held, emissions) := Absorb(keymap, Flat(events), event.tokens);
            Delivers(keymap, held, emissions, events + [event])
  {
    FlatConcat(events, [event]);
    FlatOne(event);
    assert [] + event.tokens == event.tokens;
    AbsorbOnceDelivers(keymap, events + [event]);
    AbsorbOnceDelivers(keymap, [event]);
    if !Extends(keymap, Flat(events + [event])) && Flat(events + [event]) !in keymap.executable && Flat(events) != [] {
      var (held, emissions) := Absorb(keymap, [], event.tokens);
      ReplayThenDelivers(keymap, events, event, held, emissions);
    }
  }

  // ----- steps and runs -----

  datatype Input = Key(key: KeyEvent, first: Reading, second: Reading) | Ticked(reading: Reading) | CancelNow

  function Step(driver: Driver, input: Input): Driver {
    match input
    case Key(key, first, second) => HandleKey(driver, key, first, second)
    case Ticked(reading) => Tick(driver, reading)
    case CancelNow => Cancel(driver)
  }

  function Run(driver: Driver, inputs: seq<Input>): Driver
    decreases |inputs|
  {
    if inputs == [] then driver else Run(Step(driver, inputs[0]), inputs[1..])
  }

  function Pressed(inputs: seq<Input>): seq<KeyEvent> {
    if inputs == [] then []
    else (if inputs[0].Key? then Counted(inputs[0].key) else []) + Pressed(inputs[1..])
  }

  /** Every key event so far, in order: those disposed of, then those still queued. */
  function Accounted(driver: Driver): seq<KeyEvent> {
    AllDisposed(driver.delivered) + Keys(driver.events)
  }

  predicate Healthy(driver: Driver) {
    InStep(driver) && AllGenuine(driver.delivered)
  }

  lemma AppendDelivered(before: Driver, after: Driver, events: seq<Queued>, out: seq<Delivery>)
    requires AllGenuine(before.delivered) && Delivered(events, after.events, out)
    requires after.delivered == before.delivered + out
    ensures AllGenuine(after.delivered)
    ensures Accounted(after) == AllDisposed(before.delivered) + Keys(events)
  {
    AllDisposedConcat(before.delivered, out);
    assert Accounted(after) == AllDisposed(before.delivered) + (AllDisposed(out) + Keys(after.events));
  }

  lemma CancelAccounts(driver: Driver)
    requires Healthy(driver)
    ensures Healthy(Cancel(driver)) && Accounted(Cancel(driver)) == Accounted(driver)
    ensures Cancel(driver).events == []
  {
    DisposedOne(Cancelled(Keys(driver.events)));
    AppendDelivered(driver, Cancel(driver), driver.events, [Cancelled(Keys(driver.events))]);
  }

  lemma SyncAccounts(driver: Driver, reading: Reading)
    requires Healthy(driver)
    ensures Healthy(Sync(driver, reading)) && Accounted(Sync(driver, reading)) == Accounted(driver)
  {
    CancelAccounts(driver);
  }

  lemma ExpireAccounts(driver: Driver, now: U64)
    requires Healthy(driver)
    ensures Healthy(ExpireNow(driver, now)) && Accounted(ExpireNow(driver, now)) == Accounted(driver)
  {
    var (buffered, emissions) := Expire(driver.keymap, driver.buffered, now);
    var (left, out) := Deliver(driver.keymap, Dispatches(emissions), driver.events);
    ExpireDelivers(driver, now);
    AppendDelivered(driver, ExpireNow(driver, now), driver.events, out);
  }

  lemma KeysSnoc(events: seq<Queued>, event: Queued)
    ensures Keys(events + [event]) == Keys(events) + [event.key]
  {
  }

  lemma FeedBeforeDeadline(keymap: Keymap, buffered: Buffered, tokens: seq<Token>, now: U64)
    requires !Due(keymap, buffered, now)
    ensures var (held, emissions) := Absorb(keymap, buffered.tokens, tokens);
            Feed(keymap, buffered, tokens, now) == (Buffered(held, now), emissions)
  {
    ExpireActsIffDue(keymap, buffered, now);
    var emissions := Absorb(keymap, buffered.tokens, tokens).1;
    assert [] + emissions == emissions;
  }

  lemma AcceptDelivers(driver: Driver, key: KeyEvent, now: U64)
    requires InStep(driver) && KeyTokens(key) != [] && !Due(driver.keymap, driver.buffered, now)
    ensures var event := Queued(key, KeyTokens(key));
            var (held, emissions) := Absorb(driver.keymap, driver.buffered.tokens, event.tokens);
            var (left, out) := Deliver(driver.keymap, Dispatches(emissions), driver.events + [event]);
            && Accept(driver, key, now) ==
               driver.(buffered := Buffered(held, now), events := left, delivered := driver.delivered + out)
            && Tokenised(left) && Flat(left) == held && Delivered(driver.events + [event], left, out)
  {
    var event := Queued(key, KeyTokens(key));
    FeedBeforeDeadline(driver.keymap, driver.buffered, event.tokens, now);
    AbsorbDelivers(driver.keymap, driver.events, event);
  }

  lemma AcceptAccounts(driver: Driver, key: KeyEvent, now: U64)
    requires Healthy(driver) && KeyTokens(key) != [] && !Due(driver.keymap, driver.buffered, now)
    ensures Healthy(Accept(driver, key, now)) && Accounted(Accept(driver, key, now)) == Accounted(driver) + [key]
  {
    var event := Queued(key, KeyTokens(key));
    var next := Accept(driver, key, now);
    AcceptDelivers(driver, key, now);
    var out := next.delivered[|driver.delivered|..];
    AppendDelivered(driver, next, driver.events + [event], out);
    KeysSnoc(driver.events, event);
    Associative(AllDisposed(driver.delivered), Keys(driver.events), [key]);
  }

  lemma UnboundAccounts(driver: Driver, key: KeyEvent)
    requires Healthy(driver) && (driver.events == [] || KeyTokens(key) == [])
    ensures var next := driver.(delivered := driver.delivered + [Unbound(key)]);
            Healthy(next) && Accounted(next) == Accounted(driver) + Counted(key)
  {
    hide AllDisposed, KeyTokens, Flat;
    DisposedOne(Unbound(key));
    AllDisposedConcat(driver.delivered, [Unbound(key)]);
    if driver.events == [] {
      assert Keys(driver.events) == [];
    }
  }

  /** A key event counts when it has tokens; the others are handed over at once, ahead of whatever is queued. */
  function Counted(key: KeyEvent): seq<KeyEvent> {
    if KeyTokens(key) == [] then [] else [key]
  }

  lemma {:induction false} KeyAccounts(driver: Driver, key: KeyEvent, first: Reading, second: Reading)
    requires Healthy(driver)
    ensures Healthy(HandleKey(driver, key, first, second))
    ensures Accounted(HandleKey(driver, key, first, second)) == Accounted(driver) + Counted(key)
    decreases |driver.buffered.tokens|
  {
    var synced := Sync(driver, first);
    SyncAccounts(driver, first);
    if first.bypass {
      CancelAccounts(synced);
      UnboundAccounts(Cancel(synced), key);
    } else if KeyTokens(key) == [] {
      UnboundAccounts(synced, key);
    } else if Due(synced.keymap, synced.buffered, first.now) {
      ExpireActsIffDue(synced.keymap, synced.buffered, first.now);
      ExpireAccounts(synced, first.now);
      KeyAccounts(ExpireNow(synced, first.now), key, second, second);
    } else {
      AcceptAccounts(synced, key, first.now);
    }
  }

  lemma StepAccounts(driver: Driver, input: Input)
    requires Healthy(driver)
    ensures Healthy(Step(driver, input))
    ensures Accounted(Step(driver, input)) == Accounted(driver) + (if input.Key? then Counted(input.key) else [])
  {
    match input
    case Key(key, first, second) => KeyAccounts(driver, key, first, second);
    case Ticked(reading) =>
      SyncAccounts(driver, reading);
      ExpireAccounts(Sync(driver, reading), reading.now);
    case CancelNow => CancelAccounts(driver);
  }

  /**
   * After any run of keys, ticks and cancels, with the keymap changing in between: the queue holds exactly the events
   * whose tokens are pending; every key event with tokens has been disposed of once, in order, or is still queued; no
   * key was synthesised; and each binding that ran is the one bound to the tokens of the events it absorbed.
   */
  lemma {:induction false} ExactlyOnceDelivery(driver: Driver, inputs: seq<Input>)
    requires Healthy(driver)
    ensures Healthy(Run(driver, inputs))
    ensures Accounted(Run(driver, inputs)) == Accounted(driver) + Pressed(inputs)
    decreases |inputs|
  {
    if inputs == [] {
      assert Accounted(driver) + [] == Accounted(driver);
    } else {
      var next := Step(driver, inputs[0]);
      StepAccounts(driver, inputs[0]);
      ExactlyOnceDelivery(next, inputs[1..]);
      var counted := if inputs[0].Key? then Counted(inputs[0].key) else [];
      Associative(Accounted(driver), counted, Pressed(inputs[1..]));
    }
  }
}
