/**
 * The key-event queue kept in step with the matcher: `handle_key`, `dispatch_bindings`, `tick_bindings`,
 * `cancel_bindings`, `key_tokens` and `token_key` of src/app/bindings.rs.
 *
 * `handle_key_unbound` and `execute_binding` are sinks: what reaches them is appended to `delivered`, in order.
 */
module NativeBinding {
  import opened Wrappers
  import opened Text
  import opened KeyNames
  import opened Matcher
  import opened MatcherRuns
  import opened Seqs

  datatype KeyCode =
    | Char(ch: char) | Esc | Enter | Tab | BackTab | Left | Right | Up | Down | Home | End
    | PageUp | PageDown | Backspace | Delete | F(number: nat) | OtherKey
  datatype Modifier = Control | Alt | Shift
  datatype KeyEvent = KeyEvent(code: KeyCode, modifiers: set<Modifier>)

  function Digits(n: nat): string {
    if n < 10 then [('0' as int + n) as char] else Digits(n / 10) + Digits(n % 10)
  }

  function KeyName(key: KeyEvent): Option<string> {
    match key.code
    case Char(ch) => Some(if Control in key.modifiers then ['^', ToAsciiUpper(ch)] else [ch])
    case Esc => Some("^[")
    case Enter => Some("^M")
    case Tab => Some("^I")
    case BackTab => Some("stab")
    case Left => Some("left")
    case Right => Some("right")
    case Up => Some("up")
    case Down => Some("down")
    case Home => Some("home")
    case End => Some("end")
    case PageUp => Some("prior")
    case PageDown => Some("next")
    case Backspace => Some("backspace")
    case Delete => Some("delete")
    case F(number) => Some("f" + Digits(number))
    case OtherKey => None
  }

  function KeyTokens(key: KeyEvent): seq<Token> {
    match KeyName(key)
    case None => []
    case Some(name) => (if Alt in key.modifiers then [ESCAPE] else []) + TerminalTokens(name)
  }

  /** A key event for a token that no queued event accounts for. */
  function TokenKey(token: Token): Option<KeyEvent> {
    match token
    case "^[" => Some(KeyEvent(Esc, {}))
    case "^M" => Some(KeyEvent(Enter, {}))
    case "^I" => Some(KeyEvent(Tab, {}))
    case "left" => Some(KeyEvent(Left, {}))
    case "right" => Some(KeyEvent(Right, {}))
    case "up" => Some(KeyEvent(Up, {}))
    case "down" => Some(KeyEvent(Down, {}))
    case "home" => Some(KeyEvent(Home, {}))
    case "end" => Some(KeyEvent(End, {}))
    case "prior" => Some(KeyEvent(PageUp, {}))
    case "next" => Some(KeyEvent(PageDown, {}))
    case "backspace" => Some(KeyEvent(Backspace, {}))
    case "delete" => Some(KeyEvent(Delete, {}))
    case "stab" => Some(KeyEvent(BackTab, {}))
    case _ =>
      if |token| == 2 && token[0] == '^' && token[1] < '\U{80}' then
        Some(KeyEvent(Char(ToAsciiLower(token[1])), {Control}))
      else if |token| == 1 then Some(KeyEvent(Char(token[0]), {}))
      else None
  }

  datatype Queued = Queued(key: KeyEvent, tokens: seq<Token>)

  /** What the sinks receive, and which key events each delivery accounts for. */
  datatype Delivery =
    | Unbound(key: KeyEvent)
    | Executed(binding: Binding, absorbed: seq<KeyEvent>, under: Keymap)
    | Cancelled(keys: seq<KeyEvent>)
    | Synthesised(key: KeyEvent)

  function Keys(events: seq<Queued>): (r: seq<KeyEvent>)
    ensures |r| == |events|
  {
    seq(|events|, i requires 0 <= i < |events| => events[i].key)
  }

  function Flat(events: seq<Queued>): seq<Token> {
    if events == [] then [] else events[0].tokens + Flat(events[1..])
  }

  /** The guard of `dispatch_bindings`: the front event starts with this token and the rest of it is replayed next. */
  predicate WholeEventReplayed(events: seq<Queued>, token: Token, rest: seq<Dispatch>) {
    && events != []
    && var tokens := events[0].tokens;
       && tokens != [] && tokens[0] == token
       && |rest| >= |tokens| - 1
       && forall i | 0 <= i < |tokens| - 1 :: rest[i] == Replay(tokens[i + 1])
  }

  /** `dispatch_bindings`: the events left in the queue and what was delivered. */
  function Deliver(keymap: Keymap, actions: seq<Dispatch>, events: seq<Queued>): (seq<Queued>, seq<Delivery>)
    decreases |actions|
  {
    if actions == [] then (events, [])
    else match actions[0]
      case Replay(token) =>
        if WholeEventReplayed(events, token, actions[1..]) then
          var (left, rest) := Deliver(keymap, actions[|events[0].tokens|..], events[1..]);
          (left, [Unbound(events[0].key)] + rest)
        else
          var (left, rest) := Deliver(keymap, actions[1..], events);
          (left, (match TokenKey(token) case Some(key) => [Synthesised(key)] case None => []) + rest)
      case Action(binding) =>
        var (left, rest) := Deliver(keymap, actions[1..], []);
        (left, [Executed(binding, Keys(events), keymap)] + rest)
  }

  // ----- the driver, as a value -----

  datatype Driver = Driver(keymap: Keymap, buffered: Buffered, events: seq<Queued>, delivered: seq<Delivery>)

  /**
   * What `handle_key` reads from the rest of the application on one attempt: the clock, a keymap to switch to (the
   * configuration, shell state or active buffer changed, so the queue is cancelled first), and whether the key goes
   * past the bindings (command modifiers, modal panels, escape with something to close).
   */
  datatype Reading = Reading(now: U64, resync: Option<Keymap>, bypass: bool)

  function Dispatched(driver: Driver, emissions: seq<Emission>): Driver {
    var (left, out) := Deliver(driver.keymap, Dispatches(emissions), driver.events);
    driver.(events := left, delivered := driver.delivered + out)
  }

  function Cancel(driver: Driver): Driver {
    driver.(
      buffered := driver.buffered.(tokens := []), events := [],
      delivered := driver.delivered + [Cancelled(Keys(driver.events))])
  }

  function Sync(driver: Driver, reading: Reading): Driver {
    match reading.resync
    case None => driver
    case Some(keymap) => Cancel(driver).(keymap := keymap)
  }

  function ExpireNow(driver: Driver, now: U64): Driver {
    var (buffered, out) := Expire(driver.keymap, driver.buffered, now);
    Dispatched(driver.(buffered := buffered), out)
  }

  function Accept(driver: Driver, key: KeyEvent, now: U64): Driver {
    var (buffered, out) := Feed(driver.keymap, driver.buffered, KeyTokens(key), now);
    Dispatched(driver.(buffered := buffered, events := driver.events + [Queued(key, KeyTokens(key))]), out)
  }

  /** `handle_key`. When a timeout is due it is dealt with first and the key is handled afresh, on a second reading. */
  function HandleKey(driver: Driver, key: KeyEvent, first: Reading, second: Reading): Driver
    decreases |driver.buffered.tokens|
  {
    var synced := Sync(driver, first);
    if first.bypass then
      var cancelled := Cancel(synced);
      cancelled.(delivered := cancelled.delivered + [Unbound(key)])
    else if KeyTokens(key) == [] then synced.(delivered := synced.delivered + [Unbound(key)])
    else if Due(synced.keymap, synced.buffered, first.now) then
      HandleKey(ExpireNow(synced, first.now), key, second, second)
    else Accept(synced, key, first.now)
  }

  /** `tick_bindings`. */
  function Tick(driver: Driver, reading: Reading): Driver {
    var synced := Sync(driver, reading);
    if reading.bypass then synced else ExpireNow(synced, reading.now)
  }

  // ----- the source's struct -----

  class NativeBindings {
    var keymap: Keymap
    var sequence: Sequence
    var events: seq<Queued>
    var delivered: seq<Delivery>

    function Value(): Driver
      reads this, sequence
    {
      Driver(keymap, sequence.State(), events, delivered)
    }

    constructor (keymap: Keymap)
      ensures Value() == Driver(keymap, Buffered([], 0), [], []) && fresh(sequence)
    {
      this.keymap := keymap;
      sequence := new Sequence();
      events, delivered := [], [];
    }

    method DispatchBindings(actions: seq<Dispatch>)
      modifies this`events, this`delivered
      ensures (events, delivered) ==
              (var (left, out) := Deliver(keymap, actions, old(events)); (left, old(delivered) + out))
    {
      hide Keys, KeyTokens;
      var rest := actions;
      ghost var out := Deliver(keymap, actions, events);
      assert delivered + out.1 == old(delivered) + out.1;
      while rest != []
        invariant Deliver(keymap, rest, events).0 == out.0
        invariant delivered + Deliver(keymap, rest, events).1 == old(delivered) + out.1
        decreases |rest|
      {
        var action := rest[0];
        ghost var before := delivered;
        match action {
          case Replay(token) =>
            if WholeEventReplayed(events, token, rest[1..]) {
              var key, n := events[0].key, |events[0].tokens|;
              rest := rest[n..];
              events := events[1..];
              delivered := delivered + [Unbound(key)];
              Associative(before, [Unbound(key)], Deliver(keymap, rest, events).1);
            } else {
              rest := rest[1..];
              var key := TokenKey(token);
              if key.Some? {
                delivered := delivered + [Synthesised(key.value)];
              }
              ghost var made: seq<Delivery> := if key.Some? then [Synthesised(key.value)] else [];
              assert delivered == before + made;
              Associative(before, made, Deliver(keymap, rest, events).1);
            }
          case Action(binding) =>
            delivered := delivered + [Executed(binding, Keys(events), keymap)];
            rest := rest[1..];
            Associative(before, [Executed(binding, Keys(events), keymap)], Deliver(keymap, rest, []).1);
            events := [];
        }
      }
      assert delivered + [] == delivered;
    }

    method CancelBindings()
      modifies this`events, this`delivered, sequence
      ensures Value() == Cancel(old(Value()))
    {
      sequence.Clear();
      delivered := delivered + [Cancelled(Keys(events))];
      events := [];
    }

    method SyncBindings(reading: Reading)
      modifies this`events, this`delivered, this`keymap, sequence
      ensures Value() == Sync(old(Value()), reading)
    {
      if reading.resync.Some? {
        CancelBindings();
        keymap := reading.resync.value;
      }
    }

    method HandleKeyEvent(key: KeyEvent, first: Reading, second: Reading)
      modifies this`events, this`delivered, this`keymap, sequence
      ensures Value() == HandleKey(old(Value()), key, first, second)
      decreases |sequence.pending|
    {
      SyncBindings(first);
      if first.bypass {
        CancelBindings();
        delivered := delivered + [Unbound(key)];
        return;
      }
      var tokens := KeyTokens(key);
      if tokens == [] {
        delivered := delivered + [Unbound(key)];
        return;
      }
      ghost var synced := Value();
      ExpireActsIffDue(keymap, synced.buffered, first.now);
      var expired := sequence.ExpireAt(keymap, first.now);
      if expired != [] {
        DispatchBindings(expired);
        HandleKeyEvent(key, second, second);
        return;
      }
      events := events + [Queued(key, tokens)];
      var actions := sequence.FeedEvent(keymap, tokens, first.now);
      DispatchBindings(actions);
    }

    method TickBindings(reading: Reading)
      modifies this`events, this`delivered, this`keymap, sequence
      ensures Value() == Tick(old(Value()), reading)
    {
      SyncBindings(reading);
      if reading.bypass {
        return;
      }
      var actions := sequence.ExpireAt(keymap, reading.now);
      DispatchBindings(actions);
    }
  }
}
