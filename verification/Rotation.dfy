/**
 * Key rotation over whole runs: `/e2e rotate` and `/e2e revoke` mark a context, and whichever of the two key getters
 * runs next replaces the key. The retired key is never used again; but the new key is handed out to the known
 * recipients only when it is the sending getter that runs first.
 */
module Rotation {
  import opened Wrappers
  import opened Utf8
  import opened Cryptos
  import opened Wires
  import opened Handshakes
  import opened Keyrings
  import opened KeyringRuns
  import opened Gates
  import opened Agreement

  datatype Action =
    /** A message arrives, or `/e2e handshake` sends a request. */
    | Receives(event: Event)
    /** The gate, or the input hook, sends a body under a context it has chosen. */
    | Says(ctx: string, body: string, out: Outside)
    /** `/e2e accept` of a request that was held. */
    | Accepts(ctx: string, sender: string, pub: Bytes, eph: Bytes, rnd: Randoms)
    /** `/e2e rotate`. */
    | Marks(ctx: string)
    /** `/e2e revoke`, as far as the outgoing side goes. */
    | Revokes(ctx: string, handle: string)

  function Marked(ring: Keyring, ctx: string): Keyring {
    if ctx in ring.outgoing then
      ring.(outgoing := ring.outgoing[ctx := ring.outgoing[ctx].(pendingRotation := true)])
    else ring
  }

  function Act(c: Crypto, ring: Keyring, action: Action): Keyring {
    match action
    case Receives(event) => Step(c, ring, event)
    case Says(ctx, body, out) => SendUnder(c, ring, ctx, body, out).ring
    case Accepts(ctx, sender, pub, eph, rnd) => BuildKeyrsp(c, ring, ctx, sender, pub, eph, rnd).0
    case Marks(ctx) => Marked(ring, ctx)
    case Revokes(ctx, handle) => Marked(ring.(recipients := ring.recipients - {(ctx, handle)}), ctx)
  }

  function ActAll(c: Crypto, ring: Keyring, actions: seq<Action>): Keyring
    decreases |actions|
  {
    if actions == [] then ring else ActAll(c, Act(c, ring, actions[0]), actions[1..])
  }

  /** The random key the action would use if it has to make one. */
  function SpareKey(action: Action): Option<Bytes> {
    match action
    case Receives(GotKeyreq(at, body)) => Some(at.rnd.outgoingKey)
    case Receives(_) => None
    case Says(ctx, body, out) => Some(out.spareKey)
    case Accepts(ctx, sender, pub, eph, rnd) => Some(rnd.outgoingKey)
    case Marks(ctx) => None
    case Revokes(ctx, handle) => None
  }

  /** `ctx` was marked while it held this key, or has another key by now. */
  predicate Retired(ring: Keyring, ctx: string, key: Bytes) {
    ctx in ring.outgoing && (ring.outgoing[ctx].pendingRotation || ring.outgoing[ctx].sk != key)
  }

  // ----- the outgoing table -----

  predicate SetsKey(ring: Keyring, next: Keyring, ctx: string, key: Bytes) {
    && (ctx in ring.outgoing ==> ring.outgoing[ctx].pendingRotation)
    && next.outgoing == ring.outgoing[ctx := OutgoingKey(key, false)]
  }

  /** The table is as before, or one context that had no usable key got this one. */
  ghost predicate MayKey(ring: Keyring, next: Keyring, key: Bytes) {
    SameKeys(ring, next) || exists ctx :: SetsKey(ring, next, ctx, key)
  }

  lemma KeyrspKeys(c: Crypto, ring: Keyring, ctx: string, sender: string, pub: Bytes, eph: Bytes, rnd: Randoms)
    ensures MayKey(ring, BuildKeyrsp(c, ring, ctx, sender, pub, eph, rnd).0, rnd.outgoingKey)
  {
    hide WrapKey, WrappedBody;
    var next := BuildKeyrsp(c, ring, ctx, sender, pub, eph, rnd).0;
    assert SameKeys(ring, next) || SetsKey(ring, next, ctx, rnd.outgoingKey);
  }

  lemma GetterKeys(ring: Keyring, ctx: string, spare: Bytes)
    ensures MayKey(ring, ring, spare) && MayKey(ring, GetOutgoingKeyRotating(ring, ctx, spare).0, spare)
  {
    var next := GetOutgoingKeyRotating(ring, ctx, spare).0;
    assert SameKeys(ring, next) || SetsKey(ring, next, ctx, spare);
  }

  lemma SendKeys(c: Crypto, ring: Keyring, ctx: string, body: string, out: Outside)
    ensures MayKey(ring, SendUnder(c, ring, ctx, body, out).ring, out.spareKey)
  {
    hide Encrypt, DistributeRekey, GetOutgoingKeyRotating, MayKey;
    GetterKeys(ring, ctx, out.spareKey);
  }

  lemma KeyreqKeys(c: Crypto, ring: Keyring, at: Arrival, body: string)
    ensures MayKey(ring, HandleKeyreq(c, ring, at, body).ring, at.rnd.outgoingKey)
  {
    hide HandleKeyreq, BuildKeyrsp;
    if HandleKeyreq(c, ring, at, body).response.Some? {
      var ready, req := HandlerAnswers(c, ring, at, body);
      KeyrspKeys(c, ready, req.channel, at.sender, req.pub, req.eph, at.rnd);
      SameKeysBefore(ring, ready, BuildKeyrsp(c, ready, req.channel, at.sender, req.pub, req.eph, at.rnd).0,
                     HandleKeyreq(c, ring, at, body).ring, at.rnd.outgoingKey);
    } else {
      UnansweredKeepsKeys(c, ring, at, body);
    }
  }

  lemma SameKeysBefore(ring: Keyring, ready: Keyring, answered: Keyring, next: Keyring, key: Bytes)
    requires SameKeys(ring, ready) && MayKey(ready, answered, key) && SameKeys(answered, next)
    ensures MayKey(ring, next, key)
  {
    if !SameKeys(ready, answered) {
      var ctx :| SetsKey(ready, answered, ctx, key);
      assert SetsKey(ring, next, ctx, key);
    }
  }

  lemma UnansweredKeepsKeys(c: Crypto, ring: Keyring, at: Arrival, body: string)
    requires HandleKeyreq(c, ring, at, body).response.None?
    ensures SameKeys(ring, HandleKeyreq(c, ring, at, body).ring)
  {
    hide JudgeKeyreq, ParseKeyreq, KeyreqPayload;
    if ParseKeyreq(body).Some? {
      var req := ParseKeyreq(body).value;
      var limited := AllowIncoming(ring, at.sender, at.now).0;
      if req.channel in limited.channels {
        RefusedKeepsKeys(c, limited, at, req);
      }
    }
  }

  lemma RefusedKeepsKeys(c: Crypto, ring: Keyring, at: Arrival, req: Keyreq)
    requires req.channel in ring.channels
    ensures JudgeKeyreq(c, ring, at, req).response.None? ==> SameKeys(ring, JudgeKeyreq(c, ring, at, req).ring)
  {
    hide BuildKeyrsp, Reciprocal, Classify, IsTrusted, Zeros;
  }

  lemma InstallKeepsKeys(ring: Keyring, sender: string, ctx: string, fp: Bytes, sk: Bytes)
    ensures SameKeys(ring, Install(ring, sender, ctx, fp, sk).0)
  {
    hide NoteChange, SameKeys;
    NoteKeepsKeys(ring, sender, ctx, FingerprintChanged);
    SessionKeepsKeys(ring, sender, ctx, Session(fp, sk, Trusted));
  }

  lemma SessionKeepsKeys(ring: Keyring, sender: string, ctx: string, session: Session)
    ensures SameKeys(ring, ring.(incoming := ring.incoming[(sender, ctx) := session]))
  {
  }

  lemma AcceptKeepsKeys(c: Crypto, ring: Keyring, sender: string, m: Wrapped, sk: Bytes)
    ensures SameKeys(ring, AcceptKeyrsp(c, ring, sender, m, sk).0)
  {
    hide Classify, Install;
    InstallKeepsKeys(ring, sender, m.channel, c.fingerprint(m.pub), sk);
  }

  lemma AnsweredKeepsKeys(c: Crypto, ring: Keyring, key: string, sender: string, m: Wrapped)
    ensures SameKeys(ring, ring.(pending := ring.pending - {key}))
    ensures forall sk :: SameKeys(ring, AcceptKeyrsp(c, ring.(pending := ring.pending - {key}), sender, m, sk).0)
  {
    hide AcceptKeyrsp;
    var used := ring.(pending := ring.pending - {key});
    forall sk
      ensures SameKeys(ring, AcceptKeyrsp(c, used, sender, m, sk).0)
    {
      AcceptKeepsKeys(c, used, sender, m, sk);
    }
  }

  lemma KeyrspHandlerKeepsKeys(c: Crypto, ring: Keyring, sender: string, body: string)
    ensures SameKeys(ring, HandleKeyrsp(c, ring, sender, body).0)
  {
    hide ParseWrapped, WrappedVerifies, AnsweredKeyreq, UnwrapKey, AcceptKeyrsp, SameKeys;
    var m := ParseWrapped("KEYRSP", body);
    var key := if m.Some? then AnsweredKeyreq(ring, m.value.channel, sender) else None;
    if key.Some? {
      AnsweredKeepsKeys(c, ring, key.value, sender, m.value);
    }
    SameKeysSelf(ring);
  }

  lemma RekeyHandlerKeepsKeys(c: Crypto, ring: Keyring, sender: string, body: string)
    ensures SameKeys(ring, HandleRekey(c, ring, sender, body).0)
  {
    hide ParseWrapped, WrappedVerifies, UnwrapKey, Classify, Install, NoteChange, SameKeys;
    if ParseWrapped("REKEY", body).Some? {
      var m := ParseWrapped("REKEY", body).value;
      var fp := c.fingerprint(m.pub);
      NoteKeepsKeys(ring, sender, m.channel, Classify(ring, fp, sender));
      forall sk
        ensures SameKeys(ring, Install(ring, sender, m.channel, fp, sk).0)
      {
        InstallKeepsKeys(ring, sender, m.channel, fp, sk);
      }
    }
    SameKeysSelf(ring);
  }

  lemma SameKeysSelf(ring: Keyring)
    ensures SameKeys(ring, ring)
  {
  }

  lemma NoteKeepsKeys(ring: Keyring, handle: string, ctx: string, change: Change)
    ensures SameKeys(ring, NoteChange(ring, handle, ctx, change))
  {
  }

  lemma WireKeepsKeys(
    c: Crypto, ring: Keyring, handle: string, target: string, own: string, w: Wire, rnd: Randoms, now: real)
    ensures SameKeys(ring, HandleWire(c, ring, handle, target, own, w, rnd, now).0)
  {
    hide BuildKeyreq, IsTrusted, ContextsOf, ChooseContext, OpenWire, AllowOutgoingKeyreq;
    var contexts := ContextsOf(target, own);
    if contexts != [] {
      AskingKeepsKeys(c, ring, ChooseContext(ring, handle, contexts), handle, rnd, now);
    }
  }

  lemma EventKeys(c: Crypto, ring: Keyring, e: Event)
    ensures if e.GotKeyreq? then MayKey(ring, Step(c, ring, e), e.at.rnd.outgoingKey)
            else SameKeys(ring, Step(c, ring, e))
  {
    hide BuildKeyreq, HandleKeyreq, HandleKeyrsp, HandleRekey, HandleWire, MayKey, SameKeys;
    match e
    case GotKeyreq(at, body) => KeyreqKeys(c, ring, at, body);
    case GotKeyrsp(sender, body) => KeyrspHandlerKeepsKeys(c, ring, sender, body);
    case GotRekey(sender, body) => RekeyHandlerKeepsKeys(c, ring, sender, body);
    case GotWire(handle, target, own, wire, rnd, now) => WireKeepsKeys(c, ring, handle, target, own, wire, rnd, now);
    case SentKeyreq(channel, handle, rnd, sentAt) =>
      RequestKeepsKeys(c, ring, channel, handle, rnd, sentAt);
      SameKeysSelf(ring);
  }

  lemma RequestKeepsKeys(c: Crypto, ring: Keyring, channel: string, handle: string, rnd: Randoms, now: int)
    ensures var sent := BuildKeyreq(c, ring, channel, handle, rnd, now); sent.Some? ==> SameKeys(ring, sent.value.0)
  {
    hide BuildKeyreq;
    if BuildKeyreq(c, ring, channel, handle, rnd, now).Some? {
      RequestIsStored(c, ring, channel, handle, rnd, now);
    }
  }

  lemma ActKeys(c: Crypto, ring: Keyring, action: Action)
    requires !action.Marks? && !action.Revokes?
    ensures match SpareKey(action)
            case Some(key) => MayKey(ring, Act(c, ring, action), key)
            case None => SameKeys(ring, Act(c, ring, action))
  {
    hide Step, SendUnder, BuildKeyrsp, MayKey, SameKeys;
    match action
    case Receives(event) => EventKeys(c, ring, event);
    case Says(ctx, body, out) => SendKeys(c, ring, ctx, body, out);
    case Accepts(ctx, sender, pub, eph, rnd) => KeyrspKeys(c, ring, ctx, sender, pub, eph, rnd);
  }

  // ----- the retired key -----

  lemma RetiredStays(c: Crypto, ring: Keyring, action: Action, ctx: string, key: Bytes)
    requires Retired(ring, ctx, key) && SpareKey(action) != Some(key)
    ensures Retired(Act(c, ring, action), ctx, key)
  {
    hide Step, SendUnder, BuildKeyrsp;
    if action.Marks? || action.Revokes? {
      assert action.ctx in ring.outgoing ==>
               Act(c, ring, action).outgoing[action.ctx] == ring.outgoing[action.ctx].(pendingRotation := true);
    } else {
      hide Act;
      ActKeys(c, ring, action);
    }
  }

  lemma {:induction false} RetiredForGood(c: Crypto, ring: Keyring, actions: seq<Action>, ctx: string, key: Bytes)
    requires Retired(ring, ctx, key) && forall a | a in actions :: SpareKey(a) != Some(key)
    ensures Retired(ActAll(c, ring, actions), ctx, key)
    decreases |actions|
  {
    hide Retired, Act, SpareKey;
    if actions != [] {
      RetiredStays(c, ring, actions[0], ctx, key);
      RetiredForGood(c, Act(c, ring, actions[0]), actions[1..], ctx, key);
    }
  }

  /** Everything the action sends that carries a message or a session key of `ctx` is made with this key. */
  ghost predicate MadeWith(c: Crypto, ring: Keyring, action: Action, ctx: string, sk: Bytes) {
    match action
    case Says(said, body, out) => said == ctx ==> SaysWith(c, ring, ctx, body, out, sk)
    case Accepts(answered, sender, pub, eph, rnd) =>
      answered == ctx ==> CarriesKeyrsp(c, ring, ctx, eph, sk, rnd, BuildKeyrsp(c, ring, ctx, sender, pub, eph, rnd).1)
    case Receives(GotKeyreq(at, body)) => RepliesWith(c, ring, at, body, ctx, sk)
    case _ => true
  }

  ghost predicate SaysWith(c: Crypto, ring: Keyring, ctx: string, body: string, out: Outside, sk: Bytes) {
    var sent := SendUnder(c, ring, ctx, body, out);
    && (sent.verdict.Cipher? ==> Encrypt(c, sk, ctx, body, out) == Some(sent.verdict.lines))
    && AllRekeysCarry(c, ring, ctx, sk, out.rekeys, sent.rekeys)
  }

  ghost predicate AllRekeysCarry(
    c: Crypto, ring: Keyring, ctx: string, sk: Bytes, rnd: string -> Randoms, rekeys: map<string, string>)
  {
    forall handle | handle in rekeys ::
      Knows(ring, ctx, handle)
        && rekeys[handle] == BuildRekey(c, ring, ctx, PublicKeyOf(ring, ctx, handle), sk, rnd(handle))
  }

  ghost predicate RepliesWith(c: Crypto, ring: Keyring, at: Arrival, body: string, ctx: string, sk: Bytes) {
    var reply := HandleKeyreq(c, ring, at, body);
    reply.response.Some? ==>
      ParseKeyreq(body).Some? &&
      var req := ParseKeyreq(body).value;
      req.channel == ctx ==> CarriesKeyrsp(c, ring, ctx, req.eph, sk, at.rnd, reply.response.value)
  }

  predicate CarriesKeyrsp(c: Crypto, ring: Keyring, ctx: string, eph: Bytes, sk: Bytes, rnd: Randoms, text: string) {
    text == Frame(WrappedBody("KEYRSP", WrapKey(c, ring.identity, "KEYRSP", ctx, eph, WrapInfo(ctx), sk, rnd)))
  }

  /** A recipient of the context whose identity is known. */
  predicate Knows(ring: Keyring, ctx: string, handle: string) {
    (ctx, handle) in ring.recipients && ring.recipients[(ctx, handle)] in ring.peers
  }

  function PublicKeyOf(ring: Keyring, ctx: string, handle: string): Bytes
    requires Knows(ring, ctx, handle)
  {
    ring.peers[ring.recipients[(ctx, handle)]].pk
  }

  lemma RekeysCarry(c: Crypto, ring: Keyring, keyed: Keyring, ctx: string, sk: Bytes, rnd: string -> Randoms)
    requires keyed == ring.(outgoing := keyed.outgoing)
    ensures AllRekeysCarry(c, ring, ctx, sk, rnd, DistributeRekey(c, keyed, ctx, sk, rnd))
    ensures AllRekeysCarry(c, ring, ctx, sk, rnd, map[])
  {
    hide BuildRekey;
    var rekeys := DistributeRekey(c, keyed, ctx, sk, rnd);
    forall handle | handle in rekeys
      ensures Knows(ring, ctx, handle)
      ensures rekeys[handle] == BuildRekey(c, ring, ctx, PublicKeyOf(ring, ctx, handle), sk, rnd(handle))
    {
      SameRekey(c, ring, keyed, ctx, PublicKeyOf(ring, ctx, handle), sk, rnd(handle));
    }
  }

  /** The two getters hand out the same key and leave the same keyring. */
  lemma GettersAgree(ring: Keyring, ctx: string, spare: Bytes)
    ensures GetOutgoingKeyRotating(ring, ctx, spare).0 == GetOutgoingKey(ring, ctx, spare).0
    ensures GetOutgoingKeyRotating(ring, ctx, spare).1 == GetOutgoingKey(ring, ctx, spare).1
    ensures var keyed := GetOutgoingKeyRotating(ring, ctx, spare).0; keyed == ring.(outgoing := keyed.outgoing)
  {
  }

  /** What the gate does once it has chosen a context that reads as enabled. */
  lemma SentIs(c: Crypto, ring: Keyring, ctx: string, body: string, out: Outside)
    requires out.read(ctx) == Yes
    ensures var sent, (keyed, sk, hadPending) :=
            SendUnder(c, ring, ctx, body, out), GetOutgoingKeyRotating(ring, ctx, out.spareKey);
            && sent.ring == keyed
            && sent.rekeys == (if hadPending then DistributeRekey(c, keyed, ctx, sk, out.rekeys) else map[])
            && (sent.verdict.Cipher? ==> Encrypt(c, sk, ctx, body, out) == Some(sent.verdict.lines))
  {
    hide Encrypt, DistributeRekey, GetOutgoingKeyRotating;
  }

  lemma SaidWith(c: Crypto, ring: Keyring, ctx: string, body: string, out: Outside)
    ensures SaysWith(c, ring, ctx, body, out, GetOutgoingKey(ring, ctx, out.spareKey).1)
  {
    hide Encrypt, DistributeRekey, AllRekeysCarry, GetOutgoingKeyRotating, GetOutgoingKey;
    GettersAgree(ring, ctx, out.spareKey);
    var (keyed, sk, hadPending) := GetOutgoingKeyRotating(ring, ctx, out.spareKey);
    RekeysCarry(c, ring, keyed, ctx, sk, out.rekeys);
    if out.read(ctx) == Yes {
      SentIs(c, ring, ctx, body, out);
      hide SendUnder;
    }
  }

  lemma SameRekey(c: Crypto, ring: Keyring, keyed: Keyring, ctx: string, pk: Bytes, sk: Bytes, rnd: Randoms)
    requires ring.identity == keyed.identity
    ensures BuildRekey(c, keyed, ctx, pk, sk, rnd) == BuildRekey(c, ring, ctx, pk, sk, rnd)
  {
    hide WrapKey, WrappedBody, Frame;
  }

  lemma AcceptedWith(c: Crypto, ring: Keyring, ctx: string, sender: string, pub: Bytes, eph: Bytes, rnd: Randoms)
    ensures CarriesKeyrsp(c, ring, ctx, eph, GetOutgoingKey(ring, ctx, rnd.outgoingKey).1, rnd,
                          BuildKeyrsp(c, ring, ctx, sender, pub, eph, rnd).1)
  {
    hide WrapKey, WrappedBody, Frame;
  }

  /**
   * Once a context is marked, the key it held is never used again: whatever happens next, and whatever is done after
   * that, every message line, KEYRSP and REKEY for the context is made with another key, provided fresh keys differ
   * from it.
   */
  lemma RotatedKeyIsNeverUsed(c: Crypto, ring: Keyring, ctx: string, key: Bytes, actions: seq<Action>, last: Action)
    returns (sk: Bytes)
    requires Retired(ring, ctx, key)
    requires SpareKey(last) != Some(key) && forall a | a in actions :: SpareKey(a) != Some(key)
    ensures sk != key && MadeWith(c, ActAll(c, ring, actions), last, ctx, sk)
  {
    hide Act, ActAll, MadeWith, BuildKeyrsp, HandleKeyreq;
    RetiredForGood(c, ring, actions, ctx, key);
    var now := ActAll(c, ring, actions);
    sk := if SpareKey(last).Some? then GetOutgoingKey(now, ctx, SpareKey(last).value).1 else key + [0];
    LastWith(c, now, last, ctx, sk);
  }

  lemma LastWith(c: Crypto, ring: Keyring, last: Action, ctx: string, sk: Bytes)
    requires SpareKey(last).Some? ==> sk == GetOutgoingKey(ring, ctx, SpareKey(last).value).1
    ensures MadeWith(c, ring, last, ctx, sk)
  {
    hide BuildKeyrsp, SaysWith, RepliesWith, CarriesKeyrsp, GetOutgoingKey;
    match last
    case Says(said, body, out) =>
      if said == ctx {
        SaidWith(c, ring, ctx, body, out);
      }
    case Accepts(answered, sender, pub, eph, rnd) => AcceptedWith(c, ring, ctx, sender, pub, eph, rnd);
    case Receives(GotKeyreq(at, body)) => AnsweredWith(c, ring, at, body, ctx);
    case _ =>
  }

  lemma AnsweredWith(c: Crypto, ring: Keyring, at: Arrival, body: string, ctx: string)
    ensures RepliesWith(c, ring, at, body, ctx, GetOutgoingKey(ring, ctx, at.rnd.outgoingKey).1)
  {
    hide BuildKeyrsp, HandleKeyreq, ParseKeyreq, WrapKey, WrappedBody, Frame;
    if HandleKeyreq(c, ring, at, body).response.Some? {
      var ready, req := HandlerAnswers(c, ring, at, body);
      AcceptedWith(c, ready, req.channel, at.sender, req.pub, req.eph, at.rnd);
    }
  }

  // ----- who is told -----

  predicate Awaits(ring: Keyring, ctx: string) { ctx in ring.outgoing && ring.outgoing[ctx].pendingRotation }

  lemma GetterSettles(ring: Keyring, ctx: string, spare: Bytes)
    ensures var (keyed, sk, hadPending) := GetOutgoingKeyRotating(ring, ctx, spare);
            && Settled(keyed, ctx) && keyed.outgoing[ctx].sk == sk && (hadPending <==> Awaits(ring, ctx))
            && forall handle :: Knows(keyed, ctx, handle) <==> Knows(ring, ctx, handle)
  {
    var keyed := GetOutgoingKeyRotating(ring, ctx, spare).0;
    assert keyed.recipients == ring.recipients && keyed.peers == ring.peers;
    assert keyed == ring || keyed.outgoing == ring.outgoing[ctx := OutgoingKey(spare, false)];
  }

  /**
   * A message sent in an enabled context hands out the key exactly when a rotation is pending: then every known
   * recipient gets a REKEY carrying the key the context now has, and otherwise nobody gets anything.
   */
  lemma RekeysExactly(c: Crypto, ring: Keyring, ctx: string, body: string, out: Outside)
    requires out.read(ctx) == Yes
    ensures var sent := SendUnder(c, ring, ctx, body, out);
            && (forall handle :: handle in sent.rekeys <==> Awaits(ring, ctx) && Knows(ring, ctx, handle))
            && Settled(sent.ring, ctx)
            && AllRekeysCarry(c, ring, ctx, sent.ring.outgoing[ctx].sk, out.rekeys, sent.rekeys)
  {
    hide Encrypt, DistributeRekey, AllRekeysCarry, SendUnder, GetOutgoingKeyRotating, Knows, Awaits;
    SentIs(c, ring, ctx, body, out);
    GettersAgree(ring, ctx, out.spareKey);
    GetterSettles(ring, ctx, out.spareKey);
    var (keyed, sk, hadPending) := GetOutgoingKeyRotating(ring, ctx, out.spareKey);
    RekeysCarry(c, ring, keyed, ctx, sk, out.rekeys);
    RekeyHandles(c, keyed, ctx, sk, out.rekeys);
  }

  lemma RekeyHandles(c: Crypto, ring: Keyring, ctx: string, sk: Bytes, rnd: string -> Randoms)
    ensures forall handle :: handle in DistributeRekey(c, ring, ctx, sk, rnd) <==> Knows(ring, ctx, handle)
  {
    hide BuildRekey;
    forall handle
      ensures handle in DistributeRekey(c, ring, ctx, sk, rnd) <==> Knows(ring, ctx, handle)
    {
      if Knows(ring, ctx, handle) {
        assert (ctx, handle) in ring.recipients;
      }
    }
  }

  predicate MarksIt(action: Action, ctx: string) { (action.Marks? || action.Revokes?) && action.ctx == ctx }

  lemma SettledStays(c: Crypto, ring: Keyring, action: Action, ctx: string)
    requires Settled(ring, ctx) && !MarksIt(action, ctx)
    ensures Settled(Act(c, ring, action), ctx)
  {
    hide Step, SendUnder, BuildKeyrsp;
    if !action.Marks? && !action.Revokes? {
      hide Act;
      ActKeys(c, ring, action);
    }
  }

  lemma {:induction false} SettledThroughout(c: Crypto, ring: Keyring, actions: seq<Action>, ctx: string)
    requires Settled(ring, ctx) && forall a | a in actions :: !MarksIt(a, ctx)
    ensures Settled(ActAll(c, ring, actions), ctx)
    decreases |actions|
  {
    hide Settled, Act, MarksIt;
    if actions != [] {
      SettledStays(c, ring, actions[0], ctx);
      SettledThroughout(c, Act(c, ring, actions[0]), actions[1..], ctx);
    }
  }

  /**
   * When a KEYRSP is the first to use a marked context, the other recipients are never told: it replaces the key, and
   * no message after it sends a REKEY until the context is marked again.
   */
  lemma AnswerLosesTheRekey(
    c: Crypto, ring: Keyring, ctx: string, sender: string, pub: Bytes, eph: Bytes, rnd: Randoms,
    actions: seq<Action>, body: string, out: Outside)
    requires Awaits(ring, ctx) && (forall a | a in actions :: !MarksIt(a, ctx)) && out.read(ctx) == Yes
    ensures var answered := Act(c, ring, Accepts(ctx, sender, pub, eph, rnd));
            && ctx in answered.outgoing && answered.outgoing[ctx].sk == rnd.outgoingKey
            && SendUnder(c, ActAll(c, answered, actions), ctx, body, out).rekeys == map[]
  {
    hide WrapKey, WrappedBody, Frame, MarksIt, SendUnder, ActAll;
    var answered := Act(c, ring, Accepts(ctx, sender, pub, eph, rnd));
    SettledThroughout(c, answered, actions, ctx);
    RekeysExactly(c, ActAll(c, answered, actions), ctx, body, out);
    var rekeys := SendUnder(c, ActAll(c, answered, actions), ctx, body, out).rekeys;
    assert rekeys.Keys == {};
  }
}
