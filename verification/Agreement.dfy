/**
 * Two-party agreement under idealised cryptography: a handshake or a rekey installs exactly the sender's key, and what
 * the sender then encrypts is what the receiver is shown.
 */
module Agreement {
  import opened Wrappers
  import opened Utf8
  import opened Cryptos
  import opened Wires
  import opened Handshakes
  import opened Keyrings

  /** An identity as `ensure_identity` makes it. */
  ghost predicate Genuine(c: Crypto, me: Identity) {
    me.pk == c.signPublic(me.sk) && me.fp == c.fingerprint(me.pk)
  }

  predicate Sized(rnd: Randoms) {
    |rnd.nonce| == 16 && |rnd.wrapNonce| == NONCE_LEN && |rnd.outgoingKey| == KEY_LEN
  }

  lemma UnframeFrame(body: string)
    ensures Unframe(Frame(body)) == Some(body)
  {
    assert Frame(body)[1..|Frame(body)| - 1] == body;
  }

  // ----- the wrapped key -----

  /** A wrapped key, printed and parsed, is the message that was built, and it verifies. */
  lemma WrappedArrives(
    c: Crypto, me: Identity, kind: string, channel: string, peerX: Bytes, info: Bytes, sk: Bytes, rnd: Randoms)
    requires Ideal(c) && Genuine(c, me) && Sized(rnd) && NoSpace(channel) && (kind == "KEYRSP" || kind == "REKEY")
    ensures var m := WrapKey(c, me, kind, channel, peerX, info, sk, rnd);
            && ParseWrapped(kind, WrappedBody(kind, m)) == Some(m) && WrappedVerifies(c, kind, m)
            && m.channel == channel && m.pub == me.pk && m.eph == c.scalarPublic(rnd.ephSk)
            && m.nonce == rnd.nonce && m.wrapNonce == rnd.wrapNonce
  {
    hide ParseWrapped, WrappedBody, WrappedPayload, NoSpace;
    WrappedRoundTrip(kind, WrapKey(c, me, kind, channel, peerX, info, sk, rnd));
  }

  /** The holder of the scalar behind `peerX` unwraps the key that was wrapped. */
  lemma KeyUnwraps(
    c: Crypto, me: Identity, kind: string, channel: string, scalar: Bytes, info: Bytes, sk: Bytes, rnd: Randoms)
    requires Ideal(c) && |sk| == KEY_LEN
    ensures UnwrapKey(c, scalar, info, WrapKey(c, me, kind, channel, c.scalarPublic(scalar), info, sk, rnd)) == Some(sk)
  {
    hide WrappedPayload;
    var eph := c.scalarPublic(rnd.ephSk);
    assert c.agree(scalar, eph) == c.agree(rnd.ephSk, c.scalarPublic(scalar));
  }

  // ----- the handshake -----

  /** The request that `build_keyreq` prints is the one the other side parses, and its signature verifies. */
  lemma KeyreqArrives(c: Crypto, ring: Keyring, channel: string, handle: string, rnd: Randoms, now: int)
    requires Ideal(c) && Genuine(c, ring.identity) && Sized(rnd) && NoSpace(channel)
    requires BuildKeyreq(c, ring, channel, handle, rnd, now).Some?
    ensures var body := Unframe(BuildKeyreq(c, ring, channel, handle, rnd, now).value.1);
            var m := KeyreqMessage(c, ring.identity, channel, rnd);
            && body.Some? && ParseKeyreq(body.value) == Some(m)
            && c.verify(m.pub, KeyreqPayload(m.channel, m.pub, m.eph, m.nonce), m.sig)
            && m.eph == c.scalarPublic(rnd.ephSk) && m.channel == channel
            && m.pub == ring.identity.pk && m.nonce == rnd.nonce
  {
    hide ParseKeyreq, KeyreqBody, KeyreqPayload, NoSpace, Frame, Unframe;
    var m := KeyreqMessage(c, ring.identity, channel, rnd);
    UnframeFrame(KeyreqBody(m));
    KeyreqRoundTrip(m);
  }

  /**
   * Which sender handles a pending request under `handle` can be answered by: that handle, or anyone when it was
   * unknown.
   */
  predicate Answers(ring: Keyring, channel: string, handle: string, responder: string) {
    handle == responder || (handle == "" && PendingKey(channel, responder) !in ring.pending)
  }

  /** The session row can take a session with this fingerprint. */
  predicate RowIsFree(ring: Keyring, handle: string, ctx: string, fp: Bytes) {
    (handle, ctx) in ring.incoming ==> ring.incoming[(handle, ctx)].fp == fp
  }

  /** The key a context is answered with is a whole key. */
  predicate KeyIsWhole(ring: Keyring, channel: string) {
    channel in ring.outgoing ==> |ring.outgoing[channel].sk| == KEY_LEN
  }

  /**
   * The whole exchange: `a` asks, `b` answers whatever request it parses, `a` handles the answer. The keyrings both end
   * with, or `None` if some step fails.
   */
  function Exchange(
    c: Crypto, a: Keyring, b: Keyring, ctx: string, askedHandle: string, responder: string, requester: string,
    rndA: Randoms, rndB: Randoms, now: int): Option<(Keyring, Keyring)>
  {
    match BuildKeyreq(c, a, ctx, askedHandle, rndA, now)
    case None => None
    case Some((asked, request)) =>
      match Received(request)
      case None => None
      case Some(req) =>
        var (answered, response) := BuildKeyrsp(c, b, req.channel, requester, req.pub, req.eph, rndB);
        match Unframe(response)
        case None => None
        case Some(text) =>
          var (done, ok) := HandleKeyrsp(c, asked, responder, text);
          if ok then Some((done, answered)) else None
  }

  /** The request in a framed body. */
  function Received(text: string): Option<Keyreq> {
    match Unframe(text)
    case None => None
    case Some(body) => ParseKeyreq(body)
  }

  /**
   * When `a` does not find `b` suspicious and its session row is free, the exchange succeeds: `a` ends up with a
   * trusted session under `b`'s fingerprint holding exactly the key `b` now sends with, and the request is used up.
   */
  lemma HandshakeAgrees(
    c: Crypto, a: Keyring, b: Keyring, ctx: string, askedHandle: string, responder: string, requester: string,
    rndA: Randoms, rndB: Randoms, now: int)
    requires Ideal(c) && Genuine(c, a.identity) && Genuine(c, b.identity) && Sized(rndA) && Sized(rndB)
    requires NoSpace(ctx) && KeyIsWhole(b, ctx)
    requires BuildKeyreq(c, a, ctx, askedHandle, rndA, now).Some? && Answers(a, ctx, askedHandle, responder)
    requires !Suspicious(Classify(a, b.identity.fp, responder)) && RowIsFree(a, responder, ctx, b.identity.fp)
    ensures var ends := Exchange(c, a, b, ctx, askedHandle, responder, requester, rndA, rndB, now);
            && ends.Some?
            && var (done, answered) := ends.value;
            && (responder, ctx) in done.incoming && ctx in answered.outgoing && !answered.outgoing[ctx].pendingRotation
            && done.incoming[(responder, ctx)] == Session(b.identity.fp, answered.outgoing[ctx].sk, Trusted)
            && PendingKey(ctx, askedHandle) !in done.pending
            && done.identity == a.identity && Classify(done, b.identity.fp, responder) == Known
  {
    hide ParseKeyreq, KeyreqMessage, NoSpace, Frame, Unframe, PendingKey, WrapInfo, Classify, KeyreqBody, BuildKeyrsp,
      BuildKeyreq, HandleKeyrsp, ParseWrapped, WrappedVerifies, UnwrapKey, AnsweredKeyreq, Ideal, WrappedBody;
    KeyreqArrives(c, a, ctx, askedHandle, rndA, now);
    RequestIsStored(c, a, ctx, askedHandle, rndA, now);
    var (asked, request) := BuildKeyreq(c, a, ctx, askedHandle, rndA, now).value;
    var req := Received(request).value;
    AnswerIsAccepted(c, a, asked, b, req, askedHandle, responder, requester, rndA, rndB, now);
  }

  /** From the parsed request on. */
  lemma AnswerIsAccepted(
    c: Crypto, a: Keyring, asked: Keyring, b: Keyring, req: Keyreq, askedHandle: string, responder: string,
    requester: string, rndA: Randoms, rndB: Randoms, now: int)
    requires Ideal(c) && Genuine(c, b.identity) && Sized(rndB) && NoSpace(req.channel) && KeyIsWhole(b, req.channel)
    requires req.eph == c.scalarPublic(rndA.ephSk)
    requires asked == a.(pending := a.pending[PendingKey(req.channel, askedHandle) := PendingKeyreq(rndA.ephSk, now)])
    requires Answers(a, req.channel, askedHandle, responder)
    requires !Suspicious(Classify(a, b.identity.fp, responder)) && RowIsFree(a, responder, req.channel, b.identity.fp)
    ensures var ctx := req.channel;
            var (answered, response) := BuildKeyrsp(c, b, ctx, requester, req.pub, req.eph, rndB);
            && Unframe(response).Some?
            && var (done, ok) := HandleKeyrsp(c, asked, responder, Unframe(response).value);
            && ok && (responder, ctx) in done.incoming && ctx in answered.outgoing
            && !answered.outgoing[ctx].pendingRotation
            && done.incoming[(responder, ctx)] == Session(b.identity.fp, answered.outgoing[ctx].sk, Trusted)
            && PendingKey(ctx, askedHandle) !in done.pending
            && done.identity == a.identity && Classify(done, b.identity.fp, responder) == Known
  {
    hide NoSpace, Frame, Unframe, PendingKey, WrapInfo, Classify, BuildKeyrsp,
      HandleKeyrsp, ParseWrapped, WrappedVerifies, UnwrapKey, AnsweredKeyreq, Ideal, WrappedBody;
    var ctx := req.channel;
    var (answered, response) := BuildKeyrsp(c, b, ctx, requester, req.pub, req.eph, rndB);
    var m := AnswerCarriesKey(c, b, ctx, requester, req.pub, req.eph, rndA.ephSk, rndB);
    UnframeFrame(WrappedBody("KEYRSP", m));
    RequestIsFound(c, a, asked, ctx, askedHandle, responder, rndA, now);
    SamePeers(a, asked, b.identity.fp, responder);
    ResponseInstalls(c, asked, responder, m, answered.outgoing[ctx].sk, PendingKey(ctx, askedHandle));
  }

  /** What `handle_keyreq` answers is an answer to the request it received, with the key this side then sends with. */
  lemma HandlerAnswers(c: Crypto, b: Keyring, at: Arrival, body: string) returns (ready: Keyring, req: Keyreq)
    requires HandleKeyreq(c, b, at, body).response.Some?
    ensures ParseKeyreq(body) == Some(req) && ready.identity == b.identity && ready.outgoing == b.outgoing
    ensures HandleKeyreq(c, b, at, body).response ==
            Some(BuildKeyrsp(c, ready, req.channel, at.sender, req.pub, req.eph, at.rnd).1)
    ensures HandleKeyreq(c, b, at, body).ring.outgoing ==
            BuildKeyrsp(c, ready, req.channel, at.sender, req.pub, req.eph, at.rnd).0.outgoing
  {
    hide ParseKeyreq, KeyreqPayload, BuildKeyrsp, Classify, BuildKeyreq;
    req := ParseKeyreq(body).value;
    var fp := c.fingerprint(req.pub);
    ready := AllowIncoming(b, at.sender, at.now).0;
    ready := ready.(peers := ready.peers[fp := Peer(req.pub, at.sender, Some(at.nick), Pending)]);
    ReciprocalKeepsKeys(c, BuildKeyrsp(c, ready, req.channel, at.sender, req.pub, req.eph, at.rnd).0, req.channel, at);
  }

  predicate SameKeys(ring: Keyring, next: Keyring) { next.outgoing == ring.outgoing }

  lemma AskingKeepsKeys(c: Crypto, ring: Keyring, ctx: string, handle: string, rnd: Randoms, now: real)
    ensures var asked := AllowOutgoingKeyreq(ring, handle, now).0;
            && SameKeys(ring, asked)
            && var next := BuildKeyreq(c, asked, ctx, handle, rnd, now.Floor);
            next.Some? ==> SameKeys(ring, next.value.0)
  {
    hide BuildKeyreq;
    var asked := AllowOutgoingKeyreq(ring, handle, now).0;
    if BuildKeyreq(c, asked, ctx, handle, rnd, now.Floor).Some? {
      RequestIsStored(c, asked, ctx, handle, rnd, now.Floor);
    }
  }

  lemma ReciprocalKeepsKeys(c: Crypto, ring: Keyring, channel: string, at: Arrival)
    ensures SameKeys(ring, Reciprocal(c, ring, channel, at.sender, at.own, at.rnd2, at.now).0)
  {
    hide BuildKeyreq, PendingKey, IsTrusted, AllowOutgoingKeyreq;
    var ctx := ReciprocalCtx(channel, at.own);
    if ctx.Some? {
      AskingKeepsKeys(c, ring, ctx.value, at.sender, at.rnd2, at.now);
    }
  }

  /**
   * The same through the handlers alone: whenever `b`'s `handle_keyreq` answers the request `a` sent, `a`'s
   * `handle_keyrsp` installs from that answer exactly the key `b`'s tables then hold for the context.
   */
  lemma HandlersAgree(
    c: Crypto, a: Keyring, b: Keyring, ctx: string, askedHandle: string, responder: string, at: Arrival,
    rndA: Randoms, now: int)
    requires Ideal(c) && Genuine(c, a.identity) && Genuine(c, b.identity) && Sized(rndA) && Sized(at.rnd)
    requires NoSpace(ctx) && KeyIsWhole(b, ctx)
    requires BuildKeyreq(c, a, ctx, askedHandle, rndA, now).Some? && Answers(a, ctx, askedHandle, responder)
    requires !Suspicious(Classify(a, b.identity.fp, responder)) && RowIsFree(a, responder, ctx, b.identity.fp)
    ensures var (asked, request) := BuildKeyreq(c, a, ctx, askedHandle, rndA, now).value;
            && Unframe(request).Some?
            && var reply := HandleKeyreq(c, b, at, Unframe(request).value);
            reply.response.Some? ==>
              && Unframe(reply.response.value).Some?
              && var (done, ok) := HandleKeyrsp(c, asked, responder, Unframe(reply.response.value).value);
              && ok && (responder, ctx) in done.incoming && ctx in reply.ring.outgoing
              && done.incoming[(responder, ctx)] == Session(b.identity.fp, reply.ring.outgoing[ctx].sk, Trusted)
  {
    hide ParseKeyreq, KeyreqMessage, NoSpace, Frame, Unframe, PendingKey, WrapInfo, Classify, KeyreqBody, BuildKeyrsp,
      BuildKeyreq, HandleKeyrsp, HandleKeyreq, AnsweredKeyreq, Ideal;
    KeyreqArrives(c, a, ctx, askedHandle, rndA, now);
    RequestIsStored(c, a, ctx, askedHandle, rndA, now);
    var (asked, request) := BuildKeyreq(c, a, ctx, askedHandle, rndA, now).value;
    var body := Unframe(request).value;
    if HandleKeyreq(c, b, at, body).response.Some? {
      var ready, req := HandlerAnswers(c, b, at, body);
      AnswerIsAccepted(c, a, asked, ready, req, askedHandle, responder, at.sender, rndA, at.rnd, now);
    }
  }

  lemma RequestIsStored(c: Crypto, a: Keyring, ctx: string, handle: string, rnd: Randoms, now: int)
    requires BuildKeyreq(c, a, ctx, handle, rnd, now).Some?
    ensures var asked := BuildKeyreq(c, a, ctx, handle, rnd, now).value.0;
            asked == a.(pending := a.pending[PendingKey(ctx, handle) := PendingKeyreq(rnd.ephSk, now)])
  {
    hide KeyreqMessage, KeyreqBody;
  }

  lemma SamePeers(a: Keyring, asked: Keyring, fp: Bytes, handle: string)
    requires asked == a.(pending := asked.pending)
    ensures Classify(asked, fp, handle) == Classify(a, fp, handle)
    ensures forall ctx | RowIsFree(a, handle, ctx, fp) :: RowIsFree(asked, handle, ctx, fp)
  {
  }

  /** The responder's half: the answer verifies and carries the key the responder now sends with. */
  lemma AnswerCarriesKey(
    c: Crypto, b: Keyring, ctx: string, requester: string, reqPub: Bytes, reqEph: Bytes, scalar: Bytes, rnd: Randoms)
    returns (m: Wrapped)
    requires Ideal(c) && Genuine(c, b.identity) && Sized(rnd) && NoSpace(ctx) && KeyIsWhole(b, ctx)
    requires reqEph == c.scalarPublic(scalar)
    ensures var (answered, response) := BuildKeyrsp(c, b, ctx, requester, reqPub, reqEph, rnd);
            && response == Frame(WrappedBody("KEYRSP", m))
            && ctx in answered.outgoing && !answered.outgoing[ctx].pendingRotation
            && UnwrapKey(c, scalar, WrapInfo(ctx), m) == Some(answered.outgoing[ctx].sk)
    ensures ParseWrapped("KEYRSP", WrappedBody("KEYRSP", m)) == Some(m) && WrappedVerifies(c, "KEYRSP", m)
    ensures m.channel == ctx && c.fingerprint(m.pub) == b.identity.fp
  {
    hide ParseWrapped, NoSpace, Frame, WrapInfo, WrappedBody, WrapKey, UnwrapKey, WrappedVerifies;
    var sk := GetOutgoingKey(b, ctx, rnd.outgoingKey).1;
    m := WrapKey(c, b.identity, "KEYRSP", ctx, reqEph, WrapInfo(ctx), sk, rnd);
    WrappedArrives(c, b.identity, "KEYRSP", ctx, reqEph, WrapInfo(ctx), sk, rnd);
    KeyUnwraps(c, b.identity, "KEYRSP", ctx, scalar, WrapInfo(ctx), sk, rnd);
  }

  lemma RequestIsFound(
    c: Crypto, a: Keyring, asked: Keyring, ctx: string, askedHandle: string, responder: string, rnd: Randoms, now: int)
    requires Answers(a, ctx, askedHandle, responder)
    requires asked == a.(pending := a.pending[PendingKey(ctx, askedHandle) := PendingKeyreq(rnd.ephSk, now)])
    ensures AnsweredKeyreq(asked, ctx, responder) == Some(PendingKey(ctx, askedHandle))
  {
  }

  /** The requester's half: a verified answer to a pending request, from someone not suspicious. */
  lemma ResponseInstalls(c: Crypto, asked: Keyring, responder: string, m: Wrapped, sk: Bytes, key: string)
    requires ParseWrapped("KEYRSP", WrappedBody("KEYRSP", m)) == Some(m) && WrappedVerifies(c, "KEYRSP", m)
    requires AnsweredKeyreq(asked, m.channel, responder) == Some(key) && key in asked.pending
    requires UnwrapKey(c, asked.pending[key].ephSk, WrapInfo(m.channel), m) == Some(sk)
    requires !Suspicious(Classify(asked, c.fingerprint(m.pub), responder))
    requires RowIsFree(asked, responder, m.channel, c.fingerprint(m.pub))
    ensures var (done, ok) := HandleKeyrsp(c, asked, responder, WrappedBody("KEYRSP", m));
            && ok && (responder, m.channel) in done.incoming && key !in done.pending
            && done.incoming[(responder, m.channel)] == Session(c.fingerprint(m.pub), sk, Trusted)
            && done.identity == asked.identity && Classify(done, c.fingerprint(m.pub), responder) == Known
  {
    hide ParseWrapped, WrappedVerifies, AnsweredKeyreq, UnwrapKey, WrappedBody, WrapInfo;
    var used := asked.(pending := asked.pending - {key});
    assert Classify(used, c.fingerprint(m.pub), responder) == Classify(asked, c.fingerprint(m.pub), responder);
  }

  /** A rekey sent to a peer by its public key installs that key there, for a peer that knows the sender. */
  lemma RekeyAgrees(c: Crypto, a: Keyring, b: Keyring, ctx: string, sender: string, sk: Bytes, rnd: Randoms)
    requires Ideal(c) && Genuine(c, a.identity) && Genuine(c, b.identity) && Sized(rnd) && NoSpace(ctx)
             && |sk| == KEY_LEN
    requires Classify(a, b.identity.fp, sender) == Known && RowIsFree(a, sender, ctx, b.identity.fp)
    ensures var body := Unframe(BuildRekey(c, b, ctx, a.identity.pk, sk, rnd));
            && body.Some?
            && var (done, ok) := HandleRekey(c, a, sender, body.value);
            ok && done == a.(incoming := a.incoming[(sender, ctx) := Session(b.identity.fp, sk, Trusted)])
  {
    hide ParseWrapped, WrappedVerifies, NoSpace, Frame, Unframe, RekeyInfo, Classify, UnwrapKey, WrapKey, WrappedBody;
    var scalar := c.secretToX25519(a.identity.sk, a.identity.pk);
    assert c.publicToX25519(a.identity.pk) == c.scalarPublic(scalar);
    var m := WrapKey(c, b.identity, "REKEY", ctx, c.scalarPublic(scalar), RekeyInfo(ctx), sk, rnd);
    UnframeFrame(WrappedBody("REKEY", m));
    WrappedArrives(c, b.identity, "REKEY", ctx, c.scalarPublic(scalar), RekeyInfo(ctx), sk, rnd);
    KeyUnwraps(c, b.identity, "REKEY", ctx, scalar, RekeyInfo(ctx), sk, rnd);
  }
}
