/**
 * The keyring tables and the handshake handlers of scripts/weechat/rpe2e.py, over values.
 *
 * Each SQL table is a map from its primary key. Time stamps that nothing reads back are left out. Random bytes and the
 * clock are parameters.
 */
module Keyrings {
  import opened Wrappers
  import opened Utf8
  import opened Cryptos
  import opened Wires
  import opened Handshakes
  import opened ChannelReadings
  import Limiter

  const PENDING_KEYREQ_TTL: int := 120
  const KEYREQ_MIN_INTERVAL: real := 30.0
  const CTCP := "\U{01}"

  datatype Status = Pending | Trusted | Revoked
  datatype Identity = Identity(pk: Bytes, sk: Bytes, fp: Bytes)
  datatype Peer = Peer(pk: Bytes, lastHandle: string, lastNick: Option<string>, status: Status)
  datatype OutgoingKey = OutgoingKey(sk: Bytes, pendingRotation: bool)
  datatype Session = Session(fp: Bytes, sk: Bytes, status: Status)
  datatype ChannelConfig = ChannelConfig(enabled: bool, mode: string)
  datatype PendingKeyreq = PendingKeyreq(ephSk: Bytes, createdAt: int)
  datatype Inbound = Inbound(pub: Bytes, eph: Bytes, nonce: Bytes, sig: Bytes)

  /** How a peer's fingerprint and handle compare with what the keyring knows. */
  datatype Change = New | Known | RevokedPeer | HandleChanged | FingerprintChanged

  datatype Keyring = Keyring(
    identity: Identity,
    peers: map<Bytes, Peer>,
    outgoing: map<string, OutgoingKey>,
    /** Keyed by (handle, context). */
    incoming: map<(string, string), Session>,
    channels: map<string, ChannelConfig>,
    pending: map<string, PendingKeyreq>,
    pendingInbound: map<(string, string), Inbound>,
    /** Keyed by (context, handle). */
    recipients: map<(string, string), Bytes>,
    trustChanges: map<(string, string), Change>,
    /** `_rate_limit_sent` and `_incoming_buckets`, which live in memory. */
    keyreqSentAt: map<string, real>,
    buckets: map<string, Limiter.Bucket>)

  /** The random values one handler call may draw. */
  datatype Randoms = Randoms(ephSk: Bytes, nonce: Bytes, wrapNonce: Bytes, outgoingKey: Bytes)

  function PendingKey(channel: string, handle: string): string {
    if handle != "" then channel + "\U{1F}" + handle else channel
  }

  function Classify(ring: Keyring, fp: Bytes, handle: string): Change {
    if fp in ring.peers then
      if ring.peers[fp].status == Revoked then RevokedPeer
      else if ring.peers[fp].lastHandle != handle then HandleChanged
      else Known
    else if exists other | other in ring.peers.Keys :: ring.peers[other].lastHandle == handle then FingerprintChanged
    else New
  }

  predicate Suspicious(change: Change) {
    change == RevokedPeer || change == HandleChanged || change == FingerprintChanged
  }

  function NoteChange(ring: Keyring, handle: string, ctx: string, change: Change): Keyring {
    ring.(trustChanges := ring.trustChanges[(handle, ctx) := change])
  }

  function Frame(body: string): string { CTCP + body + CTCP }

  /** `hook_irc_in_notice`: the text between the two \x01. */
  function Unframe(text: string): Option<string> {
    if |text| >= 2 && text[..1] == CTCP && text[|text| - 1..] == CTCP then Some(text[1..|text| - 1]) else None
  }

  // ----- sending -----

  function WrapInfo(channel: string): Bytes { Encode("RPE2E01-WRAP:" + channel) }

  function RekeyInfo(channel: string): Bytes { Encode("RPE2E01-REKEY:" + channel) }

  function KeyreqMessage(c: Crypto, me: Identity, channel: string, rnd: Randoms): Keyreq {
    var eph := c.scalarPublic(rnd.ephSk);
    Keyreq(channel, me.pk, eph, rnd.nonce, c.sign(me.sk, KeyreqPayload(channel, me.pk, eph, rnd.nonce)))
  }

  /** `build_keyreq`: `None` when an exchange is already pending. */
  function BuildKeyreq(c: Crypto, ring: Keyring, channel: string, handle: string, rnd: Randoms, now: int)
    : Option<(Keyring, string)>
  {
    var key := PendingKey(channel, handle);
    if key in ring.pending && now - ring.pending[key].createdAt < PENDING_KEYREQ_TTL then None
    else
      Some((ring.(pending := ring.pending[key := PendingKeyreq(rnd.ephSk, now)]),
            Frame(KeyreqBody(KeyreqMessage(c, ring.identity, channel, rnd)))))
  }

  /** `_get_or_generate_outgoing_key`. */
  function GetOutgoingKey(ring: Keyring, channel: string, spare: Bytes): (Keyring, Bytes) {
    if channel in ring.outgoing && !ring.outgoing[channel].pendingRotation then (ring, ring.outgoing[channel].sk)
    else (ring.(outgoing := ring.outgoing[channel := OutgoingKey(spare, false)]), spare)
  }

  /** A session key wrapped for the holder of `peerX`, as KEYRSP and REKEY carry it. */
  function WrapKey(
    c: Crypto, me: Identity, kind: string, channel: string, peerX: Bytes, info: Bytes, sk: Bytes, rnd: Randoms): Wrapped
  {
    var eph := c.scalarPublic(rnd.ephSk);
    var wrapKey := c.derive(c.agree(rnd.ephSk, peerX), info);
    var ct := c.seal(wrapKey, rnd.wrapNonce, info, sk);
    var payload := WrappedPayload(kind, channel, me.pk, eph, rnd.wrapNonce, ct, rnd.nonce);
    Wrapped(channel, me.pk, eph, rnd.wrapNonce, ct, rnd.nonce, c.sign(me.sk, payload))
  }

  /** `_build_keyrsp_for_req`. */
  function BuildKeyrsp(
    c: Crypto, ring: Keyring, channel: string, sender: string, reqPub: Bytes, reqEph: Bytes, rnd: Randoms)
    : (Keyring, string)
  {
    var (keyed, sk) := GetOutgoingKey(ring, channel, rnd.outgoingKey);
    var message := WrapKey(c, ring.identity, "KEYRSP", channel, reqEph, WrapInfo(channel), sk, rnd);
    var fp := c.fingerprint(reqPub);
    (keyed.(peers := keyed.peers[fp := Peer(reqPub, sender, None, Trusted)],
            recipients := keyed.recipients[(channel, sender) := fp]),
     Frame(WrappedBody("KEYRSP", message)))
  }

  /** `_build_rekey_for_peer`. */
  function BuildRekey(c: Crypto, ring: Keyring, channel: string, peerPk: Bytes, newSk: Bytes, rnd: Randoms): string {
    Frame(WrappedBody("REKEY",
      WrapKey(c, ring.identity, "REKEY", channel, c.publicToX25519(peerPk), RekeyInfo(channel), newSk, rnd)))
  }

  // ----- receiving -----

  function AllowIncoming(ring: Keyring, handle: string, now: real): (Keyring, bool) {
    var (bucket, ok) := Limiter.Allow(if handle in ring.buckets then ring.buckets[handle] else Limiter.EMPTY, now);
    (ring.(buckets := ring.buckets[handle := bucket]), ok)
  }

  /** `_allow_outgoing_keyreq`. */
  function AllowOutgoingKeyreq(ring: Keyring, handle: string, now: real): (Keyring, bool) {
    var last := if handle in ring.keyreqSentAt then ring.keyreqSentAt[handle] else 0.0;
    if now - last < KEYREQ_MIN_INTERVAL then (ring, false)
    else (ring.(keyreqSentAt := ring.keyreqSentAt[handle := now]), true)
  }

  predicate IsTrusted(ring: Keyring, handle: string, ctx: string) {
    (handle, ctx) in ring.incoming && ring.incoming[(handle, ctx)].status == Trusted
  }

  /** `_reciprocal_ctx`; `own` is this client's handle, "" while unknown. */
  function ReciprocalCtx(channel: string, own: string): Option<string> {
    if IsChannelName(channel) then Some(channel) else if own != "" then Some("@" + own) else None
  }

  /** `_maybe_build_reciprocal_keyreq`. */
  function Reciprocal(c: Crypto, ring: Keyring, channel: string, sender: string, own: string, rnd: Randoms, now: real)
    : (Keyring, Option<string>)
  {
    match ReciprocalCtx(channel, own)
    case None => (ring, None)
    case Some(ctx) =>
      var (asked, allow) := AllowOutgoingKeyreq(ring, sender, now);
      if PendingKey(ctx, sender) in ring.pending || IsTrusted(ring, sender, ctx) || !allow then (asked, None)
      else match BuildKeyreq(c, asked, ctx, sender, rnd, now.Floor)
        case None => (asked, None)
        case Some((next, text)) => (next, Some(text))
  }

  /**
   * What surrounds a received KEYREQ: who sent it, our own handle, the autotrust rules' verdict, clock and randomness.
   */
  datatype Arrival = Arrival(
    sender: string, nick: string, own: string, autotrust: bool, now: real, rnd: Randoms, rnd2: Randoms)

  datatype Reply = Reply(ring: Keyring, response: Option<string>, reciprocal: Option<string>)

  /**
   * `handle_keyreq`: the body must parse, the sender's limit allow it, its signature verify, its context be enabled.
   */
  function HandleKeyreq(c: Crypto, ring: Keyring, at: Arrival, body: string): Reply {
    match ParseKeyreq(body)
    case None => Reply(ring, None, None)
    case Some(req) =>
      var (limited, allowed) := AllowIncoming(ring, at.sender, at.now);
      if !allowed || !c.verify(req.pub, KeyreqPayload(req.channel, req.pub, req.eph, req.nonce), req.sig)
         || req.channel !in ring.channels || !ring.channels[req.channel].enabled
      then Reply(limited, None, None)
      else JudgeKeyreq(c, limited, at, req)
  }

  /** Its second part: is the sender who we think it is? */
  function JudgeKeyreq(c: Crypto, ring: Keyring, at: Arrival, req: Keyreq): Reply
    requires req.channel in ring.channels
  {
    var fp := c.fingerprint(req.pub);
    var change := Classify(ring, fp, at.sender);
    if Suspicious(change) then Reply(NoteChange(ring, at.sender, req.channel, change), None, None)
    else
      RespondKeyreq(c, ring.(peers := ring.peers[fp := Peer(req.pub, at.sender, Some(at.nick), Pending)]), at, req, fp)
  }

  /** Its third part: drop the request, hold it for the user, or answer it. */
  function RespondKeyreq(c: Crypto, ring: Keyring, at: Arrival, req: Keyreq, fp: Bytes): Reply
    requires req.channel in ring.channels
  {
    var ctx := req.channel;
    var mode := if at.autotrust then "auto-accept" else ring.channels[ctx].mode;
    var trusted := IsTrusted(ring, at.sender, ctx);
    if mode == "quiet" && !trusted then Reply(ring, None, None)
    else if mode == "normal" && !trusted then
      Reply(ring.(
        incoming := ring.incoming[(at.sender, ctx) := Session(fp, Zeros(KEY_LEN), Pending)],
        pendingInbound := ring.pendingInbound[(at.sender, ctx) := Inbound(req.pub, req.eph, req.nonce, req.sig)]),
        None, None)
    else
      var (answered, response) := BuildKeyrsp(c, ring, ctx, at.sender, req.pub, req.eph, at.rnd);
      var (next, reciprocal) := Reciprocal(c, answered, ctx, at.sender, at.own, at.rnd2, at.now);
      Reply(next, Some(response), reciprocal)
  }

  /** The pending row a KEYRSP answers: the one for this sender, or else the one for the bare context. */
  function AnsweredKeyreq(ring: Keyring, ctx: string, sender: string): Option<string> {
    if PendingKey(ctx, sender) in ring.pending then Some(PendingKey(ctx, sender))
    else if ctx in ring.pending then Some(ctx)
    else None
  }

  function WrappedVerifies(c: Crypto, kind: string, m: Wrapped): bool {
    c.verify(m.pub, WrappedPayload(kind, m.channel, m.pub, m.eph, m.wrapNonce, m.wrapCt, m.nonce), m.sig)
  }

  function UnwrapKey(c: Crypto, scalar: Bytes, info: Bytes, m: Wrapped): Option<Bytes> {
    match c.open(c.derive(c.agree(scalar, m.eph), info), m.wrapNonce, info, m.wrapCt)
    case None => None
    case Some(sk) => if |sk| == KEY_LEN then Some(sk) else None
  }

  /** The end of both handlers: a row pinned to another fingerprint is kept, otherwise the session is installed. */
  function Install(ring: Keyring, sender: string, ctx: string, fp: Bytes, sk: Bytes): (Keyring, bool) {
    if (sender, ctx) in ring.incoming && ring.incoming[(sender, ctx)].fp != fp then
      (NoteChange(ring, sender, ctx, FingerprintChanged), false)
    else (ring.(incoming := ring.incoming[(sender, ctx) := Session(fp, sk, Trusted)]), true)
  }

  /** `handle_keyrsp`: whether a session was installed. */
  function HandleKeyrsp(c: Crypto, ring: Keyring, sender: string, body: string): (Keyring, bool) {
    match ParseWrapped("KEYRSP", body)
    case None => (ring, false)
    case Some(m) =>
      if !WrappedVerifies(c, "KEYRSP", m) then (ring, false)
      else match AnsweredKeyreq(ring, m.channel, sender)
        case None => (ring, false)
        case Some(key) =>
          var used := ring.(pending := ring.pending - {key});
          match UnwrapKey(c, ring.pending[key].ephSk, WrapInfo(m.channel), m)
          case None => (used, false)
          case Some(sk) => AcceptKeyrsp(c, used, sender, m, sk)
  }

  /** Its second part, once the session key is out. */
  function AcceptKeyrsp(c: Crypto, ring: Keyring, sender: string, m: Wrapped, sk: Bytes): (Keyring, bool) {
    var fp := c.fingerprint(m.pub);
    var change := Classify(ring, fp, sender);
    if Suspicious(change) then (NoteChange(ring, sender, m.channel, change), false)
    else
      var (next, ok) := Install(ring, sender, m.channel, fp, sk);
      (if ok then next.(peers := next.peers[fp := Peer(m.pub, sender, None, Trusted)]) else next, ok)
  }

  /** `handle_rekey`. */
  function HandleRekey(c: Crypto, ring: Keyring, sender: string, body: string): (Keyring, bool) {
    match ParseWrapped("REKEY", body)
    case None => (ring, false)
    case Some(m) =>
      if !WrappedVerifies(c, "REKEY", m) then (ring, false)
      else
        var fp := c.fingerprint(m.pub);
        var change := Classify(ring, fp, sender);
        if change == New then (ring, false)
        else if Suspicious(change) then (NoteChange(ring, sender, m.channel, change), false)
        else
          var me := ring.identity;
          match UnwrapKey(c, c.secretToX25519(me.sk, me.pk), RekeyInfo(m.channel), m)
          case None => (ring, false)
          case Some(sk) => Install(ring, sender, m.channel, fp, sk)
  }

  // ----- encrypted messages -----

  datatype Delivery =
    | Shown(text: string)
    /** Decrypted, but not UTF-8: the source shows it with replacement characters. */
    | Garbled(bytes: Bytes)
    | Dropped
    /** No trusted session: dropped, and a KEYREQ may be sent. */
    | Asked(keyreq: Option<string>)

  const ACTION_PREFIX := "\U{01}ACTION "

  /** A decrypted non-ACTION CTCP frame is not passed on. */
  predicate Withheld(text: string) {
    CTCP <= text && !(ACTION_PREFIX <= text)
  }

  /** The session a wire from `handle` is read with: the first context, unless only a later one is trusted. */
  function ChooseContext(ring: Keyring, handle: string, contexts: seq<string>): (ctx: string)
    requires contexts != []
  {
    if IsTrusted(ring, handle, contexts[0]) then contexts[0]
    else FirstTrusted(ring, handle, contexts[1..], contexts[0])
  }

  function FirstTrusted(ring: Keyring, handle: string, contexts: seq<string>, default: string): string {
    if contexts == [] then default
    else if IsTrusted(ring, handle, contexts[0]) then contexts[0]
    else FirstTrusted(ring, handle, contexts[1..], default)
  }

  function OpenWire(c: Crypto, sk: Bytes, ctx: string, w: Wire): Delivery {
    match BuildAad(ctx, w.msgid, w.ts, w.part, w.total)
    case None => Dropped
    case Some(aad) =>
      match c.open(sk, w.nonce, aad, w.ct)
      case None => Dropped
      case Some(bytes) =>
        match Decode(bytes)
        case None => Garbled(bytes)
        case Some(text) => if Withheld(text) then Dropped else Shown(text)
  }

  const TS_TOLERANCE: int := 300

  function Abs(n: int): int { if n < 0 then -n else n }

  /** The contexts a target can mean to us; `own` is our handle. Empty while a DM cannot be read yet. */
  function ContextsOf(target: string, own: string): seq<string> {
    var readings := Readings(target);
    if readings != [] then readings else if own != "" then ["@" + own] else []
  }

  /** `hook_irc_in_privmsg` for a line that is a wire and does not carry our own nick. */
  function HandleWire(
    c: Crypto, ring: Keyring, handle: string, target: string, own: string, w: Wire, rnd: Randoms, now: real)
    : (Keyring, Delivery)
  {
    var contexts := ContextsOf(target, own);
    if w.total > 16 || Abs(now.Floor - w.ts) > TS_TOLERANCE || contexts == [] then (ring, Dropped)
    else
      var ctx := ChooseContext(ring, handle, contexts);
      if IsTrusted(ring, handle, ctx) then (ring, OpenWire(c, ring.incoming[(handle, ctx)].sk, ctx, w))
      else
        var (asked, allow) := AllowOutgoingKeyreq(ring, handle, now);
        if !allow then (asked, Asked(None))
        else match BuildKeyreq(c, asked, ctx, handle, rnd, now.Floor)
          case None => (asked, Asked(None))
          case Some((next, text)) => (next, Asked(Some(text)))
  }
}
