/**
 * The keyring as rpe2e.py keeps it: tables that the handlers update in place, statement by statement. Each method
 * leaves exactly the tables that the value-level handler of module Keyrings or Gates computes, so everything proved
 * about those holds of these methods.
 */
module Endpoints {
  import opened Wrappers
  import opened Utf8
  import opened Cryptos
  import opened Handshakes
  import opened Keyrings
  import opened Gates
  import Limiter

  class Endpoint {
    const identity: Identity
    const crypto: Crypto
    var peers: map<Bytes, Peer>
    var outgoing: map<string, OutgoingKey>
    var incoming: map<(string, string), Session>
    var channels: map<string, ChannelConfig>
    var pending: map<string, PendingKeyreq>
    var pendingInbound: map<(string, string), Inbound>
    var recipients: map<(string, string), Bytes>
    var trustChanges: map<(string, string), Change>
    var keyreqSentAt: map<string, real>
    var buckets: map<string, Limiter.Bucket>

    constructor (c: Crypto, me: Identity)
      ensures crypto == c
              && Tables() == Keyring(me, map[], map[], map[], map[], map[], map[], map[], map[], map[], map[])
    {
      crypto, identity := c, me;
      peers, outgoing, incoming, channels, pending, pendingInbound := map[], map[], map[], map[], map[], map[];
      recipients, trustChanges, keyreqSentAt, buckets := map[], map[], map[], map[];
    }

    ghost function Tables(): Keyring
      reads this
    {
      Keyring(identity, peers, outgoing, incoming, channels, pending, pendingInbound, recipients, trustChanges,
               keyreqSentAt, buckets)
    }

    /** `_get_or_generate_outgoing_key`. */
    method GetOutgoingKey(channel: string, spare: Bytes) returns (sk: Bytes)
      modifies this`outgoing
      ensures (Tables(), sk) == Keyrings.GetOutgoingKey(old(Tables()), channel, spare)
    {
      if channel in outgoing && !outgoing[channel].pendingRotation {
        return outgoing[channel].sk;
      }
      outgoing := outgoing[channel := OutgoingKey(spare, false)];
      return spare;
    }

    /** `_get_or_generate_outgoing_key_with_rotation`. */
    method GetOutgoingKeyRotating(channel: string, spare: Bytes) returns (sk: Bytes, hadPending: bool)
      modifies this`outgoing
      ensures (Tables(), sk, hadPending) == Gates.GetOutgoingKeyRotating(old(Tables()), channel, spare)
    {
      if channel in outgoing && !outgoing[channel].pendingRotation {
        return outgoing[channel].sk, false;
      }
      hadPending := channel in outgoing;
      outgoing := outgoing[channel := OutgoingKey(spare, false)];
      sk := spare;
    }

    /** `build_keyreq`. */
    method BuildKeyreq(channel: string, handle: string, rnd: Randoms, now: int) returns (text: Option<string>)
      modifies this`pending
      ensures match Keyrings.BuildKeyreq(crypto, old(Tables()), channel, handle, rnd, now)
              case Some((next, request)) => Tables() == next && text == Some(request)
              case None => Tables() == old(Tables()) && text == None
    {
      hide KeyreqMessage, KeyreqBody, Frame, PendingKey;
      var key := PendingKey(channel, handle);
      if key in pending && now - pending[key].createdAt < PENDING_KEYREQ_TTL {
        return None;
      }
      pending := pending[key := PendingKeyreq(rnd.ephSk, now)];
      return Some(Frame(KeyreqBody(KeyreqMessage(crypto, identity, channel, rnd))));
    }

    /** `_build_keyrsp_for_req`. */
    method BuildKeyrsp(
      channel: string, sender: string, reqPub: Bytes, reqEph: Bytes, rnd: Randoms)
      returns (text: string)
      modifies this`outgoing, this`peers, this`recipients
      ensures (Tables(), text) == Keyrings.BuildKeyrsp(crypto, old(Tables()), channel, sender, reqPub, reqEph, rnd)
    {
      hide WrapKey, WrappedBody, Frame, WrapInfo;
      var sk := GetOutgoingKey(channel, rnd.outgoingKey);
      var message := WrapKey(crypto, identity, "KEYRSP", channel, reqEph, WrapInfo(channel), sk, rnd);
      var fp := crypto.fingerprint(reqPub);
      peers := peers[fp := Peer(reqPub, sender, None, Trusted)];
      recipients := recipients[(channel, sender) := fp];
      return Frame(WrappedBody("KEYRSP", message));
    }

    /** `_allow_incoming`, on the bucket of one handle. */
    method AllowIncoming(handle: string, now: real) returns (ok: bool)
      modifies this`buckets
      ensures (Tables(), ok) == Keyrings.AllowIncoming(old(Tables()), handle, now)
    {
      hide Limiter.Allow;
      var bucket := if handle in buckets then buckets[handle] else Limiter.EMPTY;
      var (next, allowed) := Limiter.Allow(bucket, now);
      buckets := buckets[handle := next];
      return allowed;
    }

    /** `_allow_outgoing_keyreq`. */
    method AllowOutgoingKeyreq(handle: string, now: real) returns (ok: bool)
      modifies this`keyreqSentAt
      ensures (Tables(), ok) == Keyrings.AllowOutgoingKeyreq(old(Tables()), handle, now)
    {
      var last := if handle in keyreqSentAt then keyreqSentAt[handle] else 0.0;
      if now - last < KEYREQ_MIN_INTERVAL {
        return false;
      }
      keyreqSentAt := keyreqSentAt[handle := now];
      return true;
    }

    /** `_classify_peer_change`. */
    method Classify(fp: Bytes, handle: string) returns (change: Change)
      ensures change == Keyrings.Classify(Tables(), fp, handle)
    {
      if fp in peers {
        if peers[fp].status == Revoked {
          return RevokedPeer;
        }
        return if peers[fp].lastHandle != handle then HandleChanged else Known;
      }
      if exists other | other in peers.Keys :: peers[other].lastHandle == handle {
        return FingerprintChanged;
      }
      return New;
    }

    /** `_maybe_build_reciprocal_keyreq`. */
    method Reciprocal(
      channel: string, sender: string, own: string, rnd: Randoms, now: real)
      returns (text: Option<string>)
      modifies this`pending, this`keyreqSentAt
      ensures (Tables(), text) == Keyrings.Reciprocal(crypto, old(Tables()), channel, sender, own, rnd, now)
    {
      hide Keyrings.BuildKeyreq, PendingKey, ReciprocalCtx, Keyrings.AllowOutgoingKeyreq;
      text := None;
      var ctx := ReciprocalCtx(channel, own);
      if ctx.Some? {
        var allow := AllowOutgoingKeyreq(sender, now);
        var trusted := (sender, ctx.value) in incoming && incoming[(sender, ctx.value)].status == Trusted;
        if PendingKey(ctx.value, sender) !in pending && !trusted && allow {
          text := BuildKeyreq(ctx.value, sender, rnd, now.Floor);
        }
      }
    }

    /** `_record_pending_trust_change`. */
    method RecordTrustChange(handle: string, ctx: string, change: Change)
      modifies this`trustChanges
      ensures Tables() == NoteChange(old(Tables()), handle, ctx, change)
    {
      trustChanges := trustChanges[(handle, ctx) := change];
    }

    /** `handle_keyreq`. */
    method HandleKeyreq(at: Arrival, body: string) returns (response: Option<string>, reciprocal: Option<string>)
      modifies this
      ensures Reply(Tables(), response, reciprocal) == Keyrings.HandleKeyreq(crypto, old(Tables()), at, body)
    {
      hide ParseKeyreq, KeyreqPayload, JudgeKeyreq, Keyrings.AllowIncoming;
      response, reciprocal := None, None;
      var parsed := ParseKeyreq(body);
      if parsed.None? {
        return;
      }
      var req := parsed.value;
      var allowed := AllowIncoming(at.sender, at.now);
      if !allowed {
        return;
      }
      if !crypto.verify(req.pub, KeyreqPayload(req.channel, req.pub, req.eph, req.nonce), req.sig) {
        return;
      }
      if req.channel !in channels || !channels[req.channel].enabled {
        return;
      }
      response, reciprocal := JudgeAndRespond(at, req);
    }

    /** The rest of `handle_keyreq`: compare the sender with what is known, then drop, hold or answer the request. */
    method JudgeAndRespond(at: Arrival, req: Keyreq) returns (response: Option<string>, reciprocal: Option<string>)
      requires req.channel in channels
      modifies this
      ensures Reply(Tables(), response, reciprocal) == JudgeKeyreq(crypto, old(Tables()), at, req)
    {
      hide Keyrings.Classify, RespondKeyreq;
      response, reciprocal := None, None;
      var fp := crypto.fingerprint(req.pub);
      var change := Classify(fp, at.sender);
      if Suspicious(change) {
        RecordTrustChange(at.sender, req.channel, change);
        return;
      }
      peers := peers[fp := Peer(req.pub, at.sender, Some(at.nick), Pending)];
      response, reciprocal := Respond(at, req, fp);
    }

    method Respond(at: Arrival, req: Keyreq, fp: Bytes) returns (response: Option<string>, reciprocal: Option<string>)
      requires req.channel in channels
      modifies this
      ensures Reply(Tables(), response, reciprocal) == RespondKeyreq(crypto, old(Tables()), at, req, fp)
    {
      hide Keyrings.BuildKeyrsp, Keyrings.Reciprocal;
      response, reciprocal := None, None;
      var ctx := req.channel;
      var mode := if at.autotrust then "auto-accept" else channels[ctx].mode;
      var trusted := (at.sender, ctx) in incoming && incoming[(at.sender, ctx)].status == Trusted;
      if mode == "quiet" && !trusted {
        return;
      }
      if mode == "normal" && !trusted {
        incoming := incoming[(at.sender, ctx) := Session(fp, Zeros(KEY_LEN), Pending)];
        pendingInbound := pendingInbound[(at.sender, ctx) := Inbound(req.pub, req.eph, req.nonce, req.sig)];
        return;
      }
      var text := BuildKeyrsp(ctx, at.sender, req.pub, req.eph, at.rnd);
      reciprocal := Reciprocal(ctx, at.sender, at.own, at.rnd2, at.now);
      response := Some(text);
    }

    /** `handle_keyrsp`: whether a session was installed. */
    method HandleKeyrsp(sender: string, body: string) returns (ok: bool)
      modifies this`pending, this`trustChanges, this`peers, this`incoming
      ensures (Tables(), ok) == Keyrings.HandleKeyrsp(crypto, old(Tables()), sender, body)
    {
      hide ParseWrapped, WrappedVerifies, UnwrapKey, Keyrings.AcceptKeyrsp, WrapInfo;
      var parsed := ParseWrapped("KEYRSP", body);
      if parsed.None? {
        return false;
      }
      var m := parsed.value;
      if !WrappedVerifies(crypto, "KEYRSP", m) {
        return false;
      }
      var key := PendingKey(m.channel, sender);
      if key !in pending {
        key := m.channel;
        if key !in pending {
          return false;
        }
      }
      var ephSk := pending[key].ephSk;
      pending := pending - {key};
      var sk := UnwrapKey(crypto, ephSk, WrapInfo(m.channel), m);
      if sk.None? {
        return false;
      }
      ok := AcceptKeyrsp(sender, m, sk.value);
    }

    /** The rest of `handle_keyrsp`, once the session key is out. */
    method AcceptKeyrsp(sender: string, m: Wrapped, sk: Bytes) returns (ok: bool)
      modifies this`trustChanges, this`peers, this`incoming
      ensures (Tables(), ok) == Keyrings.AcceptKeyrsp(crypto, old(Tables()), sender, m, sk)
    {
      hide Keyrings.Classify;
      var fp := crypto.fingerprint(m.pub);
      var change := Classify(fp, sender);
      if Suspicious(change) {
        RecordTrustChange(sender, m.channel, change);
        return false;
      }
      if (sender, m.channel) in incoming && incoming[(sender, m.channel)].fp != fp {
        RecordTrustChange(sender, m.channel, FingerprintChanged);
        return false;
      }
      peers := peers[fp := Peer(m.pub, sender, None, Trusted)];
      incoming := incoming[(sender, m.channel) := Session(fp, sk, Trusted)];
      return true;
    }

    /** `handle_rekey`. */
    method HandleRekey(sender: string, body: string) returns (ok: bool)
      modifies this`trustChanges, this`incoming
      ensures (Tables(), ok) == Keyrings.HandleRekey(crypto, old(Tables()), sender, body)
    {
      hide ParseWrapped, WrappedVerifies, UnwrapKey, Keyrings.Classify, RekeyInfo;
      var parsed := ParseWrapped("REKEY", body);
      if parsed.None? {
        return false;
      }
      var m := parsed.value;
      if !WrappedVerifies(crypto, "REKEY", m) {
        return false;
      }
      var fp := crypto.fingerprint(m.pub);
      var change := Classify(fp, sender);
      if change == New {
        return false;
      }
      if Suspicious(change) {
        RecordTrustChange(sender, m.channel, change);
        return false;
      }
      var scalar := crypto.secretToX25519(identity.sk, identity.pk);
      var sk := UnwrapKey(crypto, scalar, RekeyInfo(m.channel), m);
      if sk.None? {
        return false;
      }
      if (sender, m.channel) in incoming && incoming[(sender, m.channel)].fp != fp {
        RecordTrustChange(sender, m.channel, FingerprintChanged);
        return false;
      }
      incoming := incoming[(sender, m.channel) := Session(fp, sk.value, Trusted)];
      return true;
    }
  }
}
