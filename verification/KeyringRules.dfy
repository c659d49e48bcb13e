/**
 * When the handshake handlers and the receiver act at all: the exact conditions, over the tables, under which a KEYREQ
 * is answered or held, a KEYRSP or REKEY installs a session, a line is read, and a KEYREQ goes out.
 */
module KeyringRules {
  import opened Wrappers
  import opened Utf8
  import opened Cryptos
  import opened Wires
  import opened Handshakes
  import opened ChannelReadings
  import opened Keyrings
  import Limiter
  import PeerTables

  // ----- what the tables say -----

  /** There is a trusted session for this handle in this context. */
  predicate Trusts(ring: Keyring, handle: string, ctx: string) {
    (handle, ctx) in ring.incoming && ring.incoming[(handle, ctx)].status.Trusted?
  }

  predicate Enabled(ring: Keyring, ctx: string) { ctx in ring.channels && ring.channels[ctx].enabled }

  /**
   * Fingerprint and handle fit what is known: a known peer is not revoked and was last seen under this handle, and an
   * unknown one comes under a handle nobody had.
   */
  predicate Plausible(ring: Keyring, fp: Bytes, handle: string) {
    if fp in ring.peers then !ring.peers[fp].status.Revoked? && ring.peers[fp].lastHandle == handle
    else forall other | other in ring.peers.Keys :: ring.peers[other].lastHandle != handle
  }

  /** How the others do not fit. */
  function WhatChanged(ring: Keyring, fp: Bytes): Change {
    if fp !in ring.peers then FingerprintChanged
    else if ring.peers[fp].status.Revoked? then RevokedPeer else HandleChanged
  }

  /** The row holds no session of another fingerprint. */
  predicate RowTakes(ring: Keyring, handle: string, ctx: string, fp: Bytes) {
    (handle, ctx) in ring.incoming ==> ring.incoming[(handle, ctx)].fp == fp
  }

  function BucketOf(ring: Keyring, handle: string): Limiter.Bucket {
    if handle in ring.buckets then ring.buckets[handle] else Limiter.Bucket([], 0.0)
  }

  /** A KEYREQ that parses has counted against its sender's limit. */
  function Counted(ring: Keyring, at: Arrival): Keyring {
    ring.(buckets := ring.buckets[at.sender := Limiter.Allow(BucketOf(ring, at.sender), at.now).0])
  }

  // ----- KEYREQ -----

  /** It is from whom it says, within the limit, for an enabled context. */
  predicate Proper(c: Crypto, ring: Keyring, at: Arrival, req: Keyreq) {
    && Limiter.Allow(BucketOf(ring, at.sender), at.now).1
    && c.verify(req.pub, KeyreqPayload(req.channel, req.pub, req.eph, req.nonce), req.sig)
    && Enabled(ring, req.channel)
  }

  /** The user lets such requests be answered: by a rule, by an earlier session, or by the mode of the context. */
  predicate Welcome(ring: Keyring, at: Arrival, ctx: string)
    requires ctx in ring.channels
  {
    at.autotrust || Trusts(ring, at.sender, ctx) || ring.channels[ctx].mode !in {"quiet", "normal"}
  }

  lemma SuspiciousIff(ring: Keyring, fp: Bytes, handle: string)
    ensures Suspicious(Classify(ring, fp, handle)) <==> !Plausible(ring, fp, handle)
    ensures Classify(ring, fp, handle) == New <==> fp !in ring.peers && Plausible(ring, fp, handle)
    ensures !Plausible(ring, fp, handle) ==> Classify(ring, fp, handle) == WhatChanged(ring, fp)
  {
  }

  /** The peer as a plausible request leaves it. */
  function Met(c: Crypto, ring: Keyring, at: Arrival, req: Keyreq): Keyring {
    Counted(ring, at).(
      peers := ring.peers[c.fingerprint(req.pub) := Peer(req.pub, at.sender, Some(at.nick), Pending)])
  }

  lemma KeyreqIs(c: Crypto, ring: Keyring, at: Arrival, body: string)
    requires ParseKeyreq(body).Some?
    ensures var req, reply := ParseKeyreq(body).value, HandleKeyreq(c, ring, at, body);
            if !Proper(c, ring, at, req) then reply == Reply(Counted(ring, at), None, None)
            else reply == JudgeKeyreq(c, Counted(ring, at), at, req)
  {
    hide ParseKeyreq, KeyreqPayload, JudgeKeyreq, Limiter.Allow;
  }

  lemma JudgedIs(c: Crypto, ring: Keyring, at: Arrival, req: Keyreq)
    requires req.channel in ring.channels
    ensures var reply := JudgeKeyreq(c, Counted(ring, at), at, req);
            if Plausible(ring, c.fingerprint(req.pub), at.sender)
            then reply == RespondKeyreq(c, Met(c, ring, at, req), at, req, c.fingerprint(req.pub))
            else reply.response == None && reply.reciprocal == None && reply.ring ==
                 Counted(ring, at).(trustChanges :=
                   ring.trustChanges[(at.sender, req.channel) := WhatChanged(ring, c.fingerprint(req.pub))])
  {
    hide RespondKeyreq, Limiter.Allow;
    SuspiciousIff(ring, c.fingerprint(req.pub), at.sender);
    assert Classify(Counted(ring, at), c.fingerprint(req.pub), at.sender) ==
           Classify(ring, c.fingerprint(req.pub), at.sender);
  }

  /**
   * A KEYREQ is answered exactly if it parses, its sender's limit allows it, its signature verifies, its context is
   * enabled, nothing about its sender is suspicious, and a rule, an earlier session or the mode lets it be answered.
   */
  lemma AnsweredIff(c: Crypto, ring: Keyring, at: Arrival, body: string)
    ensures HandleKeyreq(c, ring, at, body).response.Some? <==>
            && ParseKeyreq(body).Some?
            && var req := ParseKeyreq(body).value;
            Proper(c, ring, at, req) && Plausible(ring, c.fingerprint(req.pub), at.sender)
            && Welcome(ring, at, req.channel)
  {
    hide ParseKeyreq, KeyreqPayload, JudgeKeyreq, RespondKeyreq, Limiter.Allow, HandleKeyreq, Plausible;
    if ParseKeyreq(body).Some? {
      var req := ParseKeyreq(body).value;
      KeyreqIs(c, ring, at, body);
      if Proper(c, ring, at, req) {
        JudgedIs(c, ring, at, req);
        RespondsIff(c, Met(c, ring, at, req), at, req, c.fingerprint(req.pub));
      }
    } else {
      Unparsed(c, ring, at, body);
    }
  }

  lemma Unparsed(c: Crypto, ring: Keyring, at: Arrival, body: string)
    requires ParseKeyreq(body).None?
    ensures HandleKeyreq(c, ring, at, body) == Reply(ring, None, None)
  {
    hide ParseKeyreq;
  }

  lemma RespondsIff(c: Crypto, ring: Keyring, at: Arrival, req: Keyreq, fp: Bytes)
    requires req.channel in ring.channels
    ensures RespondKeyreq(c, ring, at, req, fp).response.Some? <==> Welcome(ring, at, req.channel)
  {
    hide BuildKeyrsp, Reciprocal;
  }

  /**
   * All that a KEYREQ leaves when it is not answered, apart from the count against its sender's limit: nothing if it is
   * not in order; a note of what changed if its sender is suspicious; otherwise the peer, and in a context in normal
   * mode a session that waits for the user, without a key, and the request itself.
   */
  lemma UnansweredLeaves(c: Crypto, ring: Keyring, at: Arrival, body: string)
    requires ParseKeyreq(body).Some? && HandleKeyreq(c, ring, at, body).response.None?
    ensures var req, next := ParseKeyreq(body).value, HandleKeyreq(c, ring, at, body).ring;
            var fp, row := c.fingerprint(req.pub), (at.sender, req.channel);
            && HandleKeyreq(c, ring, at, body).reciprocal.None?
            && if !Proper(c, ring, at, req) then next == Counted(ring, at)
               else if !Plausible(ring, fp, at.sender) then
                 next == Counted(ring, at).(trustChanges := ring.trustChanges[row := WhatChanged(ring, fp)])
               else if ring.channels[req.channel].mode == "normal" then
                 next == Met(c, ring, at, req).(
                   incoming := ring.incoming[row := Session(fp, seq(32, _ => 0), Pending)],
                   pendingInbound := ring.pendingInbound[row := Inbound(req.pub, req.eph, req.nonce, req.sig)])
               else ring.channels[req.channel].mode == "quiet" && next == Met(c, ring, at, req)
  {
    hide ParseKeyreq, KeyreqPayload, JudgeKeyreq, RespondKeyreq, Limiter.Allow, HandleKeyreq, Plausible, Proper,
      WhatChanged, Met, Counted;
    ProperIsEnabled(c, ring, at, ParseKeyreq(body).value);
    var req := ParseKeyreq(body).value;
    KeyreqIs(c, ring, at, body);
    if Proper(c, ring, at, req) {
      JudgedIs(c, ring, at, req);
      if Plausible(ring, c.fingerprint(req.pub), at.sender) {
        RespondsIff(c, Met(c, ring, at, req), at, req, c.fingerprint(req.pub));
        HeldIs(c, Met(c, ring, at, req), at, req, c.fingerprint(req.pub));
      }
    }
  }

  lemma ProperIsEnabled(c: Crypto, ring: Keyring, at: Arrival, req: Keyreq)
    ensures Proper(c, ring, at, req) ==> req.channel in ring.channels
    ensures Met(c, ring, at, req) ==
            ring.(buckets := Met(c, ring, at, req).buckets, peers := Met(c, ring, at, req).peers)
  {
    hide Limiter.Allow, KeyreqPayload;
  }

  lemma HeldIs(c: Crypto, ring: Keyring, at: Arrival, req: Keyreq, fp: Bytes)
    requires req.channel in ring.channels && !Welcome(ring, at, req.channel)
    ensures var row := (at.sender, req.channel);
            RespondKeyreq(c, ring, at, req, fp) ==
            Reply(
              if ring.channels[req.channel].mode == "quiet" then ring
              else ring.(
                incoming := ring.incoming[row := Session(fp, seq(32, _ => 0), Pending)],
                pendingInbound := ring.pendingInbound[row := Inbound(req.pub, req.eph, req.nonce, req.sig)]),
              None, None)
  {
    hide BuildKeyrsp, Reciprocal;
    assert Zeros(KEY_LEN) == seq(32, _ => 0);
  }

  /** The key of a context: the one it has, unless that is marked, or else a new one. */
  function KeyOf(ring: Keyring, ctx: string, spare: Bytes): Bytes {
    if ctx in ring.outgoing && !ring.outgoing[ctx].pendingRotation then ring.outgoing[ctx].sk else spare
  }

  /**
   * What an answered KEYREQ leaves: its sender is a trusted peer under its handle and a recipient of the context, whose
   * key is settled; sessions and held requests are as they were.
   */
  lemma AnsweredLeaves(c: Crypto, ring: Keyring, at: Arrival, body: string)
    requires HandleKeyreq(c, ring, at, body).response.Some?
    ensures ParseKeyreq(body).Some?
    ensures var req, next := ParseKeyreq(body).value, HandleKeyreq(c, ring, at, body).ring;
            var fp := c.fingerprint(req.pub);
            && next.peers == ring.peers[fp := Peer(req.pub, at.sender, None, Trusted)]
            && next.recipients == ring.recipients[(req.channel, at.sender) := fp]
            && req.channel in next.outgoing && !next.outgoing[req.channel].pendingRotation
            && next.outgoing[req.channel].sk == KeyOf(ring, req.channel, at.rnd.outgoingKey)
            && next.incoming == ring.incoming && next.pendingInbound == ring.pendingInbound
            && next.buckets == Counted(ring, at).buckets
  {
    hide ParseKeyreq, KeyreqPayload, JudgeKeyreq, RespondKeyreq, Limiter.Allow, HandleKeyreq, Plausible, Proper,
      Welcome;
    AnsweredIff(c, ring, at, body);
    var req := ParseKeyreq(body).value;
    ProperIsEnabled(c, ring, at, req);
    KeyreqIs(c, ring, at, body);
    JudgedIs(c, ring, at, req);
    var met, fp := Met(c, ring, at, req), c.fingerprint(req.pub);
    RespondsIff(c, met, at, req, fp);
    AnswerTables(c, met, at, req, fp);
    assert met.peers[fp := Peer(req.pub, at.sender, None, Trusted)] ==
           ring.peers[fp := Peer(req.pub, at.sender, None, Trusted)];
  }

  /** The tables that asking back leaves alone. */
  predicate SameRest(ring: Keyring, next: Keyring) {
    && next.peers == ring.peers && next.recipients == ring.recipients && next.outgoing == ring.outgoing
    && next.incoming == ring.incoming && next.pendingInbound == ring.pendingInbound && next.buckets == ring.buckets
  }

  lemma AskingKeepsRest(c: Crypto, ring: Keyring, ctx: string, sender: string, rnd: Randoms, now: real)
    ensures var asked := AllowOutgoingKeyreq(ring, sender, now).0;
            && SameRest(ring, asked)
            && var made := BuildKeyreq(c, asked, ctx, sender, rnd, now.Floor);
            made.Some? ==> SameRest(ring, made.value.0)
  {
    hide KeyreqMessage, KeyreqBody;
  }

  lemma AskingBackKeepsRest(
    c: Crypto, ring: Keyring, channel: string, sender: string, own: string, rnd: Randoms, now: real)
    ensures SameRest(ring, Reciprocal(c, ring, channel, sender, own, rnd, now).0)
  {
    hide BuildKeyreq, AllowOutgoingKeyreq, SameRest;
    AskingKeepsRest(c, ring, "", sender, rnd, now);
    var ctx := ReciprocalCtx(channel, own);
    if ctx.Some? {
      AskingKeepsRest(c, ring, ctx.value, sender, rnd, now);
    } else {
      SameAsItself(ring);
    }
  }

  lemma SameAsItself(ring: Keyring)
    ensures SameRest(ring, ring)
  {
  }

  lemma AnswerTables(c: Crypto, ring: Keyring, at: Arrival, req: Keyreq, fp: Bytes)
    requires req.channel in ring.channels && fp == c.fingerprint(req.pub)
    requires RespondKeyreq(c, ring, at, req, fp).response.Some?
    ensures var next := RespondKeyreq(c, ring, at, req, fp).ring;
            && next.peers == ring.peers[fp := Peer(req.pub, at.sender, None, Trusted)]
            && next.recipients == ring.recipients[(req.channel, at.sender) := fp]
            && req.channel in next.outgoing && !next.outgoing[req.channel].pendingRotation
            && next.outgoing[req.channel].sk == KeyOf(ring, req.channel, at.rnd.outgoingKey)
            && next.incoming == ring.incoming && next.pendingInbound == ring.pendingInbound
            && next.buckets == ring.buckets
  {
    PeerTables.AnswerIs(c, ring, req.channel, at.sender, req.pub, req.eph, at.rnd);
    KeyIs(ring, req.channel, at.rnd.outgoingKey);
    AnswerThenAsk(c, ring, at, req, fp);
    hide RespondKeyreq, BuildKeyrsp, GetOutgoingKey, Reciprocal, KeyOf;
    var answered := BuildKeyrsp(c, ring, req.channel, at.sender, req.pub, req.eph, at.rnd).0;
    AskingBackKeepsRest(c, answered, req.channel, at.sender, at.own, at.rnd2, at.now);
  }

  lemma KeyIs(ring: Keyring, ctx: string, spare: Bytes)
    ensures var keyed := GetOutgoingKey(ring, ctx, spare).0;
            && keyed == ring.(outgoing := keyed.outgoing)
            && ctx in keyed.outgoing && keyed.outgoing[ctx] == OutgoingKey(KeyOf(ring, ctx, spare), false)
  {
  }

  lemma AnswerThenAsk(c: Crypto, ring: Keyring, at: Arrival, req: Keyreq, fp: Bytes)
    requires req.channel in ring.channels && RespondKeyreq(c, ring, at, req, fp).response.Some?
    ensures var answered := BuildKeyrsp(c, ring, req.channel, at.sender, req.pub, req.eph, at.rnd).0;
            RespondKeyreq(c, ring, at, req, fp).ring ==
            Reciprocal(c, answered, req.channel, at.sender, at.own, at.rnd2, at.now).0
  {
    hide BuildKeyrsp, Reciprocal, Zeros;
  }

  // ----- KEYRSP and REKEY -----

  predicate Signed(c: Crypto, kind: string, m: Wrapped) {
    c.verify(m.pub, WrappedPayload(kind, m.channel, m.pub, m.eph, m.wrapNonce, m.wrapCt, m.nonce), m.sig)
  }

  /** The pending request that a KEYRSP answers: one to this sender before one to anyone. */
  predicate AnswersKey(ring: Keyring, ctx: string, sender: string, key: string) {
    key in ring.pending &&
    (key == PendingKey(ctx, sender) || (key == ctx && PendingKey(ctx, sender) !in ring.pending))
  }

  /** The session key in the message, for the holder of this scalar. */
  predicate Holds(c: Crypto, scalar: Bytes, info: string, m: Wrapped, sk: Bytes) {
    && |sk| == 32
    && c.open(c.derive(c.agree(scalar, m.eph), Encode(info)), m.wrapNonce, Encode(info), m.wrapCt) == Some(sk)
  }

  lemma HoldsIff(c: Crypto, scalar: Bytes, info: string, m: Wrapped, sk: Bytes)
    ensures UnwrapKey(c, scalar, Encode(info), m) == Some(sk) <==> Holds(c, scalar, info, m, sk)
  {
    hide Encode;
  }

  /** What installing a session for this message leaves, in the row and with the peer. */
  function Installed(c: Crypto, ring: Keyring, sender: string, m: Wrapped, sk: Bytes): Keyring {
    ring.(incoming := ring.incoming[(sender, m.channel) := Session(c.fingerprint(m.pub), sk, Trusted)])
  }

  /** The KEYRSP answers this pending request, is in order, and carries this session key. */
  predicate Answers(c: Crypto, ring: Keyring, sender: string, m: Wrapped, key: string, sk: Bytes) {
    && Signed(c, "KEYRSP", m) && AnswersKey(ring, m.channel, sender, key)
    && Holds(c, ring.pending[key].ephSk, "RPE2E01-WRAP:" + m.channel, m, sk)
    && Plausible(ring, c.fingerprint(m.pub), sender) && RowTakes(ring, sender, m.channel, c.fingerprint(m.pub))
  }

  lemma KeyrspIs(c: Crypto, ring: Keyring, sender: string, body: string, m: Wrapped)
    requires ParseWrapped("KEYRSP", body) == Some(m)
    ensures var key := AnsweredKeyreq(ring, m.channel, sender);
            HandleKeyrsp(c, ring, sender, body) ==
            if !Signed(c, "KEYRSP", m) || key.None? then (ring, false)
            else
              var used := ring.(pending := ring.pending - {key.value});
              match UnwrapKey(c, ring.pending[key.value].ephSk, WrapInfo(m.channel), m)
              case None => (used, false)
              case Some(sk) => AcceptKeyrsp(c, used, sender, m, sk)
  {
    hide ParseWrapped, WrappedPayload, UnwrapKey, WrapInfo, AcceptKeyrsp, PendingKey;
  }

  /**
   * A KEYRSP installs a session exactly if it parses and verifies, answers a pending request, carries a whole key for
   * it, its sender is not suspicious and the row is free. Then the request is used up, row and peer hold the new
   * session and its owner, and nothing else changes.
   */
  lemma KeyrspInstallsIff(c: Crypto, ring: Keyring, sender: string, body: string)
    ensures HandleKeyrsp(c, ring, sender, body).1 <==>
            ParseWrapped("KEYRSP", body).Some? &&
            exists key, sk :: Answers(c, ring, sender, ParseWrapped("KEYRSP", body).value, key, sk)
    ensures ParseWrapped("KEYRSP", body).Some? ==>
              var m := ParseWrapped("KEYRSP", body).value;
              forall key, sk | Answers(c, ring, sender, m, key, sk) ::
                HandleKeyrsp(c, ring, sender, body).0 ==
                Installed(c, ring, sender, m, sk).(
                  pending := ring.pending - {key},
                  peers := ring.peers[c.fingerprint(m.pub) := Peer(m.pub, sender, None, Trusted)])
  {
    hide ParseWrapped, WrappedPayload, UnwrapKey, Encode, Classify, PendingKey, HandleKeyrsp, AcceptKeyrsp, Holds,
      Plausible, Signed;
    if ParseWrapped("KEYRSP", body).Some? {
      var m := ParseWrapped("KEYRSP", body).value;
      var key := AnsweredKeyreq(ring, m.channel, sender);
      AnsweredIs(ring, m.channel, sender);
      KeyrspIs(c, ring, sender, body, m);
      if Signed(c, "KEYRSP", m) && key.Some? {
        var used := ring.(pending := ring.pending - {key.value});
        SamePlausible(ring, used, c.fingerprint(m.pub), sender);
        var found := UnwrapKey(c, ring.pending[key.value].ephSk, WrapInfo(m.channel), m);
        forall sk
          ensures found == Some(sk) <==> Holds(c, ring.pending[key.value].ephSk, "RPE2E01-WRAP:" + m.channel, m, sk)
        {
          HoldsIff(c, ring.pending[key.value].ephSk, "RPE2E01-WRAP:" + m.channel, m, sk);
        }
        if found.Some? {
          AcceptIs(c, used, sender, m, found.value);
          assert HandleKeyrsp(c, ring, sender, body).1 ==> Answers(c, ring, sender, m, key.value, found.value);
        }
      }
    } else {
      UnparsedKeyrsp(c, ring, sender, body);
    }
  }

  lemma UnparsedKeyrsp(c: Crypto, ring: Keyring, sender: string, body: string)
    requires ParseWrapped("KEYRSP", body).None?
    ensures HandleKeyrsp(c, ring, sender, body) == (ring, false)
  {
    hide ParseWrapped;
  }

  lemma SamePlausible(ring: Keyring, next: Keyring, fp: Bytes, handle: string)
    requires next == ring.(pending := next.pending)
    ensures Plausible(next, fp, handle) <==> Plausible(ring, fp, handle)
  {
  }

  lemma AnsweredIs(ring: Keyring, ctx: string, sender: string)
    ensures forall key :: AnsweredKeyreq(ring, ctx, sender) == Some(key) <==> AnswersKey(ring, ctx, sender, key)
  {
  }

  lemma AcceptIs(c: Crypto, ring: Keyring, sender: string, m: Wrapped, sk: Bytes)
    ensures var (next, ok) := AcceptKeyrsp(c, ring, sender, m, sk);
            var fp := c.fingerprint(m.pub);
            && (ok <==> Plausible(ring, fp, sender) && RowTakes(ring, sender, m.channel, fp))
            && (ok ==> next == Installed(c, ring, sender, m, sk).(
                  peers := ring.peers[fp := Peer(m.pub, sender, None, Trusted)]))
  {
    SuspiciousIff(ring, c.fingerprint(m.pub), sender);
    hide Classify;
  }

  /** The REKEY comes from a known peer, is in order, and carries this session key. */
  predicate Renews(c: Crypto, ring: Keyring, sender: string, m: Wrapped, sk: Bytes) {
    && Signed(c, "REKEY", m) && c.fingerprint(m.pub) in ring.peers
    && Plausible(ring, c.fingerprint(m.pub), sender) && RowTakes(ring, sender, m.channel, c.fingerprint(m.pub))
    && Holds(c, c.secretToX25519(ring.identity.sk, ring.identity.pk), "RPE2E01-REKEY:" + m.channel, m, sk)
  }

  /**
   * A REKEY installs a session exactly if it parses and verifies, comes from a known peer that is neither revoked nor
   * under another handle, carries a whole key for us, and the row is free. Then only the row changes.
   */
  lemma RekeyInstallsExactly(c: Crypto, ring: Keyring, sender: string, body: string)
    ensures HandleRekey(c, ring, sender, body).1 <==>
            ParseWrapped("REKEY", body).Some? &&
            exists sk :: Renews(c, ring, sender, ParseWrapped("REKEY", body).value, sk)
    ensures ParseWrapped("REKEY", body).Some? ==>
              var m := ParseWrapped("REKEY", body).value;
              forall sk | Renews(c, ring, sender, m, sk) ::
                HandleRekey(c, ring, sender, body).0 == Installed(c, ring, sender, m, sk)
  {
    hide ParseWrapped, WrappedPayload, UnwrapKey, Encode, Classify, Holds, Plausible;
    if ParseWrapped("REKEY", body).Some? {
      var m := ParseWrapped("REKEY", body).value;
      var fp := c.fingerprint(m.pub);
      SuspiciousIff(ring, fp, sender);
      var scalar := c.secretToX25519(ring.identity.sk, ring.identity.pk);
      var found := UnwrapKey(c, scalar, RekeyInfo(m.channel), m);
      forall sk
        ensures found == Some(sk) <==> Holds(c, scalar, "RPE2E01-REKEY:" + m.channel, m, sk)
      {
        HoldsIff(c, scalar, "RPE2E01-REKEY:" + m.channel, m, sk);
      }
      assert WrappedVerifies(c, "REKEY", m) <==> Signed(c, "REKEY", m);
      if HandleRekey(c, ring, sender, body).1 {
        assert Renews(c, ring, sender, m, found.value);
      }
    }
  }

  // ----- lines -----

  /** Without its first `j` characters, all status prefixes, the target is this channel name. */
  predicate Stripped(target: string, j: nat, ctx: string) {
    && j <= |target| && ctx == target[j..] && ctx != "" && ctx[0] in "#&!+"
    && forall i | 0 <= i < j :: target[i] in "@%+&~"
  }

  /** The target can mean this channel. */
  ghost predicate Channel(target: string, ctx: string) { exists j: nat :: Stripped(target, j, ctx) }

  lemma ReadingsAre(target: string)
    ensures forall ctx :: ctx in Readings(target) <==> Channel(target, ctx)
    ensures forall a, b | 0 <= a < b < |Readings(target)| :: |Readings(target)[a]| < |Readings(target)[b]|
  {
    ReadingsExact(target);
    forall j: nat, r
      ensures Stripped(target, j, r) <==> IsReading(target, j, r)
    {
      StrippedIff(target, j, r);
    }
    hide Readings, IsReading, Stripped;
  }

  lemma StrippedIff(target: string, j: nat, ctx: string)
    ensures Stripped(target, j, ctx) <==> IsReading(target, j, ctx)
  {
  }

  /** What a target can mean to us: a channel, or for a direct message our own handle. */
  ghost predicate MeantBy(target: string, own: string, ctx: string) {
    Channel(target, ctx) || ((forall r :: !Channel(target, r)) && own != "" && ctx == "@" + own)
  }

  lemma ContextsAre(target: string, own: string)
    ensures forall ctx :: ctx in ContextsOf(target, own) <==> MeantBy(target, own, ctx)
    ensures forall a, b | 0 <= a < b < |ContextsOf(target, own)| ::
              |ContextsOf(target, own)[a]| < |ContextsOf(target, own)[b]|
  {
    ReadingsAre(target);
    hide Readings, Channel;
    if Readings(target) != [] {
      assert Readings(target)[0] in Readings(target);
    }
  }

  /** The trusted session a line is read with: of several, that of the shortest context. */
  ghost predicate ReadUnder(ring: Keyring, handle: string, target: string, own: string, ctx: string) {
    && MeantBy(target, own, ctx) && Trusts(ring, handle, ctx)
    && forall other | MeantBy(target, own, other) && Trusts(ring, handle, other) :: |ctx| <= |other|
  }

  /** The line opens to these bytes under the session of this context, as the very part it says it is. */
  predicate OpensTo(c: Crypto, ring: Keyring, handle: string, ctx: string, w: Wire, bytes: Bytes) {
    && Trusts(ring, handle, ctx)
    && var aad := BuildAad(ctx, w.msgid, w.ts, w.part, w.total);
    aad.Some? && c.open(ring.incoming[(handle, ctx)].sk, w.nonce, aad.value, w.ct) == Some(bytes)
  }

  predicate Timely(w: Wire, now: real) { w.total <= 16 && -300 <= now.Floor - w.ts <= 300 }

  lemma {:induction false} FirstTrustedIs(ring: Keyring, handle: string, contexts: seq<string>, default: string)
    requires forall a, b | 0 <= a < b < |contexts| :: |contexts[a]| < |contexts[b]|
    ensures var ctx := FirstTrusted(ring, handle, contexts, default);
            if exists t | t in contexts :: Trusts(ring, handle, t)
            then ctx in contexts && Trusts(ring, handle, ctx)
                 && forall t | t in contexts && Trusts(ring, handle, t) :: |ctx| <= |t|
            else ctx == default
  {
    if contexts != [] {
      var rest := contexts[1..];
      assert forall t | t in contexts :: t == contexts[0] || t in rest;
      assert forall t | t in rest :: t in contexts;
      assert forall a | 0 <= a < |rest| :: rest[a] == contexts[a + 1];
      assert IsTrusted(ring, handle, contexts[0]) <==> Trusts(ring, handle, contexts[0]);
      hide Trusts, IsTrusted;
      FirstTrustedIs(ring, handle, rest, default);
      forall t | t in rest
        ensures |contexts[0]| <= |t|
      {
        var i :| 0 <= i < |rest| && rest[i] == t;
      }
    }
  }

  lemma ChooseIs(ring: Keyring, handle: string, contexts: seq<string>)
    requires contexts != [] && forall a, b | 0 <= a < b < |contexts| :: |contexts[a]| < |contexts[b]|
    ensures var ctx := ChooseContext(ring, handle, contexts);
            && ctx in contexts
            && if exists t | t in contexts :: Trusts(ring, handle, t)
               then Trusts(ring, handle, ctx) && forall t | t in contexts && Trusts(ring, handle, t) :: |ctx| <= |t|
               else forall t | t in contexts :: |ctx| <= |t|
  {
    var rest := contexts[1..];
    assert contexts[0] in contexts && forall t | t in contexts :: t == contexts[0] || t in rest;
    assert forall t | t in rest :: t in contexts;
    assert forall t | t in contexts :: |contexts[0]| <= |t|;
    assert IsTrusted(ring, handle, contexts[0]) <==> Trusts(ring, handle, contexts[0]);
    FirstTrustedIs(ring, handle, rest, contexts[0]);
    hide Trusts, IsTrusted, FirstTrusted;
  }

  lemma ChosenIs(ring: Keyring, handle: string, target: string, own: string)
    requires ContextsOf(target, own) != []
    ensures var ctx := ChooseContext(ring, handle, ContextsOf(target, own));
            if exists t :: MeantBy(target, own, t) && Trusts(ring, handle, t)
            then ReadUnder(ring, handle, target, own, ctx)
            else !Trusts(ring, handle, ctx) && MeantBy(target, own, ctx)
                 && forall t | MeantBy(target, own, t) :: |ctx| <= |t|
  {
    ContextsAre(target, own);
    ChooseIs(ring, handle, ContextsOf(target, own));
    hide MeantBy, ContextsOf, ChooseContext, Trusts;
  }

  /** Only one session can be the one a line is read with. */
  lemma ReadUnderIsOne(ring: Keyring, handle: string, target: string, own: string, a: string, b: string)
    requires ReadUnder(ring, handle, target, own, a) && ReadUnder(ring, handle, target, own, b)
    ensures a == b
  {
    ContextsAre(target, own);
    hide MeantBy, ContextsOf;
    var contexts := ContextsOf(target, own);
    assert a in contexts && b in contexts;
  }

  ghost predicate ReadsAs(
    c: Crypto, ring: Keyring, handle: string, target: string, own: string, w: Wire, text: string)
  {
    exists ctx, bytes | ReadUnder(ring, handle, target, own, ctx) && OpensTo(c, ring, handle, ctx, w, bytes) ::
      Decode(bytes) == Some(text)
  }

  predicate CtcpRequest(text: string) {
    text != "" && text[0] == '\U{01}' && !(|text| >= 8 && text[..8] == "\U{01}ACTION ")
  }

  /**
   * A text is shown exactly if the line is timely and opens to it under the trusted session of the shortest context its
   * target can mean, and is no CTCP request. What is shown, or garbled, changes nothing; a line that is late, or of too
   * many parts, changes nothing and shows nothing.
   */
  lemma ShownIff(
    c: Crypto, ring: Keyring, handle: string, target: string, own: string, w: Wire, rnd: Randoms, now: real,
    text: string)
    ensures var (next, delivery) := HandleWire(c, ring, handle, target, own, w, rnd, now);
            && (delivery == Shown(text) <==>
                Timely(w, now) && !CtcpRequest(text) && ReadsAs(c, ring, handle, target, own, w, text))
            && (!delivery.Asked? ==> next == ring)
            && (!Timely(w, now) ==> delivery == Dropped)
  {
    hide Decode, BuildAad, ContextsOf, MeantBy, ChooseContext, BuildKeyreq, AllowOutgoingKeyreq;
    ContextsAre(target, own);
    var contexts := ContextsOf(target, own);
    if Timely(w, now) && contexts != [] {
      ChosenIs(ring, handle, target, own);
      var ctx := ChooseContext(ring, handle, contexts);
      if Trusts(ring, handle, ctx) {
        OpenedIff(c, ring, handle, ctx, w, text);
        forall other | ReadUnder(ring, handle, target, own, other)
          ensures other == ctx
        {
          ReadUnderIsOne(ring, handle, target, own, other, ctx);
        }
      }
    }
  }

  lemma OpenedIff(c: Crypto, ring: Keyring, handle: string, ctx: string, w: Wire, text: string)
    requires Trusts(ring, handle, ctx)
    ensures OpenWire(c, ring.incoming[(handle, ctx)].sk, ctx, w) == Shown(text) <==>
            !CtcpRequest(text) && exists bytes :: OpensTo(c, ring, handle, ctx, w, bytes) && Decode(bytes) == Some(text)
  {
    hide Decode, BuildAad;
    assert Withheld(text) <==> CtcpRequest(text);
  }

  /** Bytes that are not UTF-8 come out of the very same test. */
  lemma GarbledIff(
    c: Crypto, ring: Keyring, handle: string, target: string, own: string, w: Wire, rnd: Randoms, now: real,
    bytes: Bytes)
    ensures HandleWire(c, ring, handle, target, own, w, rnd, now).1 == Garbled(bytes) <==>
            Timely(w, now) && Decode(bytes) == None &&
            exists ctx :: ReadUnder(ring, handle, target, own, ctx) && OpensTo(c, ring, handle, ctx, w, bytes)
  {
    hide Decode, BuildAad, ContextsOf, MeantBy, ChooseContext, BuildKeyreq, AllowOutgoingKeyreq;
    ContextsAre(target, own);
    var contexts := ContextsOf(target, own);
    if Timely(w, now) && contexts != [] {
      ChosenIs(ring, handle, target, own);
      var ctx := ChooseContext(ring, handle, contexts);
      if Trusts(ring, handle, ctx) {
        forall other | ReadUnder(ring, handle, target, own, other)
          ensures other == ctx
        {
          ReadUnderIsOne(ring, handle, target, own, other, ctx);
        }
      }
    }
  }

  // ----- asking -----

  function LastAsked(ring: Keyring, handle: string): real {
    if handle in ring.keyreqSentAt then ring.keyreqSentAt[handle] else 0.0
  }

  function RequestKey(ctx: string, handle: string): string {
    if handle == "" then ctx else ctx + "\U{1F}" + handle
  }

  /** The handle's clock starts, and the request is stored with the secret that its answer is for. */
  function Clocked(ring: Keyring, handle: string, now: real): Keyring {
    ring.(keyreqSentAt := ring.keyreqSentAt[handle := now])
  }

  function Requested(ring: Keyring, ctx: string, handle: string, rnd: Randoms, now: int): Keyring {
    ring.(pending := ring.pending[RequestKey(ctx, handle) := PendingKeyreq(rnd.ephSk, now)])
  }

  /** No request to this handle in this context is younger than its lifetime. */
  predicate NoneOpen(ring: Keyring, ctx: string, handle: string, now: int) {
    var key := RequestKey(ctx, handle);
    key in ring.pending ==> now - ring.pending[key].createdAt >= 120
  }

  /** `build_keyreq` makes a request exactly if none is open. */
  lemma RequestsIff(c: Crypto, ring: Keyring, ctx: string, handle: string, rnd: Randoms, now: int)
    ensures BuildKeyreq(c, ring, ctx, handle, rnd, now).Some? <==> NoneOpen(ring, ctx, handle, now)
    ensures NoneOpen(ring, ctx, handle, now) ==>
              BuildKeyreq(c, ring, ctx, handle, rnd, now).value ==
              (Requested(ring, ctx, handle, rnd, now), Frame(KeyreqBody(KeyreqMessage(c, ring.identity, ctx, rnd))))
  {
    hide KeyreqMessage, KeyreqBody;
  }

  ghost predicate Shortest(target: string, own: string, ctx: string) {
    MeantBy(target, own, ctx) && forall other | MeantBy(target, own, other) :: |ctx| <= |other|
  }

  /**
   * A line is answered with a KEYREQ exactly if it is timely, no context of its target has a trusted session for its
   * sender, 30 seconds have passed since the last such request to that sender, and none is open; the request is for the
   * shortest context, and it is stored. Nothing else changes but the clock of that sender.
   */
  lemma AsksIff(
    c: Crypto, ring: Keyring, handle: string, target: string, own: string, w: Wire, rnd: Randoms, now: real)
    ensures var (next, delivery) := HandleWire(c, ring, handle, target, own, w, rnd, now);
            && (delivery.Asked? <==>
                  && Timely(w, now) && (exists ctx :: MeantBy(target, own, ctx))
                  && forall ctx | MeantBy(target, own, ctx) :: !Trusts(ring, handle, ctx))
            && (delivery.Asked? ==> exists ctx | Shortest(target, own, ctx) ::
                  (next, delivery.keyreq) ==
                  if now - LastAsked(ring, handle) < 30.0 then (ring, None)
                  else if !NoneOpen(ring, ctx, handle, now.Floor) then (Clocked(ring, handle, now), None)
                  else (Requested(Clocked(ring, handle, now), ctx, handle, rnd, now.Floor),
                        Some(Frame(KeyreqBody(KeyreqMessage(c, ring.identity, ctx, rnd))))))
  {
    hide Decode, BuildAad, ContextsOf, MeantBy, ChooseContext, KeyreqMessage, KeyreqBody, OpenWire, BuildKeyreq,
      AllowOutgoingKeyreq, Frame;
    assert Timely(w, now) <==> !(w.total > 16 || Abs(now.Floor - w.ts) > TS_TOLERANCE);
    ContextsAre(target, own);
    var contexts := ContextsOf(target, own);
    if Timely(w, now) && contexts != [] {
      ChosenIs(ring, handle, target, own);
      assert contexts[0] in contexts && MeantBy(target, own, contexts[0]);
      var ctx := ChooseContext(ring, handle, contexts);
      if Trusts(ring, handle, ctx) {
        assert MeantBy(target, own, ctx);
        OpeningAsksNot(c, ring.incoming[(handle, ctx)].sk, ctx, w);
      } else {
        assert Shortest(target, own, ctx);
        RequestsIff(c, AllowOutgoingKeyreq(ring, handle, now).0, ctx, handle, rnd, now.Floor);
        AllowedIff(ring, handle, now);
      }
    } else if contexts == [] {
      assert forall ctx :: !MeantBy(target, own, ctx);
    }
  }

  lemma OpeningAsksNot(c: Crypto, sk: Bytes, ctx: string, w: Wire)
    ensures !OpenWire(c, sk, ctx, w).Asked?
  {
    hide BuildAad, Decode;
  }

  lemma AllowedIff(ring: Keyring, handle: string, now: real)
    ensures var (asked, allow) := AllowOutgoingKeyreq(ring, handle, now);
            && (allow <==> now - LastAsked(ring, handle) >= 30.0)
            && (allow ==> asked == Clocked(ring, handle, now))
            && (!allow ==> asked == ring)
  {
  }

  /** The context in which a KEYREQ is asked back: that of a channel, or for a direct message our own handle. */
  predicate AskedBackIn(channel: string, own: string, ctx: string) {
    if channel != "" && channel[0] in "#&!+" then ctx == channel else own != "" && ctx == "@" + own
  }

  predicate NoneStored(ring: Keyring, ctx: string, handle: string) {
    RequestKey(ctx, handle) !in ring.pending
  }

  /**
   * A KEYREQ is asked back exactly if our own context is known, no request to this handle is stored, no session with it
   * is trusted yet, and 30 seconds have passed since the last request to it. Then the request is stored; nothing else
   * changes but the clock of that handle.
   */
  lemma AskedBackIff(
    c: Crypto, ring: Keyring, channel: string, sender: string, own: string, rnd: Randoms, now: real)
    ensures var (next, text) := Reciprocal(c, ring, channel, sender, own, rnd, now);
            && (text.Some? <==>
                now - LastAsked(ring, sender) >= 30.0 && exists ctx | AskedBackIn(channel, own, ctx) ::
                  NoneStored(ring, ctx, sender) && !Trusts(ring, sender, ctx))
            && (text.Some? ==> exists ctx | AskedBackIn(channel, own, ctx) ::
                  && text == Some(Frame(KeyreqBody(KeyreqMessage(c, ring.identity, ctx, rnd))))
                  && next == Requested(Clocked(ring, sender, now), ctx, sender, rnd, now.Floor))
            && (text.None? ==> next == ring || next == Clocked(ring, sender, now))
  {
    hide KeyreqMessage, KeyreqBody, Frame, BuildKeyreq, AllowOutgoingKeyreq;
    var found := ReciprocalCtx(channel, own);
    assert forall ctx :: AskedBackIn(channel, own, ctx) <==> found == Some(ctx);
    if found.Some? {
      assert AskedBackIn(channel, own, found.value);
      AllowedIff(ring, sender, now);
      RequestsIff(c, AllowOutgoingKeyreq(ring, sender, now).0, found.value, sender, rnd, now.Floor);
    }
  }
}
