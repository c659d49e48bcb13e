/**
 * What received messages, whoever sent them and whatever they hold, can do to the tables a running conversation stands
 * on: the peers, the recipients, the outgoing keys and the row of a trusted session.
 */
module PeerTables {
  import opened Wrappers
  import opened Utf8
  import opened Cryptos
  import opened Wires
  import opened Handshakes
  import opened Keyrings
  import opened KeyringRuns

  /** The peer of a message's key is entered under its sender's handle, having been found not suspicious. */
  predicate Meets(c: Crypto, ring: Keyring, next: Keyring, sender: string, pub: Bytes, peer: Peer) {
    && next.peers == ring.peers[c.fingerprint(pub) := peer]
    && peer.pk == pub && peer.lastHandle == sender && peer.status != Revoked
    && !Suspicious(Classify(ring, c.fingerprint(pub), sender))
  }

  ghost predicate MayMeet(c: Crypto, ring: Keyring, next: Keyring, sender: string, pub: Bytes) {
    next.peers == ring.peers || exists peer :: Meets(c, ring, next, sender, pub, peer)
  }

  predicate MayList(c: Crypto, ring: Keyring, next: Keyring, ctx: string, sender: string, pub: Bytes) {
    next.recipients == ring.recipients || next.recipients == ring.recipients[(ctx, sender) := c.fingerprint(pub)]
  }

  predicate KeysOnly(ring: Keyring, next: Keyring, ctx: string) {
    forall other | other in ring.outgoing && other != ctx ::
      other in next.outgoing && next.outgoing[other] == ring.outgoing[other]
  }

  /** The three tables are as they were. */
  predicate SameLists(ring: Keyring, next: Keyring) {
    next.peers == ring.peers && next.recipients == ring.recipients && next.outgoing == ring.outgoing
  }

  // ----- requests -----

  lemma AskLists(c: Crypto, ring: Keyring, channel: string, handle: string, rnd: Randoms, now: int)
    ensures var sent := BuildKeyreq(c, ring, channel, handle, rnd, now);
            sent.Some? ==> SameLists(ring, sent.value.0)
  {
    hide KeyreqMessage, KeyreqBody;
  }

  lemma AllowLists(ring: Keyring, handle: string, now: real)
    ensures SameLists(ring, AllowOutgoingKeyreq(ring, handle, now).0)
  {
    var next := AllowOutgoingKeyreq(ring, handle, now).0;
    assert next == ring.(keyreqSentAt := next.keyreqSentAt);
    hide AllowOutgoingKeyreq;
  }

  lemma AskedLists(
    c: Crypto, ring: Keyring, channel: string, handle: string, rnd: Randoms, now: real)
    ensures var asked := AllowOutgoingKeyreq(ring, handle, now).0;
            && SameLists(ring, asked)
            && var sent := BuildKeyreq(c, asked, channel, handle, rnd, now.Floor);
            sent.Some? ==> SameLists(ring, sent.value.0)
  {
    hide AllowOutgoingKeyreq, BuildKeyreq;
    AllowLists(ring, handle, now);
    AskLists(c, AllowOutgoingKeyreq(ring, handle, now).0, channel, handle, rnd, now.Floor);
  }

  lemma ReciprocalLists(
    c: Crypto, ring: Keyring, channel: string, sender: string, own: string, rnd: Randoms, now: real)
    ensures SameLists(ring, Reciprocal(c, ring, channel, sender, own, rnd, now).0)
  {
    hide BuildKeyreq, PendingKey, IsTrusted, AllowOutgoingKeyreq, SameLists, ReciprocalCtx;
    var ctx := ReciprocalCtx(channel, own);
    ItsOwnLists(ring);
    if ctx.Some? {
      AskedLists(c, ring, ctx.value, sender, rnd, now);
    }
  }

  lemma ItsOwnLists(ring: Keyring)
    ensures SameLists(ring, ring)
  {
  }

  lemma WireLists(
    c: Crypto, ring: Keyring, handle: string, target: string, own: string, w: Wire, rnd: Randoms, now: real)
    ensures SameLists(ring, HandleWire(c, ring, handle, target, own, w, rnd, now).0)
  {
    hide BuildKeyreq, IsTrusted, OpenWire, ChooseContext, ContextsOf, AllowOutgoingKeyreq, SameLists;
    var contexts := ContextsOf(target, own);
    ItsOwnLists(ring);
    if contexts != [] {
      AskedLists(c, ring, ChooseContext(ring, handle, contexts), handle, rnd, now);
    }
  }

  /** What an answer does to the three tables. */
  lemma AnswerLists(
    c: Crypto, ring: Keyring, channel: string, sender: string, pub: Bytes, eph: Bytes, rnd: Randoms)
    ensures var next := BuildKeyrsp(c, ring, channel, sender, pub, eph, rnd).0;
            && next.peers == ring.peers[c.fingerprint(pub) := Peer(pub, sender, None, Trusted)]
            && next.recipients == ring.recipients[(channel, sender) := c.fingerprint(pub)]
            && KeysOnly(ring, next, channel)
  {
    GetterLists(ring, channel, rnd.outgoingKey);
    AnswerIs(c, ring, channel, sender, pub, eph, rnd);
    hide GetOutgoingKey, BuildKeyrsp;
  }

  lemma GetterLists(ring: Keyring, channel: string, spare: Bytes)
    ensures var keyed := GetOutgoingKey(ring, channel, spare).0;
            keyed == ring.(outgoing := keyed.outgoing) && KeysOnly(ring, keyed, channel)
  {
    var keyed := GetOutgoingKey(ring, channel, spare).0;
    if channel in ring.outgoing && !ring.outgoing[channel].pendingRotation {
      assert keyed == ring;
    } else {
      assert keyed == ring.(outgoing := ring.outgoing[channel := OutgoingKey(spare, false)]);
    }
    hide GetOutgoingKey;
  }

  lemma AnswerIs(c: Crypto, ring: Keyring, channel: string, sender: string, pub: Bytes, eph: Bytes, rnd: Randoms)
    ensures var keyed := GetOutgoingKey(ring, channel, rnd.outgoingKey).0;
            BuildKeyrsp(c, ring, channel, sender, pub, eph, rnd).0 ==
            keyed.(peers := keyed.peers[c.fingerprint(pub) := Peer(pub, sender, None, Trusted)],
                   recipients := keyed.recipients[(channel, sender) := c.fingerprint(pub)])
  {
    hide WrapKey, WrappedBody, Frame, GetOutgoingKey;
  }

  lemma RespondLists(c: Crypto, ring: Keyring, at: Arrival, req: Keyreq, fp: Bytes)
    requires req.channel in ring.channels
    ensures var next := RespondKeyreq(c, ring, at, req, fp).ring;
            || SameLists(ring, next)
            || (next.peers == ring.peers[c.fingerprint(req.pub) := Peer(req.pub, at.sender, None, Trusted)]
                && next.recipients == ring.recipients[(req.channel, at.sender) := c.fingerprint(req.pub)]
                && KeysOnly(ring, next, req.channel))
  {
    hide BuildKeyrsp, Reciprocal, Zeros, IsTrusted, SameLists, KeysOnly;
    var next := RespondKeyreq(c, ring, at, req, fp).ring;
    if RespondKeyreq(c, ring, at, req, fp).response.None? {
      HeldLists(ring, next);
    } else {
      AnswerLists(c, ring, req.channel, at.sender, req.pub, req.eph, at.rnd);
      var answered := BuildKeyrsp(c, ring, req.channel, at.sender, req.pub, req.eph, at.rnd).0;
      ReciprocalLists(c, answered, req.channel, at.sender, at.own, at.rnd2, at.now);
      KeysOnlyAfter(ring, answered, next, req.channel);
    }
  }

  lemma HeldLists(ring: Keyring, next: Keyring)
    requires next == ring.(incoming := next.incoming, pendingInbound := next.pendingInbound)
    ensures SameLists(ring, next)
  {
  }

  lemma KeysOnlyAfter(ring: Keyring, mid: Keyring, next: Keyring, channel: string)
    requires KeysOnly(ring, mid, channel) && SameLists(mid, next)
    ensures KeysOnly(ring, next, channel) && next.peers == mid.peers && next.recipients == mid.recipients
  {
  }

  /** The effect of a request: its sender may be entered as a peer and a recipient, and its context may get a key. */
  ghost predicate RequestLists(c: Crypto, ring: Keyring, next: Keyring, req: Keyreq, sender: string) {
    && MayMeet(c, ring, next, sender, req.pub) && MayList(c, ring, next, req.channel, sender, req.pub)
    && KeysOnly(ring, next, req.channel)
  }

  lemma SameIsRequest(c: Crypto, ring: Keyring, next: Keyring, req: Keyreq, sender: string)
    requires SameLists(ring, next)
    ensures RequestLists(c, ring, next, req, sender)
  {
  }

  lemma JudgeLists(c: Crypto, ring: Keyring, at: Arrival, req: Keyreq)
    requires req.channel in ring.channels
    ensures RequestLists(c, ring, JudgeKeyreq(c, ring, at, req).ring, req, at.sender)
  {
    hide RespondKeyreq, Classify, RequestLists, SameLists;
    var fp := c.fingerprint(req.pub);
    var next := JudgeKeyreq(c, ring, at, req).ring;
    if Suspicious(Classify(ring, fp, at.sender)) {
      NotedLists(ring, next);
      SameIsRequest(c, ring, next, req, at.sender);
    } else {
      var first := Peer(req.pub, at.sender, Some(at.nick), Pending);
      var seen := ring.(peers := ring.peers[fp := first]);
      RespondLists(c, seen, at, req, fp);
      MetTwice(c, ring, seen, next, req, at, first);
    }
  }

  lemma NotedLists(ring: Keyring, next: Keyring)
    requires next == ring.(trustChanges := next.trustChanges)
    ensures SameLists(ring, next)
  {
  }

  /** The answer enters the peer that the request has just entered once more. */
  lemma MetTwice(c: Crypto, ring: Keyring, seen: Keyring, next: Keyring, req: Keyreq, at: Arrival, first: Peer)
    requires seen == ring.(peers := ring.peers[c.fingerprint(req.pub) := first])
    requires first == Peer(req.pub, at.sender, Some(at.nick), Pending)
    requires !Suspicious(Classify(ring, c.fingerprint(req.pub), at.sender))
    requires || SameLists(seen, next)
             || (next.peers == seen.peers[c.fingerprint(req.pub) := Peer(req.pub, at.sender, None, Trusted)]
                 && next.recipients == seen.recipients[(req.channel, at.sender) := c.fingerprint(req.pub)]
                 && KeysOnly(seen, next, req.channel))
    ensures RequestLists(c, ring, next, req, at.sender)
  {
    hide Classify;
    var fp := c.fingerprint(req.pub);
    if SameLists(seen, next) {
      assert Meets(c, ring, next, at.sender, req.pub, first);
    } else {
      var last := Peer(req.pub, at.sender, None, Trusted);
      assert ring.peers[fp := first][fp := last] == ring.peers[fp := last];
      assert Meets(c, ring, next, at.sender, req.pub, last);
    }
  }

  lemma KeyreqLists(c: Crypto, ring: Keyring, at: Arrival, body: string)
    ensures var next := HandleKeyreq(c, ring, at, body).ring;
            match ParseKeyreq(body)
            case None => SameLists(ring, next)
            case Some(req) => RequestLists(c, ring, next, req, at.sender)
  {
    hide ParseKeyreq, KeyreqPayload, JudgeKeyreq;
    var limited := AllowIncoming(ring, at.sender, at.now).0;
    var req := ParseKeyreq(body);
    if req.Some? {
      SameIsRequest(c, ring, limited, req.value, at.sender);
      if req.value.channel in limited.channels {
        JudgeLists(c, limited, at, req.value);
        AfterLimit(c, ring, limited, JudgeKeyreq(c, limited, at, req.value).ring, req.value, at.sender);
      }
    }
  }

  lemma AfterLimit(c: Crypto, ring: Keyring, limited: Keyring, next: Keyring, req: Keyreq, sender: string)
    requires SameLists(ring, limited) && RequestLists(c, limited, next, req, sender)
    ensures RequestLists(c, ring, next, req, sender)
  {
    if next.peers != limited.peers {
      var peer :| Meets(c, limited, next, sender, req.pub, peer);
      assert Meets(c, ring, next, sender, req.pub, peer);
    }
  }

  // ----- answers and new keys -----

  lemma InstallLists(ring: Keyring, sender: string, ctx: string, fp: Bytes, sk: Bytes)
    ensures SameLists(ring, Install(ring, sender, ctx, fp, sk).0)
  {
    var next := Install(ring, sender, ctx, fp, sk).0;
    assert next == ring.(trustChanges := next.trustChanges, incoming := next.incoming);
    hide Install;
  }

  lemma KeyrspLists(c: Crypto, ring: Keyring, sender: string, body: string)
    ensures var next := HandleKeyrsp(c, ring, sender, body).0;
            && next.recipients == ring.recipients && next.outgoing == ring.outgoing
            && match ParseWrapped("KEYRSP", body)
               case None => next.peers == ring.peers
               case Some(m) => MayMeet(c, ring, next, sender, m.pub)
  {
    hide ParseWrapped, WrappedVerifies, AnsweredKeyreq, UnwrapKey, AcceptKeyrsp, MayMeet;
    var m := ParseWrapped("KEYRSP", body);
    if m.Some? {
      NobodyMet(c, ring, ring, sender, m.value.pub);
      var key := AnsweredKeyreq(ring, m.value.channel, sender);
      if key.Some? {
        var used := ring.(pending := ring.pending - {key.value});
        NobodyMet(c, ring, used, sender, m.value.pub);
        forall sk
          ensures var next := AcceptKeyrsp(c, used, sender, m.value, sk).0;
                  next.recipients == ring.recipients && next.outgoing == ring.outgoing
                  && MayMeet(c, ring, next, sender, m.value.pub)
        {
          AcceptLists(c, ring, used, sender, m.value, sk);
        }
      }
    }
  }

  lemma NobodyMet(c: Crypto, ring: Keyring, next: Keyring, sender: string, pub: Bytes)
    requires next.peers == ring.peers
    ensures MayMeet(c, ring, next, sender, pub)
  {
  }

  lemma AcceptLists(c: Crypto, ring: Keyring, used: Keyring, sender: string, m: Wrapped, sk: Bytes)
    requires used == ring.(pending := used.pending)
    ensures var next := AcceptKeyrsp(c, used, sender, m, sk).0;
            && next.recipients == ring.recipients && next.outgoing == ring.outgoing
            && MayMeet(c, ring, next, sender, m.pub)
  {
    hide Install, Classify;
    var fp := c.fingerprint(m.pub);
    var (next, ok) := AcceptKeyrsp(c, used, sender, m, sk);
    SameClass(ring, used, fp, sender);
    InstallLists(used, sender, m.channel, fp, sk);
    var installed := Install(used, sender, m.channel, fp, sk).0;
    if Suspicious(Classify(used, fp, sender)) {
      assert next == used.(trustChanges := next.trustChanges);
      NobodyMet(c, ring, next, sender, m.pub);
    } else if ok {
      var peer := Peer(m.pub, sender, None, Trusted);
      assert next == installed.(peers := installed.peers[fp := peer]);
      hide AcceptKeyrsp;
      assert Meets(c, ring, next, sender, m.pub, peer);
    } else {
      assert next == installed;
      hide AcceptKeyrsp;
      NobodyMet(c, ring, next, sender, m.pub);
    }
  }

  lemma SameClass(ring: Keyring, next: Keyring, fp: Bytes, handle: string)
    requires next.peers == ring.peers
    ensures Classify(next, fp, handle) == Classify(ring, fp, handle)
  {
  }

  lemma RekeyLists(c: Crypto, ring: Keyring, sender: string, body: string)
    ensures SameLists(ring, HandleRekey(c, ring, sender, body).0)
  {
    hide ParseWrapped, WrappedVerifies, UnwrapKey, Classify, Install;
    forall ctx, fp, sk
      ensures SameLists(ring, Install(ring, sender, ctx, fp, sk).0)
    {
      InstallLists(ring, sender, ctx, fp, sk);
    }
  }

  // ----- any message -----

  /** The key an event can enter as a peer's, and the handle it would be entered under. */
  function Introduced(e: Event): Option<(Bytes, string)> {
    match e
    case GotKeyreq(at, body) =>
      (match ParseKeyreq(body) case Some(req) => Some((req.pub, at.sender)) case None => None)
    case GotKeyrsp(sender, body) =>
      (match ParseWrapped("KEYRSP", body) case Some(m) => Some((m.pub, sender)) case None => None)
    case _ => None
  }

  lemma EventPeers(c: Crypto, ring: Keyring, e: Event)
    ensures var next := Step(c, ring, e);
            match Introduced(e)
            case None => next.peers == ring.peers
            case Some((pub, handle)) => MayMeet(c, ring, next, handle, pub)
  {
    hide BuildKeyreq, HandleKeyreq, HandleKeyrsp, HandleRekey, HandleWire, MayMeet, ParseKeyreq, ParseWrapped;
    match e
    case GotKeyreq(at, body) => KeyreqLists(c, ring, at, body);
    case GotKeyrsp(sender, body) => KeyrspLists(c, ring, sender, body);
    case GotRekey(sender, body) => RekeyLists(c, ring, sender, body);
    case GotWire(handle, target, own, wire, rnd, now) => WireLists(c, ring, handle, target, own, wire, rnd, now);
    case SentKeyreq(channel, handle, rnd, sentAt) => AskLists(c, ring, channel, handle, rnd, sentAt);
  }

  /** A known peer stays known under its handle, whatever is received. */
  lemma KnownStays(c: Crypto, ring: Keyring, e: Event, fp: Bytes, handle: string)
    requires Classify(ring, fp, handle) == Known
    ensures Classify(Step(c, ring, e), fp, handle) == Known
  {
    hide Step, Introduced;
    EventPeers(c, ring, e);
    var next := Step(c, ring, e);
    if next.peers != ring.peers {
      var (pub, sender) := Introduced(e).value;
      var peer :| Meets(c, ring, next, sender, pub, peer);
    }
  }

  /** The peer with a fingerprint that only one key has keeps that key. */
  lemma PeerKeyStays(c: Crypto, ring: Keyring, e: Event, fp: Bytes)
    requires fp in ring.peers
    requires Introduced(e).Some? && c.fingerprint(Introduced(e).value.0) == fp ==>
               Introduced(e).value.0 == ring.peers[fp].pk
    ensures fp in Step(c, ring, e).peers && Step(c, ring, e).peers[fp].pk == ring.peers[fp].pk
  {
    hide Step, Introduced, Classify;
    EventPeers(c, ring, e);
    var next := Step(c, ring, e);
    if next.peers != ring.peers {
      var (pub, sender) := Introduced(e).value;
      var peer :| Meets(c, ring, next, sender, pub, peer);
    }
  }

  /** The context of a request, and what it would enter as a recipient there. */
  function Requested(e: Event): Option<Keyreq> { if e.GotKeyreq? then ParseKeyreq(e.body) else None }

  lemma EventLists(c: Crypto, ring: Keyring, e: Event)
    ensures var next := Step(c, ring, e);
            match Requested(e)
            case None => next.recipients == ring.recipients && next.outgoing == ring.outgoing
            case Some(req) =>
              MayList(c, ring, next, req.channel, e.at.sender, req.pub) && KeysOnly(ring, next, req.channel)
  {
    hide BuildKeyreq, HandleKeyreq, HandleKeyrsp, HandleRekey, HandleWire, ParseKeyreq, ParseWrapped, MayMeet;
    match e
    case GotKeyreq(at, body) => KeyreqLists(c, ring, at, body);
    case GotKeyrsp(sender, body) => KeyrspLists(c, ring, sender, body);
    case GotRekey(sender, body) => RekeyLists(c, ring, sender, body);
    case GotWire(handle, target, own, wire, rnd, now) => WireLists(c, ring, handle, target, own, wire, rnd, now);
    case SentKeyreq(channel, handle, rnd, sentAt) => AskLists(c, ring, channel, handle, rnd, sentAt);
  }

  // ----- the row of a trusted session -----

  /** A KEYRSP or REKEY for this row. */
  predicate Renews(e: Event, handle: string, ctx: string) {
    (e.GotKeyrsp? || e.GotRekey?) && e.sender == handle &&
    var m := ParseWrapped(if e.GotKeyrsp? then "KEYRSP" else "REKEY", e.body);
    m.Some? && m.value.channel == ctx
  }

  /** Nothing else touches it. */
  lemma RowStays(c: Crypto, ring: Keyring, e: Event, handle: string, ctx: string)
    requires IsTrusted(ring, handle, ctx) && !Renews(e, handle, ctx)
    ensures var next := Step(c, ring, e);
            (handle, ctx) in next.incoming && next.incoming[(handle, ctx)] == ring.incoming[(handle, ctx)]
  {
    hide BuildKeyreq, HandleKeyreq, HandleKeyrsp, HandleRekey, HandleWire, LeavesSettings, MayAsk, AnsweredKeyreq,
      WrappedVerifies, ParseWrapped;
    StepEffect(c, ring, e);
    match e
    case GotKeyreq(at, body) => KeyreqEffect(c, ring, at, body);
    case GotKeyrsp(sender, body) => KeyrspEffect(c, ring, sender, body);
    case GotRekey(sender, body) => RekeyEffect(c, ring, sender, body);
    case _ =>
  }
}
