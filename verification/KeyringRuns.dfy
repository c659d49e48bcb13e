/** What no run of received messages, whoever sent them and whatever they hold, can do to the keyring. */
module KeyringRuns {
  import opened Wrappers
  import opened Utf8
  import opened Cryptos
  import opened Wires
  import opened Handshakes
  import opened Keyrings

  datatype Event =
    | GotKeyreq(at: Arrival, body: string)
    | GotKeyrsp(sender: string, body: string)
    | GotRekey(sender: string, body: string)
    | GotWire(handle: string, target: string, own: string, wire: Wire, rnd: Randoms, now: real)
    /** `/e2e handshake`. */
    | SentKeyreq(channel: string, handle: string, rnd: Randoms, sentAt: int)

  function Step(c: Crypto, ring: Keyring, e: Event): Keyring {
    match e
    case GotKeyreq(at, body) => HandleKeyreq(c, ring, at, body).ring
    case GotKeyrsp(sender, body) => HandleKeyrsp(c, ring, sender, body).0
    case GotRekey(sender, body) => HandleRekey(c, ring, sender, body).0
    case GotWire(handle, target, own, wire, rnd, now) => HandleWire(c, ring, handle, target, own, wire, rnd, now).0
    case SentKeyreq(channel, handle, rnd, sentAt) =>
      (match BuildKeyreq(c, ring, channel, handle, rnd, sentAt) case Some((next, _)) => next case None => ring)
  }

  function Run(c: Crypto, ring: Keyring, events: seq<Event>): Keyring
    decreases |events|
  {
    if events == [] then ring else Run(c, Step(c, ring, events[0]), events[1..])
  }

  // ----- the effect of each handler -----

  /** Our identity and settings stay, and so does every outgoing key that is not marked for rotation. */
  predicate LeavesSettings(ring: Keyring, next: Keyring) {
    && next.identity == ring.identity && next.channels == ring.channels
    && forall channel | channel in ring.outgoing && !ring.outgoing[channel].pendingRotation ::
         channel in next.outgoing && next.outgoing[channel] == ring.outgoing[channel]
  }

  /** At most one request was added, made with `secret`. */
  ghost predicate MayAsk(ring: Keyring, next: Keyring, secret: Bytes) {
    next.pending == ring.pending ||
    exists key, at :: AsksAs(ring, next, key, at, secret)
  }

  predicate AsksAs(ring: Keyring, next: Keyring, key: string, at: int, secret: Bytes) {
    next.pending == ring.pending[key := PendingKeyreq(secret, at)]
  }

  lemma BuildKeyreqEffect(c: Crypto, ring: Keyring, channel: string, handle: string, rnd: Randoms, now: int)
    requires BuildKeyreq(c, ring, channel, handle, rnd, now).Some?
    ensures var next := BuildKeyreq(c, ring, channel, handle, rnd, now).value.0;
            LeavesSettings(ring, next) && MayAsk(ring, next, rnd.ephSk) && next.incoming == ring.incoming
  {
    hide KeyreqMessage, KeyreqBody;
    var next := BuildKeyreq(c, ring, channel, handle, rnd, now).value.0;
    assert AsksAs(ring, next, PendingKey(channel, handle), now, rnd.ephSk);
  }

  lemma ReciprocalEffect(
    c: Crypto, ring: Keyring, channel: string, sender: string, own: string, rnd: Randoms, now: real)
    ensures var next := Reciprocal(c, ring, channel, sender, own, rnd, now).0;
            LeavesSettings(ring, next) && MayAsk(ring, next, rnd.ephSk) && next.incoming == ring.incoming
  {
    hide BuildKeyreq, MayAsk, LeavesSettings, PendingKey, IsTrusted;
    var ctx := ReciprocalCtx(channel, own);
    var asked := AllowOutgoingKeyreq(ring, sender, now).0;
    SameTables(ring, asked, rnd.ephSk);
    if ctx.Some? && BuildKeyreq(c, asked, ctx.value, sender, rnd, now.Floor).Some? {
      BuildKeyreqEffect(c, asked, ctx.value, sender, rnd, now.Floor);
      AskAfter(ring, asked, BuildKeyreq(c, asked, ctx.value, sender, rnd, now.Floor).value.0, rnd.ephSk);
    }
    SameTables(ring, ring, rnd.ephSk);
  }

  /** A change to the tables that only this client looks at. */
  lemma SameTables(ring: Keyring, next: Keyring, secret: Bytes)
    requires next == ring.(keyreqSentAt := next.keyreqSentAt) || next == ring.(buckets := next.buckets)
          || next == ring.(trustChanges := next.trustChanges) || next == ring.(peers := next.peers)
    ensures LeavesSettings(ring, next) && MayAsk(ring, next, secret) && next.incoming == ring.incoming
    ensures next.pending == ring.pending
  {
  }

  /** A change that keeps the pending requests, followed by one that may add a request. */
  lemma AskAfter(ring: Keyring, mid: Keyring, next: Keyring, secret: Bytes)
    requires LeavesSettings(ring, mid) && mid.pending == ring.pending
    requires LeavesSettings(mid, next) && MayAsk(mid, next, secret)
    ensures LeavesSettings(ring, next) && MayAsk(ring, next, secret)
  {
    if key, at :| AsksAs(mid, next, key, at, secret) {
      assert AsksAs(ring, next, key, at, secret);
    }
  }

  lemma BuildKeyrspEffect(
    c: Crypto, ring: Keyring, channel: string, sender: string, reqPub: Bytes, reqEph: Bytes, rnd: Randoms)
    ensures var next := BuildKeyrsp(c, ring, channel, sender, reqPub, reqEph, rnd).0;
            LeavesSettings(ring, next) && next.pending == ring.pending && next.incoming == ring.incoming
  {
    hide WrapKey, WrappedBody;
  }

  /** Afterwards only this row differs, and it holds this session. */
  predicate OnlyRow(ring: Keyring, next: Keyring, sender: string, ctx: string, session: Session) {
    next.incoming == ring.incoming[(sender, ctx) := session]
  }

  /** The incoming table is as before, or an untrusted row became one that waits for the user. */
  ghost predicate MayHold(ring: Keyring, next: Keyring, sender: string) {
    next.incoming == ring.incoming ||
    exists ctx, session: Session | !IsTrusted(ring, sender, ctx) && session.status == Pending ::
      OnlyRow(ring, next, sender, ctx, session)
  }

  lemma RespondEffect(c: Crypto, ring: Keyring, at: Arrival, req: Keyreq, fp: Bytes)
    requires req.channel in ring.channels
    ensures var next := RespondKeyreq(c, ring, at, req, fp).ring;
            LeavesSettings(ring, next) && MayAsk(ring, next, at.rnd2.ephSk) && MayHold(ring, next, at.sender)
  {
    hide BuildKeyrsp, Reciprocal, Zeros, IsTrusted, LeavesSettings, MayAsk;
    BuildKeyrspEffect(c, ring, req.channel, at.sender, req.pub, req.eph, at.rnd);
    var answered := BuildKeyrsp(c, ring, req.channel, at.sender, req.pub, req.eph, at.rnd).0;
    ReciprocalEffect(c, answered, req.channel, at.sender, at.own, at.rnd2, at.now);
    var next := Reciprocal(c, answered, req.channel, at.sender, at.own, at.rnd2, at.now).0;
    AskAfter(ring, answered, next, at.rnd2.ephSk);
    var held := RespondKeyreq(c, ring, at, req, fp).ring;
    if RespondKeyreq(c, ring, at, req, fp).response.None? {
      HeldTables(ring, held, at.rnd2.ephSk);
    }
    if held.incoming != ring.incoming {
      assert OnlyRow(ring, held, at.sender, req.channel, Session(fp, Zeros(KEY_LEN), Pending));
    }
  }

  lemma HeldTables(ring: Keyring, next: Keyring, secret: Bytes)
    requires next == ring.(incoming := next.incoming, pendingInbound := next.pendingInbound)
    ensures LeavesSettings(ring, next) && MayAsk(ring, next, secret)
  {
  }

  lemma HoldAfter(ring: Keyring, mid: Keyring, next: Keyring, sender: string)
    requires mid.incoming == ring.incoming && MayHold(mid, next, sender)
    ensures MayHold(ring, next, sender)
  {
    if ctx, session: Session :| !IsTrusted(mid, sender, ctx) && session.status == Pending &&
                               OnlyRow(mid, next, sender, ctx, session) {
      assert !IsTrusted(ring, sender, ctx) && OnlyRow(ring, next, sender, ctx, session);
    }
  }

  lemma JudgeEffect(c: Crypto, ring: Keyring, at: Arrival, req: Keyreq)
    requires req.channel in ring.channels
    ensures var next := JudgeKeyreq(c, ring, at, req).ring;
            LeavesSettings(ring, next) && MayAsk(ring, next, at.rnd2.ephSk) && MayHold(ring, next, at.sender)
  {
    hide RespondKeyreq, Classify, LeavesSettings, MayAsk, MayHold;
    var fp := c.fingerprint(req.pub);
    var change := Classify(ring, fp, at.sender);
    var next := JudgeKeyreq(c, ring, at, req).ring;
    if Suspicious(change) {
      SameTables(ring, next, at.rnd2.ephSk);
      HoldsNothing(ring, next, at.sender);
    } else {
      var seen := ring.(peers := ring.peers[fp := Peer(req.pub, at.sender, Some(at.nick), Pending)]);
      SameTables(ring, seen, at.rnd2.ephSk);
      RespondEffect(c, seen, at, req, fp);
      AskAfter(ring, seen, next, at.rnd2.ephSk);
      HoldAfter(ring, seen, next, at.sender);
    }
  }

  lemma HoldsNothing(ring: Keyring, next: Keyring, sender: string)
    requires next.incoming == ring.incoming
    ensures MayHold(ring, next, sender)
  {
  }

  lemma KeyreqEffect(c: Crypto, ring: Keyring, at: Arrival, body: string)
    ensures var next := HandleKeyreq(c, ring, at, body).ring;
            LeavesSettings(ring, next) && MayAsk(ring, next, at.rnd2.ephSk) && MayHold(ring, next, at.sender)
  {
    hide ParseKeyreq, KeyreqPayload, JudgeKeyreq, LeavesSettings, MayAsk, MayHold;
    var limited := AllowIncoming(ring, at.sender, at.now).0;
    SameTables(ring, ring, at.rnd2.ephSk);
    SameTables(ring, limited, at.rnd2.ephSk);
    HoldsNothing(ring, ring, at.sender);
    HoldsNothing(ring, limited, at.sender);
    var req := ParseKeyreq(body);
    if req.Some? && req.value.channel in limited.channels {
      JudgeEffect(c, limited, at, req.value);
      var next := JudgeKeyreq(c, limited, at, req.value).ring;
      AskAfter(ring, limited, next, at.rnd2.ephSk);
      HoldAfter(ring, limited, next, at.sender);
    }
  }

  /** What `Install` needs of the row it replaces. */
  predicate MayReplace(ring: Keyring, sender: string, ctx: string, fp: Bytes) {
    (sender, ctx) in ring.incoming ==> ring.incoming[(sender, ctx)].fp == fp
  }

  /** The incoming table is as before, or this message's session was installed. */
  ghost predicate MayInstall(c: Crypto, ring: Keyring, next: Keyring, sender: string, m: Wrapped, ok: bool) {
    if !ok then next.incoming == ring.incoming
    else
      var fp := c.fingerprint(m.pub);
      MayReplace(ring, sender, m.channel, fp) &&
      exists sk :: OnlyRow(ring, next, sender, m.channel, Session(fp, sk, Trusted))
  }

  lemma InstallEffect(c: Crypto, ring: Keyring, sender: string, m: Wrapped, sk: Bytes)
    ensures var (next, ok) := Install(ring, sender, m.channel, c.fingerprint(m.pub), sk);
            LeavesSettings(ring, next) && next.pending == ring.pending && MayInstall(c, ring, next, sender, m, ok)
  {
    var fp := c.fingerprint(m.pub);
    var (next, ok) := Install(ring, sender, m.channel, fp, sk);
    if ok {
      assert OnlyRow(ring, next, sender, m.channel, Session(fp, sk, Trusted));
    }
  }

  lemma AcceptEffect(c: Crypto, ring: Keyring, sender: string, m: Wrapped, sk: Bytes)
    ensures var (next, ok) := AcceptKeyrsp(c, ring, sender, m, sk);
            LeavesSettings(ring, next) && next.pending == ring.pending && MayInstall(c, ring, next, sender, m, ok)
  {
    hide Classify, Install, MayInstall, LeavesSettings;
    var (next, ok) := AcceptKeyrsp(c, ring, sender, m, sk);
    var change := Classify(ring, c.fingerprint(m.pub), sender);
    if Suspicious(change) {
      SameTables(ring, next, []);
      NotInstalled(c, ring, next, sender, m);
    } else {
      InstallEffect(c, ring, sender, m, sk);
      PeersAfter(c, ring, Install(ring, sender, m.channel, c.fingerprint(m.pub), sk).0, next, sender, m, ok);
    }
  }

  lemma PeersAfter(c: Crypto, ring: Keyring, mid: Keyring, next: Keyring, sender: string, m: Wrapped, ok: bool)
    requires LeavesSettings(ring, mid) && mid.pending == ring.pending && MayInstall(c, ring, mid, sender, m, ok)
    requires next == mid.(peers := next.peers)
    ensures LeavesSettings(ring, next) && next.pending == ring.pending && MayInstall(c, ring, next, sender, m, ok)
  {
    if ok {
      var sk :| OnlyRow(ring, mid, sender, m.channel, Session(c.fingerprint(m.pub), sk, Trusted));
      assert OnlyRow(ring, next, sender, m.channel, Session(c.fingerprint(m.pub), sk, Trusted));
    }
  }

  /** What a KEYRSP or REKEY that installed a session must have been. */
  predicate VerifiedMessage(c: Crypto, kind: string, body: string) {
    ParseWrapped(kind, body).Some? && WrappedVerifies(c, kind, ParseWrapped(kind, body).value)
  }

  lemma KeyrspEffect(c: Crypto, ring: Keyring, sender: string, body: string)
    ensures var (next, ok) := HandleKeyrsp(c, ring, sender, body);
            && LeavesSettings(ring, next)
            && (if !VerifiedMessage(c, "KEYRSP", body) then next == ring && !ok
                else
                  var m := ParseWrapped("KEYRSP", body).value;
                  var key := AnsweredKeyreq(ring, m.channel, sender);
                  MayInstall(c, ring, next, sender, m, ok) &&
                  if key.None? then next == ring && !ok else next.pending == ring.pending - {key.value})
  {
    hide ParseWrapped, UnwrapKey, AcceptKeyrsp, WrappedVerifies, AnsweredKeyreq, MayInstall, LeavesSettings;
    var (next, ok) := HandleKeyrsp(c, ring, sender, body);
    SameTables(ring, ring, []);
    if VerifiedMessage(c, "KEYRSP", body) {
      var m := ParseWrapped("KEYRSP", body).value;
      NotInstalled(c, ring, ring, sender, m);
      var key := AnsweredKeyreq(ring, m.channel, sender);
      if key.Some? {
        AnsweredIsPending(ring, m.channel, sender);
        var used := ring.(pending := ring.pending - {key.value});
        PendingAside(ring, used);
        NotInstalled(c, ring, used, sender, m);
        var sk := UnwrapKey(c, ring.pending[key.value].ephSk, WrapInfo(m.channel), m);
        if sk.Some? {
          AcceptEffect(c, used, sender, m, sk.value);
          InstallAfter(c, ring, used, next, sender, m, ok);
          KeptTwice(ring, used, next);
        }
      }
    }
  }

  lemma PendingAside(ring: Keyring, next: Keyring)
    requires next == ring.(pending := next.pending)
    ensures LeavesSettings(ring, next)
  {
  }

  lemma AnsweredIsPending(ring: Keyring, ctx: string, sender: string)
    ensures var key := AnsweredKeyreq(ring, ctx, sender); key.Some? ==> key.value in ring.pending
  {
  }

  lemma NotInstalled(c: Crypto, ring: Keyring, next: Keyring, sender: string, m: Wrapped)
    requires next.incoming == ring.incoming
    ensures MayInstall(c, ring, next, sender, m, false)
  {
  }

  lemma InstallAfter(c: Crypto, ring: Keyring, mid: Keyring, next: Keyring, sender: string, m: Wrapped, ok: bool)
    requires mid.incoming == ring.incoming && MayInstall(c, mid, next, sender, m, ok)
    ensures MayInstall(c, ring, next, sender, m, ok)
  {
    if ok {
      var sk :| OnlyRow(mid, next, sender, m.channel, Session(c.fingerprint(m.pub), sk, Trusted));
      assert OnlyRow(ring, next, sender, m.channel, Session(c.fingerprint(m.pub), sk, Trusted));
    }
  }

  lemma RekeyEffect(c: Crypto, ring: Keyring, sender: string, body: string)
    ensures var (next, ok) := HandleRekey(c, ring, sender, body);
            && LeavesSettings(ring, next) && next.pending == ring.pending
            && (if !VerifiedMessage(c, "REKEY", body) then next == ring && !ok
                else MayInstall(c, ring, next, sender, ParseWrapped("REKEY", body).value, ok))
  {
    hide ParseWrapped, UnwrapKey, Classify, WrappedVerifies, Install, MayInstall;
    var (next, ok) := HandleRekey(c, ring, sender, body);
    if VerifiedMessage(c, "REKEY", body) {
      var m := ParseWrapped("REKEY", body).value;
      NotInstalled(c, ring, ring, sender, m);
      NotInstalled(c, ring, NoteChange(ring, sender, m.channel, Classify(ring, c.fingerprint(m.pub), sender)), sender,
        m);
      var me := ring.identity;
      var sk := UnwrapKey(c, c.secretToX25519(me.sk, me.pk), RekeyInfo(m.channel), m);
      if sk.Some? {
        InstallEffect(c, ring, sender, m, sk.value);
      }
    }
  }

  lemma WireEffect(
    c: Crypto, ring: Keyring, handle: string, target: string, own: string, w: Wire, rnd: Randoms, now: real)
    ensures var next := HandleWire(c, ring, handle, target, own, w, rnd, now).0;
            LeavesSettings(ring, next) && MayAsk(ring, next, rnd.ephSk) && next.incoming == ring.incoming
  {
    hide BuildKeyreq, MayAsk, LeavesSettings, IsTrusted, OpenWire, ChooseContext, ContextsOf;
    SameTables(ring, ring, rnd.ephSk);
    var contexts := ContextsOf(target, own);
    if contexts != [] {
      var ctx := ChooseContext(ring, handle, contexts);
      var asked := AllowOutgoingKeyreq(ring, handle, now).0;
      SameTables(ring, asked, rnd.ephSk);
      if BuildKeyreq(c, asked, ctx, handle, rnd, now.Floor).Some? {
        BuildKeyreqEffect(c, asked, ctx, handle, rnd, now.Floor);
        AskAfter(ring, asked, BuildKeyreq(c, asked, ctx, handle, rnd, now.Floor).value.0, rnd.ephSk);
      }
    }
  }

  lemma StepEffect(c: Crypto, ring: Keyring, e: Event)
    ensures e.GotKeyreq? ==> HandleKeyreq(c, ring, e.at, e.body).ring == Step(c, ring, e)
    ensures LeavesSettings(ring, Step(c, ring, e))
    ensures e.GotWire? || e.SentKeyreq? ==>
              MayAsk(ring, Step(c, ring, e), e.rnd.ephSk) && Step(c, ring, e).incoming == ring.incoming
  {
    hide BuildKeyreq, HandleKeyreq, HandleKeyrsp, HandleRekey, HandleWire;
    match e
    case GotKeyreq(at, body) => KeyreqEffect(c, ring, at, body);
    case GotKeyrsp(sender, body) => KeyrspEffect(c, ring, sender, body);
    case GotRekey(sender, body) => RekeyEffect(c, ring, sender, body);
    case GotWire(handle, target, own, wire, rnd, now) => WireEffect(c, ring, handle, target, own, wire, rnd, now);
    case SentKeyreq(channel, handle, rnd, sentAt) =>
      if BuildKeyreq(c, ring, channel, handle, rnd, sentAt).Some? {
        BuildKeyreqEffect(c, ring, channel, handle, rnd, sentAt);
      }
  }

  // ----- pins -----

  /** The session of (handle, ctx) is trusted and belongs to this fingerprint. */
  predicate Pinned(ring: Keyring, handle: string, ctx: string, fp: Bytes) {
    IsTrusted(ring, handle, ctx) && ring.incoming[(handle, ctx)].fp == fp
  }

  lemma StepKeepsPin(c: Crypto, ring: Keyring, e: Event, handle: string, ctx: string, fp: Bytes)
    requires Pinned(ring, handle, ctx, fp)
    ensures Pinned(Step(c, ring, e), handle, ctx, fp)
  {
    hide BuildKeyreq, HandleKeyreq, HandleKeyrsp, HandleRekey, HandleWire, LeavesSettings, MayAsk, AnsweredKeyreq,
      VerifiedMessage, ParseWrapped;
    StepEffect(c, ring, e);
    match e
    case GotKeyreq(at, body) => KeyreqEffect(c, ring, at, body);
    case GotKeyrsp(sender, body) => KeyrspEffect(c, ring, sender, body);
    case GotRekey(sender, body) => RekeyEffect(c, ring, sender, body);
    case _ =>
  }

  /**
   * Once the incoming row for (handle, context) is trusted, no run of KEYREQ, KEYRSP, REKEY or PRIVMSG messages, nor of
   * our own requests, changes its fingerprint or its trusted status.
   */
  lemma {:induction false} PinHolds(
    c: Crypto, ring: Keyring, events: seq<Event>, handle: string, ctx: string, fp: Bytes)
    requires Pinned(ring, handle, ctx, fp)
    ensures Pinned(Run(c, ring, events), handle, ctx, fp)
    decreases |events|
  {
    hide Step;
    if events != [] {
      StepKeepsPin(c, ring, events[0], handle, ctx, fp);
      PinHolds(c, Step(c, ring, events[0]), events[1..], handle, ctx, fp);
    }
  }

  /** The event is a handshake message, signed under the key with this fingerprint, for this sender and context. */
  predicate Vouches(c: Crypto, e: Event, handle: string, ctx: string, fp: Bytes) {
    (e.GotKeyrsp? || e.GotRekey?) && e.sender == handle &&
    var kind := if e.GotKeyrsp? then "KEYRSP" else "REKEY";
    VerifiedMessage(c, kind, e.body) &&
    var message := ParseWrapped(kind, e.body).value;
    message.channel == ctx && c.fingerprint(message.pub) == fp
  }

  /** A session becomes trusted only through a verified handshake message for it. */
  lemma TrustIsVouchedFor(c: Crypto, ring: Keyring, e: Event, handle: string, ctx: string)
    requires !IsTrusted(ring, handle, ctx) && IsTrusted(Step(c, ring, e), handle, ctx)
    ensures Vouches(c, e, handle, ctx, Step(c, ring, e).incoming[(handle, ctx)].fp)
  {
    hide BuildKeyreq, HandleKeyreq, HandleKeyrsp, HandleRekey, HandleWire, LeavesSettings, MayAsk, AnsweredKeyreq,
      VerifiedMessage, ParseWrapped;
    StepEffect(c, ring, e);
    match e
    case GotKeyreq(at, body) => KeyreqEffect(c, ring, at, body);
    case GotKeyrsp(sender, body) => KeyrspEffect(c, ring, sender, body);
    case GotRekey(sender, body) => RekeyEffect(c, ring, sender, body);
    case _ =>
  }

  /** Messages reach neither our identity nor which conversations are encrypted, nor any key not up for rotation. */
  lemma {:induction false} MessagesLeaveSettings(c: Crypto, ring: Keyring, events: seq<Event>)
    ensures LeavesSettings(ring, Run(c, ring, events))
    decreases |events|
  {
    hide Step;
    if events != [] {
      StepEffect(c, ring, events[0]);
      MessagesLeaveSettings(c, Step(c, ring, events[0]), events[1..]);
      KeptTwice(ring, Step(c, ring, events[0]), Run(c, ring, events));
    }
  }

  lemma KeptTwice(ring: Keyring, mid: Keyring, next: Keyring)
    requires LeavesSettings(ring, mid) && LeavesSettings(mid, next)
    ensures LeavesSettings(ring, next)
  {
  }

  // ----- every installed session answers its own request -----

  ghost predicate Waiting(ring: Keyring, secret: Bytes) {
    exists key | key in ring.pending :: ring.pending[key].ephSk == secret
  }

  predicate DistinctPending(ring: Keyring) {
    forall a, b | a in ring.pending && b in ring.pending && a != b :: ring.pending[a].ephSk != ring.pending[b].ephSk
  }

  /** The ephemeral secret whose KEYREQ the event answers, when it installs a session. */
  function Answered(c: Crypto, ring: Keyring, e: Event): seq<Bytes> {
    if e.GotKeyrsp? && HandleKeyrsp(c, ring, e.sender, e.body).1 then
      var key := AnsweredKeyreq(ring, ParseWrapped("KEYRSP", e.body).value.channel, e.sender);
      [ring.pending[key.value].ephSk]
    else []
  }

  /** The ephemeral secrets drawn for requests that the event may send. */
  function Drawn(e: Event): seq<Bytes> {
    match e
    case GotKeyreq(at, _) => [at.rnd2.ephSk]
    case GotWire(_, _, _, _, rnd, _) => [rnd.ephSk]
    case SentKeyreq(_, _, rnd, _) => [rnd.ephSk]
    case _ => []
  }

  function AllAnswered(c: Crypto, ring: Keyring, events: seq<Event>): seq<Bytes>
    decreases |events|
  {
    if events == [] then []
    else Answered(c, ring, events[0]) + AllAnswered(c, Step(c, ring, events[0]), events[1..])
  }

  function AllDrawn(events: seq<Event>): seq<Bytes> {
    if events == [] then [] else Drawn(events[0]) + AllDrawn(events[1..])
  }

  predicate NoRepeats(secrets: seq<Bytes>) {
    forall i, j | 0 <= i < j < |secrets| :: secrets[i] != secrets[j]
  }

  lemma AskedPending(ring: Keyring, next: Keyring, secret: Bytes)
    requires DistinctPending(ring) && !Waiting(ring, secret) && MayAsk(ring, next, secret)
    ensures DistinctPending(next) && forall s | Waiting(next, s) :: Waiting(ring, s) || s == secret
  {
  }

  lemma UsedPending(ring: Keyring, next: Keyring, key: string)
    requires DistinctPending(ring) && key in ring.pending && next.pending == ring.pending - {key}
    ensures DistinctPending(next) && (forall s | Waiting(next, s) :: Waiting(ring, s))
    ensures Waiting(ring, ring.pending[key].ephSk) && !Waiting(next, ring.pending[key].ephSk)
  {
  }

  /** One event's effect on the pending requests. */
  ghost predicate UsesPending(c: Crypto, ring: Keyring, e: Event) {
    var next := Step(c, ring, e);
    && DistinctPending(next)
    && (forall s | Waiting(next, s) :: Waiting(ring, s) || s in Drawn(e))
    && (forall s :: s in Answered(c, ring, e) ==> Waiting(ring, s) && !Waiting(next, s))
  }

  lemma StepPending(c: Crypto, ring: Keyring, e: Event)
    requires DistinctPending(ring) && (forall d :: d in Drawn(e) ==> !Waiting(ring, d))
    ensures UsesPending(c, ring, e) && |Answered(c, ring, e)| <= 1
  {
    hide BuildKeyreq, HandleKeyreq, HandleKeyrsp, HandleRekey, HandleWire, LeavesSettings, MayInstall, AnsweredKeyreq,
      MayAsk, DistinctPending, Waiting;
    StepEffect(c, ring, e);
    var next := Step(c, ring, e);
    match e {
      case GotKeyreq(at, body) =>
        KeyreqEffect(c, ring, at, body);
        assert at.rnd2.ephSk in Drawn(e);
        AskedPending(ring, next, at.rnd2.ephSk);
      case GotKeyrsp(sender, body) => KeyrspPending(c, ring, e);
      case GotRekey(sender, body) =>
        RekeyEffect(c, ring, sender, body);
        SamePending(ring, next);
      case _ =>
        assert e.rnd.ephSk in Drawn(e);
        AskedPending(ring, next, e.rnd.ephSk);
    }
  }

  lemma SamePending(ring: Keyring, next: Keyring)
    requires next.pending == ring.pending && DistinctPending(ring)
    ensures DistinctPending(next) && forall s | Waiting(next, s) :: Waiting(ring, s)
  {
  }

  lemma KeyrspPending(c: Crypto, ring: Keyring, e: Event)
    requires e.GotKeyrsp? && DistinctPending(ring)
    ensures UsesPending(c, ring, e) && |Answered(c, ring, e)| <= 1
  {
    hide HandleKeyrsp, LeavesSettings, MayInstall, DistinctPending, Waiting, WrappedVerifies, ParseWrapped,
      AnsweredKeyreq;
    KeyrspEffect(c, ring, e.sender, e.body);
    var (next, ok) := HandleKeyrsp(c, ring, e.sender, e.body);
    var key := if VerifiedMessage(c, "KEYRSP", e.body)
               then AnsweredKeyreq(ring, ParseWrapped("KEYRSP", e.body).value.channel, e.sender) else None;
    if key.None? {
      SamePending(ring, next);
    } else {
      AnsweredIsPending(ring, ParseWrapped("KEYRSP", e.body).value.channel, e.sender);
      UsedPending(ring, next, key.value);
    }
  }

  /**
   * Each KEYRSP that installs a session uses up a KEYREQ of its own: with ephemeral secrets never drawn twice, the
   * secrets of the answered requests are all different, and each was pending at the start or drawn during the run.
   */
  lemma {:induction false} SessionsAnswerDistinctRequests(c: Crypto, ring: Keyring, events: seq<Event>)
    requires DistinctPending(ring) && NoRepeats(AllDrawn(events))
    requires forall d :: d in AllDrawn(events) ==> !Waiting(ring, d)
    ensures NoRepeats(AllAnswered(c, ring, events))
    ensures forall s :: s in AllAnswered(c, ring, events) ==> Waiting(ring, s) || s in AllDrawn(events)
    decreases |events|
  {
    hide Step, Answered, Drawn, Waiting, DistinctPending;
    if events != [] {
      var e, rest := events[0], events[1..];
      var next := Step(c, ring, e);
      assert forall d :: d in Drawn(e) ==> d in AllDrawn(events);
      assert forall d :: d in AllDrawn(rest) ==> d in AllDrawn(events);
      StepPending(c, ring, e);
      SplitRepeats(Drawn(e), AllDrawn(rest));
      SessionsAnswerDistinctRequests(c, next, rest);
      JoinRepeats(Answered(c, ring, e), AllAnswered(c, next, rest));
    }
  }

  lemma SplitRepeats(a: seq<Bytes>, b: seq<Bytes>)
    requires NoRepeats(a + b)
    ensures NoRepeats(b) && forall d :: d in b ==> d !in a
  {
    var all := a + b;
    forall i | 0 <= i < |b| ensures b[i] == all[|a| + i] {}
    forall i | 0 <= i < |a| ensures a[i] == all[i] {}
  }

  lemma JoinRepeats(a: seq<Bytes>, b: seq<Bytes>)
    requires |a| <= 1 && NoRepeats(b) && forall s :: s in a ==> s !in b
    ensures NoRepeats(a + b)
  {
    forall i, j | 0 <= i < j < |a + b|
      ensures (a + b)[i] != (a + b)[j]
    {
      if i < |a| {
        assert a[i] in a && b[j - |a|] in b;
      }
    }
  }
}
