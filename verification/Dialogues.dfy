/**
 * A conversation over a whole run: after a handshake the answering side talks, rotates its key, revokes others and
 * answers others, while both sides receive whatever others send; and everything it says reaches the other side, because
 * each new key gets there first.
 */
module Dialogues {
  import opened Wrappers
  import opened Utf8
  import opened Chunker
  import opened Cryptos
  import opened Handshakes
  import opened Keyrings
  import opened KeyringRuns
  import opened Gates
  import opened Agreement
  import opened Messages
  import opened Conversation
  import opened PeerTables
  import opened Rotation

  /** The context, and what the listener and the speaker are called: each handle as the other side sees it. */
  datatype Names = Names(ctx: string, listener: string, speaker: string)

  /** The two keyrings: the listener's, and the speaker's. */
  datatype Ends = Ends(a: Keyring, b: Keyring)

  /**
   * The listener has a trusted session for the speaker's fingerprint and knows it by this handle; the speaker has the
   * listener among the recipients of the context; and the keys are the same, unless the speaker's is up for rotation.
   */
  ghost predicate InSync(c: Crypto, ends: Ends, names: Names) {
    var ctx, a, b := names.ctx, ends.a, ends.b;
    && Genuine(c, a.identity) && Genuine(c, b.identity)
    && IsTrusted(a, names.speaker, ctx) && a.incoming[(names.speaker, ctx)].fp == b.identity.fp
    && Classify(a, b.identity.fp, names.speaker) == Known
    && Knows(b, ctx, names.listener) && PublicKeyOf(b, ctx, names.listener) == a.identity.pk
    && b.recipients[(ctx, names.listener)] == a.identity.fp
    && ctx in b.outgoing && |b.outgoing[ctx].sk| == KEY_LEN
    && (Awaits(b, ctx) || a.incoming[(names.speaker, ctx)].sk == b.outgoing[ctx].sk)
  }

  /** The listener handles the REKEY meant for it, if there is one. */
  function Told(c: Crypto, a: Keyring, names: Names, rekeys: map<string, string>): Keyring {
    if names.listener !in rekeys then a
    else match Unframe(rekeys[names.listener])
      case None => a
      case Some(body) => HandleRekey(c, a, names.speaker, body).0
  }

  // ----- one message -----

  /** The verdict depends on the keyring only by the key. */
  function VerdictWith(c: Crypto, sk: Bytes, ctx: string, body: string, out: Outside): Verdict {
    match out.read(ctx)
    case ReadError => Refuse(KeyringRead)
    case No => Pass
    case Yes =>
      match Encrypt(c, sk, ctx, body, out)
      case None => Refuse(EncryptFailed)
      case Some(lines) => Cipher(lines)
  }

  lemma VerdictIs(c: Crypto, ring: Keyring, ctx: string, body: string, out: Outside)
    ensures var sent := SendUnder(c, ring, ctx, body, out);
            && sent.verdict == VerdictWith(c, GetOutgoingKeyRotating(ring, ctx, out.spareKey).1, ctx, body, out)
            && sent.ring == if out.read(ctx) == Yes then GetOutgoingKeyRotating(ring, ctx, out.spareKey).0 else ring
  {
    hide Encrypt, DistributeRekey, GetOutgoingKeyRotating;
  }

  /** Sending again gives the same lines: the key has been settled by the first time. */
  lemma SameVerdict(c: Crypto, ring: Keyring, ctx: string, body: string, out: Outside)
    ensures var sent := SendUnder(c, ring, ctx, body, out);
            SendUnder(c, sent.ring, ctx, body, out).verdict == sent.verdict
  {
    hide *;
    var sent := SendUnder(c, ring, ctx, body, out);
    VerdictIs(c, ring, ctx, body, out);
    VerdictIs(c, sent.ring, ctx, body, out);
    GetterIs(ring, ctx, out.spareKey);
    GetterOfSettled(GetOutgoingKeyRotating(ring, ctx, out.spareKey).0, ctx, out.spareKey);
  }

  lemma RekeyLands(c: Crypto, ends: Ends, names: Names, sk: Bytes, rnd: Randoms, rekeys: map<string, string>)
    requires Ideal(c) && InSync(c, ends, names) && NoSpace(names.ctx) && Sized(rnd) && |sk| == KEY_LEN
    requires names.listener in rekeys
    requires rekeys[names.listener] == BuildRekey(c, ends.b, names.ctx, ends.a.identity.pk, sk, rnd)
    ensures Told(c, ends.a, names, rekeys) ==
            ends.a.(incoming := ends.a.incoming[(names.speaker, names.ctx) := Session(ends.b.identity.fp, sk, Trusted)])
  {
    hide BuildRekey, HandleRekey, Unframe, Ideal, NoSpace, Classify;
    RekeyAgrees(c, ends.a, ends.b, names.ctx, names.speaker, sk, rnd);
  }

  /** The new session is in step with the key the speaker now has. */
  lemma StaysInSync(c: Crypto, ends: Ends, names: Names, next: Ends)
    requires InSync(c, ends, names) && Settled(next.b, names.ctx)
    requires next.b == ends.b.(outgoing := next.b.outgoing) && |next.b.outgoing[names.ctx].sk| == KEY_LEN
    requires next.a == ends.a.(incoming := next.a.incoming) && IsTrusted(next.a, names.speaker, names.ctx)
    requires next.a.incoming[(names.speaker, names.ctx)] ==
             Session(ends.b.identity.fp, next.b.outgoing[names.ctx].sk, Trusted)
    ensures InSync(c, next, names) && Sends(next.b, names.ctx, next.a.incoming[(names.speaker, names.ctx)].sk)
  {
    hide Classify, Genuine;
    ClassifiedAlike(ends.a, next.a, ends.b.identity.fp, names.speaker);
    var key := next.b.outgoing[names.ctx];
    assert key == OutgoingKey(key.sk, false);
  }

  /**
   * The new key gets there: what the speaker sends to the listener along with a message leaves the listener's session
   * with exactly the key that message is encrypted under, whether or not a rotation was pending.
   */
  lemma RekeyReaches(c: Crypto, ends: Ends, names: Names, body: string, out: Outside)
    requires Ideal(c) && InSync(c, ends, names) && NoSpace(names.ctx) && out.read(names.ctx) == Yes
    requires Sized(out.rekeys(names.listener)) && |out.spareKey| == KEY_LEN
    ensures var sent := SendUnder(c, ends.b, names.ctx, body, out);
            var next := Ends(Told(c, ends.a, names, sent.rekeys), sent.ring);
            && InSync(c, next, names)
            && Sends(next.b, names.ctx, next.a.incoming[(names.speaker, names.ctx)].sk)
  {
    hide *;
    var ctx, sent := names.ctx, SendUnder(c, ends.b, names.ctx, body, out);
    var next := Ends(Told(c, ends.a, names, sent.rekeys), sent.ring);
    SentIs(c, ends.b, ctx, body, out);
    RekeysExactly(c, ends.b, ctx, body, out);
    GetterIs(ends.b, ctx, out.spareKey);
    GetterOfSettled(ends.b, ctx, out.spareKey);
    InSyncFacts(c, ends, names);
    if Awaits(ends.b, ctx) {
      CarriesNewKey(c, ends, names, sent.ring.outgoing[ctx].sk, out.rekeys, sent.rekeys);
      RekeyLands(c, ends, names, sent.ring.outgoing[ctx].sk, out.rekeys(names.listener), sent.rekeys);
      TrustedNow(next.a, names, sent.ring.outgoing[ctx].sk, ends);
    } else {
      NotTold(c, ends.a, names, sent.rekeys);
    }
    StaysInSync(c, ends, names, next);
  }

  /** What the proof of `RekeyReaches` needs to know of both ends. */
  lemma InSyncFacts(c: Crypto, ends: Ends, names: Names)
    requires InSync(c, ends, names)
    ensures Knows(ends.b, names.ctx, names.listener)
    ensures Awaits(ends.b, names.ctx) <==> !Settled(ends.b, names.ctx)
    ensures names.ctx in ends.b.outgoing && |ends.b.outgoing[names.ctx].sk| == KEY_LEN
    ensures IsTrusted(ends.a, names.speaker, names.ctx) && (names.speaker, names.ctx) in ends.a.incoming
    ensures !Awaits(ends.b, names.ctx) ==>
              ends.a.incoming[(names.speaker, names.ctx)] ==
              Session(ends.b.identity.fp, ends.b.outgoing[names.ctx].sk, Trusted)
  {
    hide Classify, Genuine, Knows;
  }

  lemma CarriesNewKey(
    c: Crypto, ends: Ends, names: Names, sk: Bytes, rnd: string -> Randoms, rekeys: map<string, string>)
    requires InSync(c, ends, names) && names.listener in rekeys
    requires AllRekeysCarry(c, ends.b, names.ctx, sk, rnd, rekeys)
    ensures rekeys[names.listener] == BuildRekey(c, ends.b, names.ctx, ends.a.identity.pk, sk, rnd(names.listener))
  {
    hide Classify, Genuine, BuildRekey;
  }

  lemma TrustedNow(a: Keyring, names: Names, sk: Bytes, ends: Ends)
    requires a == ends.a.(
      incoming := ends.a.incoming[(names.speaker, names.ctx) := Session(ends.b.identity.fp, sk, Trusted)])
    ensures IsTrusted(a, names.speaker, names.ctx) && a == ends.a.(incoming := a.incoming)
  {
  }

  lemma NotTold(c: Crypto, a: Keyring, names: Names, rekeys: map<string, string>)
    requires names.listener !in rekeys
    ensures Told(c, a, names, rekeys) == a
  {
  }

  lemma ClassifiedAlike(ring: Keyring, next: Keyring, fp: Bytes, handle: string)
    requires next.peers == ring.peers
    ensures Classify(next, fp, handle) == Classify(ring, fp, handle)
  {
  }

  // ----- turns -----

  /**
   * What the speaker says, and what the listener's side is when it arrives; what else the speaker does; and what the
   * listener receives or requests.
   */
  datatype Turn =
    | Talks(target: string, body: string, out: Outside, own: string, rnd: Randoms, now: real)
    | Tends(action: Action)
    | Hears(event: Event)

  /** The keyrings after a turn; reading the message itself leaves them alone. */
  function Turned(c: Crypto, ends: Ends, names: Names, turn: Turn): Ends {
    match turn
    case Talks(target, body, out, own, rnd, now) =>
      var sent := Gate(c, ends.b, target, body, out);
      Ends(Told(c, ends.a, names, sent.rekeys), sent.ring)
    case Tends(action) => Ends(ends.a, Act(c, ends.b, action))
    case Hears(event) => Ends(Step(c, ends.a, event), ends.b)
  }

  /**
   * What is asked of a turn. A message goes to a target both ends take to mean the context, and is read within the
   * clock tolerance. The speaker may mark contexts, revoke others, talk in other contexts, and accept and receive
   * requests of others, except in a marked context: there an answer would lose the REKEY. The listener may receive
   * anything but a KEYRSP or REKEY for this very session, which could be an old one. Nobody else has the listener's
   * fingerprint.
   */
  ghost predicate Fair(c: Crypto, ends: Ends, names: Names, turn: Turn) {
    match turn
    case Talks(target, body, out, own, rnd, now) =>
      && BothChoose(Told(c, ends.a, names, Gate(c, ends.b, target, body, out).rekeys), names.speaker, target, out, own,
                    names.ctx)
      && Abs(now.Floor - out.ts) <= TS_TOLERANCE && FreshEnough(out, names)
    case Tends(Marks(ctx)) => true
    case Tends(Revokes(ctx, handle)) => (ctx, handle) != (names.ctx, names.listener)
    case Tends(Accepts(ctx, sender, pub, eph, rnd)) =>
      && !(ctx == names.ctx && (sender == names.listener || Awaits(ends.b, ctx)))
      && (c.fingerprint(pub) == ends.a.identity.fp ==> pub == ends.a.identity.pk)
    case Tends(Says(ctx, body, out)) => ctx != names.ctx
    case Tends(Receives(event)) =>
      && (Introduced(event).Some? && c.fingerprint(Introduced(event).value.0) == ends.a.identity.fp ==>
            Introduced(event).value.0 == ends.a.identity.pk)
      && (Requested(event).Some? && Requested(event).value.channel == names.ctx ==>
            && !Awaits(ends.b, names.ctx)
            && (event.at.sender == names.listener ==> Requested(event).value.pub == ends.a.identity.pk))
    case Hears(event) => !Renews(event, names.speaker, names.ctx)
  }

  /** Random values have their sizes. */
  ghost predicate FreshEnough(out: Outside, names: Names) {
    && (forall k: nat :: SizedDraw(out.draws(k)))
    && Sized(out.rekeys(names.listener)) && |out.spareKey| == KEY_LEN
  }

  /** What is encrypted in the turn is delivered: in pieces that make up the body, or as ACTION frames that do. */
  ghost predicate Heard(c: Crypto, ends: Ends, names: Names, turn: Turn) {
    match turn
    case Tends(_) => true
    case Hears(_) => true
    case Talks(target, body, out, own, rnd, now) =>
      var verdict, a := Gate(c, ends.b, target, body, out).verdict, Turned(c, ends, names, turn).a;
      verdict.Cipher? ==>
        exists pieces: seq<string> ::
          DeliversBody(c, a, names.speaker, target, own, verdict.lines, body, pieces, rnd, now)
  }

  predicate DeliversBody(
    c: Crypto, a: Keyring, handle: string, target: string, own: string, lines: seq<string>, body: string,
    pieces: seq<string>, rnd: Randoms, now: real)
  {
    if IsAction(body)
    then AllDelivered(c, a, handle, target, own, lines, Frames(pieces), rnd, now) && ActionFrame(Concat(pieces)) == body
    else AllDelivered(c, a, handle, target, own, lines, pieces, rnd, now) && Concat(pieces) == body
  }

  // ----- every turn -----

  /** What the gate does with a target that stands for the context. */
  lemma GateUnder(c: Crypto, ring: Keyring, target: string, body: string, out: Outside, ctx: string)
    requires ChooseForSending(target, out) == Under(ctx)
    ensures var sent := Gate(c, ring, target, body, out);
            if Judged(target, body) then sent == SendUnder(c, ring, ctx, body, out)
            else sent.ring == ring && sent.rekeys == map[] && !sent.verdict.Cipher?
  {
    hide SendUnder, ChooseForSending;
  }

  lemma TalkKeeps(c: Crypto, ends: Ends, names: Names, turn: Turn)
    requires Ideal(c) && InSync(c, ends, names) && NoSpace(names.ctx) && turn.Talks? && Fair(c, ends, names, turn)
    ensures InSync(c, Turned(c, ends, names, turn), names) && Heard(c, ends, names, turn)
  {
    hide *;
    var ctx, target, body, out := names.ctx, turn.target, turn.body, turn.out;
    var sent, next := Gate(c, ends.b, target, body, out), Turned(c, ends, names, turn);
    FairTalk(c, ends, names, turn);
    GateUnder(c, ends.b, target, body, out, ctx);
    if !Judged(target, body) {
      NotTold(c, ends.a, names, sent.rekeys);
      NothingHeard(c, ends, names, turn);
    } else if out.read(ctx) == Yes {
      RekeyReaches(c, ends, names, body, out);
      SameVerdict(c, ends.b, ctx, body, out);
      GateUnder(c, next.b, target, body, out, ctx);
      if sent.verdict.Cipher? {
        TalkIsHeard(c, ends, names, turn);
      } else {
        NothingHeard(c, ends, names, turn);
      }
    } else {
      NotSent(c, ends.b, ctx, body, out);
      NotTold(c, ends.a, names, sent.rekeys);
      NothingHeard(c, ends, names, turn);
    }
  }

  lemma FairTalk(c: Crypto, ends: Ends, names: Names, turn: Turn)
    requires turn.Talks? && Fair(c, ends, names, turn)
    ensures ChooseForSending(turn.target, turn.out) == Under(names.ctx)
    ensures BothChoose(Turned(c, ends, names, turn).a, names.speaker, turn.target, turn.out, turn.own, names.ctx)
    ensures Abs(turn.now.Floor - turn.out.ts) <= TS_TOLERANCE && (forall k: nat :: SizedDraw(turn.out.draws(k)))
    ensures Sized(turn.out.rekeys(names.listener)) && |turn.out.spareKey| == KEY_LEN
    ensures var sent := Gate(c, ends.b, turn.target, turn.body, turn.out);
            Turned(c, ends, names, turn) == Ends(Told(c, ends.a, names, sent.rekeys), sent.ring)
  {
    hide ChooseForSending, ContextsOf, ChooseContext, Gate, Told, SizedDraw, Sized;
  }

  lemma NotSent(c: Crypto, ring: Keyring, ctx: string, body: string, out: Outside)
    requires out.read(ctx) != Yes
    ensures var sent := SendUnder(c, ring, ctx, body, out);
            sent.ring == ring && sent.rekeys == map[] && !sent.verdict.Cipher?
  {
  }

  lemma NothingHeard(c: Crypto, ends: Ends, names: Names, turn: Turn)
    requires turn.Talks? && !Gate(c, ends.b, turn.target, turn.body, turn.out).verdict.Cipher?
    ensures Heard(c, ends, names, turn)
  {
    hide Gate;
  }

  lemma TalkIsHeard(c: Crypto, ends: Ends, names: Names, turn: Turn)
    requires turn.Talks? && Gate(c, ends.b, turn.target, turn.body, turn.out).verdict.Cipher?
    requires var next := Turned(c, ends, names, turn);
             && Ideal(c) && (forall k: nat :: SizedDraw(turn.out.draws(k)))
             && InSync(c, next, names) && Sends(next.b, names.ctx, next.a.incoming[(names.speaker, names.ctx)].sk)
             && BothChoose(next.a, names.speaker, turn.target, turn.out, turn.own, names.ctx)
             && Abs(turn.now.Floor - turn.out.ts) <= TS_TOLERANCE
             && Gate(c, next.b, turn.target, turn.body, turn.out).verdict ==
                Gate(c, ends.b, turn.target, turn.body, turn.out).verdict
    ensures Heard(c, ends, names, turn)
  {
    var next := Turned(c, ends, names, turn);
    hide *;
    InSyncFacts(c, next, names);
    var pieces := MessageIsDelivered(
      c, next.a, next.b, names.speaker, turn.target, turn.own, names.ctx, turn.body, turn.out, turn.rnd, turn.now);
    HeardAs(c, ends, names, turn, pieces);
  }

  lemma HeardAs(c: Crypto, ends: Ends, names: Names, turn: Turn, pieces: seq<string>)
    requires turn.Talks? && Gate(c, ends.b, turn.target, turn.body, turn.out).verdict.Cipher?
    requires var lines := Gate(c, ends.b, turn.target, turn.body, turn.out).verdict.lines;
             var a := Turned(c, ends, names, turn).a;
             if IsAction(turn.body)
             then AllDelivered(c, a, names.speaker, turn.target, turn.own, lines, Frames(pieces), turn.rnd, turn.now)
                  && ActionFrame(Concat(pieces)) == turn.body
             else AllDelivered(c, a, names.speaker, turn.target, turn.own, lines, pieces, turn.rnd, turn.now)
                  && Concat(pieces) == turn.body
    ensures Heard(c, ends, names, turn)
  {
    hide Gate, Turned, AllDelivered, IsAction, ActionFrame, Concat;
    assert DeliversBody(
      c, Turned(c, ends, names, turn).a, names.speaker, turn.target, turn.own,
      Gate(c, ends.b, turn.target, turn.body, turn.out).verdict.lines, turn.body, pieces, turn.rnd, turn.now);
  }

  /** The speaker still has the listener on its list, and the same key, if not one up for rotation. */
  predicate KeepsListener(b: Keyring, next: Keyring, names: Names) {
    && next.identity == b.identity && Knows(b, names.ctx, names.listener) && Knows(next, names.ctx, names.listener)
    && next.recipients[(names.ctx, names.listener)] == b.recipients[(names.ctx, names.listener)]
    && PublicKeyOf(next, names.ctx, names.listener) == PublicKeyOf(b, names.ctx, names.listener)
    && names.ctx in b.outgoing && names.ctx in next.outgoing
    && next.outgoing[names.ctx].sk == b.outgoing[names.ctx].sk
    && (b.outgoing[names.ctx].pendingRotation ==> next.outgoing[names.ctx].pendingRotation)
  }

  lemma StillInSync(c: Crypto, ends: Ends, names: Names, next: Keyring)
    requires InSync(c, ends, names) && KeepsListener(ends.b, next, names)
    ensures InSync(c, Ends(ends.a, next), names)
  {
    hide Classify, Genuine;
  }

  lemma TendKeeps(c: Crypto, ends: Ends, names: Names, turn: Turn)
    requires InSync(c, ends, names) && turn.Tends? && Fair(c, ends, names, turn)
    ensures InSync(c, Turned(c, ends, names, turn), names)
  {
    hide InSync, KeepsListener, Marked, BuildKeyrsp, Step;
    match turn.action
    case Marks(ctx) =>
      KeepsItself(c, ends, names);
      MarkKeeps(c, ends, names, ends.b, ctx);
    case Revokes(ctx, handle) => RevokeKeeps(c, ends, names, ctx, handle);
    case Accepts(ctx, sender, pub, eph, rnd) => AcceptKeeps(c, ends, names, ctx, sender, pub, eph, rnd);
    case Receives(event) => ReceivedKeeps(c, ends, names, event);
    case Says(ctx, body, out) => ElsewhereKeeps(c, ends, names, ctx, body, out);
  }

  lemma ElsewhereKeeps(c: Crypto, ends: Ends, names: Names, ctx: string, body: string, out: Outside)
    requires InSync(c, ends, names) && ctx != names.ctx
    ensures InSync(c, Ends(ends.a, SendUnder(c, ends.b, ctx, body, out).ring), names)
  {
    hide Classify, Genuine, SendUnder, GetOutgoingKeyRotating, VerdictWith;
    VerdictIs(c, ends.b, ctx, body, out);
    GetterIs(ends.b, ctx, out.spareKey);
    StillInSync(c, ends, names, SendUnder(c, ends.b, ctx, body, out).ring);
  }

  /** What the speaker receives leaves the listener on its list, and the key as it is. */
  lemma ReceivedKeeps(c: Crypto, ends: Ends, names: Names, event: Event)
    requires InSync(c, ends, names) && Fair(c, ends, names, Tends(Receives(event)))
    ensures InSync(c, Ends(ends.a, Step(c, ends.b, event)), names)
  {
    hide Classify, Step, Introduced, Requested;
    EventLists(c, ends.b, event);
    PeerKeyStays(c, ends.b, event, ends.a.identity.fp);
    StepEffect(c, ends.b, event);
    ReceivedKeepsListener(c, ends, names, event);
    StillInSync(c, ends, names, Step(c, ends.b, event));
  }

  lemma ReceivedKeepsListener(c: Crypto, ends: Ends, names: Names, event: Event)
    requires InSync(c, ends, names) && Fair(c, ends, names, Tends(Receives(event)))
    requires var next, fp := Step(c, ends.b, event), ends.a.identity.fp;
             && fp in next.peers && next.peers[fp].pk == ends.b.peers[fp].pk && LeavesSettings(ends.b, next)
             && match Requested(event)
                case None => next.recipients == ends.b.recipients && next.outgoing == ends.b.outgoing
                case Some(req) =>
                  MayList(c, ends.b, next, req.channel, event.at.sender, req.pub) &&
                  KeysOnly(ends.b, next, req.channel)
    ensures KeepsListener(ends.b, Step(c, ends.b, event), names)
  {
    hide Classify, Step, Introduced, Requested;
  }

  /** What the listener receives leaves its session with the speaker as it is. */
  lemma HeardKeeps(c: Crypto, ends: Ends, names: Names, event: Event)
    requires InSync(c, ends, names) && Fair(c, ends, names, Hears(event))
    ensures InSync(c, Ends(Step(c, ends.a, event), ends.b), names)
  {
    hide Step, Classify, Renews;
    RowStays(c, ends.a, event, names.speaker, names.ctx);
    KnownStays(c, ends.a, event, ends.b.identity.fp, names.speaker);
    StepEffect(c, ends.a, event);
  }

  lemma MarkKeeps(c: Crypto, ends: Ends, names: Names, b: Keyring, ctx: string)
    requires InSync(c, ends, names) && KeepsListener(ends.b, b, names)
    ensures InSync(c, Ends(ends.a, Marked(b, ctx)), names)
  {
    hide InSync;
    StillInSync(c, ends, names, Marked(b, ctx));
  }

  lemma KeepsItself(c: Crypto, ends: Ends, names: Names)
    requires InSync(c, ends, names)
    ensures KeepsListener(ends.b, ends.b, names)
  {
    hide Classify, Genuine;
  }

  lemma RevokeKeeps(c: Crypto, ends: Ends, names: Names, ctx: string, handle: string)
    requires InSync(c, ends, names) && (ctx, handle) != (names.ctx, names.listener)
    ensures InSync(c, Ends(ends.a, Marked(ends.b.(recipients := ends.b.recipients - {(ctx, handle)}), ctx)), names)
  {
    hide InSync, Marked;
    KeepsItself(c, ends, names);
    MarkKeeps(c, ends, names, ends.b.(recipients := ends.b.recipients - {(ctx, handle)}), ctx);
  }

  lemma AcceptKeeps(
    c: Crypto, ends: Ends, names: Names, ctx: string, sender: string, pub: Bytes, eph: Bytes, rnd: Randoms)
    requires InSync(c, ends, names) && Fair(c, ends, names, Tends(Accepts(ctx, sender, pub, eph, rnd)))
    ensures InSync(c, Ends(ends.a, BuildKeyrsp(c, ends.b, ctx, sender, pub, eph, rnd).0), names)
  {
    hide Classify, Genuine, BuildKeyrsp, GetOutgoingKey, GetOutgoingKeyRotating;
    var next := BuildKeyrsp(c, ends.b, ctx, sender, pub, eph, rnd).0;
    AnswerIs(c, ends.b, ctx, sender, pub, eph, rnd);
    GettersAgree(ends.b, ctx, rnd.outgoingKey);
    GetterIs(ends.b, ctx, rnd.outgoingKey);
    GetterOfSettled(ends.b, ctx, rnd.outgoingKey);
    StillInSync(c, ends, names, next);
  }

  // ----- runs -----

  function TurnedAll(c: Crypto, ends: Ends, names: Names, turns: seq<Turn>): Ends
    decreases |turns|
  {
    if turns == [] then ends else TurnedAll(c, Turned(c, ends, names, turns[0]), names, turns[1..])
  }

  ghost predicate AllFair(c: Crypto, ends: Ends, names: Names, turns: seq<Turn>)
    decreases |turns|
  {
    turns == [] ||
    (Fair(c, ends, names, turns[0]) && AllFair(c, Turned(c, ends, names, turns[0]), names, turns[1..]))
  }

  /** Every message of the run that the speaker encrypts is delivered. */
  ghost predicate AllHeard(c: Crypto, ends: Ends, names: Names, turns: seq<Turn>)
    decreases |turns|
  {
    turns == [] ||
    (Heard(c, ends, names, turns[0]) && AllHeard(c, Turned(c, ends, names, turns[0]), names, turns[1..]))
  }

  /** Ends that are in sync stay so over every fair run, and every message of it is delivered. */
  lemma {:induction false} DialogueIsHeard(c: Crypto, ends: Ends, names: Names, turns: seq<Turn>)
    requires Ideal(c) && InSync(c, ends, names) && NoSpace(names.ctx) && AllFair(c, ends, names, turns)
    ensures InSync(c, TurnedAll(c, ends, names, turns), names) && AllHeard(c, ends, names, turns)
    decreases |turns|
  {
    hide InSync, Fair, Heard, Turned, Ideal, NoSpace;
    if turns != [] {
      TurnKeeps(c, ends, names, turns[0]);
      DialogueIsHeard(c, Turned(c, ends, names, turns[0]), names, turns[1..]);
    }
  }

  lemma TurnKeeps(c: Crypto, ends: Ends, names: Names, turn: Turn)
    requires Ideal(c) && InSync(c, ends, names) && NoSpace(names.ctx) && Fair(c, ends, names, turn)
    ensures InSync(c, Turned(c, ends, names, turn), names) && Heard(c, ends, names, turn)
  {
    hide InSync, Fair, Gate, Act, Step, Ideal, NoSpace, DeliversBody;
    match turn
    case Talks(_, _, _, _, _, _) => TalkKeeps(c, ends, names, turn);
    case Tends(_) => TendKeeps(c, ends, names, turn);
    case Hears(event) => HeardKeeps(c, ends, names, event);
  }

  // ----- replays -----

  lemma HandledRekey(c: Crypto, a: Keyring, sender: string, body: string, m: Wrapped, sk: Bytes)
    requires ParseWrapped("REKEY", body) == Some(m) && WrappedVerifies(c, "REKEY", m)
    requires UnwrapKey(c, c.secretToX25519(a.identity.sk, a.identity.pk), RekeyInfo(m.channel), m) == Some(sk)
    ensures var (next, ok) := HandleRekey(c, a, sender, body);
            && (ok <==> Classify(a, c.fingerprint(m.pub), sender) == Known &&
                        RowIsFree(a, sender, m.channel, c.fingerprint(m.pub)))
            && (!ok ==> next.incoming == a.incoming)
  {
    hide ParseWrapped, WrappedVerifies, RekeyInfo, Classify, UnwrapKey;
  }

  /** A genuine REKEY installs its key at exactly those that know the sender and have no other session in the row. */
  lemma RekeyInstallsIff(c: Crypto, a: Keyring, b: Keyring, ctx: string, sender: string, sk: Bytes, rnd: Randoms)
    requires Ideal(c) && Genuine(c, a.identity) && Genuine(c, b.identity) && Sized(rnd) && NoSpace(ctx)
    requires |sk| == KEY_LEN
    ensures var body := Unframe(BuildRekey(c, b, ctx, a.identity.pk, sk, rnd));
            && body.Some?
            && var (next, ok) := HandleRekey(c, a, sender, body.value);
            && (ok <==> Classify(a, b.identity.fp, sender) == Known && RowIsFree(a, sender, ctx, b.identity.fp))
            && (!ok ==> next.incoming == a.incoming)
  {
    hide ParseWrapped, WrappedVerifies, NoSpace, Frame, Unframe, RekeyInfo, Classify, UnwrapKey, WrapKey, WrappedBody,
      HandleRekey, RowIsFree, Sized;
    var scalar := c.secretToX25519(a.identity.sk, a.identity.pk);
    assert c.publicToX25519(a.identity.pk) == c.scalarPublic(scalar);
    var m := WrapKey(c, b.identity, "REKEY", ctx, c.scalarPublic(scalar), RekeyInfo(ctx), sk, rnd);
    UnframeFrame(WrappedBody("REKEY", m));
    WrappedArrives(c, b.identity, "REKEY", ctx, c.scalarPublic(scalar), RekeyInfo(ctx), sk, rnd);
    KeyUnwraps(c, b.identity, "REKEY", ctx, scalar, RekeyInfo(ctx), sk, rnd);
    HandledRekey(c, a, sender, WrappedBody("REKEY", m), m, sk);
  }

  /**
   * No REKEY says how old it is: one that is delivered again puts a listener in sync back on the key it carries. The
   * ends are then out of sync exactly if the speaker has another key by now and none of its messages is still to bring
   * it.
   */
  lemma ReplayedRekeyIff(c: Crypto, ends: Ends, names: Names, sk: Bytes, rnd: Randoms)
    requires Ideal(c) && InSync(c, ends, names) && NoSpace(names.ctx) && Sized(rnd) && |sk| == KEY_LEN
    ensures var body := Unframe(BuildRekey(c, ends.b, names.ctx, ends.a.identity.pk, sk, rnd));
            && body.Some?
            && var next := Ends(HandleRekey(c, ends.a, names.speaker, body.value).0, ends.b);
            && (names.speaker, names.ctx) in next.a.incoming && next.a.incoming[(names.speaker, names.ctx)].sk == sk
            && (InSync(c, next, names) <==>
                Awaits(ends.b, names.ctx) || sk == ends.b.outgoing[names.ctx].sk)
  {
    hide BuildRekey, HandleRekey, Unframe, Ideal, NoSpace, Classify;
    RekeyAgrees(c, ends.a, ends.b, names.ctx, names.speaker, sk, rnd);
    var body := Unframe(BuildRekey(c, ends.b, names.ctx, ends.a.identity.pk, sk, rnd));
    var next := HandleRekey(c, ends.a, names.speaker, body.value).0;
    ClassifiedAlike(ends.a, next, ends.b.identity.fp, names.speaker);
  }

  // ----- from the handshake on -----

  /** The answer in an exchange is the answer to this request, by the identity behind it. */
  lemma ExchangeAnswers(
    c: Crypto, a: Keyring, b: Keyring, names: Names, askedHandle: string, rndA: Randoms, rndB: Randoms, now: int)
    requires Ideal(c) && Genuine(c, a.identity) && Sized(rndA) && NoSpace(names.ctx)
    requires BuildKeyreq(c, a, names.ctx, askedHandle, rndA, now).Some?
    ensures var ends := Exchange(c, a, b, names.ctx, askedHandle, names.speaker, names.listener, rndA, rndB, now);
            ends.Some? ==>
              ends.value.1 ==
              BuildKeyrsp(c, b, names.ctx, names.listener, a.identity.pk, c.scalarPublic(rndA.ephSk), rndB).0
  {
    hide BuildKeyreq, BuildKeyrsp, HandleKeyrsp, Unframe, ParseKeyreq, NoSpace, KeyreqPayload, Ideal, KeyreqBody;
    KeyreqArrives(c, a, names.ctx, askedHandle, rndA, now);
  }

  /** The exchange leaves both ends in sync. */
  lemma ExchangeSyncs(
    c: Crypto, a: Keyring, b: Keyring, names: Names, askedHandle: string, rndA: Randoms, rndB: Randoms, now: int)
    returns (ends: Ends)
    requires Ideal(c) && Genuine(c, a.identity) && Genuine(c, b.identity) && Sized(rndA) && Sized(rndB)
    requires NoSpace(names.ctx) && KeyIsWhole(b, names.ctx)
    requires BuildKeyreq(c, a, names.ctx, askedHandle, rndA, now).Some?
    requires Answers(a, names.ctx, askedHandle, names.speaker)
    requires !Suspicious(Classify(a, b.identity.fp, names.speaker))
    requires RowIsFree(a, names.speaker, names.ctx, b.identity.fp)
    ensures Exchange(c, a, b, names.ctx, askedHandle, names.speaker, names.listener, rndA, rndB, now) ==
            Some((ends.a, ends.b))
    ensures InSync(c, ends, names)
  {
    hide *;
    var ctx, pub, eph := names.ctx, a.identity.pk, c.scalarPublic(rndA.ephSk);
    HandshakeAgrees(c, a, b, ctx, askedHandle, names.speaker, names.listener, rndA, rndB, now);
    var both := Exchange(c, a, b, ctx, askedHandle, names.speaker, names.listener, rndA, rndB, now).value;
    ends := Ends(both.0, both.1);
    ExchangeAnswers(c, a, b, names, askedHandle, rndA, rndB, now);
    AnswerIs(c, b, ctx, names.listener, pub, eph, rndB);
    GettersAgree(b, ctx, rndB.outgoingKey);
    GetterIs(b, ctx, rndB.outgoingKey);
    GetterOfSettled(b, ctx, rndB.outgoingKey);
    AnsweredInSync(c, a, b, names, ends, rndB, GetOutgoingKey(b, ctx, rndB.outgoingKey).0);
  }

  lemma AnsweredInSync(c: Crypto, a: Keyring, b: Keyring, names: Names, ends: Ends, rnd: Randoms, keyed: Keyring)
    requires Genuine(c, a.identity) && Genuine(c, b.identity) && Sized(rnd) && KeyIsWhole(b, names.ctx)
    requires ends.a.identity == a.identity && Classify(ends.a, b.identity.fp, names.speaker) == Known
    requires (names.speaker, names.ctx) in ends.a.incoming && names.ctx in ends.b.outgoing
    requires ends.a.incoming[(names.speaker, names.ctx)] ==
             Session(b.identity.fp, ends.b.outgoing[names.ctx].sk, Trusted)
    requires keyed == b.(outgoing := keyed.outgoing) && Settled(keyed, names.ctx)
    requires keyed.outgoing[names.ctx].sk ==
             (if Settled(b, names.ctx) then b.outgoing[names.ctx].sk else rnd.outgoingKey)
    requires var fp := c.fingerprint(a.identity.pk);
             ends.b ==
             keyed.(peers := keyed.peers[fp := Peer(a.identity.pk, names.listener, None, Trusted)],
                    recipients := keyed.recipients[(names.ctx, names.listener) := fp])
    ensures InSync(c, ends, names)
  {
    hide Classify;
  }

  /**
   * The promise as a whole: for any white-space-free context and a speaker the listener does not find suspicious, the
   * exchange succeeds, and over every fair run after it, rotations included, everything the speaker's gate encrypts
   * for the context is delivered to the listener.
   */
  lemma HandshakeThenDialogue(
    c: Crypto, a: Keyring, b: Keyring, names: Names, askedHandle: string, rndA: Randoms, rndB: Randoms, now: int)
    returns (ends: Ends)
    requires Ideal(c) && Genuine(c, a.identity) && Genuine(c, b.identity) && Sized(rndA) && Sized(rndB)
    requires NoSpace(names.ctx) && KeyIsWhole(b, names.ctx)
    requires BuildKeyreq(c, a, names.ctx, askedHandle, rndA, now).Some?
    requires Answers(a, names.ctx, askedHandle, names.speaker)
    requires !Suspicious(Classify(a, b.identity.fp, names.speaker))
    requires RowIsFree(a, names.speaker, names.ctx, b.identity.fp)
    ensures Exchange(c, a, b, names.ctx, askedHandle, names.speaker, names.listener, rndA, rndB, now) ==
            Some((ends.a, ends.b))
    ensures forall turns | AllFair(c, ends, names, turns) ::
              AllHeard(c, ends, names, turns) && InSync(c, TurnedAll(c, ends, names, turns), names)
  {
    hide *;
    ends := ExchangeSyncs(c, a, b, names, askedHandle, rndA, rndB, now);
    forall turns | AllFair(c, ends, names, turns)
      ensures AllHeard(c, ends, names, turns) && InSync(c, TurnedAll(c, ends, names, turns), names)
    {
      DialogueIsHeard(c, ends, names, turns);
    }
  }
}
