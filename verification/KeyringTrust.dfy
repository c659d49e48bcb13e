/**
 * Where trust comes from, over whole runs of received messages: nobody is sent a key, and nothing is read, but on the
 * strength of a session that was there from the start or that a verified handshake message installed on the way; a
 * revoked peer stays out; and no handle is asked more often than every 30 seconds.
 */
module KeyringTrust {
  import opened Wrappers
  import opened Utf8
  import opened Cryptos
  import opened Wires
  import opened Handshakes
  import opened Keyrings
  import opened KeyringRuns
  import opened KeyringRules
  import PeerTables

  // ----- where trust comes from -----

  /** One of the events is a handshake message, signed under this fingerprint's key, for this handle and context. */
  ghost predicate Vouched(c: Crypto, events: seq<Event>, handle: string, ctx: string, fp: Bytes) {
    exists e | e in events :: Vouches(c, e, handle, ctx, fp)
  }

  /** A session trusted after a run was so before it, under the same fingerprint, or was vouched for in it. */
  lemma {:induction false} TrustHasASource(c: Crypto, ring: Keyring, events: seq<Event>, handle: string, ctx: string)
    requires Trusts(Run(c, ring, events), handle, ctx)
    ensures var fp := Run(c, ring, events).incoming[(handle, ctx)].fp;
            || (Trusts(ring, handle, ctx) && ring.incoming[(handle, ctx)].fp == fp)
            || Vouched(c, events, handle, ctx, fp)
    decreases |events|
  {
    hide Step, Vouches;
    if events != [] {
      var e, rest, next := events[0], events[1..], Step(c, ring, events[0]);
      assert e in events && forall x | x in rest :: x in events;
      TrustHasASource(c, next, rest, handle, ctx);
      var fp := Run(c, ring, events).incoming[(handle, ctx)].fp;
      if !Vouched(c, rest, handle, ctx, fp) {
        if Trusts(ring, handle, ctx) {
          PinHolds(c, ring, [e], handle, ctx, ring.incoming[(handle, ctx)].fp);
          assert [e][1..] == [];
          assert Run(c, ring, [e]) == next;
        } else {
          TrustIsVouchedFor(c, ring, e, handle, ctx);
        }
      }
    }
  }

  /**
   * Strangers get no key: in a context in quiet or normal mode a KEYREQ that no rule trusts is answered, after any run
   * of messages, only if there was a trusted session with its sender from the start or a verified handshake message
   * installed one in the run.
   */
  lemma StrangersGetNoKey(c: Crypto, ring: Keyring, events: seq<Event>, at: Arrival, body: string)
    requires HandleKeyreq(c, Run(c, ring, events), at, body).response.Some?
    ensures ParseKeyreq(body).Some?
    ensures var ctx := ParseKeyreq(body).value.channel;
            && ctx in ring.channels
            && (!at.autotrust && ring.channels[ctx].mode in {"quiet", "normal"} ==>
                Trusts(ring, at.sender, ctx) || exists fp :: Vouched(c, events, at.sender, ctx, fp))
  {
    hide Run, HandleKeyreq, Vouched, ParseKeyreq, Plausible;
    AnsweredIff(c, Run(c, ring, events), at, body);
    MessagesLeaveSettings(c, ring, events);
    var ctx := ParseKeyreq(body).value.channel;
    if Trusts(Run(c, ring, events), at.sender, ctx) {
      TrustHasASource(c, ring, events, at.sender, ctx);
    }
  }

  /**
   * Nothing is shown but what opens under a session with its sender, in a context the target can mean, that was trusted
   * from the start or that a verified handshake message installed in the run.
   */
  lemma ShownIsVouchedFor(
    c: Crypto, ring: Keyring, events: seq<Event>, handle: string, target: string, own: string, w: Wire, rnd: Randoms,
    now: real)
    returns (ctx: string, bytes: Bytes)
    requires var delivery := HandleWire(c, Run(c, ring, events), handle, target, own, w, rnd, now).1;
             delivery.Shown? || delivery.Garbled?
    ensures MeantBy(target, own, ctx) && OpensTo(c, Run(c, ring, events), handle, ctx, w, bytes) && Timely(w, now)
    ensures var fp := Run(c, ring, events).incoming[(handle, ctx)].fp;
            || (Trusts(ring, handle, ctx) && ring.incoming[(handle, ctx)].fp == fp)
            || Vouched(c, events, handle, ctx, fp)
  {
    hide Run, HandleWire, Vouched, MeantBy, BuildAad, Decode;
    var later := Run(c, ring, events);
    var delivery := HandleWire(c, later, handle, target, own, w, rnd, now).1;
    if delivery.Shown? {
      ShownIff(c, later, handle, target, own, w, rnd, now, delivery.text);
      ctx, bytes :| ReadUnder(later, handle, target, own, ctx) && OpensTo(c, later, handle, ctx, w, bytes)
                    && Decode(bytes) == Some(delivery.text);
    } else {
      bytes := delivery.bytes;
      GarbledIff(c, later, handle, target, own, w, rnd, now, bytes);
      ctx :| ReadUnder(later, handle, target, own, ctx) && OpensTo(c, later, handle, ctx, w, bytes);
    }
    TrustHasASource(c, ring, events, handle, ctx);
  }

  // ----- revoked peers -----

  predicate RevokedIn(ring: Keyring, fp: Bytes) { fp in ring.peers && ring.peers[fp].status.Revoked? }

  /** Every trusted session of this fingerprint was there before, with the same key. */
  predicate NoNewSession(ring: Keyring, next: Keyring, fp: Bytes) {
    forall row | row in next.incoming && next.incoming[row].fp == fp && next.incoming[row].status.Trusted? ::
      row in ring.incoming && ring.incoming[row] == next.incoming[row]
  }

  lemma SessionsStay(c: Crypto, ring: Keyring, e: Event, fp: Bytes)
    requires RevokedIn(ring, fp)
    ensures NoNewSession(ring, Step(c, ring, e), fp)
  {
    hide BuildKeyreq, HandleKeyreq, HandleKeyrsp, HandleRekey, HandleWire, LeavesSettings, MayAsk, AnsweredKeyreq,
      ParseWrapped, Signed, Holds, AnswersKey, RowTakes, WrappedVerifies;
    StepEffect(c, ring, e);
    match e
    case GotKeyreq(at, body) => KeyreqEffect(c, ring, at, body);
    case GotKeyrsp(sender, body) =>
      KeyrspEffect(c, ring, sender, body);
      KeyrspInstallsIff(c, ring, sender, body);
    case GotRekey(sender, body) =>
      RekeyEffect(c, ring, sender, body);
      RekeyInstallsExactly(c, ring, sender, body);
    case _ =>
  }

  lemma RevokedStays(c: Crypto, ring: Keyring, e: Event, fp: Bytes)
    requires RevokedIn(ring, fp)
    ensures RevokedIn(Step(c, ring, e), fp)
  {
    hide Step, PeerTables.Introduced, Classify;
    PeerTables.EventPeers(c, ring, e);
    var next := Step(c, ring, e);
    if next.peers != ring.peers {
      var (pub, sender) := PeerTables.Introduced(e).value;
      var peer :| PeerTables.Meets(c, ring, next, sender, pub, peer);
      SuspiciousIff(ring, c.fingerprint(pub), sender);
    }
  }

  /**
   * A revoked peer stays out, whatever is received: it stays revoked, no request under its key is answered, and no
   * session of it is installed or renewed.
   */
  lemma {:induction false} RevokedStaysOut(c: Crypto, ring: Keyring, events: seq<Event>, fp: Bytes)
    requires RevokedIn(ring, fp)
    ensures var later := Run(c, ring, events);
            && RevokedIn(later, fp) && NoNewSession(ring, later, fp)
            && forall at, body | HandleKeyreq(c, later, at, body).response.Some? ::
                 ParseKeyreq(body).Some? && c.fingerprint(ParseKeyreq(body).value.pub) != fp
    decreases |events|
  {
    hide Step, HandleKeyreq, ParseKeyreq;
    if events == [] {
      forall at, body | HandleKeyreq(c, ring, at, body).response.Some?
        ensures ParseKeyreq(body).Some? && c.fingerprint(ParseKeyreq(body).value.pub) != fp
      {
        AnsweredIff(c, ring, at, body);
      }
    } else {
      RevokedStays(c, ring, events[0], fp);
      SessionsStay(c, ring, events[0], fp);
      RevokedStaysOut(c, Step(c, ring, events[0]), events[1..], fp);
    }
  }

  // ----- how often a handle is asked -----

  /** When the handle is asked by this event: back, or for a line that could not be read. */
  function AskedAt(c: Crypto, ring: Keyring, e: Event, handle: string): seq<real> {
    match e
    case GotKeyreq(at, body) =>
      if at.sender == handle && HandleKeyreq(c, ring, at, body).reciprocal.Some? then [at.now] else []
    case GotWire(sender, target, own, wire, rnd, now) =>
      var delivery := HandleWire(c, ring, sender, target, own, wire, rnd, now).1;
      if sender == handle && delivery.Asked? && delivery.keyreq.Some? then [now] else []
    case _ => []
  }

  function AllAskedAt(c: Crypto, ring: Keyring, events: seq<Event>, handle: string): seq<real>
    decreases |events|
  {
    if events == [] then []
    else AskedAt(c, ring, events[0], handle) + AllAskedAt(c, Step(c, ring, events[0]), events[1..], handle)
  }

  /** The handle's clock stands where it did, or 30 seconds later and, if it was asked, at that time. */
  predicate Paced(ring: Keyring, next: Keyring, handle: string, times: seq<real>) {
    && |times| <= 1
    && (if times == [] then
          LastAsked(next, handle) == LastAsked(ring, handle)
          || LastAsked(next, handle) >= LastAsked(ring, handle) + 30.0
        else LastAsked(next, handle) == times[0] >= LastAsked(ring, handle) + 30.0)
  }

  lemma AskingPaces(c: Crypto, ring: Keyring, ctx: string, sender: string, rnd: Randoms, now: real, handle: string)
    ensures var (asked, allow) := AllowOutgoingKeyreq(ring, sender, now);
            && Paced(ring, asked, handle, [])
            && (allow && sender == handle ==> Paced(ring, asked, handle, [now]))
            && var made := BuildKeyreq(c, asked, ctx, sender, rnd, now.Floor);
            made.Some? ==> made.value.0.keyreqSentAt == asked.keyreqSentAt
  {
    AllowedIff(ring, sender, now);
    hide KeyreqMessage, KeyreqBody;
  }

  lemma AskingBackPaces(
    c: Crypto, ring: Keyring, channel: string, sender: string, own: string, rnd: Randoms, now: real, handle: string)
    ensures var (next, text) := Reciprocal(c, ring, channel, sender, own, rnd, now);
            Paced(ring, next, handle, if sender == handle && text.Some? then [now] else [])
  {
    hide BuildKeyreq, AllowOutgoingKeyreq;
    var ctx := ReciprocalCtx(channel, own);
    if ctx.Some? {
      AskingPaces(c, ring, ctx.value, sender, rnd, now, handle);
    }
  }

  lemma AnswerKeepsClock(
    c: Crypto, ring: Keyring, channel: string, sender: string, pub: Bytes, eph: Bytes, rnd: Randoms)
    ensures BuildKeyrsp(c, ring, channel, sender, pub, eph, rnd).0.keyreqSentAt == ring.keyreqSentAt
  {
    hide WrapKey, WrappedBody;
  }

  lemma ResponsePaces(c: Crypto, ring: Keyring, at: Arrival, req: Keyreq, fp: Bytes, handle: string)
    requires req.channel in ring.channels
    ensures var reply := RespondKeyreq(c, ring, at, req, fp);
            Paced(ring, reply.ring, handle, if at.sender == handle && reply.reciprocal.Some? then [at.now] else [])
  {
    hide BuildKeyrsp, Reciprocal, Zeros;
    AnswerKeepsClock(c, ring, req.channel, at.sender, req.pub, req.eph, at.rnd);
    var answered := BuildKeyrsp(c, ring, req.channel, at.sender, req.pub, req.eph, at.rnd).0;
    AskingBackPaces(c, answered, req.channel, at.sender, at.own, at.rnd2, at.now, handle);
  }

  lemma MetKeepsClock(c: Crypto, ring: Keyring, at: Arrival, req: Keyreq)
    ensures SameClock(ring, Met(c, ring, at, req)) && SameClock(ring, Counted(ring, at))
    ensures forall change :: SameClock(ring, Counted(ring, at).(trustChanges := change))
  {
    hide Limiter.Allow;
  }

  lemma PacedAlike(ring: Keyring, mid: Keyring, next: Keyring, handle: string, times: seq<real>)
    requires SameClock(ring, mid)
    ensures Paced(mid, next, handle, times) <==> Paced(ring, next, handle, times)
    ensures times == [] ==> Paced(ring, mid, handle, times)
  {
  }

  lemma RequestPaces(c: Crypto, ring: Keyring, at: Arrival, body: string, handle: string)
    ensures var reply := HandleKeyreq(c, ring, at, body);
            Paced(ring, reply.ring, handle, if at.sender == handle && reply.reciprocal.Some? then [at.now] else [])
  {
    hide ParseKeyreq, HandleKeyreq, JudgeKeyreq, RespondKeyreq, Plausible, Proper, WhatChanged, Met, Counted, Paced,
      SameClock;
    var reply := HandleKeyreq(c, ring, at, body);
    var times := if at.sender == handle && reply.reciprocal.Some? then [at.now] else [];
    if ParseKeyreq(body).Some? {
      var req := ParseKeyreq(body).value;
      MetKeepsClock(c, ring, at, req);
      KeyreqIs(c, ring, at, body);
      ProperIsEnabled(c, ring, at, req);
      if Proper(c, ring, at, req) && Plausible(ring, c.fingerprint(req.pub), at.sender) {
        JudgedIs(c, ring, at, req);
        var met := Met(c, ring, at, req);
        ResponsePaces(c, met, at, req, c.fingerprint(req.pub), handle);
        PacedAlike(ring, met, reply.ring, handle, times);
      } else {
        if Proper(c, ring, at, req) {
          JudgedIs(c, ring, at, req);
        }
        PacedAlike(ring, reply.ring, reply.ring, handle, times);
      }
    } else {
      Unparsed(c, ring, at, body);
      NoteKeepsClock(ring, "", "", New);
      PacedAlike(ring, ring, ring, handle, times);
    }
  }

  lemma StepPaces(c: Crypto, ring: Keyring, e: Event, handle: string)
    ensures Paced(ring, Step(c, ring, e), handle, AskedAt(c, ring, e, handle))
  {
    hide HandleKeyreq, BuildKeyreq, ParseWrapped, WrappedVerifies, UnwrapKey, Classify, Install, AllowOutgoingKeyreq,
      OpenWire, ContextsOf, ChooseContext, IsTrusted, AnsweredKeyreq;
    match e
    case GotKeyreq(at, body) => RequestPaces(c, ring, at, body, handle);
    case GotWire(sender, target, own, wire, rnd, now) =>
      var contexts := ContextsOf(target, own);
      if contexts != [] {
        var ctx := ChooseContext(ring, sender, contexts);
        AskingPaces(c, ring, ctx, sender, rnd, now, handle);
        if IsTrusted(ring, sender, ctx) {
          OpeningAsksNot(c, OpeningKey(ring, sender, ctx), ctx, wire);
        }
      }
    case SentKeyreq(channel, other, rnd, sentAt) => BuildingKeepsClock(c, ring, channel, other, rnd, sentAt);
    case GotKeyrsp(sender, body) => KeyrspKeepsClock(c, ring, sender, body);
    case GotRekey(sender, body) => RekeyKeepsClock(c, ring, sender, body);
  }

  function OpeningKey(ring: Keyring, handle: string, ctx: string): Bytes
    requires IsTrusted(ring, handle, ctx)
  {
    ring.incoming[(handle, ctx)].sk
  }

  lemma BuildingKeepsClock(c: Crypto, ring: Keyring, channel: string, handle: string, rnd: Randoms, now: int)
    ensures var made := BuildKeyreq(c, ring, channel, handle, rnd, now);
            made.Some? ==> made.value.0.keyreqSentAt == ring.keyreqSentAt
  {
    hide KeyreqMessage, KeyreqBody;
  }

  predicate SameClock(ring: Keyring, next: Keyring) { next.keyreqSentAt == ring.keyreqSentAt }

  lemma NoteKeepsClock(ring: Keyring, handle: string, ctx: string, change: Change)
    ensures SameClock(ring, NoteChange(ring, handle, ctx, change)) && SameClock(ring, ring)
  {
  }

  lemma InstallKeepsClock(ring: Keyring, sender: string, ctx: string, fp: Bytes, sk: Bytes)
    ensures SameClock(ring, Install(ring, sender, ctx, fp, sk).0)
  {
    var next := Install(ring, sender, ctx, fp, sk).0;
    assert next == ring.(incoming := next.incoming, trustChanges := next.trustChanges);
    hide Install;
  }

  lemma AcceptKeepsClock(c: Crypto, ring: Keyring, sender: string, m: Wrapped, sk: Bytes)
    ensures SameClock(ring, AcceptKeyrsp(c, ring, sender, m, sk).0)
  {
    hide Classify, Install;
    InstallKeepsClock(ring, sender, m.channel, c.fingerprint(m.pub), sk);
  }

  lemma KeyrspKeepsClock(c: Crypto, ring: Keyring, sender: string, body: string)
    ensures SameClock(ring, HandleKeyrsp(c, ring, sender, body).0)
  {
    hide ParseWrapped, Signed, UnwrapKey, AcceptKeyrsp, AnsweredKeyreq, HandleKeyrsp;
    var m := ParseWrapped("KEYRSP", body);
    if m.Some? {
      KeyrspIs(c, ring, sender, body, m.value);
      AnsweredIs(ring, m.value.channel, sender);
      var key := AnsweredKeyreq(ring, m.value.channel, sender);
      if key.Some? {
        var used := ring.(pending := ring.pending - {key.value});
        var sk := UnwrapKey(c, ring.pending[key.value].ephSk, WrapInfo(m.value.channel), m.value);
        if sk.Some? {
          AcceptKeepsClock(c, used, sender, m.value, sk.value);
        }
      }
    } else {
      UnparsedKeyrsp(c, ring, sender, body);
    }
  }

  lemma RekeyKeepsClock(c: Crypto, ring: Keyring, sender: string, body: string)
    ensures SameClock(ring, HandleRekey(c, ring, sender, body).0)
  {
    hide ParseWrapped, WrappedVerifies, UnwrapKey, Classify, Install, NoteChange, SameClock;
    NoteKeepsClock(ring, sender, "", New);
    if ParseWrapped("REKEY", body).Some? {
      var m := ParseWrapped("REKEY", body).value;
      var fp := c.fingerprint(m.pub);
      NoteKeepsClock(ring, sender, m.channel, Classify(ring, fp, sender));
      forall sk
        ensures SameClock(ring, Install(ring, sender, m.channel, fp, sk).0)
      {
        InstallKeepsClock(ring, sender, m.channel, fp, sk);
      }
    }
  }

  /** The first of these times is 30 seconds after `last`, and each later one after the one before. */
  predicate Spaced(times: seq<real>, last: real) {
    (forall i | 0 <= i < |times| :: times[i] - last >= 30.0)
    && forall i, j | 0 <= i < j < |times| :: times[j] - times[i] >= 30.0
  }

  lemma NeverAsked(last: real)
    ensures Spaced([], last)
  {
  }

  lemma SpacedAfter(times: seq<real>, rest: seq<real>, last: real, next: real)
    requires |times| <= 1 && Spaced(rest, next)
    requires if times == [] then next == last || next >= last + 30.0 else next == times[0] >= last + 30.0
    ensures Spaced(times + rest, last)
  {
  }

  /** Over every run, requests that go out by themselves to one handle are at least 30 seconds apart. */
  lemma {:induction false} KeyreqsAreSpaced(c: Crypto, ring: Keyring, events: seq<Event>, handle: string)
    ensures Spaced(AllAskedAt(c, ring, events, handle), LastAsked(ring, handle))
    decreases |events|
  {
    hide Step, AskedAt, LastAsked, Spaced;
    if events == [] {
      NeverAsked(LastAsked(ring, handle));
    } else {
      var next := Step(c, ring, events[0]);
      StepPaces(c, ring, events[0], handle);
      KeyreqsAreSpaced(c, next, events[1..], handle);
      SpacedAfter(AskedAt(c, ring, events[0], handle), AllAskedAt(c, next, events[1..], handle),
        LastAsked(ring, handle), LastAsked(next, handle));
      assert AllAskedAt(c, ring, events, handle) ==
             AskedAt(c, ring, events[0], handle) + AllAskedAt(c, next, events[1..], handle);
    }
  }
}
