/**
 * Sending: `_encrypt_plain_wire`, `_encrypt_ctcp_wire`, the rotating key getter, rekey distribution and the outbound
 * gate `_e2e_gate_wire` of scripts/weechat/rpe2e.py.
 */
module Gates {
  import opened Wrappers
  import opened Utf8
  import opened Chunker
  import opened Cryptos
  import opened Wires
  import opened ChannelReadings
  import opened Keyrings

  /** The random values of one encrypted message: its id, and a nonce for each part. */
  datatype Draw = Draw(msgid: Bytes, nonce: nat -> Bytes)

  // ----- encryption -----

  /** Part `i` of a message, counting from 0. */
  function PartWire(c: Crypto, sk: Bytes, aad: Bytes, ts: int, draw: Draw, i: nat, total: nat, chunk: Bytes): Wire {
    Wire(draw.msgid, ts, i + 1, total, draw.nonce(i), c.seal(sk, draw.nonce(i), aad, chunk))
  }

  function PartAad(ctx: string, ts: int, draw: Draw, i: nat, total: nat): Option<Bytes> {
    BuildAad(ctx, draw.msgid, ts, i + 1, total)
  }

  function EncryptChunks(c: Crypto, sk: Bytes, ctx: string, chunks: seq<Bytes>, ts: int, draw: Draw, i: nat)
    : Option<seq<string>>
    requires i <= |chunks|
    decreases |chunks| - i
  {
    if i == |chunks| then Some([])
    else match (PartAad(ctx, ts, draw, i, |chunks|), EncryptChunks(c, sk, ctx, chunks, ts, draw, i + 1))
      case (Some(aad), Some(rest)) =>
        Some([EncodeWire(PartWire(c, sk, aad, ts, draw, i, |chunks|, chunks[i]))] + rest)
      case _ => None
  }

  /** `_encrypt_plain_wire`: one line per chunk; `None` when it raises. */
  function EncryptPlain(c: Crypto, sk: Bytes, ctx: string, plain: string, ts: int, draw: Draw): Option<seq<string>> {
    match SplitPlaintext(plain, MAX_PT_PER_CHUNK)
    case None => None
    case Some(chunks) => EncryptChunks(c, sk, ctx, chunks, ts, draw, 0)
  }

  /** `len(action_prefix) + 1`. */
  const ACTION_FRAMING: nat := 9

  function ActionFrame(piece: string): string { ACTION_PREFIX + piece + CTCP }

  function EncryptPieces(c: Crypto, sk: Bytes, ctx: string, pieces: seq<Bytes>, ts: int, draws: nat -> Draw, i: nat)
    : Option<seq<string>>
    requires i <= |pieces|
    decreases |pieces| - i
  {
    if i == |pieces| then Some([])
    else match Decode(pieces[i])
      case None => None
      case Some(piece) =>
        match (EncryptPlain(c, sk, ctx, ActionFrame(piece), ts, draws(i)),
               EncryptPieces(c, sk, ctx, pieces, ts, draws, i + 1))
        case (Some(first), Some(rest)) => Some(first + rest)
        case _ => None
  }

  /** `_encrypt_ctcp_wire`: a frame that does not fit one chunk is re-framed piece by piece. */
  function EncryptCtcp(
    c: Crypto, sk: Bytes, ctx: string, frame: string, ts: int, draws: nat -> Draw): Option<seq<string>> {
    if |Encode(frame)| <= MAX_PT_PER_CHUNK then EncryptPlain(c, sk, ctx, frame, ts, draws(0))
    else if !(|frame| > |ACTION_PREFIX| && ACTION_PREFIX <= frame && EndsWithCtcp(frame)) then None
    else match SplitPlaintext(frame[|ACTION_PREFIX|..|frame| - 1], MAX_PT_PER_CHUNK - ACTION_FRAMING)
      case None => None
      case Some(pieces) => EncryptPieces(c, sk, ctx, pieces, ts, draws, 0)
  }

  predicate EndsWithCtcp(s: string) { s != "" && s[|s| - 1..] == CTCP }

  // ----- keys -----

  /** `_get_or_generate_outgoing_key_with_rotation`: also whether a rotation was pending. */
  function GetOutgoingKeyRotating(ring: Keyring, channel: string, spare: Bytes): (Keyring, Bytes, bool) {
    if channel in ring.outgoing && !ring.outgoing[channel].pendingRotation then (ring, ring.outgoing[channel].sk, false)
    else
      (ring.(outgoing := ring.outgoing[channel := OutgoingKey(spare, false)]), spare, channel in ring.outgoing)
  }

  predicate Settled(ring: Keyring, ctx: string) { ctx in ring.outgoing && !ring.outgoing[ctx].pendingRotation }

  /** Getting a key settles the context and touches nothing else. */
  lemma GetterIs(ring: Keyring, ctx: string, spare: Bytes)
    ensures var (keyed, sk, _) := GetOutgoingKeyRotating(ring, ctx, spare);
            && keyed == ring.(outgoing := keyed.outgoing) && Settled(keyed, ctx) && keyed.outgoing[ctx].sk == sk
            && (forall other | other in ring.outgoing && other != ctx ::
                  other in keyed.outgoing && keyed.outgoing[other] == ring.outgoing[other])
            && (!Settled(ring, ctx) ==> sk == spare)
  {
    if !Settled(ring, ctx) {
      var keyed := GetOutgoingKeyRotating(ring, ctx, spare).0;
      assert keyed.outgoing == ring.outgoing[ctx := OutgoingKey(spare, false)];
    }
  }

  /** A settled key stays. */
  lemma GetterOfSettled(ring: Keyring, ctx: string, spare: Bytes)
    ensures Settled(ring, ctx) ==> GetOutgoingKeyRotating(ring, ctx, spare) == (ring, ring.outgoing[ctx].sk, false)
  {
  }

  /** `_distribute_rekey`: what each known recipient of the context is sent. */
  function DistributeRekey(c: Crypto, ring: Keyring, channel: string, sk: Bytes, rnd: string -> Randoms)
    : map<string, string>
  {
    var handles := set p | p in ring.recipients && p.0 == channel && ring.recipients[p] in ring.peers :: p.1;
    map handle | handle in handles ::
      BuildRekey(c, ring, channel, ring.peers[ring.recipients[(channel, handle)]].pk, sk, rnd(handle))
  }

  // ----- the gate -----

  datatype Enabled = Yes | No | ReadError
  datatype Refusal = NoHandle | KeyringRead | EncryptFailed | Ambiguous
  datatype Verdict = Pass | Bypass(warned: bool) | Refuse(why: Refusal) | Cipher(lines: seq<string>)

  /**
   * What the gate learns from outside: the enabled reads, the peer handle a DM target resolves to, clock, randomness.
   */
  datatype Outside = Outside(
    read: string -> Enabled, peer: Option<string>, ts: int, draws: nat -> Draw, spareKey: Bytes,
    rekeys: string -> Randoms)

  datatype Sent = Sent(ring: Keyring, verdict: Verdict, rekeys: map<string, string>)

  predicate IsCtcp(body: string) { |body| >= 2 && CTCP <= body && EndsWithCtcp(body) }

  predicate IsAction(body: string) { ACTION_PREFIX <= body && EndsWithCtcp(body) }

  predicate IsBotLine(body: string) { body != "" && (body[0] == '.' || body[0] == '!') && '\n' !in body }

  function Only(readings: seq<string>, read: string -> Enabled, wanted: Enabled): (r: seq<string>)
    ensures forall x :: x in r <==> x in readings && read(x) == wanted
  {
    if readings == [] then []
    else (if read(readings[0]) == wanted then [readings[0]] else []) + Only(readings[1..], read, wanted)
  }

  /** The context to encrypt under, if it can be told; otherwise the verdict. */
  datatype Choice = Under(ctx: string) | Decided(verdict: Verdict)

  function ChooseForSending(target: string, out: Outside): Choice {
    var readings := Readings(target);
    if readings != [] then
      if Only(readings, out.read, ReadError) != [] then Decided(Refuse(KeyringRead))
      else
        var on := Only(readings, out.read, Yes);
        if |on| > 1 then Decided(Refuse(Ambiguous)) else Under(if on != [] then on[0] else readings[0])
    else match out.peer
      case Some(handle) => Under("@" + handle)
      case None =>
        match out.read(target)
        case ReadError => Decided(Refuse(KeyringRead))
        case Yes => Decided(Refuse(NoHandle))
        case No => Decided(Pass)
  }

  function Encrypt(c: Crypto, sk: Bytes, ctx: string, body: string, out: Outside): Option<seq<string>> {
    if IsAction(body) then EncryptCtcp(c, sk, ctx, body, out.ts, out.draws)
    else EncryptPlain(c, sk, ctx, body, out.ts, out.draws(0))
  }

  function SendUnder(c: Crypto, ring: Keyring, ctx: string, body: string, out: Outside): Sent {
    match out.read(ctx)
    case ReadError => Sent(ring, Refuse(KeyringRead), map[])
    case No => Sent(ring, Pass, map[])
    case Yes =>
      var (keyed, sk, hadPending) := GetOutgoingKeyRotating(ring, ctx, out.spareKey);
      var rekeys := if hadPending then DistributeRekey(c, keyed, ctx, sk, out.rekeys) else map[];
      match Encrypt(c, sk, ctx, body, out)
      case None => Sent(keyed, Refuse(EncryptFailed), rekeys)
      case Some(lines) => Sent(keyed, Cipher(lines), rekeys)
  }

  /** `_e2e_gate_wire`. */
  function Gate(c: Crypto, ring: Keyring, target: string, body: string, out: Outside): Sent {
    var readings := Readings(target);
    if IsCtcp(body) && !IsAction(body) then Sent(ring, Pass, map[])
    else if readings != [] && IsBotLine(body) then
      Sent(ring, Bypass(exists r | r in readings :: out.read(r) != No), map[])
    else match ChooseForSending(target, out)
      case Decided(verdict) => Sent(ring, verdict, map[])
      case Under(ctx) => SendUnder(c, ring, ctx, body, out)
  }

  // ----- totality -----

  /** Text the gate must judge: neither a CTCP request nor, in a channel, a line for bots. */
  predicate Judged(target: string, body: string) {
    !(IsCtcp(body) && !IsAction(body)) && !(Readings(target) != [] && IsBotLine(body))
  }

  lemma OnlyOne(readings: seq<string>, read: string -> Enabled, wanted: Enabled)
    requires forall a, b | 0 <= a < b < |readings| :: |readings[a]| < |readings[b]|
    ensures forall a, b | 0 <= a < b < |Only(readings, read, wanted)| ::
              |Only(readings, read, wanted)[a]| < |Only(readings, read, wanted)[b]|
  {
    if readings != [] {
      var rest := Only(readings[1..], read, wanted);
      assert forall a | 0 <= a < |readings[1..]| :: readings[1..][a] == readings[a + 1];
      OnlyOne(readings[1..], read, wanted);
      forall b | 0 <= b < |rest|
        ensures |readings[0]| < |rest[b]|
      {
        assert rest[b] in readings[1..];
      }
    }
  }

  lemma JudgedGoesOn(c: Crypto, ring: Keyring, target: string, body: string, out: Outside)
    requires Judged(target, body)
    ensures Gate(c, ring, target, body, out) ==
            match ChooseForSending(target, out)
            case Decided(verdict) => Sent(ring, verdict, map[])
            case Under(ctx) => SendUnder(c, ring, ctx, body, out)
  {
    hide SendUnder, ChooseForSending, Readings;
  }
}
