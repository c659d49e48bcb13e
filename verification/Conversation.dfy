/**
 * The protocol's promise as a whole: what the holder of an outgoing key says is what the holder of the session reads.
 */
module Conversation {
  import opened Wrappers
  import opened Utf8
  import opened Chunker
  import opened Cryptos
  import opened Wires
  import opened ChannelReadings
  import opened Keyrings
  import opened Gates
  import opened Messages

  /** Both ends take `target` to mean `ctx`: the sender's gate, and the receiver reading `handle`. */
  predicate BothChoose(a: Keyring, handle: string, target: string, out: Outside, own: string, ctx: string) {
    && ChooseForSending(target, out) == Under(ctx)
    && ContextsOf(target, own) != [] && ChooseContext(a, handle, ContextsOf(target, own)) == ctx
  }

  /** They do when the target has a single reading, whatever status prefixes it carries, and in a DM. */
  lemma BothChooseTheOnlyContext(a: Keyring, handle: string, target: string, out: Outside, own: string, ctx: string)
    requires || (Readings(target) == [ctx] && out.read(ctx) == Yes)
             || (Readings(target) == [] && own != "" && out.peer == Some(own) && ctx == "@" + own)
    ensures BothChoose(a, handle, target, out, own, ctx)
  {
    hide Readings;
    if Readings(target) == [ctx] {
      assert Only([ctx], out.read, ReadError) == [] && Only([ctx], out.read, Yes) == [ctx] by {
        assert [ctx][1..] == [] && [ctx] + [] == [ctx];
      }
    }
  }

  lemma GateSendsUnder(c: Crypto, ring: Keyring, target: string, body: string, out: Outside, ctx: string)
    requires ChooseForSending(target, out) == Under(ctx) && Gate(c, ring, target, body, out).verdict.Cipher?
    ensures Gate(c, ring, target, body, out) == SendUnder(c, ring, ctx, body, out)
  {
    hide SendUnder, IsCtcp, IsAction, IsBotLine, Readings, ChooseForSending;
  }

  /** Every line of a message is delivered as the matching text, and reading it leaves the keyring as it was. */
  predicate AllDelivered(
    c: Crypto, ring: Keyring, handle: string, target: string, own: string, lines: seq<string>, texts: seq<string>,
    rnd: Randoms, now: real)
  {
    |lines| == |texts| && forall k | 0 <= k < |lines| ::
      Delivered(c, ring, handle, target, own, lines[k], texts[k], rnd, now)
  }

  predicate Delivered(
    c: Crypto, ring: Keyring, handle: string, target: string, own: string, line: string, text: string,
    rnd: Randoms, now: real)
  {
    ParseWire(line).Some? &&
    HandleWire(c, ring, handle, target, own, ParseWire(line).value, rnd, now) == (ring, Reading(text))
  }

  function Frames(pieces: seq<string>): (r: seq<string>)
    ensures |r| == |pieces| && forall k | 0 <= k < |r| :: r[k] == ActionFrame(pieces[k])
  {
    seq(|pieces|, k requires 0 <= k < |pieces| => ActionFrame(pieces[k]))
  }

  /**
   * A message the gate encrypts under the key the receiver holds for that context is delivered there: a plain body as
   * pieces that concatenate to it, an ACTION as complete ACTION frames whose bodies concatenate to the original one.
   */
  lemma MessageIsDelivered(
    c: Crypto, a: Keyring, b: Keyring, handle: string, target: string, own: string, ctx: string,
    body: string, out: Outside, rnd: Randoms, now: real) returns (pieces: seq<string>)
    requires Ideal(c) && (forall k: nat :: SizedDraw(out.draws(k)))
    requires IsTrusted(a, handle, ctx) && Sends(b, ctx, a.incoming[(handle, ctx)].sk)
    requires BothChoose(a, handle, target, out, own, ctx)
    requires Gate(c, b, target, body, out).verdict.Cipher? && Abs(now.Floor - out.ts) <= TS_TOLERANCE
    ensures var lines := Gate(c, b, target, body, out).verdict.lines;
            if IsAction(body)
            then AllDelivered(c, a, handle, target, own, lines, Frames(pieces), rnd, now)
                 && ActionFrame(Concat(pieces)) == body
            else AllDelivered(c, a, handle, target, own, lines, pieces, rnd, now) && Concat(pieces) == body
    ensures !IsAction(body) ==> SplitPlaintext(body, MAX_PT_PER_CHUNK) == Some(EncodeAll(pieces))
  {
    BothEnds(c, a, b, handle, target, out, own, ctx, body);
    hide SendUnder, Gate, IsAction, ActionFrame, Concat, SizedDraw, Ideal, Reads, Sends, AllDelivered,
      AllArrive, AllFramesArrive, BothChoose, Encode;
    var sk := a.incoming[(handle, ctx)].sk;
    var lines;
    lines, pieces := SentArrives(c, b, ctx, body, out, sk);
    if IsAction(body) {
      FramesAreDelivered(c, a, handle, target, own, ctx, sk, out.ts, lines, pieces, rnd, now);
    } else {
      PiecesAreDelivered(c, a, handle, target, own, ctx, sk, out.ts, lines, pieces, rnd, now);
    }
  }

  /** The receiver shows something for the line. */
  predicate IsShown(
    c: Crypto, ring: Keyring, handle: string, target: string, own: string, line: string, rnd: Randoms, now: real)
  {
    ParseWire(line).Some? && HandleWire(c, ring, handle, target, own, ParseWire(line).value, rnd, now).1.Shown?
  }

  /**
   * Exactly what gets through the gate and out at the other end: an ACTION is shown whole; of any other body the line
   * of each chunk is shown exactly when the chunk does not read like a CTCP request. So the body is shown whole
   * exactly when no chunk of it does.
   */
  lemma ShownExactly(
    c: Crypto, a: Keyring, b: Keyring, handle: string, target: string, own: string, ctx: string,
    body: string, out: Outside, rnd: Randoms, now: real)
    requires Ideal(c) && (forall k: nat :: SizedDraw(out.draws(k)))
    requires IsTrusted(a, handle, ctx) && Sends(b, ctx, a.incoming[(handle, ctx)].sk)
    requires BothChoose(a, handle, target, out, own, ctx)
    requires Gate(c, b, target, body, out).verdict.Cipher? && Abs(now.Floor - out.ts) <= TS_TOLERANCE
    ensures var lines := Gate(c, b, target, body, out).verdict.lines;
            if IsAction(body) then forall k | 0 <= k < |lines| :: IsShown(c, a, handle, target, own, lines[k], rnd, now)
            else
              var chunks := SplitPlaintext(body, MAX_PT_PER_CHUNK);
              && chunks.Some? && |chunks.value| == |lines|
              && forall k | 0 <= k < |lines| ::
                   IsShown(c, a, handle, target, own, lines[k], rnd, now) <==> !WithheldChunk(chunks.value[k])
  {
    hide Gate, IsAction, ActionFrame, Concat, SizedDraw, Ideal, Sends, BothChoose, SplitPlaintext, HandleWire,
      ParseWire, Withheld, WithheldChunk;
    var pieces := MessageIsDelivered(c, a, b, handle, target, own, ctx, body, out, rnd, now);
    var lines := Gate(c, b, target, body, out).verdict.lines;
    var texts := if IsAction(body) then Frames(pieces) else pieces;
    forall k | 0 <= k < |lines|
      ensures IsShown(c, a, handle, target, own, lines[k], rnd, now) <==> !Withheld(texts[k])
    {
      assert Delivered(c, a, handle, target, own, lines[k], texts[k], rnd, now);
    }
    if IsAction(body) {
      forall k | 0 <= k < |lines|
        ensures !Withheld(texts[k])
      {
        FramesAreShown(pieces[k]);
      }
    } else {
      forall k | 0 <= k < |pieces|
        ensures WithheldChunk(EncodeAll(pieces)[k]) <==> Withheld(pieces[k])
      {
        ChunksWithheld(pieces, k);
      }
    }
  }

  lemma BothEnds(
    c: Crypto, a: Keyring, b: Keyring, handle: string, target: string, out: Outside, own: string, ctx: string,
    body: string)
    requires IsTrusted(a, handle, ctx) && BothChoose(a, handle, target, out, own, ctx)
    requires Gate(c, b, target, body, out).verdict.Cipher?
    ensures Gate(c, b, target, body, out) == SendUnder(c, b, ctx, body, out)
    ensures Reads(a, handle, target, own, ctx, a.incoming[(handle, ctx)].sk)
  {
    hide Gate, SendUnder, ChooseForSending, ContextsOf, ChooseContext;
    GateSendsUnder(c, b, target, body, out, ctx);
  }

  lemma FramesAreDelivered(
    c: Crypto, a: Keyring, handle: string, target: string, own: string, ctx: string, sk: Bytes,
    ts: int, lines: seq<string>, pieces: seq<string>, rnd: Randoms, now: real)
    requires Reads(a, handle, target, own, ctx, sk) && AllFramesArrive(c, sk, ctx, ts, lines, pieces)
    requires Abs(now.Floor - ts) <= TS_TOLERANCE
    ensures AllDelivered(c, a, handle, target, own, lines, Frames(pieces), rnd, now)
  {
    hide Reads, Arrives, HandleWire, ParseWire, Reading, ActionFrame;
    forall k | 0 <= k < |lines|
      ensures Delivered(c, a, handle, target, own, lines[k], Frames(pieces)[k], rnd, now)
    {
      assert FrameArrives(c, sk, ctx, ts, lines[k], pieces[k]);
      ArrivedIsShown(c, a, handle, target, own, ctx, sk, ts, lines[k], 1, 1, ActionFrame(pieces[k]), rnd, now);
    }
  }

  lemma PiecesAreDelivered(
    c: Crypto, a: Keyring, handle: string, target: string, own: string, ctx: string, sk: Bytes,
    ts: int, lines: seq<string>, pieces: seq<string>, rnd: Randoms, now: real)
    requires Reads(a, handle, target, own, ctx, sk) && AllArrive(c, sk, ctx, ts, lines, pieces) && |lines| <= MAX_CHUNKS
    requires Abs(now.Floor - ts) <= TS_TOLERANCE
    ensures AllDelivered(c, a, handle, target, own, lines, pieces, rnd, now)
  {
    hide Reads, Arrives, HandleWire, ParseWire, Reading;
    forall k | 0 <= k < |lines|
      ensures Delivered(c, a, handle, target, own, lines[k], pieces[k], rnd, now)
    {
      ArrivedIsShown(c, a, handle, target, own, ctx, sk, ts, lines[k], k + 1, |lines|, pieces[k], rnd, now);
    }
  }
}
