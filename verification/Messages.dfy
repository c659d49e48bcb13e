/**
 * Encrypted messages end to end: what the gate sends under a session's key is what the holder of the session is shown.
 */
module Messages {
  import opened Wrappers
  import opened Utf8
  import opened Chunker
  import opened Cryptos
  import opened Wires
  import opened Keyrings
  import opened Gates

  ghost predicate SizedDraw(draw: Draw) {
    |draw.msgid| == 8 && forall i: nat :: |draw.nonce(i)| == NONCE_LEN
  }

  /** What a reader is shown for a piece of text: nothing, if it looks like a CTCP request. */
  function Reading(text: string): Delivery {
    if Withheld(text) then Dropped else Shown(text)
  }

  /** The line parses as part `part` of `total` of a message sent at `ts`, and opens to this piece of text. */
  predicate Arrives(c: Crypto, sk: Bytes, ctx: string, ts: int, line: string, part: int, total: int, text: string) {
    var w := ParseWire(line);
    w.Some? && w.value.ts == ts && w.value.part == part && w.value.total == total &&
    OpenWire(c, sk, ctx, w.value) == Reading(text)
  }

  lemma PartArrives(
    c: Crypto, sk: Bytes, ctx: string, aad: Bytes, ts: int, draw: Draw, i: nat, total: nat, text: string)
    requires Ideal(c) && SizedDraw(draw) && i < total <= MAX_CHUNKS && PartAad(ctx, ts, draw, i, total) == Some(aad)
    ensures Arrives(c, sk, ctx, ts, EncodeWire(PartWire(c, sk, aad, ts, draw, i, total, Encode(text))), i + 1, total,
            text)
  {
    hide EncodeWire, ParseWire, BuildAad, Encode, Decode, Withheld;
    WireRoundTrip(PartWire(c, sk, aad, ts, draw, i, total, Encode(text)));
    DecodeEncode(text);
  }

  lemma {:induction false} ChunksArrive(
    c: Crypto, sk: Bytes, ctx: string, pieces: seq<string>, ts: int, draw: Draw, i: nat)
    requires Ideal(c) && SizedDraw(draw) && i <= |pieces| <= MAX_CHUNKS
    requires EncryptChunks(c, sk, ctx, EncodeAll(pieces), ts, draw, i).Some?
    ensures var lines := EncryptChunks(c, sk, ctx, EncodeAll(pieces), ts, draw, i).value;
            && |lines| == |pieces| - i
            && forall k | 0 <= k < |lines| :: Arrives(c, sk, ctx, ts, lines[k], i + k + 1, |pieces|, pieces[i + k])
    decreases |pieces| - i
  {
    hide Arrives, PartAad, PartWire, EncodeWire, Ideal, SizedDraw;
    if i < |pieces| {
      var aad := PartAad(ctx, ts, draw, i, |pieces|).value;
      PartArrives(c, sk, ctx, aad, ts, draw, i, |pieces|, pieces[i]);
      ChunksArrive(c, sk, ctx, pieces, ts, draw, i + 1);
      var rest := EncryptChunks(c, sk, ctx, EncodeAll(pieces), ts, draw, i + 1).value;
      var lines := EncryptChunks(c, sk, ctx, EncodeAll(pieces), ts, draw, i).value;
      forall k | 0 <= k < |lines|
        ensures Arrives(c, sk, ctx, ts, lines[k], i + k + 1, |pieces|, pieces[i + k])
      {
        if k > 0 {
          assert lines[k] == rest[k - 1];
          assert Arrives(c, sk, ctx, ts, rest[k - 1], (i + 1) + (k - 1) + 1, |pieces|, pieces[(i + 1) + (k - 1)]);
        }
      }
    }
  }

  /** The lines of a message, and the pieces of text they open to. */
  predicate AllArrive(c: Crypto, sk: Bytes, ctx: string, ts: int, lines: seq<string>, pieces: seq<string>) {
    |lines| == |pieces| &&
    forall k | 0 <= k < |lines| :: Arrives(c, sk, ctx, ts, lines[k], k + 1, |lines|, pieces[k])
  }

  /** Plain text: the lines open, in order, to pieces that concatenate to it. */
  lemma PlainArrives(
    c: Crypto, sk: Bytes, ctx: string, plain: string, ts: int, draw: Draw)
    returns (pieces: seq<string>)
    requires Ideal(c) && SizedDraw(draw) && EncryptPlain(c, sk, ctx, plain, ts, draw).Some?
    ensures AllArrive(c, sk, ctx, ts, EncryptPlain(c, sk, ctx, plain, ts, draw).value, pieces)
    ensures Concat(pieces) == plain && |pieces| <= MAX_CHUNKS
    ensures SplitPlaintext(plain, MAX_PT_PER_CHUNK) == Some(EncodeAll(pieces))
  {
    hide Arrives, EncryptChunks, Chunks, Ideal, Within, Encode, Greedy, SizedDraw, Concat;
    pieces := ChunksArePieces(plain, MAX_PT_PER_CHUNK);
    ChunksArrive(c, sk, ctx, pieces, ts, draw, 0);
  }

  /** Text that fits the budget is one chunk. */
  lemma FitsOneChunk(text: string, budget: nat)
    requires text != "" && |Encode(text)| <= budget
    ensures SplitPlaintext(text, budget) == Some([Encode(text)])
  {
    var b := Encode(text);
    BoundariesAreNear(text);
    assert StepBack(b, |b|) == |b|;
    assert b[..|b|] == b && b[|b|..] == [];
    assert Chunks(b[|b|..], budget) == Some([]);
    assert [b] + [] == [b];
  }

  lemma FramesAreShown(piece: string)
    ensures !Withheld(ActionFrame(piece))
    ensures |Encode(ActionFrame(piece))| == |Encode(piece)| + ACTION_FRAMING
  {
    EncodeConcat(ACTION_PREFIX + piece, CTCP);
    EncodeConcat(ACTION_PREFIX, piece);
    assert |Encode(ACTION_PREFIX)| == 8 && |Encode(CTCP)| == 1;
  }

  /** A whole frame in one chunk: part 1 of 1, shown as it is. */
  predicate FrameArrives(c: Crypto, sk: Bytes, ctx: string, ts: int, line: string, piece: string) {
    Arrives(c, sk, ctx, ts, line, 1, 1, ActionFrame(piece))
  }

  lemma OneFrameArrives(c: Crypto, sk: Bytes, ctx: string, piece: string, ts: int, draw: Draw)
    requires Ideal(c) && SizedDraw(draw) && |Encode(piece)| + ACTION_FRAMING <= MAX_PT_PER_CHUNK
    requires EncryptPlain(c, sk, ctx, ActionFrame(piece), ts, draw).Some?
    ensures var lines := EncryptPlain(c, sk, ctx, ActionFrame(piece), ts, draw).value;
            |lines| == 1 && FrameArrives(c, sk, ctx, ts, lines[0], piece)
  {
    hide Arrives, EncryptPlain, SplitPlaintext, Encode, Ideal;
    FramesAreShown(piece);
    var frame := ActionFrame(piece);
    FitsOneChunk(frame, MAX_PT_PER_CHUNK);
    var pieces := PlainArrives(c, sk, ctx, frame, ts, draw);
    assert |EncodeAll(pieces)| == 1;
    assert pieces == [pieces[0]] + [];
    assert Concat(pieces) == pieces[0] + Concat([]);
    assert pieces[0] == frame;
  }

  lemma {:induction false} FramesArrive(
    c: Crypto, sk: Bytes, ctx: string, pieces: seq<string>, ts: int, draws: nat -> Draw, i: nat)
    requires Ideal(c) && (forall k: nat :: SizedDraw(draws(k))) && i <= |pieces|
    requires Within(pieces, MAX_PT_PER_CHUNK - ACTION_FRAMING)
    requires EncryptPieces(c, sk, ctx, EncodeAll(pieces), ts, draws, i).Some?
    ensures var lines := EncryptPieces(c, sk, ctx, EncodeAll(pieces), ts, draws, i).value;
            && |lines| == |pieces| - i
            && forall k | 0 <= k < |lines| :: FrameArrives(c, sk, ctx, ts, lines[k], pieces[i + k])
    decreases |pieces| - i
  {
    hide FrameArrives, EncryptPlain, Encode, Decode, Ideal, SizedDraw;
    if i < |pieces| {
      DecodeEncode(pieces[i]);
      assert Decode(EncodeAll(pieces)[i]) == Some(pieces[i]);
      OneFrameArrives(c, sk, ctx, pieces[i], ts, draws(i));
      FramesArrive(c, sk, ctx, pieces, ts, draws, i + 1);
      var first := EncryptPlain(c, sk, ctx, ActionFrame(pieces[i]), ts, draws(i)).value;
      var rest := EncryptPieces(c, sk, ctx, EncodeAll(pieces), ts, draws, i + 1).value;
      var lines := EncryptPieces(c, sk, ctx, EncodeAll(pieces), ts, draws, i).value;
      assert lines == first + rest;
      forall k | 0 <= k < |lines|
        ensures FrameArrives(c, sk, ctx, ts, lines[k], pieces[i + k])
      {
        if k > 0 {
          assert lines[k] == rest[k - 1];
          assert FrameArrives(c, sk, ctx, ts, rest[k - 1], pieces[(i + 1) + (k - 1)]);
        }
      }
    }
  }

  predicate AllFramesArrive(c: Crypto, sk: Bytes, ctx: string, ts: int, lines: seq<string>, pieces: seq<string>) {
    |lines| == |pieces| && forall k | 0 <= k < |lines| :: FrameArrives(c, sk, ctx, ts, lines[k], pieces[k])
  }

  /**
   * An ACTION: every line is one complete ACTION frame in a single chunk, none is withheld, and the framed pieces
   * concatenate, in order, to the body of the original frame.
   */
  lemma ActionArrives(c: Crypto, sk: Bytes, ctx: string, body: string, ts: int, draws: nat -> Draw)
    returns (pieces: seq<string>)
    requires Ideal(c) && (forall k: nat :: SizedDraw(draws(k)))
    requires EncryptCtcp(c, sk, ctx, ActionFrame(body), ts, draws).Some?
    ensures AllFramesArrive(c, sk, ctx, ts, EncryptCtcp(c, sk, ctx, ActionFrame(body), ts, draws).value, pieces)
    ensures Concat(pieces) == body
  {
    hide FrameArrives, EncryptPlain, EncryptPieces, Chunks, Encode, Ideal, SizedDraw, ActionFrame;
    FramesAreShown(body);
    if |Encode(ActionFrame(body))| <= MAX_PT_PER_CHUNK {
      pieces := [body];
      OneFrameArrives(c, sk, ctx, body, ts, draws(0));
      assert Concat([body]) == body + Concat([]);
    } else {
      FrameBody(body);
      pieces := ChunksArePieces(body, MAX_PT_PER_CHUNK - ACTION_FRAMING);
      FramesArrive(c, sk, ctx, pieces, ts, draws, 0);
    }
  }

  lemma FrameBody(body: string)
    ensures ActionFrame(body)[|ACTION_PREFIX|..|ActionFrame(body)| - 1] == body
  {
  }

  lemma ActionsAreFrames(body: string)
    requires IsAction(body)
    ensures |body| > |ACTION_PREFIX| && body == ActionFrame(body[|ACTION_PREFIX|..|body| - 1])
  {
    assert body[..|ACTION_PREFIX|] == ACTION_PREFIX;
    assert body[|body| - 1..] == CTCP;
    assert body[|ACTION_PREFIX| - 1] == ' ';
    assert body[|body| - 1] == CTCP[0];
  }

  // ----- the receiver -----

  /** `handle`'s messages to `target` are read in `ctx`, with this key. */
  predicate Reads(ring: Keyring, handle: string, target: string, own: string, ctx: string, sk: Bytes) {
    && IsTrusted(ring, handle, ctx) && ring.incoming[(handle, ctx)].sk == sk
    && ContextsOf(target, own) != [] && ChooseContext(ring, handle, ContextsOf(target, own)) == ctx
  }

  /** A line that arrives within the clock tolerance is shown, and the keyring is not touched. */
  lemma ArrivedIsShown(
    c: Crypto, ring: Keyring, handle: string, target: string, own: string, ctx: string, sk: Bytes,
    ts: int, line: string, part: int, total: int, text: string, rnd: Randoms, now: real)
    requires Reads(ring, handle, target, own, ctx, sk) && Arrives(c, sk, ctx, ts, line, part, total, text)
    requires Abs(now.Floor - ts) <= TS_TOLERANCE && total <= MAX_CHUNKS
    ensures ParseWire(line).Some?
    ensures HandleWire(c, ring, handle, target, own, ParseWire(line).value, rnd, now) == (ring, Reading(text))
  {
    hide ParseWire, OpenWire, Reading, ChooseContext, ContextsOf;
  }

  /** The sender encrypts `ctx` with this key, and will go on doing so. */
  predicate Sends(ring: Keyring, ctx: string, sk: Bytes) {
    ctx in ring.outgoing && ring.outgoing[ctx] == OutgoingKey(sk, false)
  }

  /** What the gate makes of a body in an enabled context, and the pieces it opens to at the other end. */
  lemma SentArrives(c: Crypto, ring: Keyring, ctx: string, body: string, out: Outside, sk: Bytes)
    returns (lines: seq<string>, pieces: seq<string>)
    requires Ideal(c) && (forall k: nat :: SizedDraw(out.draws(k))) && Sends(ring, ctx, sk)
    requires SendUnder(c, ring, ctx, body, out).verdict.Cipher?
    ensures SendUnder(c, ring, ctx, body, out) == Sent(ring, Cipher(lines), map[])
    ensures if IsAction(body)
            then AllFramesArrive(c, sk, ctx, out.ts, lines, pieces) && ActionFrame(Concat(pieces)) == body
            else AllArrive(c, sk, ctx, out.ts, lines, pieces) && Concat(pieces) == body && |lines| <= MAX_CHUNKS
    ensures !IsAction(body) ==> SplitPlaintext(body, MAX_PT_PER_CHUNK) == Some(EncodeAll(pieces))
  {
    hide EncryptCtcp, EncryptPlain, DistributeRekey, IsAction, AllFramesArrive, Arrives, ActionFrame, Concat,
      SizedDraw, Ideal;
    lines := SendUnder(c, ring, ctx, body, out).verdict.lines;
    if IsAction(body) {
      ActionsAreFrames(body);
      pieces := ActionArrives(c, sk, ctx, body[|ACTION_PREFIX|..|body| - 1], out.ts, out.draws);
    } else {
      pieces := PlainArrives(c, sk, ctx, body, out.ts, out.draws(0));
    }
  }

  // ----- exactly what gets through -----

  /** A chunk whose text looks like a CTCP request. */
  predicate WithheldChunk(chunk: Bytes) {
    match Decode(chunk) case Some(text) => Withheld(text) case None => false
  }

  lemma ChunksWithheld(pieces: seq<string>, k: nat)
    requires k < |pieces|
    ensures WithheldChunk(EncodeAll(pieces)[k]) <==> Withheld(pieces[k])
  {
    hide Encode, Decode, Withheld;
    DecodeEncode(pieces[k]);
  }

  /** It is not always so: this text is encrypted by the gate, in any channel or DM, and withheld at the other end. */
  lemma ControlTextIsLost(c: Crypto, sk: Bytes, ctx: string, target: string, ts: int, draw: Draw)
    requires Ideal(c) && SizedDraw(draw) && PartAad(ctx, ts, draw, 0, 1).Some?
    ensures var body := "\U{01}lost";
            && Judged(target, body) && !IsAction(body)
            && var lines := EncryptPlain(c, sk, ctx, body, ts, draw);
            lines.Some? && |lines.value| == 1 && ParseWire(lines.value[0]).Some? &&
            OpenWire(c, sk, ctx, ParseWire(lines.value[0]).value) == Dropped
  {
    var body := "\U{01}lost";
    assert body[|body| - 1..] == "t";
    assert Withheld(body) by {
      assert body[1] == 'l' && ACTION_PREFIX[1] == 'A';
    }
    hide OpenWire, ParseWire, EncodeWire, PartAad, Withheld;
    var b := Encode(body);
    assert |b| <= 20 by {
      EncodedLength(body);
    }
    FitsOneChunk(body, MAX_PT_PER_CHUNK);
    var aad := PartAad(ctx, ts, draw, 0, 1).value;
    PartArrives(c, sk, ctx, aad, ts, draw, 0, 1, body);
    assert EncryptChunks(c, sk, ctx, [b], ts, draw, 1) == Some([]);
  }

  lemma {:induction false} EncodedLength(s: string)
    ensures |Encode(s)| <= 4 * |s|
  {
    if s != "" {
      EncodedLength(s[1..]);
    }
  }
}
