/**
 * How the parts of one message are told apart: the numbers, ids and nonces on its lines. No nonce is used twice under
 * one key as long as the values drawn are different.
 */
module MessageParts {
  import opened Wrappers
  import opened Utf8
  import opened Chunker
  import opened Cryptos
  import opened Wires
  import opened Keyrings
  import opened Gates
  import opened Messages

  /** The line is part `part` of `total` of the message with this id, sent at `ts`, under this nonce. */
  predicate Carries(line: string, msgid: Bytes, ts: int, part: int, total: int, nonce: Bytes) {
    var w := ParseWire(line);
    w.Some? && w.value.msgid == msgid && w.value.ts == ts && w.value.part == part && w.value.total == total
    && w.value.nonce == nonce
  }

  lemma {:induction false} ChunksCarry(
    c: Crypto, sk: Bytes, ctx: string, chunks: seq<Bytes>, ts: int, draw: Draw, i: nat)
    requires SizedDraw(draw) && i <= |chunks| <= MAX_CHUNKS && EncryptChunks(c, sk, ctx, chunks, ts, draw, i).Some?
    ensures var lines := EncryptChunks(c, sk, ctx, chunks, ts, draw, i).value;
            && |lines| == |chunks| - i
            && forall k | 0 <= k < |lines| ::
                 Carries(lines[k], draw.msgid, ts, i + k + 1, |chunks|, draw.nonce(i + k))
    decreases |chunks| - i
  {
    hide Carries, EncodeWire, PartAad;
    if i < |chunks| {
      ChunksCarry(c, sk, ctx, chunks, ts, draw, i + 1);
      var aad := PartAad(ctx, ts, draw, i, |chunks|).value;
      PartCarries(PartWire(c, sk, aad, ts, draw, i, |chunks|, chunks[i]));
      var rest := EncryptChunks(c, sk, ctx, chunks, ts, draw, i + 1).value;
      var lines := EncryptChunks(c, sk, ctx, chunks, ts, draw, i).value;
      forall k | 0 <= k < |lines|
        ensures Carries(lines[k], draw.msgid, ts, i + k + 1, |chunks|, draw.nonce(i + k))
      {
        if k > 0 {
          assert lines[k] == rest[k - 1];
          assert Carries(rest[k - 1], draw.msgid, ts, (i + 1) + (k - 1) + 1, |chunks|, draw.nonce((i + 1) + (k - 1)));
        }
      }
    }
  }

  lemma PartCarries(w: Wire)
    requires WellFormed(w)
    ensures Carries(EncodeWire(w), w.msgid, w.ts, w.part, w.total, w.nonce)
  {
    hide EncodeWire, ParseWire;
    WireRoundTrip(w);
  }

  /** The lines of plain text are the parts of one message, numbered in order, each under a nonce of its own. */
  lemma PlainIsNumbered(c: Crypto, sk: Bytes, ctx: string, plain: string, ts: int, draw: Draw)
    requires SizedDraw(draw) && EncryptPlain(c, sk, ctx, plain, ts, draw).Some?
    ensures var lines := EncryptPlain(c, sk, ctx, plain, ts, draw).value;
            1 <= |lines| <= 16 && forall k | 0 <= k < |lines| ::
              Carries(lines[k], draw.msgid, ts, k + 1, |lines|, draw.nonce(k))
  {
    hide EncryptChunks, Carries, Encode, Chunks;
    var chunks := SplitPlaintext(plain, MAX_PT_PER_CHUNK).value;
    ChunksCarry(c, sk, ctx, chunks, ts, draw, 0);
    var pieces := ChunksArePieces(plain, MAX_PT_PER_CHUNK);
    SomePieces(plain, pieces);
    assert |EncodeAll(pieces)| == |pieces|;
  }

  lemma SomePieces(plain: string, pieces: seq<string>)
    requires SplitPlaintext(plain, MAX_PT_PER_CHUNK).Some? && Concat(pieces) == plain
    ensures pieces != []
  {
  }

  lemma FrameCarries(c: Crypto, sk: Bytes, ctx: string, piece: string, ts: int, draw: Draw)
    requires Ideal(c) && SizedDraw(draw) && |Encode(piece)| + ACTION_FRAMING <= MAX_PT_PER_CHUNK
    requires EncryptPlain(c, sk, ctx, ActionFrame(piece), ts, draw).Some?
    ensures var lines := EncryptPlain(c, sk, ctx, ActionFrame(piece), ts, draw).value;
            |lines| == 1 && Carries(lines[0], draw.msgid, ts, 1, 1, draw.nonce(0))
  {
    hide Carries, EncryptPlain, Encode, Ideal, SizedDraw;
    OneFrameArrives(c, sk, ctx, piece, ts, draw);
    PlainIsNumbered(c, sk, ctx, ActionFrame(piece), ts, draw);
  }

  lemma {:induction false} PiecesCarry(
    c: Crypto, sk: Bytes, ctx: string, pieces: seq<string>, ts: int, draws: nat -> Draw, i: nat)
    requires Ideal(c) && (forall k: nat :: SizedDraw(draws(k))) && i <= |pieces|
    requires Within(pieces, MAX_PT_PER_CHUNK - ACTION_FRAMING)
    requires EncryptPieces(c, sk, ctx, EncodeAll(pieces), ts, draws, i).Some?
    ensures var lines := EncryptPieces(c, sk, ctx, EncodeAll(pieces), ts, draws, i).value;
            && |lines| == |pieces| - i
            && forall k | 0 <= k < |lines| ::
                 Carries(lines[k], draws(i + k).msgid, ts, 1, 1, draws(i + k).nonce(0))
    decreases |pieces| - i
  {
    hide Carries, EncryptPlain, Encode, Decode, Ideal, SizedDraw, ActionFrame;
    if i < |pieces| {
      DecodeEncode(pieces[i]);
      assert Decode(EncodeAll(pieces)[i]) == Some(pieces[i]);
      FrameCarries(c, sk, ctx, pieces[i], ts, draws(i));
      PiecesCarry(c, sk, ctx, pieces, ts, draws, i + 1);
      var first := EncryptPlain(c, sk, ctx, ActionFrame(pieces[i]), ts, draws(i)).value;
      var rest := EncryptPieces(c, sk, ctx, EncodeAll(pieces), ts, draws, i + 1).value;
      var lines := EncryptPieces(c, sk, ctx, EncodeAll(pieces), ts, draws, i).value;
      assert lines == first + rest;
      forall k | 0 <= k < |lines|
        ensures Carries(lines[k], draws(i + k).msgid, ts, 1, 1, draws(i + k).nonce(0))
      {
        if k > 0 {
          assert lines[k] == rest[k - 1];
          assert Carries(rest[k - 1], draws((i + 1) + (k - 1)).msgid, ts, 1, 1, draws((i + 1) + (k - 1)).nonce(0));
        }
      }
    }
  }

  /** The lines of an ACTION are messages of one part, each with an id and a nonce of its own. */
  lemma ActionIsNumbered(c: Crypto, sk: Bytes, ctx: string, body: string, ts: int, draws: nat -> Draw)
    requires Ideal(c) && (forall k: nat :: SizedDraw(draws(k)))
    requires EncryptCtcp(c, sk, ctx, ActionFrame(body), ts, draws).Some?
    ensures var lines := EncryptCtcp(c, sk, ctx, ActionFrame(body), ts, draws).value;
            forall k | 0 <= k < |lines| :: Carries(lines[k], draws(k).msgid, ts, 1, 1, draws(k).nonce(0))
  {
    hide Carries, EncryptPlain, EncryptPieces, Chunks, Encode, Ideal, SizedDraw, ActionFrame;
    FramesAreShown(body);
    if |Encode(ActionFrame(body))| <= MAX_PT_PER_CHUNK {
      FrameCarries(c, sk, ctx, body, ts, draws(0));
    } else {
      FrameBody(body);
      var pieces := ChunksArePieces(body, MAX_PT_PER_CHUNK - ACTION_FRAMING);
      PiecesCarry(c, sk, ctx, pieces, ts, draws, 0);
    }
  }

  function NonceOf(line: string): Bytes {
    match ParseWire(line) case Some(w) => w.nonce case None => []
  }

  /** Drawn values that differ make nonces that differ: no two lines of what is sent share one. */
  lemma NoncesDiffer(c: Crypto, sk: Bytes, ctx: string, body: string, out: Outside)
    requires Ideal(c) && (forall k: nat :: SizedDraw(out.draws(k))) && Encrypt(c, sk, ctx, body, out).Some?
    requires forall a: nat, i: nat, b: nat, j: nat ::
               out.draws(a).nonce(i) == out.draws(b).nonce(j) ==> a == b && i == j
    ensures var lines := Encrypt(c, sk, ctx, body, out).value;
            forall i, j | 0 <= i < j < |lines| :: NonceOf(lines[i]) != NonceOf(lines[j])
  {
    hide EncryptCtcp, EncryptPlain, ActionFrame, ParseWire, Ideal, SizedDraw;
    if IsAction(body) {
      ActionsAreFrames(body);
      ActionIsNumbered(c, sk, ctx, body[|ACTION_PREFIX|..|body| - 1], out.ts, out.draws);
    } else {
      PlainIsNumbered(c, sk, ctx, body, out.ts, out.draws(0));
    }
  }
}
