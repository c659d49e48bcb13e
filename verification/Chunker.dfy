/** `split_plaintext_budget` of scripts/weechat/rpe2e.py: cutting text into encrypted-chunk plaintexts. */
module Chunker {
  import opened Wrappers
  import opened Utf8
  import opened Seqs

  const MAX_CHUNKS: nat := 16
  const MAX_PT_PER_CHUNK: nat := 180

  function Min(a: nat, b: nat): nat { if a < b then a else b }

  /** Step back from `j` to a character boundary, or to 0. */
  function StepBack(b: Bytes, j: nat): (k: nat)
    requires j <= |b|
    ensures k <= j
    ensures k > 0 ==> IsBoundary(b, k)
    ensures forall i | k < i <= j :: i < |b| && IsContinuation(b[i])
  {
    if 0 < j < |b| && IsContinuation(b[j]) then StepBack(b, j - 1) else j
  }

  /** Greedy cuts of at most `budget` bytes; `None` when a character does not fit. */
  function Chunks(b: Bytes, budget: nat): Option<seq<Bytes>>
    decreases |b|
  {
    if b == [] then Some([])
    else
      var j := StepBack(b, Min(budget, |b|));
      if j == 0 then None
      else match Chunks(b[j..], budget)
        case None => None
        case Some(rest) => Some([b[..j]] + rest)
  }

  /** The source's result: `None` for each of its three `ValueError`s. */
  function SplitPlaintext(text: string, budget: nat): Option<seq<Bytes>> {
    var chunks := Chunks(Encode(text), budget);
    if text == "" || chunks.None? || |chunks.value| > MAX_CHUNKS then None else chunks
  }

  function Flatten(chunks: seq<Bytes>): Bytes {
    if chunks == [] then [] else chunks[0] + Flatten(chunks[1..])
  }

  ghost function Onto(done: seq<Bytes>, rest: Option<seq<Bytes>>): Option<seq<Bytes>> {
    match rest
    case None => None
    case Some(chunks) => Some(done + chunks)
  }

  lemma OntoNext(done: seq<Bytes>, b: Bytes, i: nat, j: nat, budget: nat)
    requires i < |b| && i <= j <= |b| && j - i == StepBack(b[i..], Min(budget, |b[i..]|))
    ensures i == j ==> Chunks(b[i..], budget).None?
    ensures i < j ==> Onto(done, Chunks(b[i..], budget)) == Onto(done + [b[i..j]], Chunks(b[j..], budget))
  {
    if i < j {
      var rest := Chunks(b[j..], budget);
      assert Chunks(b[i..], budget) == Onto([b[i..j]], rest) by {
        assert b[i..][..j - i] == b[i..j] && b[i..][j - i..] == b[j..];
      }
      OntoTwice(done, [b[i..j]], rest);
    }
  }

  lemma OntoTwice(done: seq<Bytes>, more: seq<Bytes>, rest: Option<seq<Bytes>>)
    ensures Onto(done, Onto(more, rest)) == Onto(done + more, rest)
  {
    if rest.Some? {
      Associative(done, more, rest.value);
    }
  }

  /** The inner loop: the end of the chunk that begins at `i`. */
  method FindCut(b: Bytes, i: nat, maxPerChunk: nat) returns (j: nat)
    requires i < |b|
    ensures i <= j <= |b| && j - i == StepBack(b[i..], Min(maxPerChunk, |b[i..]|))
  {
    ghost var rest := b[i..];
    j := Min(i + maxPerChunk, |b|);
    while j > i && j < |b| && IsContinuation(b[j])
      invariant i <= j <= |b|
      invariant StepBack(rest, j - i) == StepBack(rest, Min(maxPerChunk, |rest|))
    {
      assert rest[j - i] == b[j];
      j := j - 1;
    }
    assert i < j < |b| ==> rest[j - i] == b[j];
  }

  method SplitPlaintextBudget(text: string, maxPerChunk: nat) returns (r: Option<seq<Bytes>>)
    ensures r == SplitPlaintext(text, maxPerChunk)
  {
    if text == "" {
      return None;
    }
    var b := Encode(text);
    var chunks: seq<Bytes> := [];
    var i := 0;
    ghost var whole := Chunks(b, maxPerChunk);
    assert b[0..] == b;
    assert whole.Some? ==> [] + whole.value == whole.value;
    while i < |b|
      invariant i <= |b| && |chunks| <= MAX_CHUNKS
      invariant whole == Onto(chunks, Chunks(b[i..], maxPerChunk))
    {
      var j := FindCut(b, i, maxPerChunk);
      OntoNext(chunks, b, i, j, maxPerChunk);
      if j == i {
        return None;
      }
      chunks := chunks + [b[i..j]];
      i := j;
      if |chunks| > MAX_CHUNKS {
        return None;
      }
    }
    assert chunks + [] == chunks;
    r := Some(chunks);
  }

  // ----- what the chunks are -----

  /** The encodings of some pieces of text. */
  function EncodeAll(pieces: seq<string>): (r: seq<Bytes>)
    ensures |r| == |pieces|
  {
    seq(|pieces|, i requires 0 <= i < |pieces| => Encode(pieces[i]))
  }

  function Concat(pieces: seq<string>): string {
    if pieces == [] then "" else pieces[0] + Concat(pieces[1..])
  }

  /** The next character would not have fitted. */
  predicate Full(piece: string, next: string, budget: nat) {
    next != "" && |Encode(piece)| + |EncodeChar(next[0])| > budget
  }

  /** Every chunk but the last is as long as it can be. */
  predicate Greedy(pieces: seq<string>, budget: nat) {
    |pieces| <= 1 || (Full(pieces[0], pieces[1], budget) && Greedy(pieces[1..], budget))
  }

  predicate Within(pieces: seq<string>, budget: nat) {
    forall i | 0 <= i < |pieces| :: pieces[i] != "" && 1 <= |Encode(pieces[i])| <= budget
  }

  /** The first cut of a text: where it is, and that it could not be later. */
  lemma FirstCut(text: string, budget: nat) returns (k: nat)
    requires budget >= 4 && text != ""
    ensures var b := Encode(text);
            var j := StepBack(b, Min(budget, |b|));
            && 0 < k <= |text| && 0 < j <= budget && Encode(text[..k]) == b[..j] && Encode(text[k..]) == b[j..]
            && (k < |text| ==> Full(text[..k], text[k..], budget))
  {
    var b := Encode(text);
    var target := Min(budget, |b|);
    var j := StepBack(b, target);
    BoundariesAreNear(text);
    var lead := |EncodeChar(text[0])|;
    assert lead <= target;
    assert j >= lead;
    k := BoundaryCutsText(text, j);
    assert Encode(text[..0]) == [];
    if k < |text| {
      var rest := text[k..];
      BoundariesAreNear(rest);
      var next := j + |EncodeChar(rest[0])|;
      assert next <= |b|;
      assert next < |b| ==> b[next] == Encode(rest)[|EncodeChar(rest[0])|];
      assert IsBoundary(b, next);
      assert next > target;
    }
  }

  /**
   * With a budget of four bytes or more no character is too large, and the chunks are the encodings of non-empty
   * pieces that concatenate to the text, each within the budget and each filled greedily.
   */
  lemma {:induction false} ChunksArePieces(text: string, budget: nat) returns (pieces: seq<string>)
    requires budget >= 4
    ensures Chunks(Encode(text), budget) == Some(EncodeAll(pieces))
    ensures Concat(pieces) == text
    ensures Within(pieces, budget) && Greedy(pieces, budget)
    decreases |text|
  {
    if text == "" {
      pieces := [];
      assert EncodeAll(pieces) == [];
    } else {
      var k := FirstCut(text, budget);
      var rest := ChunksArePieces(text[k..], budget);
      pieces := [text[..k]] + rest;
      PrependPiece(text, k, rest, budget);
    }
  }

  lemma PrependPiece(text: string, k: nat, rest: seq<string>, budget: nat)
    requires k <= |text| && Concat(rest) == text[k..]
    requires Within(rest, budget) && Greedy(rest, budget) && text[..k] != "" && |Encode(text[..k])| <= budget
    requires k < |text| ==> Full(text[..k], text[k..], budget)
    ensures var pieces := [text[..k]] + rest;
            && Concat(pieces) == text && Within(pieces, budget) && Greedy(pieces, budget)
            && EncodeAll(pieces) == [Encode(text[..k])] + EncodeAll(rest)
  {
    var pieces := [text[..k]] + rest;
    assert pieces[1..] == rest;
    assert text[..k] + text[k..] == text;
    if rest != [] {
      assert text[k..] == rest[0] + Concat(rest[1..]);
      assert rest[0] != "";
      assert text[k..][0] == rest[0][0];
    }
  }

  lemma Product(n: nat, k: nat)
    ensures (n + 1) * k == n * k + k
  {
  }

  lemma ProductMonotone(n: nat, m: nat, k: nat)
    requires n <= m
    ensures n * k <= m * k
  {
    if n < m {
      ProductMonotone(n, m - 1, k);
      Product(m - 1, k);
    }
  }

  lemma {:induction false} PieceLengths(pieces: seq<string>, budget: nat)
    requires budget >= 4 && pieces != [] && Greedy(pieces, budget) && Within(pieces, budget)
    ensures (|pieces| - 1) * (budget - 3) < |Flatten(EncodeAll(pieces))| <= |pieces| * budget
    decreases |pieces|
  {
    var rest := pieces[1..];
    assert EncodeAll(pieces)[1..] == EncodeAll(rest);
    assert forall i | 0 <= i < |rest| :: rest[i] == pieces[i + 1];
    Product(|rest|, budget);
    if rest != [] {
      PieceLengths(rest, budget);
      Product(|rest| - 1, budget - 3);
    } else {
      assert Flatten(EncodeAll(rest)) == [];
    }
  }

  lemma {:induction false} FlattenEncodeAll(pieces: seq<string>)
    ensures Flatten(EncodeAll(pieces)) == Encode(Concat(pieces))
  {
    if pieces != [] {
      assert EncodeAll(pieces)[1..] == EncodeAll(pieces[1..]);
      FlattenEncodeAll(pieces[1..]);
      EncodeConcat(pieces[0], Concat(pieces[1..]));
    }
  }

  /** How many chunks a text takes, against its length. */
  lemma ChunkCount(text: string, budget: nat) returns (n: nat)
    requires budget >= 4 && text != ""
    ensures Chunks(Encode(text), budget).Some? && n == |Chunks(Encode(text), budget).value| > 0
    ensures (n - 1) * (budget - 3) < |Encode(text)| <= n * budget
  {
    var pieces := ChunksArePieces(text, budget);
    n := |pieces|;
    FlattenEncodeAll(pieces);
    PieceLengths(pieces, budget);
  }

  /** Exact bounds: what always fits sixteen chunks, what never does, and that the chunk count alone decides. */
  lemma SplitBounds(text: string, budget: nat)
    requires budget >= 4 && text != ""
    ensures Chunks(Encode(text), budget).Some?
    ensures SplitPlaintext(text, budget).Some? <==> |Chunks(Encode(text), budget).value| <= MAX_CHUNKS
    ensures |Encode(text)| <= MAX_CHUNKS * (budget - 3) ==> SplitPlaintext(text, budget).Some?
    ensures |Encode(text)| > MAX_CHUNKS * budget ==> SplitPlaintext(text, budget).None?
  {
    var n := ChunkCount(text, budget);
    if n > MAX_CHUNKS {
      ProductMonotone(MAX_CHUNKS, n - 1, budget - 3);
    } else {
      ProductMonotone(n, MAX_CHUNKS, budget);
    }
  }

  /** Decoding the chunks one by one and joining what they say gives the text back. */
  lemma ChunksDecode(text: string, budget: nat) returns (pieces: seq<string>)
    requires budget >= 4 && SplitPlaintext(text, budget).Some?
    ensures var chunks := SplitPlaintext(text, budget).value;
            && |pieces| == |chunks| && Concat(pieces) == text
            && (forall i | 0 <= i < |chunks| :: Decode(chunks[i]) == Some(pieces[i]))
            && Flatten(chunks) == Encode(text)
  {
    pieces := ChunksArePieces(text, budget);
    FlattenEncodeAll(pieces);
    forall i | 0 <= i < |pieces|
      ensures Decode(EncodeAll(pieces)[i]) == Some(pieces[i])
    {
      DecodeEncode(pieces[i]);
    }
  }
}
