/**
 * Encrypted message lines and their associated data: `encode_wire`, `parse_wire` and `build_aad` of
 * scripts/weechat/rpe2e.py.
 */
module Wires {
  import opened Wrappers
  import opened Text
  import opened Utf8
  import opened Codecs
  import opened Chunker

  const WIRE_PREFIX := "+RPE2E01"
  /** `PROTO.encode()`, the bytes of "RPE2E01". */
  const PROTO: Bytes := [0x52, 0x50, 0x45, 0x32, 0x45, 0x30, 0x31]
  const NONCE_LEN: nat := 24

  datatype Wire = Wire(msgid: Bytes, ts: int, part: int, total: int, nonce: Bytes, ct: Bytes)

  predicate WellFormed(w: Wire) {
    |w.msgid| == 8 && 1 <= w.part <= w.total <= MAX_CHUNKS && |w.nonce| == NONCE_LEN
  }

  /** `split(c, n)`: at most `n` cuts, from the left. */
  function SplitAtMost(s: string, c: char, n: nat): (fields: seq<string>)
    ensures 1 <= |fields| <= n + 1
  {
    var k := Find(s, c);
    if n == 0 || k == |s| then [s] else [s[..k]] + SplitAtMost(s[k + 1..], c, n - 1)
  }

  function PartTotal(w: Wire): string { ToDecimal(w.part) + "/" + ToDecimal(w.total) }

  function NonceText(w: Wire): string { ToBase64(w.nonce) + ":" + ToBase64(w.ct) }

  function EncodeWire(w: Wire): string {
    WIRE_PREFIX + " " + (ToHex(w.msgid) + " " + (ToDecimal(w.ts) + " " + (PartTotal(w) + " " + NonceText(w))))
  }

  function ParsePartTotal(s: string): Option<(int, int)> {
    match SplitOnce(s, '/')
    case None => None
    case Some((part, total)) =>
      match (ParseInt(part), ParseInt(total))
      case (Some(p), Some(t)) => if t < 1 || t > MAX_CHUNKS || p < 1 || p > t then None else Some((p, t))
      case _ => None
  }

  function ParseNonceText(s: string): Option<(Bytes, Bytes)> {
    match SplitOnce(s, ':')
    case None => None
    case Some((nonce64, ct64)) =>
      match (FromBase64(nonce64), FromBase64(ct64))
      case (Some(nonce), Some(ct)) => if |nonce| != NONCE_LEN then None else Some((nonce, ct))
      case _ => None
  }

  function ParseWire(line: string): Option<Wire> {
    var parts := SplitAtMost(line, ' ', 4);
    if |parts| != 5 || parts[0] != WIRE_PREFIX || |parts[1]| != 16 then None
    else match (FromHex(parts[1]), ParseInt(parts[2]), ParsePartTotal(parts[3]), ParseNonceText(parts[4]))
      case (Some(msgid), Some(ts), Some(numbers), Some(bytes)) =>
        Some(Wire(msgid, ts, numbers.0, numbers.1, bytes.0, bytes.1))
      case _ => None
  }

  // ----- round trip -----

  lemma SplitAtMostField(field: string, c: char, rest: string, n: nat)
    requires c !in field && n > 0
    ensures SplitAtMost(field + [c] + rest, c, n) == [field] + SplitAtMost(rest, c, n - 1)
  {
    var s := field + [c] + rest;
    assert s[..|field|] == field && s[|field| + 1..] == rest;
    FindFirst(s, c, |field|);
  }

  lemma SplitAtMostNone(s: string, c: char)
    ensures SplitAtMost(s, c, 0) == [s]
  {
  }

  lemma SplitOnceField(field: string, c: char, rest: string)
    requires c !in field
    ensures SplitOnce(field + [c] + rest, c) == Some((field, rest))
  {
    var s := field + [c] + rest;
    assert s[..|field|] == field && s[|field| + 1..] == rest;
    FindFirst(s, c, |field|);
  }

  lemma {:induction false} HexHasNoSpace(b: Bytes)
    ensures ' ' !in ToHex(b)
  {
    if b != [] {
      HexHasNoSpace(b[1..]);
    }
  }

  lemma DecimalCharacters(n: int)
    ensures forall c :: c in ToDecimal(n) ==> IsDigit(c) || c == '-'
  {
  }

  lemma PartTotalRoundTrip(w: Wire)
    requires WellFormed(w)
    ensures ParsePartTotal(PartTotal(w)) == Some((w.part, w.total))
    ensures ' ' !in PartTotal(w)
  {
    hide ToDecimal, ParseInt;
    DecimalCharacters(w.part);
    DecimalCharacters(w.total);
    SplitOnceField(ToDecimal(w.part), '/', ToDecimal(w.total));
    ParseIntToDecimal(w.part);
    ParseIntToDecimal(w.total);
  }

  lemma NonceTextRoundTrip(w: Wire)
    requires WellFormed(w)
    ensures ParseNonceText(NonceText(w)) == Some((w.nonce, w.ct))
  {
    hide ToBase64, FromBase64;
    Base64IsAscii(w.nonce);
    SplitOnceField(ToBase64(w.nonce), ':', ToBase64(w.ct));
    FromBase64ToBase64(w.nonce);
    FromBase64ToBase64(w.ct);
  }

  lemma WireFields(w: Wire)
    requires WellFormed(w)
    ensures SplitAtMost(EncodeWire(w), ' ', 4) ==
            [WIRE_PREFIX, ToHex(w.msgid), ToDecimal(w.ts), PartTotal(w), NonceText(w)]
  {
    hide ToHex, ToDecimal, PartTotal, NonceText, SplitAtMost;
    var tail1 := PartTotal(w) + " " + NonceText(w);
    var tail2 := ToDecimal(w.ts) + " " + tail1;
    var tail3 := ToHex(w.msgid) + " " + tail2;
    SplitAtMostField(WIRE_PREFIX, ' ', tail3, 4);
    HexHasNoSpace(w.msgid);
    SplitAtMostField(ToHex(w.msgid), ' ', tail2, 3);
    DecimalCharacters(w.ts);
    SplitAtMostField(ToDecimal(w.ts), ' ', tail1, 2);
    PartTotalRoundTrip(w);
    SplitAtMostField(PartTotal(w), ' ', NonceText(w), 1);
    SplitAtMostNone(NonceText(w), ' ');
  }

  /** Parsing undoes printing, for every well-formed wire. */
  lemma WireRoundTrip(w: Wire)
    requires WellFormed(w)
    ensures ParseWire(EncodeWire(w)) == Some(w)
  {
    hide EncodeWire, SplitAtMost, ParsePartTotal, ParseNonceText, ToDecimal, ToHex, FromHex, ParseInt;
    WireFields(w);
    FromHexToHex(w.msgid);
    ParseIntToDecimal(w.ts);
    PartTotalRoundTrip(w);
    NonceTextRoundTrip(w);
  }

  // ----- associated data -----

  /** `struct.pack(">H", n)`. */
  function Be16(n: nat): Bytes
    requires n < 0x1_0000
  {
    [n / 256, n % 256]
  }

  function Be32(n: nat): (b: Bytes)
    requires n < 0x1_0000_0000
    ensures |b| == 4
  {
    Be16(n / 0x1_0000) + Be16(n % 0x1_0000)
  }

  const I64_LIMIT: int := 0x8000_0000_0000_0000

  function TwosComplement(ts: int): (n: nat)
    requires -I64_LIMIT <= ts < I64_LIMIT
    ensures n < 0x1_0000_0000_0000_0000
  {
    if ts < 0 then ts + 2 * I64_LIMIT else ts
  }

  /** `struct.pack(">q", ts)`. */
  function Be64(ts: int): (b: Bytes)
    requires -I64_LIMIT <= ts < I64_LIMIT
    ensures |b| == 8
  {
    Be32(TwosComplement(ts) / 0x1_0000_0000) + Be32(TwosComplement(ts) % 0x1_0000_0000)
  }

  /** `None` when a value does not fit its field, which raises in the source. */
  function BuildAad(channel: string, msgid: Bytes, ts: int, part: int, total: int): Option<Bytes> {
    var name := Encode(channel);
    if |name| >= 0x1_0000 || !(-I64_LIMIT <= ts < I64_LIMIT) || !(0 <= part < 256) || !(0 <= total < 256) then None
    else Some(
      PROTO + Be16(|name|) + name + Be16(8) + msgid + Be16(8) + Be64(ts) + Be16(1) + [part] + Be16(1) + [total])
  }

  lemma Be16IsInjective(n: nat, m: nat)
    requires n < 0x1_0000 && m < 0x1_0000 && Be16(n) == Be16(m)
    ensures n == m
  {
    assert Be16(n)[0] == Be16(m)[0] && Be16(n)[1] == Be16(m)[1];
  }

  lemma Be32IsInjective(n: nat, m: nat)
    requires n < 0x1_0000_0000 && m < 0x1_0000_0000 && Be32(n) == Be32(m)
    ensures n == m
  {
    assert Be32(n)[..2] == Be16(n / 0x1_0000) && Be32(n)[2..] == Be16(n % 0x1_0000);
    assert Be32(m)[..2] == Be16(m / 0x1_0000) && Be32(m)[2..] == Be16(m % 0x1_0000);
    Be16IsInjective(n / 0x1_0000, m / 0x1_0000);
    Be16IsInjective(n % 0x1_0000, m % 0x1_0000);
  }

  lemma Be64IsInjective(t: int, t': int)
    requires -I64_LIMIT <= t < I64_LIMIT && -I64_LIMIT <= t' < I64_LIMIT && Be64(t) == Be64(t')
    ensures t == t'
  {
    hide Be32;
    var n, m := TwosComplement(t), TwosComplement(t');
    assert Be64(t)[..4] == Be32(n / 0x1_0000_0000) && Be64(t)[4..] == Be32(n % 0x1_0000_0000);
    assert Be64(t')[..4] == Be32(m / 0x1_0000_0000) && Be64(t')[4..] == Be32(m % 0x1_0000_0000);
    Be32IsInjective(n / 0x1_0000_0000, m / 0x1_0000_0000);
    Be32IsInjective(n % 0x1_0000_0000, m % 0x1_0000_0000);
  }

  /** Two messages with the same associated data agree on everything it covers. */
  lemma AadIsInjective(c: string, m: Bytes, t: int, p: int, n: int, c': string, m': Bytes, t': int, p': int, n': int)
    requires |m| == |m'| == 8
    requires BuildAad(c, m, t, p, n).Some? && BuildAad(c, m, t, p, n) == BuildAad(c', m', t', p', n')
    ensures c == c' && m == m' && t == t' && p == p' && n == n'
  {
    hide BuildAad, Be64, Encode;
    AadFields(c, m, t, p, n);
    AadFields(c', m', t', p', n');
    assert |Encode(c)| == |Encode(c')|;
    EncodeIsInjective(c, c');
    Be64IsInjective(t, t');
  }

  lemma AadFields(c: string, m: Bytes, t: int, p: int, n: int)
    requires |m| == 8 && BuildAad(c, m, t, p, n).Some?
    ensures |Encode(c)| < 0x1_0000 && -I64_LIMIT <= t < I64_LIMIT
    ensures var aad, name, at := BuildAad(c, m, t, p, n).value, Encode(c), |PROTO|;
            && |aad| == at + 2 + |name| + 26
            && aad[at..at + 2] == Be16(|name|)
            && aad[at + 2..at + 2 + |name|] == name
            && aad[at + |name| + 4..at + |name| + 12] == m
            && aad[at + |name| + 14..at + |name| + 22] == Be64(t)
            && aad[at + |name| + 24] == p && aad[at + |name| + 27] == n
  {
    hide Encode, Be64;
  }
}
