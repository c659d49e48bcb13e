/** Python's `str.encode("utf-8")` and strict `bytes.decode("utf-8")` (section 3 of RFC 3629). */
module Utf8 {
  import opened Wrappers

  type Byte = x: int | 0 <= x < 256
  type Bytes = seq<Byte>

  function EncodeChar(c: char): (b: Bytes)
    ensures 1 <= |b| <= 4
    ensures !IsContinuation(b[0])
    ensures forall i | 1 <= i < |b| :: IsContinuation(b[i])
  {
    var n := c as int;
    if n < 0x80 then [n]
    else if n < 0x800 then [0xC0 + n / 64, 0x80 + n % 64]
    else if n < 0x1_0000 then [0xE0 + n / 4096, 0x80 + n / 64 % 64, 0x80 + n % 64]
    else [0xF0 + n / 262144, 0x80 + n / 4096 % 64, 0x80 + n / 64 % 64, 0x80 + n % 64]
  }

  function Encode(s: string): Bytes {
    if s == "" then [] else EncodeChar(s[0]) + Encode(s[1..])
  }

  /** `(b & 0xC0) == 0x80`. */
  predicate IsContinuation(b: Byte) { 0x80 <= b < 0xC0 }

  /** Length the lead byte announces; 0 when it cannot lead. */
  function LeadLength(b: Byte): nat {
    if b < 0x80 then 1
    else if 0xC2 <= b < 0xE0 then 2
    else if 0xE0 <= b < 0xF0 then 3
    else if 0xF0 <= b < 0xF5 then 4
    else 0
  }

  /** The first character: no overlong forms, no surrogates, nothing past U+10FFFF. */
  function DecodeChar(b: Bytes): Option<char>
    requires b != []
    ensures DecodeChar(b).Some? ==> 1 <= LeadLength(b[0]) <= |b|
  {
    var n := LeadLength(b[0]);
    if n == 0 || n > |b| || exists i | 1 <= i < n :: !IsContinuation(b[i]) then None
    else
      var lead: int, second: int := b[0], if n > 1 then b[1] - 0x80 else 0;
      var third: int, fourth: int := if n > 2 then b[2] - 0x80 else 0, if n > 3 then b[3] - 0x80 else 0;
      var code: int :=
        if n == 1 then lead
        else if n == 2 then (lead - 0xC0) * 64 + second
        else if n == 3 then (lead - 0xE0) * 4096 + second * 64 + third
        else (lead - 0xF0) * 262144 + second * 4096 + third * 64 + fourth;
      var least: int := if n == 1 then 0 else if n == 2 then 0x80 else if n == 3 then 0x800 else 0x1_0000;
      if least <= code < 0xD800 || (least <= code && 0xE000 <= code < 0x11_0000) then Some(code as char) else None
  }

  function Decode(b: Bytes): Option<string>
    decreases |b|
  {
    if b == [] then Some("")
    else match DecodeChar(b)
      case None => None
      case Some(c) =>
        match Decode(b[LeadLength(b[0])..])
        case None => None
        case Some(rest) => Some([c] + rest)
  }

  lemma DecodeEncodedChar(c: char, rest: Bytes)
    ensures DecodeChar(EncodeChar(c) + rest) == Some(c)
    ensures LeadLength(EncodeChar(c)[0]) == |EncodeChar(c)|
  {
    var n := c as int;
    if n < 0x80 {
    } else if n < 0x800 {
      DecodeTwo(c, EncodeChar(c) + rest);
    } else if n < 0x1_0000 {
      DecodeThree(c, EncodeChar(c) + rest);
    } else {
      DecodeFour(c, EncodeChar(c) + rest);
    }
  }

  lemma DecodeTwo(c: char, b: Bytes)
    requires 0x80 <= c as int < 0x800 && |b| >= 2 && b[..2] == EncodeChar(c)
    ensures DecodeChar(b) == Some(c)
  {
    var n := c as int;
    assert b[0] == b[..2][0] == 0xC0 + n / 64 && b[1] == b[..2][1] == 0x80 + n % 64;
  }

  lemma DecodeThree(c: char, b: Bytes)
    requires 0x800 <= c as int < 0x1_0000 && |b| >= 3 && b[..3] == EncodeChar(c)
    ensures DecodeChar(b) == Some(c)
  {
    var n := c as int;
    assert b[0] == b[..3][0] == 0xE0 + n / 4096;
    assert b[1] == b[..3][1] == 0x80 + n / 64 % 64 && b[2] == b[..3][2] == 0x80 + n % 64;
    assert n / 64 / 64 == n / 4096;
    assert n == n / 4096 * 4096 + n / 64 % 64 * 64 + n % 64;
  }

  lemma DecodeFour(c: char, b: Bytes)
    requires 0x1_0000 <= c as int && |b| >= 4 && b[..4] == EncodeChar(c)
    ensures DecodeChar(b) == Some(c)
  {
    var n := c as int;
    assert b[0] == b[..4][0] == 0xF0 + n / 262144 && b[1] == b[..4][1] == 0x80 + n / 4096 % 64;
    assert b[2] == b[..4][2] == 0x80 + n / 64 % 64 && b[3] == b[..4][3] == 0x80 + n % 64;
    assert n / 64 / 64 == n / 4096 && n / 4096 / 64 == n / 262144;
    assert n == n / 262144 * 262144 + n / 4096 % 64 * 4096 + n / 64 % 64 * 64 + n % 64;
  }

  lemma {:induction false} DecodeEncode(s: string)
    ensures Decode(Encode(s)) == Some(s)
  {
    if s != "" {
      var b := EncodeChar(s[0]);
      DecodeEncodedChar(s[0], Encode(s[1..]));
      assert Encode(s)[|b|..] == Encode(s[1..]);
      DecodeEncode(s[1..]);
      assert [s[0]] + s[1..] == s;
    }
  }

  /** What decodes to a character begins with its encoding, the only one it has. */
  lemma EncodeDecodedChar(b: Bytes, c: char)
    requires b != [] && DecodeChar(b) == Some(c)
    ensures LeadLength(b[0]) <= |b| && b[..LeadLength(b[0])] == EncodeChar(c)
  {
    var n := LeadLength(b[0]);
    assert forall i | 1 <= i < n :: IsContinuation(b[i]);
    if n == 1 {
      assert b[..1] == [b[0]];
    } else if n == 2 {
      assert c as int / 64 == b[0] - 0xC0 && c as int % 64 == b[1] - 0x80;
      assert b[..2] == [b[0], b[1]];
    } else if n == 3 {
      EncodeDecodedThree(b, c);
    } else {
      EncodeDecodedFour(b, c);
    }
  }

  lemma EncodeDecodedThree(b: Bytes, c: char)
    requires b != [] && LeadLength(b[0]) == 3 && DecodeChar(b) == Some(c)
    ensures b[..3] == EncodeChar(c)
  {
    assert IsContinuation(b[1]) && IsContinuation(b[2]);
    var lead: int, code := b[0] - 0xE0, c as int;
    var high: int := lead * 64 + (b[1] - 0x80);
    assert code == high * 64 + (b[2] - 0x80);
    hide DecodeChar;
    assert code / 64 == high && code % 64 == b[2] - 0x80;
    assert high % 64 == b[1] - 0x80 && high / 64 == lead && code / 4096 == high / 64;
    assert b[..3] == [b[0], b[1], b[2]];
  }

  lemma EncodeDecodedFour(b: Bytes, c: char)
    requires b != [] && LeadLength(b[0]) == 4 && DecodeChar(b) == Some(c)
    ensures b[..4] == EncodeChar(c)
  {
    assert IsContinuation(b[1]) && IsContinuation(b[2]) && IsContinuation(b[3]);
    var lead: int, code := b[0] - 0xF0, c as int;
    var high: int := lead * 64 + (b[1] - 0x80);
    var most: int := high * 64 + (b[2] - 0x80);
    assert code == most * 64 + (b[3] - 0x80) && code >= 0x1_0000;
    hide DecodeChar;
    assert code / 64 == most && code % 64 == b[3] - 0x80;
    assert most / 64 == high && most % 64 == b[2] - 0x80 && code / 4096 == most / 64;
    assert high / 64 == lead && high % 64 == b[1] - 0x80 && code / 262144 == high / 64;
    assert b[..4] == [b[0], b[1], b[2], b[3]];
  }

  /** Strict decoding accepts nothing but encodings, so it is exactly their inverse. */
  lemma {:induction false} DecodesIff(b: Bytes, s: string)
    ensures Decode(b) == Some(s) <==> Encode(s) == b
    decreases |b|
  {
    DecodeEncode(s);
    if Decode(b) == Some(s) && b != [] {
      var n := LeadLength(b[0]);
      EncodeDecodedChar(b, s[0]);
      DecodesIff(b[n..], s[1..]);
      assert b == b[..n] + b[n..];
    }
  }

  lemma EncodeIsInjective(s: string, t: string)
    requires Encode(s) == Encode(t)
    ensures s == t
  {
    DecodeEncode(s);
    DecodeEncode(t);
  }

  lemma {:induction false} EncodeConcat(s: string, t: string)
    ensures Encode(s + t) == Encode(s) + Encode(t)
  {
    if s == "" {
      assert s + t == t;
    } else {
      assert (s + t)[1..] == s[1..] + t;
      EncodeConcat(s[1..], t);
    }
  }

  /** A position between two characters of an encoding. */
  predicate IsBoundary(b: Bytes, i: nat)
    requires i <= |b|
  {
    i == |b| || !IsContinuation(b[i])
  }

  /** Cutting an encoding at a boundary cuts the text. */
  lemma {:induction false} BoundaryCutsText(s: string, i: nat) returns (k: nat)
    requires i <= |Encode(s)| && IsBoundary(Encode(s), i)
    ensures k <= |s| && Encode(s[..k]) == Encode(s)[..i] && Encode(s[k..]) == Encode(s)[i..]
  {
    if i == 0 {
      k := 0;
      assert s[..0] == "" && s[0..] == s;
    } else {
      var first, rest := EncodeChar(s[0]), Encode(s[1..]);
      assert i >= |first| by {
        assert forall j | 0 <= j < |first| :: Encode(s)[j] == first[j];
      }
      var i' := i - |first|;
      assert i < |Encode(s)| ==> rest[i'] == Encode(s)[i];
      var k' := BoundaryCutsText(s[1..], i');
      k := k' + 1;
      assert s[..k][0] == s[0] && s[..k][1..] == s[1..][..k'] && s[k..] == s[1..][k'..];
      assert Encode(s)[..i] == first + rest[..i'] && Encode(s)[i..] == rest[i'..];
    }
  }

  /** From one boundary to the next there are at most four bytes, and the encoding starts at a boundary. */
  lemma BoundariesAreNear(s: string)
    requires s != ""
    ensures var b := Encode(s);
            b != [] && IsBoundary(b, 0) && |EncodeChar(s[0])| <= |b| && IsBoundary(b, |EncodeChar(s[0])|)
    ensures forall i | 1 <= i < |EncodeChar(s[0])| :: IsContinuation(Encode(s)[i])
  {
    var first, rest := EncodeChar(s[0]), Encode(s[1..]);
    assert forall i | 0 <= i < |first| :: Encode(s)[i] == first[i];
    if rest != [] {
      assert Encode(s)[|first|] == rest[0] == EncodeChar(s[1..][0])[0];
    }
  }
}
