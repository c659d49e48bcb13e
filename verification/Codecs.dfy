/**
 * The text codecs that scripts/weechat/rpe2e.py gets from Python: `bytes.hex`/`bytes.fromhex`, `str(int)`/`int(str)`,
 * and base64 in its padded form and as unpadded base64url (sections 4 and 5 of RFC 4648), with the leniency of
 * Python's decoders.
 */
module Codecs {
  import opened Wrappers
  import opened Text
  import opened Utf8
  import opened Seqs

  /** What Python's `str.strip`, `str.split` and `int` take for whitespace. */
  predicate IsPythonSpace(c: char) {
    IsWhite(c) || '\U{1C}' <= c <= '\U{1F}'
  }

  // ----- hexadecimal -----

  function HexDigit(n: nat): char
    requires n < 16
  {
    if n < 10 then ('0' as int + n) as char else ('a' as int + n - 10) as char
  }

  function HexValue(c: char): Option<nat> {
    if '0' <= c <= '9' then Some(c as int - '0' as int)
    else if 'a' <= c <= 'f' then Some(c as int - 'a' as int + 10)
    else if 'A' <= c <= 'F' then Some(c as int - 'A' as int + 10)
    else None
  }

  function ToHex(b: Bytes): (s: string)
    ensures |s| == 2 * |b|
  {
    if b == [] then "" else [HexDigit(b[0] / 16), HexDigit(b[0] % 16)] + ToHex(b[1..])
  }

  /** `bytes.fromhex`: ASCII whitespace between bytes is skipped. */
  function FromHex(s: string): Option<Bytes> {
    if s == "" then Some([])
    else if '\t' <= s[0] <= '\r' || s[0] == ' ' then FromHex(s[1..])
    else if |s| == 1 then None
    else match (HexValue(s[0]), HexValue(s[1]), FromHex(s[2..]))
      case (Some(high), Some(low), Some(rest)) => if high < 16 && low < 16 then Some([high * 16 + low] + rest) else None
      case _ => None
  }

  lemma {:induction false} FromHexToHex(b: Bytes)
    ensures FromHex(ToHex(b)) == Some(b)
  {
    if b != [] {
      var s := ToHex(b);
      assert s[2..] == ToHex(b[1..]);
      FromHexToHex(b[1..]);
      assert [b[0]] + b[1..] == b;
    }
  }

  // ----- decimal -----

  function DecimalDigit(n: nat): (c: char)
    requires n < 10
    ensures IsDigit(c) && c as int - '0' as int == n
  {
    ('0' as int + n) as char
  }

  function NatToDecimal(n: nat): (s: string)
    ensures s != "" && forall c :: c in s ==> IsDigit(c)
  {
    if n < 10 then [DecimalDigit(n)] else NatToDecimal(n / 10) + [DecimalDigit(n % 10)]
  }

  function ToDecimal(n: int): string {
    if n < 0 then "-" + NatToDecimal(-n) else NatToDecimal(n)
  }

  lemma {:induction false} DigitsConcat(s: string, t: string, value: nat)
    requires Digits(s, value).Some?
    ensures Digits(s + t, value) == Digits(t, Digits(s, value).value)
  {
    if s == "" {
      EmptyConcat(t);
      assert s + t == t;
    } else {
      TailConcat(s, t);
      DigitsConcat(s[1..], t, value * 10 + (s[0] as int - '0' as int));
    }
  }

  lemma {:induction false} DigitsOfDecimal(n: nat)
    ensures Digits(NatToDecimal(n), 0) == Some(n)
  {
    var last := [DecimalDigit(n % 10)];
    if n < 10 {
      assert last[1..] == "";
    } else {
      DigitsOfDecimal(n / 10);
      DigitsConcat(NatToDecimal(n / 10), last, 0);
      assert last[1..] == "";
    }
  }

  function Noughts(k: nat): (s: string)
    ensures |s| == k
  {
    seq(k, _ => '0')
  }

  /** The number in decimal, after some zeros and a sign if any. */
  predicate Writes(text: string, sign: string, zeros: nat, n: nat) {
    && (sign == "" || sign == "+") && (zeros > 0 || n > 0)
    && text == sign + (Noughts(zeros) + if n == 0 then "" else NatToDecimal(n))
  }

  lemma {:induction false} DigitsPrefix(s: string, t: string, value: nat)
    requires Digits(s + t, value).Some?
    ensures Digits(s, value).Some?
  {
    if s != "" {
      TailConcat(s, t);
      DigitsPrefix(s[1..], t, value * 10 + (s[0] as int - '0' as int));
    }
  }

  /** Digits are the decimal of their value, after some zeros. */
  lemma {:induction false} DigitsAre(s: string, n: nat) returns (zeros: nat)
    requires Digits(s, 0) == Some(n)
    ensures s == Noughts(zeros) + if n == 0 then "" else NatToDecimal(n)
  {
    if s == "" {
      zeros := 0;
    } else {
      var most, last := s[..|s| - 1], [s[|s| - 1]];
      assert s == most + last && last[1..] == "";
      DigitsPrefix(most, last, 0);
      var m := Digits(most, 0).value;
      DigitsConcat(most, last, 0);
      zeros := DigitsAre(most, m);
      if n == 0 {
        zeros := zeros + 1;
      } else {
        assert NatToDecimal(n) == (if m == 0 then "" else NatToDecimal(m)) + last;
      }
    }
  }

  lemma {:induction false} NoughtsCount(k: nat)
    ensures Digits(Noughts(k), 0) == Some(0)
  {
    if k > 0 {
      assert Noughts(k)[1..] == Noughts(k - 1);
      NoughtsCount(k - 1);
    }
  }

  lemma NumberCounts(zeros: nat, n: nat)
    requires zeros > 0 || n > 0
    ensures var number := Noughts(zeros) + if n == 0 then "" else NatToDecimal(n);
            number != "" && IsDigit(number[0]) && Digits(number, 0) == Some(n)
  {
    NoughtsCount(zeros);
    DigitsOfDecimal(n);
    DigitsConcat(Noughts(zeros), if n == 0 then "" else NatToDecimal(n), 0);
    assert NatToDecimal(n)[0] in NatToDecimal(n);
  }

  lemma WrittenIsParsed(text: string, max: nat, sign: string, zeros: nat, n: nat)
    requires Writes(text, sign, zeros, n) && n <= max
    ensures ParseUnsigned(text, max) == Some(n)
  {
    NumberCounts(zeros, n);
    hide NatToDecimal, Digits;
    var number := Noughts(zeros) + if n == 0 then "" else NatToDecimal(n);
    assert (sign + number)[|sign|..] == number;
  }

  /** Exactly the numbers up to the greatest are parsed, with or without a plus sign and zeros. */
  lemma UnsignedIff(text: string, max: nat, n: nat)
    ensures ParseUnsigned(text, max) == Some(n) <==>
            n <= max && exists sign: string, zeros: nat :: Writes(text, sign, zeros, n)
  {
    hide NatToDecimal, Digits;
    if ParseUnsigned(text, max) == Some(n) {
      var sign := if text[0] == '+' then "+" else "";
      var digits := text[|sign|..];
      assert text == sign + digits && digits != "";
      var zeros := DigitsAre(digits, n);
      assert Writes(text, sign, zeros, n);
    }
    forall sign: string, zeros: nat | n <= max && Writes(text, sign, zeros, n)
      ensures ParseUnsigned(text, max) == Some(n)
    {
      WrittenIsParsed(text, max, sign, zeros, n);
    }
  }

  /** The digits of `int(s)`, with single underscores allowed between them. */
  function ScanDigits(s: string, value: nat, afterDigit: bool): Option<nat> {
    if s == "" then if afterDigit then Some(value) else None
    else if IsDigit(s[0]) then ScanDigits(s[1..], value * 10 + (s[0] as int - '0' as int), true)
    else if s[0] == '_' && afterDigit then ScanDigits(s[1..], value, false)
    else None
  }

  function StripStart(s: string): string {
    if s != "" && IsPythonSpace(s[0]) then StripStart(s[1..]) else s
  }

  function StripEnd(s: string): string {
    if s != "" && IsPythonSpace(s[|s| - 1]) then StripEnd(s[..|s| - 1]) else s
  }

  /** `int(s)` for text whose digits are ASCII. */
  function ParseInt(s: string): Option<int> {
    var t := StripEnd(StripStart(s));
    if t != "" && t[0] == '-' then
      var digits := ScanDigits(t[1..], 0, false);
      if digits.Some? then Some(-(digits.value as int)) else None
    else
      match ScanDigits(if t != "" && t[0] == '+' then t[1..] else t, 0, false)
      case Some(n) => Some(n)
      case None => None
  }

  lemma {:induction false} ScanDigitsConcat(s: string, t: string, value: nat, afterDigit: bool)
    requires s != "" && forall c :: c in s ==> IsDigit(c)
    ensures ScanDigits(s, value, afterDigit).Some?
    ensures ScanDigits(s + t, value, afterDigit) == ScanDigits(t, ScanDigits(s, value, afterDigit).value, true)
  {
    assert IsDigit(s[0]);
    assert (s + t)[1..] == s[1..] + t;
    if |s| > 1 {
      assert forall c :: c in s[1..] ==> c in s;
      ScanDigitsConcat(s[1..], t, value * 10 + (s[0] as int - '0' as int), true);
    } else {
      assert s[1..] + t == t;
    }
  }

  lemma {:induction false} ScanNatToDecimal(n: nat)
    ensures ScanDigits(NatToDecimal(n), 0, false) == Some(n)
  {
    if n >= 10 {
      ScanNatToDecimal(n / 10);
      ScanDigitsConcat(NatToDecimal(n / 10), [DecimalDigit(n % 10)], 0, false);
    }
  }

  lemma ParseIntToDecimal(n: int)
    ensures ParseInt(ToDecimal(n)) == Some(n)
  {
    var s := ToDecimal(n);
    var digits := NatToDecimal(if n < 0 then -n else n);
    assert digits[|digits| - 1] in digits && digits[0] in digits;
    assert s[|s| - 1] == digits[|digits| - 1];
    assert StripStart(s) == s && StripEnd(s) == s;
    ScanNatToDecimal(if n < 0 then -n else n);
    if n < 0 {
      assert s[1..] == digits;
    }
  }

  // ----- base64 -----

  type Sextet = v: int | 0 <= v < 64

  function Symbol(v: Sextet): char {
    if v < 26 then ('A' as int + v) as char
    else if v < 52 then ('a' as int + v - 26) as char
    else if v < 62 then ('0' as int + v - 52) as char
    else if v == 62 then '+' else '/'
  }

  function SymbolValue(c: char): Option<Sextet> {
    if 'A' <= c <= 'Z' then Some(c as int - 'A' as int)
    else if 'a' <= c <= 'z' then Some(c as int - 'a' as int + 26)
    else if '0' <= c <= '9' then Some(c as int - '0' as int + 52)
    else if c == '+' then Some(62)
    else if c == '/' then Some(63)
    else None
  }

  /** `base64.b64encode`. */
  function ToBase64(b: Bytes): string
    decreases |b|
  {
    if b == [] then ""
    else if |b| == 1 then [Symbol(b[0] / 4), Symbol(b[0] % 4 * 16), '=', '=']
    else if |b| == 2 then [Symbol(b[0] / 4), Symbol(b[0] % 4 * 16 + b[1] / 16), Symbol(b[1] % 16 * 4), '=']
    else [Symbol(b[0] / 4), Symbol(b[0] % 4 * 16 + b[1] / 16), Symbol(b[1] % 16 * 4 + b[2] / 64), Symbol(b[2] % 64)] +
         ToBase64(b[3..])
  }

  /**
   * The scanner of `binascii.a2b_base64` in its default, lenient mode: other characters are skipped, and padding ends
   * the data as soon as it completes a group. `group` is the position within a group of four and `left` the bits held.
   */
  function ScanBase64(s: string, group: nat, left: nat, pads: nat): Option<Bytes>
    requires group < 4 && left < 64
  {
    if s == "" then if group == 0 then Some([]) else None
    else if s[0] == '=' then
      if group >= 2 && group + pads + 1 >= 4 then Some([])
      else ScanBase64(s[1..], group, left, if group >= 2 then pads + 1 else pads)
    else match SymbolValue(s[0])
      case None => ScanBase64(s[1..], group, left, pads)
      case Some(v) =>
        if group == 0 then ScanBase64(s[1..], 1, v, 0)
        else if group == 1 then Prepend((left * 4 + v / 16) % 256, ScanBase64(s[1..], 2, v % 16, 0))
        else if group == 2 then Prepend((left * 16 + v / 4) % 256, ScanBase64(s[1..], 3, v % 4, 0))
        else Prepend((left * 64 + v) % 256, ScanBase64(s[1..], 0, 0, 0))
  }

  function Prepend(b: Byte, rest: Option<Bytes>): Option<Bytes> {
    match rest
    case None => None
    case Some(bytes) => Some([b] + bytes)
  }

  predicate IsAscii(s: string) {
    forall i | 0 <= i < |s| :: s[i] < '\U{80}'
  }

  /** `base64.b64decode` of a string: only ASCII text is looked at. */
  function FromBase64(s: string): Option<Bytes> {
    if IsAscii(s) then ScanBase64(s, 0, 0, 0) else None
  }

  lemma SymbolRoundTrip(v: Sextet)
    ensures SymbolValue(Symbol(v)) == Some(v) && Symbol(v) != '=' && Symbol(v) < '\U{80}'
  {
  }

  lemma ScanSymbol(v: Sextet, rest: string, group: nat, left: nat)
    requires group < 4 && left < 64
    ensures ScanBase64([Symbol(v)] + rest, group, left, 0) ==
            if group == 0 then ScanBase64(rest, 1, v, 0)
            else if group == 1 then Prepend((left * 4 + v / 16) % 256, ScanBase64(rest, 2, v % 16, 0))
            else if group == 2 then Prepend((left * 16 + v / 4) % 256, ScanBase64(rest, 3, v % 4, 0))
            else Prepend((left * 64 + v) % 256, ScanBase64(rest, 0, 0, 0))
  {
    SymbolRoundTrip(v);
    assert ([Symbol(v)] + rest)[1..] == rest;
  }

  /** A group's first two symbols carry one byte. */
  lemma ScanTwoSymbols(v0: Sextet, v1: Sextet, rest: string)
    ensures ScanBase64([Symbol(v0), Symbol(v1)] + rest, 0, 0, 0) ==
            Prepend(v0 * 4 + v1 / 16, ScanBase64(rest, 2, v1 % 16, 0))
  {
    hide ScanBase64, Symbol, SymbolValue;
    assert [Symbol(v0), Symbol(v1)] + rest == [Symbol(v0)] + ([Symbol(v1)] + rest);
    ScanSymbol(v0, [Symbol(v1)] + rest, 0, 0);
    ScanSymbol(v1, rest, 1, v0);
  }

  lemma ScanFourSymbols(v0: Sextet, v1: Sextet, v2: Sextet, v3: Sextet, rest: string)
    ensures ScanBase64([Symbol(v0), Symbol(v1), Symbol(v2), Symbol(v3)] + rest, 0, 0, 0) ==
            Prepend(v0 * 4 + v1 / 16,
              Prepend(v1 % 16 * 16 + v2 / 4, Prepend(v2 % 4 * 64 + v3, ScanBase64(rest, 0, 0, 0))))
  {
    hide ScanBase64, Symbol, SymbolValue;
    var tail := [Symbol(v2)] + ([Symbol(v3)] + rest);
    assert [Symbol(v0), Symbol(v1), Symbol(v2), Symbol(v3)] + rest == [Symbol(v0), Symbol(v1)] + tail;
    ScanTwoSymbols(v0, v1, tail);
    ScanSymbol(v2, [Symbol(v3)] + rest, 2, v1 % 16);
    ScanSymbol(v3, rest, 3, v2 % 4);
  }

  lemma ScanEnds()
    ensures ScanBase64("", 0, 0, 0) == Some([])
    ensures forall left | 0 <= left < 64 :: ScanBase64("==", 2, left, 0) == Some([])
    ensures forall left | 0 <= left < 64 :: ScanBase64("=", 3, left, 0) == Some([])
  {
    assert "=="[1..] == "=";
  }

  lemma ScanLastByte(b: Bytes)
    requires |b| == 1
    ensures ScanBase64(ToBase64(b), 0, 0, 0) == Some(b)
  {
    hide ScanBase64, Symbol, SymbolValue;
    ScanEnds();
    var v0: Sextet, v1: Sextet := b[0] / 4, b[0] % 4 * 16;
    assert ToBase64(b) == [Symbol(v0), Symbol(v1)] + "==";
    ScanTwoSymbols(v0, v1, "==");
    assert v0 * 4 + v1 / 16 == b[0];
    assert b == [b[0]] + [];
  }

  lemma ScanLastBytes(b: Bytes)
    requires |b| == 2
    ensures ScanBase64(ToBase64(b), 0, 0, 0) == Some(b)
  {
    hide ScanBase64, Symbol, SymbolValue;
    ScanEnds();
    var v0: Sextet, v1: Sextet, v2: Sextet := b[0] / 4, b[0] % 4 * 16 + b[1] / 16, b[1] % 16 * 4;
    assert ToBase64(b) == [Symbol(v0), Symbol(v1)] + ([Symbol(v2)] + "=");
    hide ToBase64;
    ScanTwoSymbols(v0, v1, [Symbol(v2)] + "=");
    ScanSymbol(v2, "=", 2, v1 % 16);
    assert v0 * 4 + v1 / 16 == b[0] && v1 % 16 * 16 + v2 / 4 == b[1];
    assert b == [b[0]] + ([b[1]] + []);
  }

  lemma ScanGroup(b: Bytes)
    requires |b| > 2
    ensures ScanBase64(ToBase64(b), 0, 0, 0) ==
            Prepend(b[0], Prepend(b[1], Prepend(b[2], ScanBase64(ToBase64(b[3..]), 0, 0, 0))))
  {
    hide ScanBase64, Symbol, SymbolValue, ToBase64;
    var v0: Sextet, v1: Sextet := b[0] / 4, b[0] % 4 * 16 + b[1] / 16;
    var v2: Sextet, v3: Sextet := b[1] % 16 * 4 + b[2] / 64, b[2] % 64;
    ToBase64Group(b, v0, v1, v2, v3);
    ScanFourSymbols(v0, v1, v2, v3, ToBase64(b[3..]));
    assert v0 * 4 + v1 / 16 == b[0] && v1 % 16 * 16 + v2 / 4 == b[1] && v2 % 4 * 64 + v3 == b[2];
  }

  lemma ToBase64Group(b: Bytes, v0: Sextet, v1: Sextet, v2: Sextet, v3: Sextet)
    requires |b| > 2
    requires v0 == b[0] / 4 && v1 == b[0] % 4 * 16 + b[1] / 16
    requires v2 == b[1] % 16 * 4 + b[2] / 64 && v3 == b[2] % 64
    ensures ToBase64(b) == [Symbol(v0), Symbol(v1), Symbol(v2), Symbol(v3)] + ToBase64(b[3..])
  {
  }

  lemma {:induction false} ScanToBase64(b: Bytes)
    ensures ScanBase64(ToBase64(b), 0, 0, 0) == Some(b)
    decreases |b|
  {
    if |b| == 0 {
    } else if |b| == 1 {
      ScanLastByte(b);
    } else if |b| == 2 {
      ScanLastBytes(b);
    } else {
      hide ScanBase64, ToBase64;
      ScanGroup(b);
      ScanToBase64(b[3..]);
      assert b == [b[0]] + ([b[1]] + ([b[2]] + b[3..]));
    }
  }

  /** The characters of an encoding: symbols, then at most two `=`. */
  predicate IsSymbol(c: char) { SymbolValue(c).Some? }

  lemma {:induction false} Base64Characters(b: Bytes) returns (body: string, padding: string)
    ensures ToBase64(b) == body + padding
    ensures forall c :: c in body ==> IsSymbol(c)
    ensures padding == "" || padding == "=" || padding == "=="
    decreases |b|
  {
    var s := ToBase64(b);
    forall v: Sextet ensures IsSymbol(Symbol(v)) { SymbolRoundTrip(v); }
    hide Symbol, IsSymbol;
    if |b| == 0 {
      body, padding := "", "";
    } else if |b| == 1 {
      body, padding := s[..2], "==";
    } else if |b| == 2 {
      body, padding := s[..3], "=";
    } else {
      var rest;
      rest, padding := Base64Characters(b[3..]);
      body := s[..4] + rest;
      assert s == s[..4] + ToBase64(b[3..]);
    }
  }

  lemma {:induction false} Base64Length(b: Bytes)
    ensures |ToBase64(b)| % 4 == 0
    decreases |b|
  {
    if |b| > 2 {
      Base64Length(b[3..]);
    }
  }

  lemma Base64IsAscii(b: Bytes)
    ensures IsAscii(ToBase64(b))
    ensures forall c :: c in ToBase64(b) ==> IsSymbol(c) || c == '='
  {
    var body, padding := Base64Characters(b);
    var s := ToBase64(b);
    forall i | 0 <= i < |s|
      ensures IsSymbol(s[i]) || s[i] == '='
    {
      if i < |body| { assert s[i] in body; }
    }
  }

  lemma FromBase64ToBase64(b: Bytes)
    ensures FromBase64(ToBase64(b)) == Some(b)
  {
    Base64IsAscii(b);
    ScanToBase64(b);
  }

  // ----- unpadded base64url -----

  function ToUrl(c: char): char { if c == '+' then '-' else if c == '/' then '_' else c }

  function FromUrl(c: char): char { if c == '-' then '+' else if c == '_' then '/' else c }

  function Translate(s: string, f: char -> char): (r: string)
    ensures |r| == |s| && forall i | 0 <= i < |s| :: r[i] == f(s[i])
  {
    seq(|s|, i requires 0 <= i < |s| => f(s[i]))
  }

  function StripPadding(s: string): string {
    if s != "" && s[|s| - 1] == '=' then StripPadding(s[..|s| - 1]) else s
  }

  /** `_b64u_encode`. */
  function ToBase64Url(b: Bytes): string {
    StripPadding(Translate(ToBase64(b), ToUrl))
  }

  function Padding(length: nat): string {
    var short := length % 4;
    if short == 0 then "" else if short == 1 then "===" else if short == 2 then "==" else "="
  }

  /** `_b64u_decode`: re-pad to a multiple of four, translate, decode. */
  function FromBase64Url(s: string): Option<Bytes> {
    var padded := s + Padding(|s|);
    if IsAscii(padded) then ScanBase64(Translate(padded, FromUrl), 0, 0, 0) else None
  }

  lemma StripPaddingIs(body: string, padding: string)
    requires padding == "" || padding == "=" || padding == "=="
    requires '=' !in body
    ensures StripPadding(body + padding) == body
  {
    var s := body + padding;
    assert body != "" ==> body[|body| - 1] in body;
    if padding == "" {
      assert s == body;
    } else {
      assert s[..|s| - 1] == body + padding[..|padding| - 1];
      if |padding| == 2 {
        assert (body + "=")[..|body|] == body;
      }
    }
  }

  lemma TranslateConcat(s: string, t: string, f: char -> char)
    ensures Translate(s + t, f) == Translate(s, f) + Translate(t, f)
  {
  }

  /** Translating symbols to the URL alphabet and back changes nothing. */
  lemma TranslateBack(body: string)
    requires forall c :: c in body ==> IsSymbol(c)
    ensures Translate(Translate(body, ToUrl), FromUrl) == body
    ensures forall c :: c in Translate(body, ToUrl) ==> IsUrlSymbol(c)
  {
    var url := Translate(body, ToUrl);
    forall i | 0 <= i < |body|
      ensures FromUrl(url[i]) == body[i] && IsUrlSymbol(url[i])
    {
      assert IsSymbol(body[i]);
    }
  }

  /** Decoding undoes encoding; the encoding has neither padding nor whitespace, and no `=`. */
  lemma Base64UrlRoundTrip(b: Bytes)
    ensures FromBase64Url(ToBase64Url(b)) == Some(b)
    ensures forall c :: c in ToBase64Url(b) ==> IsUrlSymbol(c)
  {
    hide ScanBase64, ToBase64, StripPadding;
    Base64Length(b);
    var body, padding := Base64Characters(b);
    var url := Translate(body, ToUrl);
    TranslateBack(body);
    TranslateConcat(body, padding, ToUrl);
    assert Translate(padding, ToUrl) == padding;
    StripPaddingIs(url, padding);
    assert Padding(|url|) == padding by {
      assert |body + padding| == |ToBase64(b)|;
    }
    TranslateConcat(url, padding, FromUrl);
    assert Translate(padding, FromUrl) == padding;
    assert IsAscii(url + padding) by {
      assert forall i | 0 <= i < |url| :: IsUrlSymbol(url[i]);
    }
    ScanToBase64(b);
  }

  predicate IsUrlSymbol(c: char) {
    IsAsciiAlphanumeric(c) || c == '-' || c == '_'
  }
}
