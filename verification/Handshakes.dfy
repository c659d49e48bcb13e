/**
 * Handshake messages as text: the bodies built for KEYREQ, KEYRSP and REKEY in scripts/weechat/rpe2e.py, their parsers,
 * and the bytes each signature covers.
 */
module Handshakes {
  import opened Wrappers
  import opened Text
  import opened Utf8
  import opened Codecs
  import opened Wires

  const CTCP_TAG := "RPEE2E"
  const KEY_LEN: nat := 32

  datatype Keyreq = Keyreq(channel: string, pub: Bytes, eph: Bytes, nonce: Bytes, sig: Bytes)

  /** A KEYRSP or a REKEY: both carry a wrapped session key. */
  datatype Wrapped = Wrapped(
    channel: string, pub: Bytes, eph: Bytes, wrapNonce: Bytes, wrapCt: Bytes, nonce: Bytes, sig: Bytes)

  predicate KeyreqSizes(m: Keyreq) {
    |m.pub| == 32 && |m.eph| == 32 && |m.nonce| == 16 && |m.sig| == 64
  }

  predicate WrappedSizes(m: Wrapped) {
    |m.pub| == 32 && |m.eph| == 32 && |m.wrapNonce| == NONCE_LEN && |m.nonce| == 16 && |m.sig| == 64
  }

  // ----- what the builders print, between the two \x01 -----

  function Field(key: string, value: string): string { key + "=" + value }

  function BytesText(key: string, value: Bytes): string { Field(key, ToBase64Url(value)) }

  function KeyreqWords(m: Keyreq): seq<string> {
    [CTCP_TAG, "KEYREQ", Field("v", "1"), Field("c", m.channel), BytesText("p", m.pub), BytesText("e", m.eph),
     BytesText("n", m.nonce), BytesText("s", m.sig)]
  }

  function KeyreqBody(m: Keyreq): string { Join(KeyreqWords(m), " ") }

  /** `kind` is KEYRSP or REKEY. */
  function WrappedWords(kind: string, m: Wrapped): seq<string> {
    [CTCP_TAG, kind, Field("v", "1"), Field("c", m.channel), BytesText("p", m.pub), BytesText("e", m.eph),
     BytesText("wn", m.wrapNonce), BytesText("w", m.wrapCt), BytesText("n", m.nonce), BytesText("s", m.sig)]
  }

  function WrappedBody(kind: string, m: Wrapped): string { Join(WrappedWords(kind, m), " ") }

  // ----- the parsers -----

  /** Length of the run of non-space characters at the front. */
  function WordLength(s: string): (n: nat)
    ensures n <= |s|
    ensures NoSpace(s[..n])
    ensures n < |s| ==> IsPythonSpace(s[n])
    ensures s != "" && !IsPythonSpace(s[0]) ==> n > 0
  {
    if s == "" || IsPythonSpace(s[0]) then 0
    else
      var n := WordLength(s[1..]);
      assert s[..1 + n] == [s[0]] + s[1..][..n];
      1 + n
  }

  predicate NoSpace(s: string) {
    forall c :: c in s ==> !IsPythonSpace(c)
  }

  /** `str.split()`. */
  function Words(s: string): (words: seq<string>)
    ensures forall w :: w in words ==> w != "" && NoSpace(w)
    decreases |s|
  {
    if s == "" then []
    else if IsPythonSpace(s[0]) then Words(s[1..])
    else
      var n := WordLength(s);
      [s[..n]] + Words(s[n..])
  }

  /** `_parse_kv_strict`: fields without `=` are ignored, a repeated key refuses the whole body. */
  function ParseFields(fields: seq<string>, found: map<string, string>): Option<map<string, string>>
    decreases |fields|
  {
    if fields == [] then Some(found)
    else match SplitOnce(fields[0], '=')
      case None => ParseFields(fields[1..], found)
      case Some((key, value)) => if key in found then None else ParseFields(fields[1..], found[key := value])
  }

  /** The fields of a body of the given kind and version. */
  function BodyFields(body: string, kind: string, least: nat): Option<map<string, string>> {
    var parts := Words(body);
    if |parts| < least || |parts| < 2 || parts[0] != CTCP_TAG || parts[1] != kind then None
    else match ParseFields(parts[2..], map[])
      case None => None
      case Some(fields) => if "v" in fields && fields["v"] == "1" && "c" in fields then Some(fields) else None
  }

  function BytesField(fields: map<string, string>, key: string): Option<Bytes> {
    if key in fields then FromBase64Url(fields[key]) else None
  }

  function ParseKeyreq(body: string): Option<Keyreq> {
    match BodyFields(body, "KEYREQ", 7)
    case None => None
    case Some(f) =>
      match (BytesField(f, "p"), BytesField(f, "e"), BytesField(f, "n"), BytesField(f, "s"))
      case (Some(pub), Some(eph), Some(nonce), Some(sig)) =>
        var m := Keyreq(f["c"], pub, eph, nonce, sig);
        if KeyreqSizes(m) then Some(m) else None
      case _ => None
  }

  /** `parse_keyrsp` and `parse_keyrekey`. */
  function ParseWrapped(kind: string, body: string): Option<Wrapped> {
    match BodyFields(body, kind, 9)
    case None => None
    case Some(f) =>
      match (BytesField(f, "p"), BytesField(f, "e"), BytesField(f, "wn"), BytesField(f, "w"), BytesField(f, "n"),
             BytesField(f, "s"))
      case (Some(pub), Some(eph), Some(wrapNonce), Some(wrapCt), Some(nonce), Some(sig)) =>
        var m := Wrapped(f["c"], pub, eph, wrapNonce, wrapCt, nonce, sig);
        if WrappedSizes(m) then Some(m) else None
      case _ => None
  }

  // ----- what the signatures cover -----

  const COLON: Bytes := [0x3A]

  function KeyreqPayload(channel: string, pub: Bytes, eph: Bytes, nonce: Bytes): Bytes {
    Encode("KEYREQ:") + Encode(channel) + COLON + pub + COLON + eph + COLON + nonce
  }

  function WrappedPayload(
    kind: string, channel: string, pub: Bytes, eph: Bytes, wrapNonce: Bytes, wrapCt: Bytes, nonce: Bytes): Bytes
  {
    Encode(kind + ":") + Encode(channel) + COLON + pub + COLON + eph + COLON + wrapNonce + COLON + wrapCt + COLON
      + nonce
  }

  // ----- round trips -----

  lemma WordLengthIs(s: string, n: nat)
    requires n <= |s| && NoSpace(s[..n]) && (n < |s| ==> IsPythonSpace(s[n]))
    ensures WordLength(s) == n
  {
    assert forall i | 0 <= i < n :: s[i] == s[..n][i] && s[..n][i] in s[..n];
    var found := WordLength(s);
    assert forall i | 0 <= i < found :: s[i] == s[..found][i] && s[..found][i] in s[..found];
  }

  lemma FirstWord(word: string, rest: string)
    requires word != "" && NoSpace(word) && (rest == "" || IsPythonSpace(rest[0]))
    ensures Words(word + rest) == [word] + Words(rest)
  {
    var s := word + rest;
    assert s[..|word|] == word && s[|word|..] == rest;
    assert word[0] in word;
    WordLengthIs(s, |word|);
  }

  /** Splitting undoes joining with single spaces. */
  lemma {:induction false} WordsOfJoined(words: seq<string>)
    requires forall w :: w in words ==> w != "" && NoSpace(w)
    ensures Words(Join(words, " ")) == words
    decreases |words|
  {
    NoWords();
    hide Words, IsPythonSpace;
    if |words| == 1 {
      assert words[0] in words;
      FirstWord(words[0], "");
      assert words[0] + "" == words[0];
      assert words == [words[0]] + [];
    } else if |words| > 1 {
      assert words[0] in words;
      assert forall w :: w in words[1..] ==> w in words;
      WordsOfJoined(words[1..]);
      var rest := Join(words[1..], " ");
      SpaceThenWords(rest);
      FirstWord(words[0], " " + rest);
      assert words[0] + (" " + rest) == Join(words, " ");
      assert words == [words[0]] + words[1..];
    }
  }

  lemma NoWords()
    ensures Words("") == []
  {
  }

  lemma SpaceThenWords(rest: string)
    ensures Words(" " + rest) == Words(rest) && IsPythonSpace((" " + rest)[0])
  {
    assert (" " + rest)[1..] == rest;
  }

  lemma FieldWord(key: string, value: string)
    requires '=' !in key
    ensures SplitOnce(key + "=" + value, '=') == Some((key, value))
  {
    SplitOnceField(key, '=', value);
  }

  lemma BytesTextHasNoSpace(key: string, b: Bytes)
    requires NoSpace(key)
    ensures NoSpace(BytesText(key, b)) && BytesText(key, b) != ""
  {
    Base64UrlRoundTrip(b);
    assert forall c | IsUrlSymbol(c) :: !IsPythonSpace(c);
    hide IsUrlSymbol, ToBase64Url;
    assert !IsPythonSpace('=');
    hide IsPythonSpace;
  }

  lemma FieldsStep(key: string, value: string, rest: seq<string>, found: map<string, string>)
    requires '=' !in key && key !in found
    ensures ParseFields([Field(key, value)] + rest, found) == ParseFields(rest, found[key := value])
  {
    FieldWord(key, value);
    assert ([Field(key, value)] + rest)[1..] == rest;
  }

  lemma NoFields(found: map<string, string>)
    ensures ParseFields([], found) == Some(found)
  {
  }

  lemma BodyOfWords(words: seq<string>, kind: string, least: nat, fields: map<string, string>)
    requires |words| >= least && |words| >= 2 && words[0] == CTCP_TAG && words[1] == kind
    requires forall w :: w in words ==> w != "" && NoSpace(w)
    requires ParseFields(words[2..], map[]) == Some(fields)
    requires "v" in fields && fields["v"] == "1" && "c" in fields
    ensures BodyFields(Join(words, " "), kind, least) == Some(fields)
  {
    hide ParseFields, Words, NoSpace;
    WordsOfJoined(words);
  }

  function KeyreqFields(m: Keyreq): map<string, string> {
    map["v" := "1", "c" := m.channel, "p" := ToBase64Url(m.pub), "e" := ToBase64Url(m.eph),
        "n" := ToBase64Url(m.nonce), "s" := ToBase64Url(m.sig)]
  }

  lemma ParseKeyreqFields(m: Keyreq)
    ensures ParseFields(KeyreqWords(m)[2..], map[]) == Some(KeyreqFields(m))
  {
    hide ToBase64Url, ParseFields, Field;
    var p, e, n, s := ToBase64Url(m.pub), ToBase64Url(m.eph), ToBase64Url(m.nonce), ToBase64Url(m.sig);
    var r6 := [Field("s", s)] + [];
    var r5 := [Field("n", n)] + r6;
    var r4 := [Field("e", e)] + r5;
    var r3 := [Field("p", p)] + r4;
    var r2 := [Field("c", m.channel)] + r3;
    var f1 := map["v" := "1"];
    var f2 := f1["c" := m.channel];
    var f3 := f2["p" := p];
    var f4 := f3["e" := e];
    var f5 := f4["n" := n];
    assert KeyreqWords(m)[2..] == [Field("v", "1")] + r2;
    FieldsStep("v", "1", r2, map[]);
    FieldsStep("c", m.channel, r3, f1);
    FieldsStep("p", p, r4, f2);
    FieldsStep("e", e, r5, f3);
    FieldsStep("n", n, r6, f4);
    FieldsStep("s", s, [], f5);
    NoFields(f5["s" := s]);
  }

  lemma KeyreqWordsHaveNoSpace(m: Keyreq)
    requires NoSpace(m.channel)
    ensures forall w :: w in KeyreqWords(m) ==> w != "" && NoSpace(w)
  {
    hide BytesText;
    BytesTextHasNoSpace("p", m.pub);
    BytesTextHasNoSpace("e", m.eph);
    BytesTextHasNoSpace("n", m.nonce);
    BytesTextHasNoSpace("s", m.sig);
  }

  lemma KeyreqFieldsDecode(m: Keyreq)
    ensures var f := KeyreqFields(m);
            && "c" in f && f["c"] == m.channel
            && BytesField(f, "p") == Some(m.pub) && BytesField(f, "e") == Some(m.eph)
            && BytesField(f, "n") == Some(m.nonce) && BytesField(f, "s") == Some(m.sig)
  {
    hide ToBase64Url, FromBase64Url;
    Base64UrlRoundTrip(m.pub);
    Base64UrlRoundTrip(m.eph);
    Base64UrlRoundTrip(m.nonce);
    Base64UrlRoundTrip(m.sig);
  }

  function WrappedFields(m: Wrapped): map<string, string> {
    map["v" := "1", "c" := m.channel, "p" := ToBase64Url(m.pub), "e" := ToBase64Url(m.eph),
        "wn" := ToBase64Url(m.wrapNonce), "w" := ToBase64Url(m.wrapCt), "n" := ToBase64Url(m.nonce),
        "s" := ToBase64Url(m.sig)]
  }

  lemma ParseWrappedFields(kind: string, m: Wrapped)
    ensures ParseFields(WrappedWords(kind, m)[2..], map[]) == Some(WrappedFields(m))
  {
    hide ToBase64Url, ParseFields, Field;
    var p, e, wn := ToBase64Url(m.pub), ToBase64Url(m.eph), ToBase64Url(m.wrapNonce);
    var ct, n, s := ToBase64Url(m.wrapCt), ToBase64Url(m.nonce), ToBase64Url(m.sig);
    var r8 := [Field("s", s)] + [];
    var r7 := [Field("n", n)] + r8;
    var r6 := [Field("w", ct)] + r7;
    var r5 := [Field("wn", wn)] + r6;
    var r4 := [Field("e", e)] + r5;
    var r3 := [Field("p", p)] + r4;
    var r2 := [Field("c", m.channel)] + r3;
    var f1 := map["v" := "1"];
    var f2 := f1["c" := m.channel];
    var f3 := f2["p" := p];
    var f4 := f3["e" := e];
    var f5 := f4["wn" := wn];
    var f6 := f5["w" := ct];
    var f7 := f6["n" := n];
    assert WrappedWords(kind, m)[2..] == [Field("v", "1")] + r2;
    FieldsStep("v", "1", r2, map[]);
    FieldsStep("c", m.channel, r3, f1);
    FieldsStep("p", p, r4, f2);
    FieldsStep("e", e, r5, f3);
    FieldsStep("wn", wn, r6, f4);
    FieldsStep("w", ct, r7, f5);
    FieldsStep("n", n, r8, f6);
    FieldsStep("s", s, [], f7);
    NoFields(f7["s" := s]);
  }

  lemma WrappedWordsHaveNoSpace(kind: string, m: Wrapped)
    requires NoSpace(m.channel) && kind != "" && NoSpace(kind)
    ensures forall w :: w in WrappedWords(kind, m) ==> w != "" && NoSpace(w)
  {
    hide BytesText;
    BytesTextHasNoSpace("p", m.pub);
    BytesTextHasNoSpace("e", m.eph);
    BytesTextHasNoSpace("wn", m.wrapNonce);
    BytesTextHasNoSpace("w", m.wrapCt);
    BytesTextHasNoSpace("n", m.nonce);
    BytesTextHasNoSpace("s", m.sig);
  }

  lemma WrappedFieldsDecode(m: Wrapped)
    ensures var f := WrappedFields(m);
            && "c" in f && f["c"] == m.channel
            && BytesField(f, "p") == Some(m.pub) && BytesField(f, "e") == Some(m.eph)
            && BytesField(f, "wn") == Some(m.wrapNonce) && BytesField(f, "w") == Some(m.wrapCt)
            && BytesField(f, "n") == Some(m.nonce) && BytesField(f, "s") == Some(m.sig)
  {
    hide ToBase64Url, FromBase64Url;
    Base64UrlRoundTrip(m.pub);
    Base64UrlRoundTrip(m.eph);
    Base64UrlRoundTrip(m.wrapNonce);
    Base64UrlRoundTrip(m.wrapCt);
    Base64UrlRoundTrip(m.nonce);
    Base64UrlRoundTrip(m.sig);
  }

  // ----- a parsed context never holds whitespace -----

  lemma {:induction false} ParsedValuesHaveNoSpace(fields: seq<string>, found: map<string, string>)
    requires forall f :: f in fields ==> NoSpace(f)
    requires forall k | k in found :: NoSpace(found[k])
    requires ParseFields(fields, found).Some?
    ensures forall k | k in ParseFields(fields, found).value :: NoSpace(ParseFields(fields, found).value[k])
    decreases |fields|
  {
    hide IsPythonSpace;
    if fields != [] {
      assert fields[0] in fields && forall f :: f in fields[1..] ==> f in fields;
      var k := Find(fields[0], '=');
      assert NoSpace(fields[0][k..]);
      match SplitOnce(fields[0], '=')
      case None => ParsedValuesHaveNoSpace(fields[1..], found);
      case Some((key, value)) => ParsedValuesHaveNoSpace(fields[1..], found[key := value]);
    }
  }

  lemma BodyChannelHasNoSpace(body: string, kind: string, least: nat)
    requires BodyFields(body, kind, least).Some?
    ensures NoSpace(BodyFields(body, kind, least).value["c"])
  {
    hide ParseFields, NoSpace;
    var parts := Words(body);
    assert forall f :: f in parts[2..] ==> f in parts;
    ParsedValuesHaveNoSpace(parts[2..], map[]);
  }

  /** The parser recovers every field of a built KEYREQ exactly when its context has no whitespace. */
  lemma KeyreqRoundTrip(m: Keyreq)
    requires KeyreqSizes(m)
    ensures ParseKeyreq(KeyreqBody(m)) == Some(m) <==> NoSpace(m.channel)
  {
    hide ParseFields, BytesField, NoSpace, BodyFields, KeyreqWords, KeyreqFields;
    if NoSpace(m.channel) {
      ParseKeyreqFields(m);
      KeyreqWordsHaveNoSpace(m);
      KeyreqWordsShape(m);
      KeyreqFieldsDecode(m);
      KeyreqVersion(m);
      BodyOfWords(KeyreqWords(m), "KEYREQ", 7, KeyreqFields(m));
    }
    if BodyFields(KeyreqBody(m), "KEYREQ", 7).Some? {
      BodyChannelHasNoSpace(KeyreqBody(m), "KEYREQ", 7);
    }
  }

  lemma KeyreqVersion(m: Keyreq)
    ensures "v" in KeyreqFields(m) && KeyreqFields(m)["v"] == "1"
  {
  }

  lemma KeyreqWordsShape(m: Keyreq)
    ensures |KeyreqWords(m)| == 8 && KeyreqWords(m)[0] == CTCP_TAG && KeyreqWords(m)[1] == "KEYREQ"
  {
  }

  lemma WrappedBodyFields(kind: string, m: Wrapped)
    requires NoSpace(m.channel) && kind != "" && NoSpace(kind)
    ensures BodyFields(WrappedBody(kind, m), kind, 9) == Some(WrappedFields(m))
  {
    hide ParseFields, NoSpace, BodyFields, WrappedWords;
    ParseWrappedFields(kind, m);
    WrappedWordsHaveNoSpace(kind, m);
    WrappedWordsShape(kind, m);
    BodyOfWords(WrappedWords(kind, m), kind, 9, WrappedFields(m));
  }

  /** The same for KEYRSP and REKEY. */
  lemma WrappedRoundTrip(kind: string, m: Wrapped)
    requires WrappedSizes(m) && (kind == "KEYRSP" || kind == "REKEY")
    ensures ParseWrapped(kind, WrappedBody(kind, m)) == Some(m) <==> NoSpace(m.channel)
  {
    assert kind != "" && NoSpace(kind);
    hide BytesField, NoSpace, BodyFields, WrappedBody, WrappedFields;
    if NoSpace(m.channel) {
      WrappedBodyFields(kind, m);
      WrappedFieldsDecode(m);
    }
    if BodyFields(WrappedBody(kind, m), kind, 9).Some? {
      BodyChannelHasNoSpace(WrappedBody(kind, m), kind, 9);
    }
  }

  lemma WrappedWordsShape(kind: string, m: Wrapped)
    ensures |WrappedWords(kind, m)| == 10 && WrappedWords(kind, m)[0] == CTCP_TAG && WrappedWords(kind, m)[1] == kind
  {
  }
}
