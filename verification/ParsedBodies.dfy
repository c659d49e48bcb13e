/**
 * What the parsers of scripts/weechat/rpe2e.py let through, and what a signature over a parsed message says: nothing
 * malformed or ambiguous is accepted, and no two messages that differ have the same signed bytes.
 */
module ParsedBodies {
  import opened Wrappers
  import opened Text
  import opened Utf8
  import opened Codecs
  import opened Wires
  import opened Handshakes

  // ----- lines -----

  /** A parsed line is marked as one, is part p of t with 1 <= p <= t <= 16, and has a whole nonce. */
  lemma ParsedWireIs(line: string)
    requires ParseWire(line).Some?
    ensures var w := ParseWire(line).value;
            && 1 <= w.part <= w.total <= 16 && |w.nonce| == 24
            && "+RPE2E01 " <= line
  {
    hide FromHex, ParseInt, FromBase64;
    var parts := SplitAtMost(line, ' ', 4);
    var k := Find(line, ' ');
    assert parts[0] == line[..k] && k < |line|;
    assert line[..k + 1] == "+RPE2E01" + " ";
  }

  // ----- fields of a body -----

  /** The word gives this field this value. */
  predicate Gives(word: string, key: string, value: string) { '=' !in key && word == key + "=" + value }

  lemma GivesIff(word: string, key: string, value: string)
    ensures Gives(word, key, value) <==> SplitOnce(word, '=') == Some((key, value))
  {
    var k := Find(word, '=');
    if Gives(word, key, value) {
      assert word == key + ['='] + value;
      assert word[..|key|] == key && word[|key| + 1..] == value;
      FindFirst(word, '=', |key|);
    }
    if k < |word| {
      assert word == word[..k] + "=" + word[k + 1..];
    }
  }

  /** No field is given twice, nor one that is already found. */
  predicate Unambiguous(words: seq<string>, found: map<string, string>) {
    forall i | 0 <= i < |words| && SplitOnce(words[i], '=').Some? ::
      var key := SplitOnce(words[i], '=').value.0;
      key !in found && forall j | i < j < |words| && SplitOnce(words[j], '=').Some? ::
                         SplitOnce(words[j], '=').value.0 != key
  }

  lemma {:induction false} FieldsAre(words: seq<string>, found: map<string, string>, key: string, value: string)
    ensures ParseFields(words, found).Some? <==> Unambiguous(words, found)
    ensures ParseFields(words, found).Some? ==>
              var fields := ParseFields(words, found).value;
              key in fields && fields[key] == value <==>
              (key in found && found[key] == value) || exists i | 0 <= i < |words| :: Gives(words[i], key, value)
    decreases |words|
  {
    hide SplitOnce;
    if words != [] {
      var rest := words[1..];
      assert forall i | 0 <= i < |rest| :: rest[i] == words[i + 1];
      assert forall i | 0 < i < |words| :: words[i] == rest[i - 1];
      GivesIff(words[0], key, value);
      hide Gives;
      match SplitOnce(words[0], '=')
      case None =>
        FieldsAre(rest, found, key, value);
        FirstSaysNothing(words, found);
      case Some((k, v)) =>
        if k !in found {
          FieldsAre(rest, found[k := v], key, value);
          FirstSays(words, found, k, v);
          forall i | 0 <= i < |rest|
            ensures Gives(rest[i], key, value) <==> SplitOnce(rest[i], '=') == Some((key, value))
          {
            GivesIff(rest[i], key, value);
          }
        } else {
          assert !Unambiguous(words, found);
        }
    }
  }

  lemma FirstSaysNothing(words: seq<string>, found: map<string, string>)
    requires words != [] && SplitOnce(words[0], '=').None?
    ensures Unambiguous(words, found) <==> Unambiguous(words[1..], found)
  {
    hide SplitOnce;
    var rest := words[1..];
    assert forall i | 0 <= i < |rest| :: rest[i] == words[i + 1];
    assert forall i | 0 < i < |words| :: words[i] == rest[i - 1];
  }

  lemma FirstSays(words: seq<string>, found: map<string, string>, k: string, v: string)
    requires words != [] && SplitOnce(words[0], '=') == Some((k, v)) && k !in found
    ensures Unambiguous(words, found) <==> Unambiguous(words[1..], found[k := v])
  {
    hide SplitOnce;
    var rest := words[1..];
    assert forall i | 0 <= i < |rest| :: rest[i] == words[i + 1];
    assert forall i | 0 < i < |words| :: words[i] == rest[i - 1];
  }

  /** The words of a body give this field this value, and no other. */
  ghost predicate Says(words: seq<string>, key: string, value: string) {
    && (exists i | 2 <= i < |words| :: Gives(words[i], key, value))
    && forall i, other | 2 <= i < |words| && Gives(words[i], key, other) :: other == value
  }

  /** What the parsers ask of a body: tag, kind, version 1, and no field given twice. */
  ghost predicate InOrder(words: seq<string>, kind: string) {
    && |words| > 2 && words[0] == "RPEE2E" && words[1] == kind && Says(words, "v", "1")
    && Unambiguous(words[2..], map[])
  }

  lemma FieldSays(words: seq<string>, fields: map<string, string>, key: string)
    requires |words| > 2 && ParseFields(words[2..], map[]) == Some(fields) && key in fields
    ensures Says(words, key, fields[key])
  {
    hide ParseFields, Gives;
    var rest := words[2..];
    assert forall i | 0 <= i < |rest| :: rest[i] == words[i + 2];
    FieldsAre(rest, map[], key, fields[key]);
    var i :| 0 <= i < |rest| && Gives(rest[i], key, fields[key]);
    forall i, other | 2 <= i < |words| && Gives(words[i], key, other)
      ensures other == fields[key]
    {
      assert rest[i - 2] == words[i];
      FieldsAre(rest, map[], key, other);
    }
  }

  /** The field holds these bytes. */
  ghost predicate SaysBytes(words: seq<string>, key: string, bytes: Bytes) {
    exists value | Says(words, key, value) :: FromBase64Url(value) == Some(bytes)
  }

  lemma BytesSaid(words: seq<string>, fields: map<string, string>, key: string)
    requires |words| > 2 && ParseFields(words[2..], map[]) == Some(fields) && BytesField(fields, key).Some?
    ensures SaysBytes(words, key, BytesField(fields, key).value)
  {
    hide ParseFields, FromBase64Url, Says;
    FieldSays(words, fields, key);
  }

  /**
   * A body that parses as a KEYREQ is in order, gives each field of the message once, and its keys, nonce and signature
   * have their sizes.
   */
  lemma ParsedKeyreqIs(body: string)
    requires ParseKeyreq(body).Some?
    ensures var m, words := ParseKeyreq(body).value, Words(body);
            && InOrder(words, "KEYREQ") && Says(words, "c", m.channel)
            && SaysBytes(words, "p", m.pub) && SaysBytes(words, "e", m.eph) && SaysBytes(words, "n", m.nonce)
            && SaysBytes(words, "s", m.sig)
            && |m.pub| == 32 && |m.eph| == 32 && |m.nonce| == 16 && |m.sig| == 64
  {
    hide Words, ParseFields, Says, SaysBytes, BytesField, Unambiguous;
    var words, fields := Words(body), BodyFields(body, "KEYREQ", 7).value;
    FieldsAre(words[2..], map[], "v", "1");
    FieldSays(words, fields, "v");
    FieldSays(words, fields, "c");
    BytesSaid(words, fields, "p");
    BytesSaid(words, fields, "e");
    BytesSaid(words, fields, "n");
    BytesSaid(words, fields, "s");
  }

  /** The same for KEYRSP and REKEY. */
  lemma ParsedWrappedIs(kind: string, body: string)
    requires ParseWrapped(kind, body).Some?
    ensures var m, words := ParseWrapped(kind, body).value, Words(body);
            && InOrder(words, kind) && Says(words, "c", m.channel)
            && SaysBytes(words, "p", m.pub) && SaysBytes(words, "e", m.eph) && SaysBytes(words, "wn", m.wrapNonce)
            && SaysBytes(words, "w", m.wrapCt) && SaysBytes(words, "n", m.nonce) && SaysBytes(words, "s", m.sig)
            && |m.pub| == 32 && |m.eph| == 32 && |m.wrapNonce| == 24 && |m.nonce| == 16 && |m.sig| == 64
  {
    hide Words, ParseFields, Says, SaysBytes, BytesField, Unambiguous;
    var words, fields := Words(body), BodyFields(body, kind, 9).value;
    FieldsAre(words[2..], map[], "v", "1");
    FieldSays(words, fields, "v");
    FieldSays(words, fields, "c");
    BytesSaid(words, fields, "p");
    BytesSaid(words, fields, "e");
    BytesSaid(words, fields, "wn");
    BytesSaid(words, fields, "w");
    BytesSaid(words, fields, "n");
    BytesSaid(words, fields, "s");
  }

  // ----- what a signature covers -----

  lemma Suffixes(a: Bytes, s: Bytes, b: Bytes, t: Bytes)
    requires |s| == |t| && a + s == b + t
    ensures a == b && s == t
  {
    assert |a| == |b|;
    assert (a + s)[..|a|] == a && (b + t)[..|b|] == b && (a + s)[|a|..] == s && (b + t)[|b|..] == t;
  }

  lemma Prefixes(a: Bytes, s: Bytes, b: Bytes, t: Bytes)
    requires |a| == |b| && a + s == b + t
    ensures a == b && s == t
  {
    assert (a + s)[..|a|] == a && (b + t)[..|b|] == b && (a + s)[|a|..] == s && (b + t)[|b|..] == t;
  }

  /** A signature over a KEYREQ is one over its context, its keys and its nonce, all of them. */
  lemma KeyreqPayloadIsInjective(a: Keyreq, b: Keyreq)
    requires KeyreqSizes(a) && KeyreqSizes(b)
    requires KeyreqPayload(a.channel, a.pub, a.eph, a.nonce) == KeyreqPayload(b.channel, b.pub, b.eph, b.nonce)
    ensures a.channel == b.channel && a.pub == b.pub && a.eph == b.eph && a.nonce == b.nonce
  {
    hide Encode;
    var tag := Encode("KEYREQ:");
    var a1, b1 := tag + Encode(a.channel), tag + Encode(b.channel);
    var a2, b2 := a1 + COLON + a.pub, b1 + COLON + b.pub;
    var a3, b3 := a2 + COLON + a.eph, b2 + COLON + b.eph;
    Suffixes(a3 + COLON, a.nonce, b3 + COLON, b.nonce);
    Suffixes(a3, COLON, b3, COLON);
    Suffixes(a2 + COLON, a.eph, b2 + COLON, b.eph);
    Suffixes(a2, COLON, b2, COLON);
    Suffixes(a1 + COLON, a.pub, b1 + COLON, b.pub);
    Suffixes(a1, COLON, b1, COLON);
    Prefixes(tag, Encode(a.channel), tag, Encode(b.channel));
    EncodeIsInjective(a.channel, b.channel);
  }

  /**
   * And so for a KEYRSP or REKEY, of everything it carries, given wrapped keys of one length, which those of whole
   * session keys have.
   */
  lemma WrappedPayloadIsInjective(kind: string, a: Wrapped, b: Wrapped)
    requires WrappedSizes(a) && WrappedSizes(b) && |a.wrapCt| == |b.wrapCt|
    requires WrappedPayload(kind, a.channel, a.pub, a.eph, a.wrapNonce, a.wrapCt, a.nonce) ==
             WrappedPayload(kind, b.channel, b.pub, b.eph, b.wrapNonce, b.wrapCt, b.nonce)
    ensures a.channel == b.channel && a.pub == b.pub && a.eph == b.eph && a.wrapNonce == b.wrapNonce
    ensures a.wrapCt == b.wrapCt && a.nonce == b.nonce
  {
    hide Encode;
    var tag := Encode(kind + ":");
    var a1, b1 := tag + Encode(a.channel), tag + Encode(b.channel);
    var a2, b2 := a1 + COLON + a.pub, b1 + COLON + b.pub;
    var a3, b3 := a2 + COLON + a.eph, b2 + COLON + b.eph;
    var a4, b4 := a3 + COLON + a.wrapNonce, b3 + COLON + b.wrapNonce;
    var a5, b5 := a4 + COLON + a.wrapCt, b4 + COLON + b.wrapCt;
    Suffixes(a5 + COLON, a.nonce, b5 + COLON, b.nonce);
    Suffixes(a5, COLON, b5, COLON);
    Suffixes(a4 + COLON, a.wrapCt, b4 + COLON, b.wrapCt);
    Suffixes(a4, COLON, b4, COLON);
    Suffixes(a3 + COLON, a.wrapNonce, b3 + COLON, b.wrapNonce);
    Suffixes(a3, COLON, b3, COLON);
    Suffixes(a2 + COLON, a.eph, b2 + COLON, b.eph);
    Suffixes(a2, COLON, b2, COLON);
    Suffixes(a1 + COLON, a.pub, b1 + COLON, b.pub);
    Suffixes(a1, COLON, b1, COLON);
    Prefixes(tag, Encode(a.channel), tag, Encode(b.channel));
    EncodeIsInjective(a.channel, b.channel);
  }

  /** A signature over one kind of message is none over another. */
  lemma PayloadKindsDiffer(q: Keyreq, a: Wrapped, b: Wrapped)
    ensures var request := KeyreqPayload(q.channel, q.pub, q.eph, q.nonce);
            var answer := WrappedPayload("KEYRSP", a.channel, a.pub, a.eph, a.wrapNonce, a.wrapCt, a.nonce);
            var rekey := WrappedPayload("REKEY", b.channel, b.pub, b.eph, b.wrapNonce, b.wrapCt, b.nonce);
            request != answer && request != rekey && answer != rekey
  {
    KindBytes();
    hide Encode;
    var request := KeyreqPayload(q.channel, q.pub, q.eph, q.nonce);
    var answer := WrappedPayload("KEYRSP", a.channel, a.pub, a.eph, a.wrapNonce, a.wrapCt, a.nonce);
    var rekey := WrappedPayload("REKEY", b.channel, b.pub, b.eph, b.wrapNonce, b.wrapCt, b.nonce);
    assert request[0] == 'K' as int && request[4] == 'E' as int;
    assert answer[0] == 'K' as int && answer[4] == 'S' as int;
    assert rekey[0] == 'R' as int;
  }

  lemma KindBytes()
    ensures |Encode("KEYREQ:")| == 7 && Encode("KEYREQ:")[0] == 'K' as int && Encode("KEYREQ:")[4] == 'E' as int
    ensures |Encode("KEYRSP" + ":")| == 7
    ensures Encode("KEYRSP" + ":")[0] == 'K' as int && Encode("KEYRSP" + ":")[4] == 'S' as int
    ensures |Encode("REKEY" + ":")| == 6 && Encode("REKEY" + ":")[0] == 'R' as int
  {
    AsciiBytes("KEYREQ:");
    AsciiBytes("KEYRSP" + ":");
    AsciiBytes("REKEY" + ":");
  }

  lemma {:induction false} AsciiBytes(s: string)
    requires forall c | c in s :: c < '\U{80}'
    ensures |Encode(s)| == |s| && forall i | 0 <= i < |s| :: Encode(s)[i] == s[i] as int
  {
    if s != "" {
      assert s[0] in s && forall c | c in s[1..] :: c in s;
      AsciiBytes(s[1..]);
    }
  }
}
