/**
 * What a success rests on, in the words that were sent and received: which request a command line makes, which replies
 * confirm a creation or a deletion, and which rule a success out.
 */
module CertificateEvidence {
  import opened Wrappers
  import opened Text
  import opened Utf8
  import opened Certificates
  import opened CertificateRuns

  // ----- words, whatever their case -----

  predicate SameLetter(c: char, d: char) {
    c == d || ('A' <= c <= 'Z' && d as int == c as int + 32) || ('A' <= d <= 'Z' && c as int == d as int + 32)
  }

  predicate Alike(a: string, b: string) { |a| == |b| && forall i | 0 <= i < |a| :: SameLetter(a[i], b[i]) }

  predicate Sha512(s: string) {
    |s| == 128 && forall c | c in s :: '0' <= c <= '9' || 'a' <= c <= 'f' || 'A' <= c <= 'F'
  }

  lemma Folds(a: string, b: string)
    ensures AsciiLower(a) == AsciiLower(b) <==> Alike(a, b)
    ensures AsciiUpper(a) == AsciiUpper(b) <==> Alike(a, b)
  {
    if |a| == |b| {
      assert forall i | 0 <= i < |a| ::
          AsciiLower(a)[i] == ToAsciiLower(a[i]) && AsciiLower(b)[i] == ToAsciiLower(b[i]);
      assert forall i | 0 <= i < |a| ::
          AsciiUpper(a)[i] == ToAsciiUpper(a[i]) && AsciiUpper(b)[i] == ToAsciiUpper(b[i]);
    }
  }

  lemma FoldsTo(a: string, word: string)
    requires forall i | 0 <= i < |word| :: 'A' <= word[i] <= 'Z'
    ensures AsciiUpper(a) == word <==> Alike(a, word)
  {
    assert AsciiUpper(word) == word;
    Folds(a, word);
  }

  lemma AlikeIsTransitive(a: string, b: string, c: string)
    requires Alike(a, b) && Alike(b, c)
    ensures Alike(b, a) && Alike(a, c)
  {
    Folds(a, b);
    Folds(b, c);
    Folds(a, c);
    Folds(b, a);
  }

  // ----- replies -----

  /** The server sent a CLIENTCERT line. */
  predicate IsClientcert(m: Message) { !m.fromUser && m.command.Raw? && Alike(m.command.name, "CLIENTCERT") }

  /** `CLIENTCERT CREATE`. */
  predicate NamesPin(args: seq<string>) { |args| == 1 && Alike(args[0], "CREATE") }

  /** `CLIENTCERT DELETE` with this many arguments. */
  predicate NamesRemoval(args: seq<string>, count: nat) { |args| == 1 + count && Alike(args[0], "DELETE") }

  /** Replies that confirm the request: a deletion of one certificate only one that names this certificate. */
  predicate Confirms(request: Request, m: Message) {
    IsClientcert(m) && var args := m.command.args;
    match request
    case List => false
    case Create => NamesPin(args)
    case Delete(None) => NamesRemoval(args, 0) || (NamesRemoval(args, 1) && Sha512(args[1]))
    case Delete(Some(hash)) => NamesRemoval(args, 1) && Alike(args[1], hash)
  }

  /** A certificate list that begins, a failure, and every other CLIENTCERT line, but for a pin confirmed unasked. */
  predicate RulesOut(request: Request, m: Message) {
    !m.fromUser &&
    match m.command
    case Batch(reference, kind) =>
      reference != "" && reference[0] == '+' && kind.Some? && Alike(kind.value, "soju.im/client-cert")
    case Raw(name, args, _) =>
      || (Alike(name, "FAIL") && args != [] && Alike(args[0], "CLIENTCERT"))
      || (Alike(name, "CLIENTCERT") && !Confirms(request, m) && !NamesPin(args))
    case _ => false
  }

  lemma SameWords(a: string, b: string)
    ensures SameIgnoringCase(a, b) <==> Alike(a, b)
  {
    Folds(a, b);
  }

  /** A fingerprint that equals one but for its case is one. */
  lemma AlikeFingerprints(g: string, hash: string)
    requires Alike(g, hash) && Sha512(hash)
    ensures Sha512(g)
  {
    forall c | c in g
      ensures '0' <= c <= '9' || 'a' <= c <= 'f' || 'A' <= c <= 'F'
    {
      var i :| 0 <= i < |g| && g[i] == c;
      assert SameLetter(g[i], hash[i]) && hash[i] in hash;
    }
  }

  lemma AcknowledgesIff(request: Request, args: seq<string>)
    requires request.Delete? && request.hash.Some? ==> Sha512(request.hash.value)
    ensures Acknowledges(request, args) <==>
            match request
            case List => false
            case Create => NamesPin(args)
            case Delete(None) => NamesRemoval(args, 0) || (NamesRemoval(args, 1) && Sha512(args[1]))
            case Delete(Some(hash)) => NamesRemoval(args, 1) && Alike(args[1], hash)
  {
    if args != [] {
      FoldsTo(args[0], "CREATE");
      FoldsTo(args[0], "DELETE");
      if request.Delete? && request.hash.Some? && |args| == 2 {
        SameWords(request.hash.value, args[1]);
        if Alike(args[1], request.hash.value) || Alike(request.hash.value, args[1]) {
          Folds(args[1], request.hash.value);
          Folds(request.hash.value, args[1]);
          AlikeFingerprints(args[1], request.hash.value);
        }
      }
    }
  }

  lemma NamesOf(m: Message)
    requires m.command.Raw?
    ensures IsReply(m.command) <==> Alike(m.command.name, "CLIENTCERT")
    ensures FailsCertificates(m.command) <==>
            Alike(m.command.name, "FAIL") && m.command.args != [] && Alike(m.command.args[0], "CLIENTCERT")
    ensures forall request ::
              ConfirmsPin(m.command, Some(request)) <==>
              Alike(m.command.name, "CLIENTCERT") && NamesPin(m.command.args) && request != Create
  {
    SameWords(m.command.name, "CLIENTCERT");
    SameWords(m.command.name, "FAIL");
    if m.command.args != [] {
      SameWords(m.command.args[0], "CLIENTCERT");
      SameWords(m.command.args[0], "CREATE");
    }
    hide SameIgnoringCase, Alike;
  }

  lemma OpensIff(c: Command)
    ensures OpensList(c) <==> c.Batch? && c.reference != "" && c.reference[0] == '+' && c.kind.Some?
                              && Alike(c.kind.value, "soju.im/client-cert")
  {
    if c.Batch? && c.kind.Some? {
      SameWords(c.kind.value, CAP);
    }
  }

  /** What a message means for a creation or deletion. */
  lemma MeaningOfChange(request: Request, m: Message)
    requires request != List && (request.Delete? && request.hash.Some? ==> Sha512(request.hash.value))
    ensures Meaning(request, m) == Acknowledged <==> Confirms(request, m)
    ensures Meaning(request, m).Failure? || Meaning(request, m).Opened? <==> RulesOut(request, m)
  {
    hide Alike, Sha512, Acknowledges, OpensList, FailsCertificates, IsReply, ConfirmsPin, AsciiUpper;
    OpensIff(m.command);
    if m.command.Raw? {
      NamesOf(m);
      AcknowledgesIff(request, m.command.args);
      if m.command.args != [] {
        PinIsNoRemoval(m.command.args[0]);
      }
      FailIsOther(m.command.name);
    } else {
      OnlyRawIsReply(m.command);
    }
  }

  lemma PinIsNoRemoval(word: string)
    ensures !(Alike(word, "CREATE") && Alike(word, "DELETE"))
  {
    assert "CREATE"[0] == 'C' && "DELETE"[0] == 'D';
    assert Alike(word, "CREATE") ==> SameLetter(word[0], 'C');
    assert Alike(word, "DELETE") ==> SameLetter(word[0], 'D');
  }

  lemma OnlyRawIsReply(c: Command)
    requires !c.Raw?
    ensures !IsReply(c) && !FailsCertificates(c) && forall request :: !ConfirmsPin(c, Some(request))
  {
  }

  lemma FailIsOther(name: string)
    ensures !(Alike(name, "FAIL") && Alike(name, "CLIENTCERT"))
  {
    assert |"FAIL"| == 4 && |"CLIENTCERT"| == 10;
  }

  /** What a message means for a list: a row is a `CLIENTCERT LIST` line, well-formed if a fingerprint follows. */
  lemma MeaningOfList(m: Message)
    ensures var seen := Meaning(List, m);
            && (seen.Opened? || seen.Failure? <==> RulesOut(List, m) && !seen.Row?)
            && (seen.Row? <==> IsClientcert(m) && m.command.args != [] && Alike(m.command.args[0], "LIST"))
            && (seen.Row? ==> seen.tag == m.command.batchTag)
            && (seen.Row? ==> (seen.row.Some? <==> |m.command.args| > 1 && Sha512(m.command.args[1])))
            && (seen.Opened? ==> m.command.Batch? && m.command.reference == "+" + seen.batch)
            && (seen.Other? ==> m.command.Batch? && m.command.reference == seen.reference)
  {
    hide Alike, OpensList, FailsCertificates, IsReply, ConfirmsPin, AsciiUpper, EntryFields, Entries, TrimEnd;
    OpensIff(m.command);
    if m.command.Raw? {
      NamesOf(m);
      FailIsOther(m.command.name);
      if m.command.args != [] {
        FoldsTo(m.command.args[0], "LIST");
        ListIsNoPin(m.command.args[0]);
      }
    } else {
      OnlyRawIsReply(m.command);
    }
  }

  lemma ListIsNoPin(word: string)
    ensures !(Alike(word, "LIST") && Alike(word, "CREATE"))
  {
    assert |"LIST"| == 4 && |"CREATE"| == 6;
  }

  // ----- runs -----

  lemma {:induction false} RunConcat(ops: Operations, a: seq<Event>, b: seq<Event>)
    ensures Run(ops, a + b) == Run(Run(ops, a), b)
    decreases |a|
  {
    hide Step;
    if a == [] {
      assert a + b == b;
    } else {
      assert (a + b)[0] == a[0] && (a + b)[1..] == a[1..] + b;
      RunConcat(Step(ops, a[0]), a[1..], b);
    }
  }

  /** Some message that came for the connection confirms the request. */
  predicate Confirmed(events: seq<Event>, id: string, request: Request) {
    exists e | e in events :: e.Received? && e.id == id && Confirms(request, e.m)
  }

  /** No message rules the success out, and certificates were available at every tick. */
  predicate Clean(events: seq<Event>, id: string, request: Request) {
    forall e | e in events ::
      (e.Received? && e.id == id ==> !RulesOut(request, e.m)) && (e.Ticked? ==> id in e.connections)
  }

  /** The operation waits for the outcome of a creation or a deletion. */
  predicate Waits(ops: Operations, id: string) {
    && id in ops && ops[id].request != List && ops[id].batch.None?
    && (ops[id].request.Delete? && ops[id].request.hash.Some? ==> Sha512(ops[id].request.hash.value))
  }

  predicate AllQuiet(events: seq<Event>, id: string, nonce: string) {
    forall e | e in events :: !Releases(e, id, nonce)
  }

  lemma OneEvent(ops: Operations, id: string, e: Event)
    requires Waits(ops, id) && !Releases(e, id, ops[id].nonce)
    ensures var next := Step(ops, e);
            && (!next[id].failed ==> Waits(next, id))
            && id in next && next[id].request == ops[id].request && next[id].nonce == ops[id].nonce
            && (!next[id].failed <==> !ops[id].failed && Clean([e], id, ops[id].request))
            && (!next[id].failed ==>
                (next[id].acknowledged <==> ops[id].acknowledged || Confirmed([e], id, ops[id].request)))
  {
    hide ParseRequest, Handle, Meaning, Confirms, RulesOut, Sha512;
    StillWaits(ops, e, id);
    assert e in [e] && forall x | x in [e] :: x == e;
    if e.Received? {
      if e.id in ops {
        if Settles(e.m, ops[e.id].nonce) {
          Settled(ops, e.id, e.m, e.available);
        } else {
          HandleNotes(ops, e.id, e.m, e.available);
          if e.id == id {
            MeaningOfChange(ops[id].request, e.m);
            MeaningIsPossible(ops[id].request, e.m);
          }
        }
      } else {
        NobodyWaits(ops, e.id, e.m, e.available);
      }
    }
  }

  lemma {:induction false} FlagsSince(ops: Operations, events: seq<Event>, id: string)
    requires Waits(ops, id) && AllQuiet(events, id, ops[id].nonce)
    ensures var later := Run(ops, events);
            && id in later && later[id].request == ops[id].request && later[id].nonce == ops[id].nonce
            && (Done(later[id]) <==>
                !ops[id].failed && Clean(events, id, ops[id].request)
                && (ops[id].acknowledged || Confirmed(events, id, ops[id].request)))
    decreases |events|
  {
    hide Step, Confirms, RulesOut, Releases, Waits;
    if events != [] {
      var e, rest, next := events[0], events[1..], Step(ops, events[0]);
      assert e in events && (forall x | x in rest :: x in events) && forall x | x in events :: x == e || x in rest;
      WaitingIsHere(ops, id);
      assert !Releases(e, id, ops[id].nonce);
      OneEvent(ops, id, e);
      if next[id].failed {
        OneOutstanding(next, rest, id);
        FailedStays(next, rest, id);
      } else {
        FlagsSince(next, rest, id);
      }
    } else {
      WaitingIsHere(ops, id);
    }
  }

  lemma WaitingIsHere(ops: Operations, id: string)
    requires Waits(ops, id)
    ensures id in ops
  {
  }

  lemma {:induction false} FailedStays(ops: Operations, events: seq<Event>, id: string)
    requires id in ops && ops[id].failed && AllQuiet(events, id, ops[id].nonce)
    ensures id in Run(ops, events) && Run(ops, events)[id].failed
    decreases |events|
  {
    hide Step, Releases;
    if events != [] {
      assert events[0] in events && forall x | x in events[1..] :: x in events;
      OneFailed(ops, id, events[0]);
      FailedStays(Step(ops, events[0]), events[1..], id);
    }
  }

  lemma OneFailed(ops: Operations, id: string, e: Event)
    requires id in ops && ops[id].failed && !Releases(e, id, ops[id].nonce)
    ensures id in Step(ops, e) && Step(ops, e)[id].failed && Step(ops, e)[id].nonce == ops[id].nonce
  {
    hide ParseRequest, Handle, Meaning;
    StillWaits(ops, e, id);
    if e.Received? {
      if e.id in ops {
        if Settles(e.m, ops[e.id].nonce) {
          Settled(ops, e.id, e.m, e.available);
        } else {
          HandleNotes(ops, e.id, e.m, e.available);
        }
      } else {
        NobodyWaits(ops, e.id, e.m, e.available);
      }
    }
  }

  // ----- command lines -----

  /** `/bcert delete` of one certificate sends its fingerprint as it was typed, and waits for that certificate. */
  lemma DeletionIsSent(args: seq<string>)
    requires |args| == 2 && Alike(args[0], "delete") && Sha512(args[1])
    ensures ParseRequest(args).Some? && ParseRequest(args).value.1 == ["DELETE", args[1]]
    ensures var request := ParseRequest(args).value.0;
            request.Delete? && request.hash.Some? && Alike(request.hash.value, args[1])
  {
    SameWords(args[0], "list");
    SameWords(args[0], "create");
    SameWords(args[0], "delete");
    assert SameLetter(args[0][0], 'd') && |"list"| == 4 && "create"[0] == 'c';
    assert !Alike(args[0], "create");
    assert IsFingerprint(args[1]);
    assert AsciiUpper(AsciiUpper(args[1])) == AsciiUpper(args[1]);
    Folds(AsciiUpper(args[1]), args[1]);
    assert args[1..] == [args[1]];
    hide Alike, SameIgnoringCase, Sha512, IsFingerprint, AsciiUpper;
  }

  /**
   * `/bcert create` sends all its words, in order, as one name, exactly if the name has 1 to 64 bytes and no control
   * character.
   */
  lemma CreationIsSent(args: seq<string>)
    requires |args| > 1 && Alike(args[0], "create") && forall w | w in args :: ' ' !in w
    ensures var name := Join(args[1..], " ");
            && Split(name, ' ') == args[1..]
            && (ParseRequest(args).Some? <==>
                1 <= |Encode(name)| <= 64 && forall c | c in name :: !(c < ' ' || '\U{7F}' <= c <= '\U{9F}'))
            && (ParseRequest(args).Some? ==> ParseRequest(args).value == (Create, ["CREATE", name]))
  {
    SameWords(args[0], "list");
    SameWords(args[0], "create");
    SameWords(args[0], "delete");
    var rest := args[1..];
    assert forall w | w in rest :: w in args;
    SplitJoin(rest, ' ');
    var name := Join(rest, " ");
    NothingEncodes(name);
    hide Encode, Alike, SameIgnoringCase, Split, Join, IsFingerprint;
  }

  lemma NothingEncodes(name: string)
    ensures Encode(name) == [] <==> name == ""
  {
  }

  // ----- rows -----

  /** A character of a value as a server escapes it. */
  function EscapedChar(c: char): string {
    if c == ';' then "\\:" else if c == ' ' then "\\s" else if c == '\\' then "\\\\" else [c]
  }

  function Escaped(s: string): string { if s == "" then "" else EscapedChar(s[0]) + Escaped(s[1..]) }

  predicate Printable(s: string) { forall c | c in s :: !(c < ' ' || '\U{7F}' <= c <= '\U{9F}') }

  lemma CharacterReads(c: char, rest: string)
    requires Printable([c])
    ensures Attribute(EscapedChar(c) + rest) == [c] + Attribute(rest) && ';' !in EscapedChar(c)
  {
    assert [c][0] in [c];
    var text := EscapedChar(c) + rest;
    assert text[|EscapedChar(c)|..] == rest;
  }

  lemma {:induction false} AttributeReads(s: string)
    requires Printable(s)
    ensures Attribute(Escaped(s)) == s && ';' !in Escaped(s)
  {
    if s != "" {
      assert s[0] in s && forall c | c in s[1..] :: c in s;
      AttributeReads(s[1..]);
      CharacterReads(s[0], Escaped(s[1..]));
      hide Attribute, EscapedChar;
      assert [s[0]] + s[1..] == s;
    }
  }

  /** A field of a certificate. */
  datatype Field = Field(key: string, value: string)

  predicate Sendable(f: Field) { '=' !in f.key && ';' !in f.key && Printable(f.value) }

  function Sent(fields: seq<Field>): (entries: seq<string>)
    ensures |entries| == |fields|
    ensures forall i | 0 <= i < |fields| :: entries[i] == fields[i].key + ['='] + Escaped(fields[i].value)
  {
    seq(|fields|, i requires 0 <= i < |fields| => fields[i].key + ['='] + Escaped(fields[i].value))
  }

  /** The fields that are shown: the name, the time and the address. */
  function ShownFields(fields: seq<Field>): seq<string> {
    if fields == [] then []
    else
      (if fields[0].key in ["name", "time", "ip"] then [fields[0].key + "=" + fields[0].value] else [])
        + ShownFields(fields[1..])
  }

  lemma EntryReads(f: Field)
    requires Sendable(f)
    ensures var entry := f.key + ['='] + Escaped(f.value);
            && EntryField(entry) == (if f.key in ["name", "time", "ip"] then [f.key + "=" + f.value] else [])
            && ';' !in entry
  {
    var key, value := f.key, Escaped(f.value);
    AttributeReads(f.value);
    var entry := key + ['='] + value;
    assert entry[..|key|] == key && entry[|key| + 1..] == value;
    FindFirst(entry, '=', |key|);
    hide Attribute, Escaped;
  }

  lemma {:induction false} EntriesRead(fields: seq<Field>)
    requires forall f | f in fields :: Sendable(f)
    ensures EntryFields(Sent(fields)) == ShownFields(fields)
    ensures forall e | e in Sent(fields) :: ';' !in e
  {
    hide Escaped, EntryField;
    if fields != [] {
      assert fields[0] in fields && forall f | f in fields[1..] :: f in fields;
      EntriesRead(fields[1..]);
      assert Sent(fields) == [Sent(fields)[0]] + Sent(fields[1..]);
      EntryReads(fields[0]);
    }
  }

  /** A row shows what the server sent: the fingerprint and, in order, the fields that are shown, unescaped. */
  lemma RowReads(hash: string, fields: seq<Field>)
    requires Sha512(hash) && fields != [] && forall f | f in fields :: Sendable(f)
    ensures CertificateRow([hash, Join(Sent(fields), ";")]) ==
            Some(TrimEnd(AsciiUpper(hash) + " " + Join(ShownFields(fields), " ")))
  {
    EntriesRead(fields);
    SplitJoin(Sent(fields), ';');
    var args := [hash, Join(Sent(fields), ";")];
    hide Join, Split, EntryFields, Sent, ShownFields;
    assert args[1..] == [args[1]] && [args[1]][1..] == [];
    assert Entries(args[1..]) == Sent(fields) + [] == Sent(fields);
    assert IsFingerprint(hash);
  }

  // ----- the results -----

  /** What the user is told when a creation or a deletion is confirmed. */
  function SuccessOf(request: Request): Notice { if request == Create then PinnedNotice else RemovedNotice }

  /**
   * Whatever happened before a creation or deletion was asked for and whatever happens afterwards, at its PONG the
   * user is told of a success exactly if certificates are available then and were at every tick since, a reply since
   * confirms the request, and none since rules it out.
   */
  lemma ChangeIsToldIff(
    before: seq<Event>, id: string, args: seq<string>, nonce: string, now: int, after: seq<Event>, m: Message,
    available: bool)
    requires id !in Run(map[], before)
    requires ParseRequest(args).Some? && ParseRequest(args).value.0 != List
    requires AllQuiet(after, id, nonce) && Settles(m, nonce)
    ensures var request := ParseRequest(args).value.0;
            var asked := Commanded(id, args, true, true, nonce, now);
            var ops := Run(map[], before + [asked] + after);
            && Step(Run(map[], before), asked) == Run(map[], before)[id := Started(request, nonce, now)]
            && Handle(ops, id, m, available) ==
               Handled(ops - {id}, true,
                 [if available && Clean(after, id, request) && Confirmed(after, id, request) then SuccessOf(request)
                  else Incomplete])
  {
    hide Run, ParseRequest, Clean, Confirmed, Handle, Releases;
    var asked := Commanded(id, args, true, true, nonce, now);
    var start := Run(map[], before);
    RunConcat(map[], before + [asked], after);
    RunConcat(map[], before, [asked]);
    OneStep(start, asked);
    var ops := Step(start, asked);
    HashIsFingerprint(args);
    assert Waits(ops, id);
    FlagsSince(ops, after, id);
    Settled(Run(ops, after), id, m, available);
  }

  lemma OneStep(ops: Operations, e: Event)
    ensures Run(ops, [e]) == Step(ops, e)
  {
    assert [e][1..] == [];
  }

  lemma HashIsFingerprint(args: seq<string>)
    requires ParseRequest(args).Some?
    ensures var request := ParseRequest(args).value.0;
            request.Delete? && request.hash.Some? ==> Sha512(request.hash.value)
  {
    if |args| == 2 {
      Folds(AsciiUpper(args[1]), args[1]);
      assert AsciiUpper(AsciiUpper(args[1])) == AsciiUpper(args[1]);
      if IsFingerprint(args[1]) {
        AlikeFingerprints(AsciiUpper(args[1]), args[1]);
      }
    }
  }

  /**
   * So a certificate is never reported removed for a reply that names another one: whoever typed `delete` with a
   * fingerprint is told of a removal only after a `CLIENTCERT DELETE` line with the same fingerprint, and never after
   * one with another.
   */
  lemma RemovalNamesTheCertificate(
    before: seq<Event>, id: string, args: seq<string>, nonce: string, now: int, after: seq<Event>, m: Message,
    available: bool)
    requires id !in Run(map[], before) && |args| == 2 && Alike(args[0], "delete") && Sha512(args[1])
    requires AllQuiet(after, id, nonce) && Settles(m, nonce)
    requires var ops := Run(map[], before + [Commanded(id, args, true, true, nonce, now)] + after);
             RemovedNotice in Handle(ops, id, m, available).notices
    ensures exists e | e in after :: e.Received? && e.id == id && IsClientcert(e.m)
              && NamesRemoval(e.m.command.args, 1) && Alike(e.m.command.args[1], args[1])
    ensures forall e | e in after && e.Received? && e.id == id && IsClientcert(e.m)
              && NamesRemoval(e.m.command.args, 1) :: Alike(e.m.command.args[1], args[1])
  {
    DeletionIsSent(args);
    ChangeIsToldIff(before, id, args, nonce, now, after, m, available);
    var request := ParseRequest(args).value.0;
    hide ParseRequest, Handle, Run, Sha512, Settles, AllQuiet, Alike;
    var hash := request.hash.value;
    assert Clean(after, id, request) && Confirmed(after, id, request);
    forall e | e in after && e.Received? && e.id == id && IsClientcert(e.m) && NamesRemoval(e.m.command.args, 1)
      ensures Alike(e.m.command.args[1], hash) && Alike(e.m.command.args[1], args[1])
    {
      assert !RulesOut(request, e.m);
      AlikeIsTransitive(e.m.command.args[1], hash, args[1]);
    }
  }

  // ----- timing out -----

  /** Some tick found the operation waiting for more than 30 seconds. */
  predicate TooLate(events: seq<Event>, started: int) {
    exists e | e in events :: e.Ticked? && e.now - started > 30
  }

  lemma OneTick(ops: Operations, id: string, e: Event)
    requires id in ops && !Releases(e, id, ops[id].nonce)
    ensures var next := Step(ops, e);
            && id in next && next[id].nonce == ops[id].nonce && next[id].started == ops[id].started
            && (next[id].timedOut <==> ops[id].timedOut || TooLate([e], ops[id].started))
  {
    hide ParseRequest, Handle, Meaning;
    StillWaits(ops, e, id);
    assert e in [e] && forall x | x in [e] :: x == e;
    if e.Received? {
      if e.id in ops {
        if Settles(e.m, ops[e.id].nonce) {
          Settled(ops, e.id, e.m, e.available);
        } else {
          HandleNotes(ops, e.id, e.m, e.available);
        }
      } else {
        NobodyWaits(ops, e.id, e.m, e.available);
      }
    }
  }

  /** An operation counts as timed out exactly once a tick has found it waiting for more than 30 seconds. */
  lemma {:induction false} TimesOutIff(ops: Operations, events: seq<Event>, id: string)
    requires id in ops && AllQuiet(events, id, ops[id].nonce)
    ensures var later := Run(ops, events);
            id in later && (later[id].timedOut <==> ops[id].timedOut || TooLate(events, ops[id].started))
    decreases |events|
  {
    hide Step, Releases;
    if events != [] {
      var e, rest := events[0], events[1..];
      assert e in events && (forall x | x in rest :: x in events) && forall x | x in events :: x == e || x in rest;
      OneTick(ops, id, e);
      TimesOutIff(Step(ops, e), rest, id);
    }
  }
}
