/**
 * What a JSON pointer reads (sections 3 to 6 of RFC 6901): the pointer made of any names, escaped as they need, leads
 * through objects by these names and through arrays by their indices in decimal.
 */
module JsonPointers {
  import opened Wrappers
  import opened Seqs
  import opened Text
  import opened Codecs
  import opened JsonValues

  function EscapedChar(c: char): string { if c == '~' then "~0" else if c == '/' then "~1" else [c] }

  function Escaped(name: string): string {
    if name == "" then "" else EscapedChar(name[0]) + Escaped(name[1..])
  }

  function PointerTo(names: seq<string>): string {
    if names == [] then "" else "/" + Escaped(names[0]) + PointerTo(names[1..])
  }

  /** What lies at these names. */
  ghost function At(v: Json, names: seq<string>): Option<Json>
    decreases |names|
  {
    if names == [] then Some(v)
    else match v
      case Obj(fields) => if names[0] in fields then At(fields[names[0]], names[1..]) else None
      case Arr(items) =>
        if i: nat :| i < |items| && i < 0x1_0000_0000_0000_0000 && names[0] == NatToDecimal(i)
        then At(items[i], names[1..]) else None
      case _ => None
  }

  // ----- escapes -----

  /** Once the slashes are back. */
  function Halfway(name: string): string {
    if name == "" then "" else (if name[0] == '~' then "~0" else [name[0]]) + Halfway(name[1..])
  }

  lemma {:induction false} SlashesComeBack(name: string)
    ensures Replace(Escaped(name), '~', '1', '/') == Halfway(name)
    ensures '/' !in Escaped(name)
  {
    if name != "" {
      var rest := Escaped(name[1..]);
      SlashesComeBack(name[1..]);
      if name[0] == '~' {
        assert Escaped(name)[1..] == "0" + rest;
        assert ("0" + rest)[1..] == rest;
        ReplacePast('0', rest, '1', '/');
        assert Replace(Escaped(name), '~', '1', '/') == "~" + Replace("0" + rest, '~', '1', '/');
      } else if name[0] == '/' {
        assert Escaped(name)[2..] == rest;
      } else {
        assert Escaped(name)[1..] == rest;
        ReplacePast(name[0], rest, '1', '/');
      }
    }
  }

  lemma ReplacePast(c: char, rest: string, b: char, into: char)
    requires c != '~'
    ensures Replace([c] + rest, '~', b, into) == [c] + Replace(rest, '~', b, into)
  {
    assert ([c] + rest)[1..] == rest;
  }

  lemma {:induction false} TildesComeBack(name: string)
    ensures Replace(Halfway(name), '~', '0', '~') == name
  {
    if name != "" {
      var rest := Halfway(name[1..]);
      TildesComeBack(name[1..]);
      if name[0] == '~' {
        assert Halfway(name)[2..] == rest;
      } else {
        ReplacePast(name[0], rest, '0', '~');
      }
    }
  }

  /** Every name comes back from its escaped form. */
  lemma UnescapeEscaped(name: string)
    ensures Unescape(Escaped(name)) == name && '/' !in Escaped(name)
  {
    SlashesComeBack(name);
    TildesComeBack(name);
  }

  // ----- indices -----

  /** Exactly the decimals of 64-bit numbers are indices: no signs, no leading zeros. */
  lemma IndexIff(token: string, i: nat)
    ensures ParseIndex(token) == Some(i) <==> i < 0x1_0000_0000_0000_0000 && token == NatToDecimal(i)
  {
    hide NatToDecimal, Digits;
    if ParseIndex(token) == Some(i) {
      var zeros := DigitsAre(token, i);
      var number := if i == 0 then "" else NatToDecimal(i);
      if zeros > 0 {
        assert token[0] == '0' && |token| == 1;
        assert number == "";
        ZeroIs(token);
      } else {
        assert token == number;
      }
    }
    if i < 0x1_0000_0000_0000_0000 && token == NatToDecimal(i) {
      DigitsOfDecimal(i);
      NoLeadingZero(i);
      assert token[0] in token;
    }
  }

  lemma ZeroIs(token: string)
    requires |token| == 1 && token[0] == '0'
    ensures token == NatToDecimal(0)
  {
  }

  lemma {:induction false} NoLeadingZero(n: nat)
    ensures NatToDecimal(n)[0] == '0' ==> n == 0
    ensures n == 0 ==> |NatToDecimal(n)| == 1
  {
    if n >= 10 {
      NoLeadingZero(n / 10);
    }
  }

  // ----- the result -----

  lemma {:induction false} ReadIsAt(v: Json, names: seq<string>)
    ensures Read(v, names) == At(v, names)
    decreases |names|
  {
    hide ParseIndex, NatToDecimal;
    if names != [] {
      match v
      case Obj(fields) =>
        if names[0] in fields {
          ReadIsAt(fields[names[0]], names[1..]);
        }
      case Arr(items) =>
        forall i: nat
          ensures ParseIndex(names[0]) == Some(i) <==> i < 0x1_0000_0000_0000_0000 && names[0] == NatToDecimal(i)
        {
          IndexIff(names[0], i);
        }
        if ParseIndex(names[0]).Some? && ParseIndex(names[0]).value < |items| {
          ReadIsAt(items[ParseIndex(names[0]).value], names[1..]);
        }
      case _ =>
    }
  }

  function EscapedAll(names: seq<string>): seq<string> {
    if names == [] then [] else [Escaped(names[0])] + EscapedAll(names[1..])
  }

  lemma {:induction false} EscapedAllIs(names: seq<string>)
    ensures |EscapedAll(names)| == |names|
    ensures forall i | 0 <= i < |names| :: EscapedAll(names)[i] == Escaped(names[i])
  {
    hide Escaped;
    if names != [] {
      EscapedAllIs(names[1..]);
      var first, rest := [Escaped(names[0])], EscapedAll(names[1..]);
      forall i | 0 < i < |names|
        ensures (first + rest)[i] == Escaped(names[i])
      {
        assert (first + rest)[i] == rest[i - 1] && names[i] == names[1..][i - 1];
      }
    }
  }

  lemma SlashFirst(e: string, p: string)
    ensures ("/" + e + p)[0] == '/' && ("/" + e + p)[1..] == e + p
  {
  }

  lemma FirstOfPointer(names: seq<string>)
    requires names != []
    ensures PointerTo(names) != "" && PointerTo(names)[0] == '/'
    ensures PointerTo(names)[1..] == Escaped(names[0]) + PointerTo(names[1..])
  {
    SlashFirst(Escaped(names[0]), PointerTo(names[1..]));
    hide Escaped;
  }

  lemma {:induction false} PointerSplits(names: seq<string>)
    requires names != []
    ensures var path := PointerTo(names); path != "" && path[0] == '/' && Split(path[1..], '/') == EscapedAll(names)
    decreases |names|
  {
    FirstOfPointer(names);
    UnescapeEscaped(names[0]);
    hide Split, Escaped, PointerTo;
    var first, rest := Escaped(names[0]), names[1..];
    if rest == [] {
      LastOfPointer();
      SplitField(first, '/', "");
      EmptyConcat(first);
    } else {
      PointerSplits(rest);
      FirstOfPointer(rest);
      HeadTail(PointerTo(rest));
      var tail := PointerTo(rest)[1..];
      SplitField(first, '/', tail);
      Associative(first, ['/'], tail);
    }
  }

  lemma LastOfPointer()
    ensures PointerTo([]) == "" && EscapedAll([]) == []
  {
  }

  /** The pointer to any names reads what lies there. */
  lemma PointerReads(v: Json, names: seq<string>)
    ensures Pointer(v, PointerTo(names)) == At(v, names)
  {
    hide Read, At, Split, Escaped;
    ReadIsAt(v, names);
    if names != [] {
      PointerSplits(names);
      EscapedAllIs(names);
      var path := PointerTo(names);
      forall i | 0 <= i < |names|
        ensures Tokens(path)[i] == names[i]
      {
        UnescapeEscaped(names[i]);
      }
      assert Tokens(path) == names;
    } else {
      NothingIsWhole(v);
    }
  }

  lemma NothingIsWhole(v: Json)
    ensures At(v, []) == Some(v)
  {
  }
}
