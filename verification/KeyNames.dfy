/** Key descriptions and key tokens: `components` and `terminal_tokens` of shared/keybindings.rs. */
module KeyNames {
  import opened Wrappers
  import opened Text
  import opened Matcher

  const MAX_SEQUENCE: nat := 128

  // ----- components of a key description -----

  predicate IsNameChar(c: char) { IsAsciiAlphanumeric(c) || c == '_' }

  /** Length of the longest run of name characters at the front. */
  function NameLength(s: string): (n: nat)
    ensures n <= |s|
    ensures forall i | 0 <= i < n :: IsNameChar(s[i])
    ensures n < |s| ==> !IsNameChar(s[n])
  {
    if s == "" || !IsNameChar(s[0]) then 0 else 1 + NameLength(s[1..])
  }

  predicate IsControl(c: char) { '@' <= c <= '_' || c == '?' }

  function Prepend(part: string, rest: Option<seq<string>>): Option<seq<string>> {
    match rest
    case Some(parts) => Some([part] + parts)
    case None => None
  }

  /** The components of the rest of a key description; `start` is whether a new component may begin with `-`. */
  function ComponentsFrom(s: string, start: bool): Option<seq<string>>
    decreases |s|
  {
    if s == "" then Some([])
    else if s[0] == '-' then
      if start then Prepend("-", ComponentsFrom(s[1..], false)) else ComponentsFrom(s[1..], true)
    else if s[0] == '^' then
      if |s| == 1 || s[1] == '-' then Prepend("^", ComponentsFrom(s[1..], false))
      else if IsControl(s[1]) then Prepend(s[..2], ComponentsFrom(s[2..], false))
      else None
    else if start && IsAsciiAlphabetic(s[0]) then
      var n := 1 + NameLength(s[1..]);
      Prepend(s[..n], ComponentsFrom(s[n..], false))
    else Prepend(s[..1], ComponentsFrom(s[1..], false))
  }

  function Components(key: string): Option<seq<string>> {
    match ComponentsFrom(key, true)
    case Some(parts) => if parts == [] || |parts| > MAX_SEQUENCE then None else Some(parts)
    case None => None
  }

  ghost function Onto(done: seq<string>, rest: Option<seq<string>>): Option<seq<string>> {
    match rest
    case Some(parts) => Some(done + parts)
    case None => None
  }

  lemma OntoPrepend(done: seq<string>, part: string, rest: Option<seq<string>>)
    ensures Onto(done, Prepend(part, rest)) == Onto(done + [part], rest)
  {
    if rest.Some? {
      assert done + ([part] + rest.value) == (done + [part]) + rest.value;
    }
  }

  lemma OntoEnds(rest: Option<seq<string>>, done: seq<string>)
    ensures Onto([], rest) == rest && Onto(done, Some([])) == Some(done) && Onto(done, None) == None
  {
    if rest.Some? {
      assert [] + rest.value == rest.value;
    }
    assert done + [] == done;
  }

  lemma NameLengthIs(s: string, n: nat)
    requires n <= |s| && (forall i | 0 <= i < n :: IsNameChar(s[i])) && (n < |s| ==> !IsNameChar(s[n]))
    ensures NameLength(s) == n
  {
  }

  /** The inner scan of `components`: the end of the name that begins at `begin`. */
  method ScanName(key: string, begin: nat) returns (end: nat)
    requires begin < |key|
    ensures begin < end <= |key| && end - begin == 1 + NameLength(key[begin..][1..])
  {
    end := begin + 1;
    while end < |key| && IsNameChar(key[end])
      invariant begin < end <= |key|
      invariant forall k | begin < k < end :: IsNameChar(key[k])
    {
      end := end + 1;
    }
    NameLengthIs(key[begin..][1..], end - begin - 1);
  }

  method ParseComponents(key: string) returns (r: Option<seq<string>>)
    ensures r == Components(key)
  {
    hide Onto, Prepend, NameLength;
    var result: seq<string> := [];
    var i := 0;
    var start := true;
    assert key[0..] == key;
    OntoEnds(ComponentsFrom(key, true), []);
    while i < |key|
      invariant i <= |key|
      invariant ComponentsFrom(key, true) == Onto(result, ComponentsFrom(key[i..], start))
      decreases |key| - i
    {
      ghost var rest := key[i..];
      var ch := key[i];
      assert rest[1..] == key[i + 1..];
      if ch == '-' && start {
        OntoPrepend(result, "-", ComponentsFrom(key[i + 1..], false));
        result, start, i := result + ["-"], false, i + 1;
      } else if ch == '-' {
        start, i := true, i + 1;
      } else if ch == '^' {
        if i + 1 == |key| || key[i + 1] == '-' {
          OntoPrepend(result, "^", ComponentsFrom(key[i + 1..], false));
          result, start, i := result + ["^"], false, i + 1;
        } else if IsControl(key[i + 1]) {
          assert rest[..2] == key[i..i + 2] && rest[2..] == key[i + 2..];
          OntoPrepend(result, rest[..2], ComponentsFrom(key[i + 2..], false));
          result, start, i := result + [key[i..i + 2]], false, i + 2;
        } else {
          OntoEnds(None, result);
          return None;
        }
      } else if start && IsAsciiAlphabetic(ch) {
        var end := ScanName(key, i);
        assert rest[..end - i] == key[i..end] && rest[end - i..] == key[end..];
        OntoPrepend(result, key[i..end], ComponentsFrom(key[end..], false));
        result, start, i := result + [key[i..end]], false, end;
      } else {
        assert rest[..1] == [ch];
        OntoPrepend(result, [ch], ComponentsFrom(key[i + 1..], false));
        result, start, i := result + [[ch]], false, i + 1;
      }
    }
    assert key[i..] == "";
    OntoEnds(None, result);
    if |result| == 0 || |result| > MAX_SEQUENCE {
      return None;
    }
    r := Some(result);
  }

  // ----- what components returns -----

  predicate IsName(part: string) {
    part != "" && IsAsciiAlphabetic(part[0]) && forall i | 0 < i < |part| :: IsNameChar(part[i])
  }

  /** The components a key description can have: `-`, `^`, `^X`, a name, or one other character. */
  predicate IsComponent(part: string) {
    || IsName(part)
    || |part| == 1
    || (|part| == 2 && part[0] == '^' && IsControl(part[1]))
  }

  lemma {:induction false} ComponentsAreWellFormed(s: string, start: bool)
    requires ComponentsFrom(s, start).Some?
    ensures forall part :: part in ComponentsFrom(s, start).value ==> IsComponent(part)
    decreases |s|
  {
    if s == "" {
    } else if s[0] == '-' {
      ComponentsAreWellFormed(s[1..], !start);
    } else if s[0] == '^' {
      if |s| == 1 || s[1] == '-' {
        ComponentsAreWellFormed(s[1..], false);
      } else {
        ComponentsAreWellFormed(s[2..], false);
      }
    } else if start && IsAsciiAlphabetic(s[0]) {
      var n := 1 + NameLength(s[1..]);
      assert IsName(s[..n]);
      ComponentsAreWellFormed(s[n..], false);
    } else {
      ComponentsAreWellFormed(s[1..], false);
    }
  }

  /** Spelling components out with hyphens between them and parsing that gives the components back. */
  lemma {:induction false} ComponentsOfHyphenated(parts: seq<string>)
    requires parts != [] && forall part :: part in parts ==> IsComponent(part)
    ensures ComponentsFrom(Join(parts, "-"), true) == Some(parts)
  {
    var part := parts[0];
    if |parts| == 1 {
      ComponentThen(part, "");
      assert part + "" == part;
      assert [part] + [] == parts;
    } else {
      var tail := Join(parts[1..], "-");
      ComponentsOfHyphenated(parts[1..]);
      assert Join(parts, "-") == part + ("-" + tail);
      ComponentThen(part, "-" + tail);
      assert ("-" + tail)[1..] == tail;
      assert [part] + parts[1..] == parts;
    }
  }

  lemma NameThen(part: string, rest: string)
    requires IsName(part) && (rest == "" || rest[0] == '-')
    ensures ComponentsFrom(part + rest, true) == Prepend(part, ComponentsFrom(rest, false))
  {
    var s := part + rest;
    assert s[|part|..] == rest && s[..|part|] == part;
    assert s[1..] == part[1..] + rest;
    NameLengthIs(s[1..], |part| - 1);
    hide NameLength, IsNameChar;
    assert ComponentsFrom(s, true) == Prepend(s[..|part|], ComponentsFrom(s[|part|..], false));
  }

  lemma ComponentThen(part: string, rest: string)
    requires IsComponent(part) && (rest == "" || rest[0] == '-')
    ensures ComponentsFrom(part + rest, true) == Prepend(part, ComponentsFrom(rest, false))
  {
    var s := part + rest;
    assert s[|part|..] == rest && s[..|part|] == part;
    if IsName(part) {
      NameThen(part, rest);
    } else if |part| == 1 {
      assert s[1..] == rest && s[..1] == part == [s[0]];
    } else {
      assert s[2..] == rest && s[..2] == part;
    }
  }

  /** Parsing is idempotent: the components of any accepted key, hyphenated, are accepted with the same components. */
  lemma ComponentsRoundTrip(key: string)
    requires Components(key).Some?
    ensures Components(Join(Components(key).value, "-")) == Components(key)
  {
    ComponentsAreWellFormed(key, true);
    ComponentsOfHyphenated(Components(key).value);
  }

  // ----- terminal encodings -----

  /** The escape sequence a terminal sends for a named key, in caret notation. */
  function Encoding(name: string): Option<string> {
    match name
    case "left" => Some("^[[D")
    case "right" => Some("^[[C")
    case "up" => Some("^[[A")
    case "down" => Some("^[[B")
    case "home" => Some("^[[H")
    case "end" => Some("^[[F")
    case "prior" => Some("^[[5~")
    case "next" => Some("^[[6~")
    case "delete" => Some("^[[3~")
    case "stab" => Some("^[[Z")
    case "f1" => Some("^[OP")
    case "f2" => Some("^[OQ")
    case "f3" => Some("^[OR")
    case "f4" => Some("^[OS")
    case "f5" => Some("^[[15~")
    case "f6" => Some("^[[17~")
    case "f7" => Some("^[[18~")
    case "f8" => Some("^[[19~")
    case "f9" => Some("^[[20~")
    case "f10" => Some("^[[21~")
    case "f11" => Some("^[[23~")
    case "f12" => Some("^[[24~")
    case _ => None
  }

  function Singles(s: string): (r: seq<string>)
    ensures |r| == |s|
    ensures forall i | 0 <= i < |s| :: r[i] == [s[i]]
  {
    seq(|s|, i requires 0 <= i < |s| => [s[i]])
  }

  /** Parts that are not control keys fall apart into their characters. */
  function Characters(parts: seq<string>): seq<Token> {
    if parts == [] then []
    else (if parts[0] != "" && parts[0][0] == '^' then [parts[0]] else Singles(parts[0])) + Characters(parts[1..])
  }

  function TerminalTokens(name: string): seq<Token> {
    match Encoding(name)
    case Some(value) => Characters(Components(value).UnwrapOr([]))
    case None => [name]
  }

  lemma {:induction false} PlainCharacters(s: string)
    requires '-' !in s && '^' !in s
    ensures ComponentsFrom(s, false) == Some(Singles(s))
    ensures Characters(Singles(s)) == Singles(s)
  {
    if s != "" {
      assert forall c :: c in s[1..] ==> c in s;
      PlainCharacters(s[1..]);
      assert s[0] in s;
      assert s[..1] == [s[0]];
      assert Singles(s) == [[s[0]]] + Singles(s[1..]);
      assert Singles(s)[1..] == Singles(s[1..]);
      assert Singles([s[0]]) == [[s[0]]];
    }
  }

  lemma EscapeThenCharacters(value: string)
    requires 2 < |value| <= MAX_SEQUENCE && value[..2] == ESCAPE && '-' !in value[2..] && '^' !in value[2..]
    ensures Characters(Components(value).UnwrapOr([])) == [ESCAPE] + Singles(value[2..])
  {
    var rest := value[2..];
    PlainCharacters(rest);
    var parts := [ESCAPE] + Singles(rest);
    assert value[0] == value[..2][0] == '^' && value[1] == value[..2][1] == '[';
    assert ComponentsFrom(value, true) == Some(parts);
    assert parts[1..] == Singles(rest);
  }

  /** Every terminal encoding is the escape token followed by its remaining characters, one token each. */
  lemma TerminalTokensOfEncoded(name: string)
    ensures Encoding(name).None? ==> TerminalTokens(name) == [name]
    ensures Encoding(name).Some? ==>
              |Encoding(name).value| >= 2 &&
              TerminalTokens(name) == [ESCAPE] + Singles(Encoding(name).value[2..])
  {
    if Encoding(name).Some? {
      var value := Encoding(name).value;
      assert value[..2] == ESCAPE && |value| <= 6;
      assert '-' !in value[2..] && '^' !in value[2..];
      EscapeThenCharacters(value);
    }
  }
}
