/** The string operations of Rust's and Python's standard libraries that the modelled code calls. */
module Text {
  import opened Wrappers

  predicate IsDigit(c: char) { '0' <= c <= '9' }

  predicate IsAsciiAlphabetic(c: char) { 'a' <= c <= 'z' || 'A' <= c <= 'Z' }

  predicate IsAsciiAlphanumeric(c: char) { IsAsciiAlphabetic(c) || IsDigit(c) }

  function ToAsciiLower(c: char): char {
    if 'A' <= c <= 'Z' then ((c as int) + 32) as char else c
  }

  function ToAsciiUpper(c: char): char {
    if 'a' <= c <= 'z' then ((c as int) - 32) as char else c
  }

  function AsciiLower(s: string): (r: string)
    ensures |r| == |s|
  {
    seq(|s|, i requires 0 <= i < |s| => ToAsciiLower(s[i]))
  }

  function AsciiUpper(s: string): (r: string)
    ensures |r| == |s|
  {
    seq(|s|, i requires 0 <= i < |s| => ToAsciiUpper(s[i]))
  }

  /** Unicode `White_Space`, which Rust's `trim` strips. */
  predicate IsWhite(c: char) {
    '\t' <= c <= '\r' || c == ' ' || c == '\U{85}' || c == '\U{A0}' || c == '\U{1680}' ||
    '\U{2000}' <= c <= '\U{200A}' || c == '\U{2028}' || c == '\U{2029}' || c == '\U{202F}' ||
    c == '\U{205F}' || c == '\U{3000}'
  }

  function TrimStart(s: string): string {
    if s != "" && IsWhite(s[0]) then TrimStart(s[1..]) else s
  }

  function TrimEnd(s: string): string {
    if s != "" && IsWhite(s[|s| - 1]) then TrimEnd(s[..|s| - 1]) else s
  }

  function Trim(s: string): string {
    TrimEnd(TrimStart(s))
  }

  lemma {:induction false} TrimEndTwice(s: string)
    ensures TrimEnd(TrimEnd(s)) == TrimEnd(s)
    ensures TrimEnd(s) <= s
  {
    if s != "" && IsWhite(s[|s| - 1]) {
      TrimEndTwice(s[..|s| - 1]);
    }
  }

  lemma {:induction false} TrimStartIs(s: string)
    ensures TrimStart(s) != "" ==> !IsWhite(TrimStart(s)[0])
    ensures forall c | c in TrimStart(s) :: c in s
  {
    if s != "" && IsWhite(s[0]) {
      TrimStartIs(s[1..]);
    }
  }

  lemma {:induction false} TrimStartBlank(s: string)
    ensures TrimStart(s) == "" <==> forall c | c in s :: IsWhite(c)
  {
    if s != "" && IsWhite(s[0]) {
      TrimStartBlank(s[1..]);
      assert s == [s[0]] + s[1..];
    }
  }

  lemma {:induction false} TrimEndBlank(s: string)
    ensures TrimEnd(s) == "" <==> forall c | c in s :: IsWhite(c)
  {
    if s != "" && IsWhite(s[|s| - 1]) {
      TrimEndBlank(s[..|s| - 1]);
      assert s == s[..|s| - 1] + [s[|s| - 1]];
    }
  }

  lemma TrimBlank(s: string)
    ensures Trim(s) == "" <==> forall c | c in s :: IsWhite(c)
  {
    TrimStartBlank(s);
    TrimStartIs(s);
    TrimEndBlank(TrimStart(s));
    if TrimStart(s) != "" {
      assert TrimStart(s)[0] in TrimStart(s);
    }
  }

  /** Index of the first `c`, or the length. */
  function Find(s: string, c: char): (k: nat)
    ensures k <= |s|
    ensures c !in s[..k]
    ensures k < |s| ==> s[k] == c
  {
    if s == "" || s[0] == c then 0 else 1 + Find(s[1..], c)
  }

  /** `split(c)`: the fields between occurrences of `c`, empty ones included. */
  function Split(s: string, c: char): (fields: seq<string>)
    ensures |fields| >= 1
    ensures forall f :: f in fields ==> c !in f
    decreases |s|
  {
    var k := Find(s, c);
    if k == |s| then [s] else [s[..k]] + Split(s[k + 1..], c)
  }

  function Join(fields: seq<string>, separator: string): string {
    if fields == [] then ""
    else if |fields| == 1 then fields[0]
    else fields[0] + separator + Join(fields[1..], separator)
  }

  /** `split_once(c)`. */
  function SplitOnce(s: string, c: char): Option<(string, string)> {
    var k := Find(s, c);
    if k == |s| then None else Some((s[..k], s[k + 1..]))
  }

  lemma FindFirst(s: string, c: char, k: nat)
    requires k <= |s| && c !in s[..k] && (k < |s| ==> s[k] == c)
    ensures Find(s, c) == k
  {
    var found := Find(s, c);
    assert forall i | 0 <= i < k :: s[i] == s[..k][i] != c;
    assert forall i | 0 <= i < found :: s[i] == s[..found][i] != c;
  }

  lemma SplitField(field: string, c: char, rest: string)
    requires c !in field
    ensures Split(field, c) == [field]
    ensures Split(field + [c] + rest, c) == [field] + Split(rest, c)
  {
    assert field[..|field|] == field;
    FindFirst(field, c, |field|);
    var s := field + [c] + rest;
    assert s[..|field|] == field && s[|field| + 1..] == rest;
    FindFirst(s, c, |field|);
  }

  /** Splitting a joined line gives the words back. */
  lemma {:induction false} SplitJoin(words: seq<string>, c: char)
    requires words != [] && forall w | w in words :: c !in w
    ensures Split(Join(words, [c]), c) == words
  {
    hide Split;
    assert words[0] in words;
    if |words| == 1 {
      SplitField(words[0], c, "");
      assert words == [words[0]];
    } else {
      var rest := words[1..];
      assert forall w | w in rest :: w in words;
      SplitJoin(rest, c);
      SplitField(words[0], c, Join(rest, [c]));
      assert words == [words[0]] + rest;
    }
  }

  /** Joining what was split gives the text back. */
  lemma {:induction false} JoinSplit(s: string, c: char)
    ensures Join(Split(s, c), [c]) == s
    decreases |s|
  {
    var k := Find(s, c);
    if k < |s| {
      JoinSplit(s[k + 1..], c);
      var rest := Split(s[k + 1..], c);
      assert ([s[..k]] + rest)[1..] == rest;
      assert s == s[..k] + [c] + s[k + 1..];
    }
  }

  /** The decimal value of digits, on top of those before them. */
  function Digits(s: string, value: nat): Option<nat> {
    if s == "" then Some(value)
    else if !IsDigit(s[0]) then None
    else Digits(s[1..], value * 10 + (s[0] as int - '0' as int))
  }

  /** `parse` of an unsigned number of at most `max`. */
  function ParseUnsigned(s: string, max: nat): Option<nat> {
    var digits := if s != "" && s[0] == '+' then s[1..] else s;
    if digits == "" then None
    else match Digits(digits, 0)
      case Some(n) => if n <= max then Some(n) else None
      case None => None
  }
}
