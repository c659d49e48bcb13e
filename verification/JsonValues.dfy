/**
 * JSON values as the settings editor uses them: `Value::pointer` of serde_json, and `set_cell` of the settings
 * collection.
 */
module JsonValues {
  import opened Wrappers
  import opened Seqs
  import opened Text

  datatype Json =
    | Null
    | Bool(b: bool)
    /** A number, by the text it prints as. */
    | Number(text: string)
    | Str(s: string)
    | Arr(items: seq<Json>)
    | Obj(fields: map<string, Json>)

  // ----- reading -----

  const USIZE_MAX: nat := 0xFFFF_FFFF_FFFF_FFFF

  /** `parse_index`: no sign, no leading zero, and it fits a 64-bit word. */
  function ParseIndex(token: string): Option<nat> {
    if token == "" || token[0] == '+' || (token[0] == '0' && |token| != 1) then None
    else match Digits(token, 0)
      case Some(n) => if n <= USIZE_MAX then Some(n) else None
      case None => None
  }

  function Read(v: Json, tokens: seq<string>): Option<Json>
    decreases |tokens|
  {
    if tokens == [] then Some(v)
    else match v
      case Obj(fields) => if tokens[0] in fields then Read(fields[tokens[0]], tokens[1..]) else None
      case Arr(items) =>
        (match ParseIndex(tokens[0])
         case Some(i) => if i < |items| then Read(items[i], tokens[1..]) else None
         case None => None)
      case _ => None
  }

  /** `replace` of a two-character pattern. */
  function Replace(s: string, a: char, b: char, into: char): string {
    if |s| < 2 then s
    else if s[0] == a && s[1] == b then [into] + Replace(s[2..], a, b, into)
    else [s[0]] + Replace(s[1..], a, b, into)
  }

  /** A reference token of RFC 6901, section 4. */
  function Unescape(token: string): string { Replace(Replace(token, '~', '1', '/'), '~', '0', '~') }

  function UnescapeAll(tokens: seq<string>): (r: seq<string>)
    ensures |r| == |tokens| && forall i | 0 <= i < |r| :: r[i] == Unescape(tokens[i])
  {
    seq(|tokens|, i requires 0 <= i < |tokens| => Unescape(tokens[i]))
  }

  function Tokens(path: string): seq<string>
    requires path != ""
  {
    UnescapeAll(Split(path[1..], '/'))
  }

  /** `Value::pointer`. */
  function Pointer(v: Json, path: string): Option<Json> {
    if path == "" then Some(v)
    else if path[0] != '/' then None
    else Read(v, Tokens(path))
  }

  // ----- writing -----

  function TrimSlashes(path: string): string {
    if path != "" && path[0] == '/' then TrimSlashes(path[1..]) else path
  }

  function Keys(path: string): seq<string> { Split(TrimSlashes(path), '/') }

  function Fields(v: Json): map<string, Json> { if v.Obj? then v.fields else map[] }

  function ChildOf(v: Json, key: string): Json { if key in Fields(v) then Fields(v)[key] else Null }

  /** Write below a list of object keys; whatever is no object on the way becomes one. */
  function SetKeys(v: Json, keys: seq<string>, value: Json): Json
    decreases |keys|
  {
    if keys == [] then value else Obj(Fields(v)[keys[0] := SetKeys(ChildOf(v, keys[0]), keys[1..], value)])
  }

  /** What `set_cell` leaves. */
  function SetCell(v: Json, path: string, value: Json): Json {
    if path == "" then value else SetKeys(v, Keys(path), value)
  }

  // ----- well-formed paths -----

  predicate HasEscape(token: string) {
    exists i | 0 <= i < |token| - 1 :: token[i] == '~' && (token[i + 1] == '0' || token[i + 1] == '1')
  }

  /** The whole value, or one slash followed by keys none of which needs escaping. */
  predicate WellFormed(path: string) {
    path == "" ||
    (path[0] == '/' && (|path| > 1 ==> path[1] != '/') && forall t | t in Split(path[1..], '/') :: !HasEscape(t))
  }

  predicate Occurs(s: string, a: char, b: char) { exists i | 0 <= i < |s| - 1 :: s[i] == a && s[i + 1] == b }

  lemma {:induction false} ReplaceShrinks(s: string, a: char, b: char, into: char)
    requires a != b
    ensures |Replace(s, a, b, into)| <= |s|
    ensures Replace(s, a, b, into) == s <==> !Occurs(s, a, b)
    ensures Replace(s, a, b, into) == s <==> |Replace(s, a, b, into)| == |s|
    decreases |s|
  {
    if |s| >= 2 {
      if s[0] == a && s[1] == b {
        ReplaceShrinks(s[2..], a, b, into);
        assert Occurs(s, a, b);
      } else {
        ReplaceShrinks(s[1..], a, b, into);
        HeadTail(s);
        assert forall i | 0 <= i < |s| - 1 :: s[1..][i] == s[i + 1];
        if Occurs(s, a, b) {
          var i :| 0 <= i < |s| - 1 && s[i] == a && s[i + 1] == b;
          assert s[1..][i - 1] == a && s[1..][i] == b;
        }
        if Occurs(s[1..], a, b) {
          var i :| 0 <= i < |s[1..]| - 1 && s[1..][i] == a && s[1..][i + 1] == b;
          assert s[i + 1] == a && s[i + 2] == b;
        }
      }
    }
  }

  lemma UnescapeIs(token: string)
    ensures Unescape(token) == token <==> !HasEscape(token)
  {
    hide Replace;
    var once := Replace(token, '~', '1', '/');
    ReplaceShrinks(token, '~', '1', '/');
    ReplaceShrinks(once, '~', '0', '~');
    assert HasEscape(token) <==> Occurs(token, '~', '1') || Occurs(token, '~', '0');
  }

  lemma {:induction false} SplitSlashes(path: string)
    ensures |Split(path, '/')| == |Split(TrimSlashes(path), '/')| + (|path| - |TrimSlashes(path)|)
    ensures |TrimSlashes(path)| <= |path| && (path != "" && path[0] == '/' ==> |TrimSlashes(path)| < |path|)
    decreases |path|
  {
    if path != "" && path[0] == '/' {
      SplitField("", '/', path[1..]);
      assert "" + ['/'] + path[1..] == path;
      hide Split;
      SplitSlashes(path[1..]);
    }
  }

  /** The writer's keys are the reader's tokens exactly for well-formed paths. */
  lemma KeysAreTokens(path: string)
    requires path != "" && path[0] == '/'
    ensures Keys(path) == Tokens(path) <==> WellFormed(path)
  {
    hide Split, Unescape;
    var rest := path[1..];
    assert TrimSlashes(path) == TrimSlashes(rest);
    SplitSlashes(rest);
    var fields := Split(rest, '/');
    forall i | 0 <= i < |fields|
      ensures Unescape(fields[i]) == fields[i] <==> !HasEscape(fields[i])
    {
      UnescapeIs(fields[i]);
    }
    if rest == "" || rest[0] != '/' {
      assert Keys(path) == fields;
      assert Tokens(path) == fields <==> forall i | 0 <= i < |fields| :: Tokens(path)[i] == fields[i];
      assert forall t | t in fields :: exists i | 0 <= i < |fields| :: fields[i] == t;
    } else {
      assert |Keys(path)| < |fields| == |Tokens(path)|;
    }
  }

  // ----- the lens laws -----

  lemma {:induction false} ReadSetKeys(v: Json, keys: seq<string>, value: Json)
    ensures Read(SetKeys(v, keys, value), keys) == Some(value)
    decreases |keys|
  {
    if keys != [] {
      ReadSetKeys(ChildOf(v, keys[0]), keys[1..], value);
    }
  }

  /** What is written into nothing is found under its own keys only. */
  lemma {:induction false} ReadChain(keys: seq<string>, tokens: seq<string>, text: string)
    ensures Read(SetKeys(Null, keys, Str(text)), tokens) == Some(Str(text)) <==> tokens == keys
    decreases |keys|
  {
    if keys != [] {
      assert ChildOf(Null, keys[0]) == Null;
      if tokens != [] && tokens[0] == keys[0] {
        ReadChain(keys[1..], tokens[1..], text);
        HeadTail(keys);
        HeadTail(tokens);
      }
    }
  }

  /**
   * Writing and then reading gives back what was written, whatever the value was before: exactly for the well-formed
   * paths.
   */
  lemma WriteThenRead(path: string)
    ensures (forall v, value :: Pointer(SetCell(v, path, value), path) == Some(value)) <==> WellFormed(path)
  {
    hide Split, Tokens, Keys;
    if path != "" {
      if path[0] == '/' {
        KeysAreTokens(path);
        if Keys(path) == Tokens(path) {
          forall v, value
            ensures Pointer(SetCell(v, path, value), path) == Some(value)
          {
            ReadSetKeys(v, Keys(path), value);
          }
        } else {
          ReadChain(Keys(path), Tokens(path), "");
          assert Pointer(SetCell(Null, path, Str("")), path) != Some(Str(""));
        }
      } else {
        assert Pointer(SetCell(Null, path, Null), path) == None;
      }
    }
  }

  predicate Incomparable(a: seq<string>, b: seq<string>) { !(a <= b) && !(b <= a) }

  /** Writing below `keys` would replace an array that a reader of `tokens` passes through. */
  predicate ReplacesArray(v: Json, keys: seq<string>, tokens: seq<string>)
    decreases |keys|
  {
    keys != [] && tokens != [] &&
    (v.Arr? || (keys[0] == tokens[0] && v.Obj? && keys[0] in v.fields
      && ReplacesArray(v.fields[keys[0]], keys[1..], tokens[1..])))
  }

  lemma {:induction false} ReadElsewhere(v: Json, keys: seq<string>, tokens: seq<string>, value: Json)
    requires Incomparable(keys, tokens)
    ensures Read(SetKeys(v, keys, value), tokens) ==
            if ReplacesArray(v, keys, tokens) then None else Read(v, tokens)
    decreases |keys|
  {
    hide ParseIndex;
    assert keys != [] && tokens != [];
    HeadTail(keys);
    HeadTail(tokens);
    if keys[0] == tokens[0] {
      assert Incomparable(keys[1..], tokens[1..]);
      var child := ChildOf(v, keys[0]);
      ReadElsewhere(child, keys[1..], tokens[1..], value);
    }
  }

  /**
   * A path neither above nor below the written one reads as before, unless the write had to replace an array on the
   * way to it by an object: then it reads as nothing.
   */
  lemma WriteElsewhere(v: Json, path: string, other: string, value: Json)
    requires WellFormed(path) && WellFormed(other) && path != "" && other != ""
    requires Incomparable(Keys(path), Keys(other))
    ensures Pointer(SetCell(v, path, value), other) ==
            if ReplacesArray(v, Keys(path), Keys(other)) then None else Pointer(v, other)
  {
    KeysAreTokens(path);
    KeysAreTokens(other);
    hide Split, Tokens, Keys;
    ReadElsewhere(v, Keys(path), Keys(other), value);
  }

  /** A path without array indices never reads through an array, so other writes do not concern it at all. */
  lemma {:induction false} NamesSkipArrays(v: Json, keys: seq<string>, tokens: seq<string>)
    requires ReplacesArray(v, keys, tokens) && forall t | t in tokens :: ParseIndex(t) == None
    ensures Read(v, tokens) == None
    decreases |keys|
  {
    assert tokens[0] in tokens;
    if !v.Arr? {
      assert forall t | t in tokens[1..] :: t in tokens;
      NamesSkipArrays(v.fields[keys[0]], keys[1..], tokens[1..]);
    }
  }
}
