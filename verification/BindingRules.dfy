/**
 * Which bindings are valid, and what a key description keeps of its text: an action list of valid bindings is valid and
 * read back as they were written, lists nest eight deep, and components lose nothing but hyphens.
 */
module BindingRules {
  import opened Wrappers
  import opened Seqs
  import opened Text
  import opened Codecs
  import opened Matcher
  import opened KeyNames
  import opened Compiler

  // ----- single actions -----

  /** A decimal number of 64 bits, which may have a plus sign and zeros before it. */
  ghost predicate IsUsize(data: string) {
    exists sign: string, zeros: nat, n: nat | Writes(data, sign, zeros, n) :: n < 0x1_0000_0000_0000_0000
  }

  lemma {:induction false} DecimalIsDigits(s: string)
    requires forall c :: c in s ==> IsDigit(c)
    ensures Text.Digits(s, 0) == Some(DecimalValue(s))
  {
    if s != "" {
      var most, last := s[..|s| - 1], [s[|s| - 1]];
      assert s == most + last && last[1..] == "" && forall c :: c in most ==> c in s;
      DecimalIsDigits(most);
      DigitsConcat(most, last, 0);
    }
  }

  lemma {:induction false} DigitsAreDigits(s: string, value: nat)
    ensures Text.Digits(s, value).Some? <==> forall c :: c in s ==> IsDigit(c)
  {
    if s != "" {
      DigitsAreDigits(s[1..], value * 10 + if IsDigit(s[0]) then s[0] as int - '0' as int else 0);
      assert forall c :: c in s <==> c == s[0] || c in s[1..];
    }
  }

  lemma UsizeIff(data: string)
    ensures ParsesAsUsize(data) <==> IsUsize(data)
  {
    var digits := if data != "" && data[0] == '+' then data[1..] else data;
    DigitsAreDigits(digits, 0);
    if forall c :: c in digits ==> IsDigit(c) {
      DecimalIsDigits(digits);
    }
    assert ParsesAsUsize(data) <==> ParseUnsigned(data, U64_LIMIT - 1).Some?;
    hide ParsesAsUsize, ParseUnsigned, Writes;
    forall n: nat
      ensures ParseUnsigned(data, U64_LIMIT - 1) == Some(n) <==>
              n < U64_LIMIT && exists sign: string, zeros: nat :: Writes(data, sign, zeros, n)
    {
      UnsignedIff(data, U64_LIMIT - 1, n);
    }
    if IsUsize(data) {
      var sign: string, zeros: nat, n: nat :| Writes(data, sign, zeros, n) && n < 0x1_0000_0000_0000_0000;
      assert ParseUnsigned(data, U64_LIMIT - 1) == Some(n);
    }
    if ParseUnsigned(data, U64_LIMIT - 1).Some? {
      var n := ParseUnsigned(data, U64_LIMIT - 1).value;
      var sign: string, zeros: nat :| Writes(data, sign, zeros, n);
    }
  }

  /**
   * A single action is valid exactly if it is one of the program's and fits its kind: a named key has letters, digits
   * and underscores, a window a number, a command one line with something in it.
   */
  lemma ActionIsValidIff(b: Binding, depth: nat)
    requires b.action != "multi"
    ensures ValidBinding(b, depth) <==>
            && depth <= 8 && b.action in ACTIONS
            && (b.action == "key" ==>
                  b.data != ""
                  && forall c | c in b.data :: 'a' <= c <= 'z' || 'A' <= c <= 'Z' || '0' <= c <= '9' || c == '_')
            && (b.action == "change_window" ==> IsUsize(b.data))
            && (b.action == "command" ==>
                  (exists c | c in b.data :: !IsWhite(c)) && forall c | c in b.data :: c !in {'\r', '\n', '\0'})
  {
    UsizeIff(b.data);
    TrimBlank(b.data);
    hide ParsesAsUsize, IsUsize, Trim, MultiItem, Split;
  }

  // ----- action lists -----

  /** A binding that an action list can hold as it is. */
  predicate Listable(b: Binding) {
    && b.action != "" && (forall c | c in b.action :: 'a' <= c <= 'z' || c == '_') && ';' !in b.data
  }

  function Item(b: Binding): string { if b.data == "" then b.action else b.action + " " + b.data }

  function Items(bindings: seq<Binding>): (items: seq<string>)
    ensures |items| == |bindings| && forall i | 0 <= i < |items| :: items[i] == Item(bindings[i])
  {
    seq(|bindings|, i requires 0 <= i < |bindings| => Item(bindings[i]))
  }

  lemma ItemReads(b: Binding)
    requires Listable(b)
    ensures MultiItem(Item(b)) == b && ';' !in Item(b) && Item(b) != ""
  {
    var action := b.action;
    assert AsciiLower(action) == action by {
      forall i | 0 <= i < |action|
        ensures AsciiLower(action)[i] == action[i]
      {
        assert action[i] in action;
      }
    }
    assert action[0] in action && action[|action| - 1] in action;
    assert !IsWhite(action[0]) && !IsWhite(action[|action| - 1]);
    assert ' ' !in action && ';' !in action;
    if b.data == "" {
      assert TrimStart(action) == action && TrimEnd(action) == action;
      assert action[..|action|] == action;
      FindFirst(action, ' ', |action|);
    } else {
      var item := Item(b);
      assert item[0] == action[0];
      assert TrimStart(item) == item;
      assert item == action + [' '] + b.data;
      assert item[..|action|] == action && item[|action| + 1..] == b.data;
      FindFirst(item, ' ', |action|);
    }
  }

  lemma JoinIsSome(items: seq<string>)
    requires items != [] && items[0] != ""
    ensures Join(items, ";") != ""
  {
  }

  /** An action list is valid exactly if its bindings are, none of them names a key, and it is not nested too deep. */
  lemma ListIsValidIff(bindings: seq<Binding>, depth: nat)
    requires bindings != [] && forall b | b in bindings :: Listable(b)
    ensures ValidBinding(Binding("multi", Join(Items(bindings), ";")), depth) <==>
            depth <= 8 && forall b | b in bindings :: b.action != "key" && ValidBinding(b, depth + 1)
  {
    hide Listable, Item, MultiItem, Split, Join, ParsesAsUsize, Trim;
    var items := Items(bindings);
    forall i | 0 <= i < |items|
      ensures MultiItem(items[i]) == bindings[i] && ';' !in items[i] && items[i] != ""
    {
      assert bindings[i] in bindings;
      ItemReads(bindings[i]);
    }
    SplitJoin(items, ';');
    JoinIsSome(items);
    var list := Binding("multi", Join(items, ";"));
    assert Split(list.data, ';') == items;
    assert |list.action| == 5;
    ListIs(list, depth);
    hide ValidBinding;
    if depth <= 8 {
      forall b | b in bindings
        ensures exists item | item in items :: MultiItem(item) == b
      {
        var i :| 0 <= i < |bindings| && bindings[i] == b;
        assert items[i] in items;
      }
      forall item | item in items
        ensures MultiItem(item) in bindings
      {
        var i :| 0 <= i < |items| && items[i] == item;
      }
    }
  }

  lemma ListIs(list: Binding, depth: nat)
    requires list.action == "multi" && list.data != ""
    ensures ValidBinding(list, depth) <==>
            && depth <= 8
            && forall item :: item in Split(list.data, ';') ==>
                 MultiItem(item).action != "key" && ValidBinding(MultiItem(item), depth + 1)
  {
    hide MultiItem, Split, ParsesAsUsize, Trim;
    assert "multi" in ACTIONS;
    assert |"multi"| == 5 && |"key"| == 3 && |"change_window"| == 13 && |"command"| == 7;
  }

  /** A list of a list, and so on, n deep. */
  function Nested(n: nat): Binding {
    if n == 0 then Binding("nothing", "") else Binding("multi", Item(Nested(n - 1)))
  }

  lemma {:induction false} NestedIsListable(n: nat)
    ensures Listable(Nested(n))
  {
    if n > 0 {
      NestedIsListable(n - 1);
      assert ';' !in Nested(n - 1).action;
    }
  }

  lemma NestedIsNoKey(n: nat)
    ensures Nested(n).action != "key"
  {
    assert |"nothing"| == 7 && |"key"| == 3 && |"multi"| == 5;
  }

  lemma NothingIsValid(depth: nat)
    ensures ValidBinding(Binding("nothing", ""), depth) <==> depth <= 8
  {
    assert |"nothing"| == 7 && "nothing"[0] == 'n' && "command"[0] == 'c' && |"key"| == 3 && |"multi"| == 5;
    assert |"change_window"| == 13;
    assert "nothing" in ACTIONS;
  }

  lemma ListOfOne(inner: Binding, depth: nat)
    requires Listable(inner) && inner.action != "key"
    ensures ValidBinding(Binding("multi", Item(inner)), depth) <==> depth <= 8 && ValidBinding(inner, depth + 1)
  {
    hide ValidBinding, Listable, Item;
    assert Items([inner]) == [Item(inner)] && Join([Item(inner)], ";") == Item(inner);
    assert forall b | b in [inner] :: b == inner;
    ListIsValidIff([inner], depth);
    assert inner in [inner];
  }

  lemma {:induction false} NestedIsValidIff(n: nat, depth: nat)
    ensures ValidBinding(Nested(n), depth) <==> n + depth <= 8
    decreases n
  {
    hide ValidBinding, Listable, Item;
    if n == 0 {
      NothingIsValid(depth);
    } else {
      NestedIsListable(n - 1);
      NestedIsNoKey(n - 1);
      ListOfOne(Nested(n - 1), depth);
      NestedIsValidIff(n - 1, depth + 1);
    }
  }

  // ----- components -----

  /** The text without its hyphens. */
  function Letters(s: string): string {
    if s == "" then "" else (if s[0] == '-' then "" else [s[0]]) + Letters(s[1..])
  }

  lemma {:induction false} LettersConcat(s: string, t: string)
    ensures Letters(s + t) == Letters(s) + Letters(t)
  {
    if s == "" {
      assert s + t == t;
    } else {
      TailConcat(s, t);
      LettersConcat(s[1..], t);
      Associative(if s[0] == '-' then "" else [s[0]], Letters(s[1..]), Letters(t));
    }
  }

  function AllLetters(parts: seq<string>): string {
    if parts == [] then "" else Letters(parts[0]) + AllLetters(parts[1..])
  }

  lemma Taken(s: string, n: nat, rest: Option<seq<string>>)
    requires n <= |s| && rest.Some? && AllLetters(rest.value) == Letters(s[n..])
    ensures AllLetters(KeyNames.Prepend(s[..n], rest).value) == Letters(s)
  {
    LettersConcat(s[..n], s[n..]);
    assert s[..n] + s[n..] == s;
    assert ([s[..n]] + rest.value)[1..] == rest.value;
  }

  /** Components are the text of a key description, in order, without the hyphens between them. */
  lemma {:induction false} ComponentsKeepText(s: string, start: bool)
    requires ComponentsFrom(s, start).Some?
    ensures AllLetters(ComponentsFrom(s, start).value) == Letters(s)
    decreases |s|
  {
    hide NameLength;
    if s == "" {
    } else if s[0] == '-' {
      ComponentsKeepText(s[1..], !start);
      if start {
        assert s[..1] == "-";
        Taken(s, 1, ComponentsFrom(s[1..], false));
      }
    } else if s[0] == '^' {
      if |s| == 1 || s[1] == '-' {
        ComponentsKeepText(s[1..], false);
        assert s[..1] == "^";
        Taken(s, 1, ComponentsFrom(s[1..], false));
      } else {
        ComponentsKeepText(s[2..], false);
        Taken(s, 2, ComponentsFrom(s[2..], false));
      }
    } else if start && IsAsciiAlphabetic(s[0]) {
      var n := 1 + NameLength(s[1..]);
      ComponentsKeepText(s[n..], false);
      Taken(s, n, ComponentsFrom(s[n..], false));
    } else {
      ComponentsKeepText(s[1..], false);
      Taken(s, 1, ComponentsFrom(s[1..], false));
    }
  }

  /** A caret before something else than a hyphen or a control key. */
  predicate StrayCaret(s: string, i: nat) {
    i + 1 < |s| && s[i] == '^' && s[i + 1] != '-' && !('@' <= s[i + 1] <= '_') && s[i + 1] != '?'
  }

  /** Only a stray caret makes a key description unreadable. */
  lemma {:induction false} UnreadableHasStray(s: string, start: bool) returns (i: nat)
    requires ComponentsFrom(s, start).None?
    ensures StrayCaret(s, i)
    decreases |s|
  {
    hide NameLength;
    var n := if s[0] == '-' || (s[0] == '^' && (|s| == 1 || s[1] == '-')) then 1
             else if s[0] == '^' then 2
             else if start && IsAsciiAlphabetic(s[0]) then 1 + NameLength(s[1..]) else 1;
    if s[0] == '^' && |s| > 1 && s[1] != '-' && !KeyNames.IsControl(s[1]) {
      i := 0;
    } else {
      i := UnreadableHasStray(s[n..], s[0] == '-' && !start);
      i := i + n;
    }
  }
}
