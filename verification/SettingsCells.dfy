/**
 * The cells of the settings editor: what a cell that was written shows when it is read again, per kind of cell, and
 * which edits are refused.
 */
module SettingsCells {
  import opened Wrappers
  import opened Seqs
  import opened Text
  import opened Codecs
  import opened JsonValues
  import opened SettingsCollections
  import opened SettingsLaws

  /** Numbers print as they are known. */
  ghost predicate PrintsNumbers(show: Printer) { forall text :: show(Number(text)) == text }

  // ----- lists -----

  /** The texts of a list cell's lines. */
  function LineTexts(fields: seq<string>): (texts: seq<string>)
    ensures |texts| <= |fields|
  {
    if fields == [] then []
    else
      var ended := |fields| > 1 && EndsWith(fields[0], "\r");
      var text := if ended then fields[0][..|fields[0]| - 1] else fields[0];
      (if text == "" then [] else [text]) + LineTexts(fields[1..])
  }

  function Texts(texts: seq<string>): (items: seq<Json>)
    ensures |items| == |texts| && forall i | 0 <= i < |items| :: items[i] == Str(texts[i])
  {
    seq(|texts|, i requires 0 <= i < |texts| => Str(texts[i]))
  }

  lemma EndsInReturn(line: string)
    ensures EndsWith(line, "\r") <==> line != "" && line[|line| - 1] == '\r'
  {
    if line != "" {
      assert line[|line| - 1..] == [line[|line| - 1]];
    }
  }

  lemma TextsCons(text: string, texts: seq<string>, items: seq<Json>)
    requires items == Texts(texts) && Strings(items) == texts
    ensures [Str(text)] + items == Texts([text] + texts)
    ensures Strings([Str(text)] + items) == [text] + texts
  {
    assert ([Str(text)] + items)[1..] == items;
  }

  lemma {:induction false} LinesAre(fields: seq<string>)
    ensures Lines(fields) == Texts(LineTexts(fields)) && Strings(Lines(fields)) == LineTexts(fields)
  {
    if fields != [] {
      EndsInReturn(fields[0]);
      hide EndsWith, Strings;
      LinesAre(fields[1..]);
      var ended := |fields| > 1 && EndsWith(fields[0], "\r");
      var text := if ended then fields[0][..|fields[0]| - 1] else fields[0];
      TextsCons(text, LineTexts(fields[1..]), Lines(fields[1..]));
      EmptyConcat(Lines(fields[1..]));
      EmptyConcat(LineTexts(fields[1..]));
    }
  }

  /** No line is blank, and none but the last ends in a carriage return. */
  predicate CleanLines(fields: seq<string>) {
    forall i | 0 <= i < |fields| :: fields[i] != "" && (i + 1 < |fields| ==> !EndsWith(fields[i], "\r"))
  }

  /** Only clean lines are kept as they are. */
  lemma {:induction false} KeptIff(fields: seq<string>)
    ensures LineTexts(fields) == fields <==> CleanLines(fields)
  {
    if fields != [] {
      var rest := fields[1..];
      KeptIff(rest);
      assert forall i | 0 <= i < |rest| :: rest[i] == fields[i + 1];
      assert CleanLines(fields) <==>
             CleanLines(rest) && fields[0] != "" && (|fields| > 1 ==> !EndsWith(fields[0], "\r")) by {
        assert forall i | 0 < i < |fields| :: fields[i] == rest[i - 1];
      }
      if LineTexts(fields) == fields {
        assert |LineTexts(fields)| == |fields|;
        assert LineTexts(fields)[1..] == LineTexts(rest);
      }
    }
  }

  lemma {:induction false} TextsAreLines(fields: seq<string>, c: char)
    requires forall f | f in fields :: c !in f
    ensures forall t | t in LineTexts(fields) :: t != "" && c !in t
  {
    if fields != [] {
      assert fields[0] in fields && forall f | f in fields[1..] :: f in fields;
      TextsAreLines(fields[1..], c);
    }
  }

  /** What a list cell shows after it was written. */
  lemma ListShows(show: Printer, text: string)
    ensures CellValue(ListCell, text).Some?
    ensures var texts := LineTexts(Split(text, '\n'));
            && CellText(show, ListCell, CellValue(ListCell, text)) == Join(texts, "\n")
            && CellValue(ListCell, text) == Some(Arr(Texts(texts)))
  {
    LinesAre(Split(text, '\n'));
  }

  /**
   * A list reads back as it was typed exactly if no line is blank and none but the last ends in a carriage return; and
   * what it shows then stands for the same list exactly if no text in it but the last ends in one.
   */
  lemma ListReadsBackIff(show: Printer, text: string)
    requires text != ""
    ensures var again := CellText(show, ListCell, CellValue(ListCell, text));
            var texts := LineTexts(Split(text, '\n'));
            && (again == text <==> CleanLines(Split(text, '\n')))
            && (CellValue(ListCell, again) == CellValue(ListCell, text) <==> CleanLines(texts))
  {
    hide Split, Join, LineTexts;
    var fields := Split(text, '\n');
    var texts := LineTexts(fields);
    var again := CellText(show, ListCell, CellValue(ListCell, text));
    ListShows(show, text);
    KeptIff(fields);
    KeptIff(texts);
    JoinSplit(text, '\n');
    TextsAreLines(fields, '\n');
    if texts != [] {
      SplitJoin(texts, '\n');
      ListShows(show, again);
      assert Split(again, '\n') == texts;
      if CellValue(ListCell, again) == CellValue(ListCell, text) {
        assert Texts(LineTexts(texts)) == Texts(texts);
        SameTexts(LineTexts(texts), texts);
      }
    } else {
      NoTexts();
      ListShows(show, again);
      assert again == "";
      assert !CleanLines(fields) by {
        assert LineTexts(fields) != fields;
      }
    }
  }

  lemma SameTexts(a: seq<string>, b: seq<string>)
    requires Texts(a) == Texts(b)
    ensures a == b
  {
    assert |a| == |Texts(a)| == |b|;
    forall i | 0 <= i < |a|
      ensures a[i] == b[i]
    {
      assert Texts(a)[i] == Str(a[i]) && Texts(b)[i] == Str(b[i]);
    }
  }

  lemma NoTexts()
    ensures Join([], "\n") == "" && LineTexts(Split("", '\n')) == []
  {
    assert Split("", '\n') == [""] && [""][1..] == [];
  }

  // ----- every kind -----

  /** A number as the editor writes it. */
  ghost predicate StandsFor(text: string, n: nat) {
    n <= 0xFFFF_FFFF && exists sign: string, zeros: nat :: Writes(text, sign, zeros, n)
  }

  predicate Holds(kind: CellKind, text: string, value: Json) { CellValue(kind, text) == Some(value) }

  /**
   * What a written cell holds, and shows when it is read again: text, optional text and a choice as typed, an optional
   * text that is empty as none, a number without sign and leading zeros, a toggle as on or off. What it shows stands
   * for the same value.
   */
  lemma CellReadsBack(show: Printer, kind: CellKind, text: string)
    requires PrintsNumbers(show) && !kind.ListCell? && CellValue(kind, text).Some?
    ensures var again := CellText(show, kind, CellValue(kind, text));
            && CellValue(kind, again) == CellValue(kind, text)
            && match kind
               case NumberCell =>
                 exists n: nat :: StandsFor(text, n) && again == NatToDecimal(n) && Holds(kind, text, Number(again))
               case ToggleCell =>
                 again == (if text == "true" then "true" else "false") && Holds(kind, text, Bool(text == "true"))
               case SelectCell(options) => again == text && text in options && Holds(kind, text, Str(text))
               case OptionalTextCell => again == text && Holds(kind, text, if text == "" then Null else Str(text))
               case _ => again == text && Holds(kind, text, Str(text))
  {
    if kind.NumberCell? {
      hide NatToDecimal, Digits;
      var n := ParseUnsigned(text, U32_MAX).value;
      UnsignedIff(text, U32_MAX, n);
      DigitsOfDecimal(n);
      assert NatToDecimal(n)[0] in NatToDecimal(n);
    }
  }

  // ----- comma-separated settings -----

  /** A text that stands in a comma-separated setting as it is. */
  predicate Tidy(text: string) {
    text != "" && !IsWhite(text[0]) && !IsWhite(text[|text| - 1]) && ',' !in text
  }

  lemma {:induction false} TrimEndIs(s: string)
    ensures TrimEnd(s) != "" ==> !IsWhite(TrimEnd(s)[|TrimEnd(s)| - 1])
  {
    if s != "" && IsWhite(s[|s| - 1]) {
      TrimEndIs(s[..|s| - 1]);
    }
  }

  lemma {:induction false} PiecesAreTidy(fields: seq<string>)
    requires NoCommas(fields)
    ensures forall t | t in Pieces(fields) :: Tidy(t)
  {
    if fields != [] {
      assert fields[0] in fields && forall f | f in fields[1..] :: f in fields;
      PiecesAreTidy(fields[1..]);
      var text := Trim(fields[0]);
      TrimTwice(fields[0]);
      TrimStartIs(fields[0]);
      TrimEndIs(TrimStart(fields[0]));
      TrimEndTwice(TrimStart(fields[0]));
      assert text != "" ==> Tidy(text);
    }
  }

  lemma {:induction false} TidyPieces(texts: seq<string>)
    requires forall t | t in texts :: Tidy(t)
    ensures Pieces(texts) == texts && NoCommas(texts)
  {
    if texts != [] {
      assert texts[0] in texts && forall t | t in texts[1..] :: t in texts;
      TidyPieces(texts[1..]);
      assert Trim(texts[0]) == texts[0];
      assert texts == [texts[0]] + texts[1..];
    }
  }

  /**
   * Opening a comma-separated setting gives tidy texts, and every list of tidy texts can be given: written with commas
   * between them it opens to exactly these.
   */
  lemma DelimitedOpens(schema: Schema, raw: string, texts: seq<string>, parse: Parse)
    requires schema.delimited && !schema.keyed
    ensures var c := Opened(schema, raw, parse);
            c.Some? && forall row | row in c.value.rows :: row.key == "" && row.value.Str? && Tidy(row.value.s)
    ensures (forall t | t in texts :: Tidy(t)) ==>
              Opened(schema, Join(texts, ", "), parse) == Some(Collection(schema, TextRows(texts), false))
  {
    hide Split, Join, Tidy;
    var fields := Split(raw, ',');
    PiecesAreTidy(fields);
    if forall t | t in texts :: Tidy(t) {
      TidyPieces(texts);
      PiecesOfJoined(texts);
    }
    var rows := Opened(schema, raw, parse).value.rows;
    forall row | row in rows
      ensures row.key == "" && row.value.Str? && Tidy(row.value.s)
    {
      var i :| 0 <= i < |rows| && rows[i] == row;
      assert Pieces(fields)[i] in Pieces(fields);
    }
  }

  // ----- which edits are refused -----

  /** The name is not blank and no other row has it. */
  predicate GoodName(c: Collection, index: Option<nat>, key: string) {
    c.schema.keyed ==>
      (exists ch | ch in key :: !IsWhite(ch)) &&
      forall i | 0 <= i < |c.rows| && c.rows[i].key == key :: index == Some(i)
  }

  /** The text can stand in such a cell. */
  predicate Fits(kind: CellKind, text: string) {
    match kind
    case SelectCell(options) => text in options
    case NumberCell => ParseUnsigned(text, 0xFFFF_FFFF).Some?
    case _ => true
  }

  lemma {:induction false} EditSucceedsIff(
    columns: seq<Column>, cells: seq<string>, before: seq<string>, i: nat, value: Json)
    requires |cells| == |before| == |columns| && i <= |columns|
    ensures Edit(columns, cells, before, i, value).Some? <==>
            forall k | i <= k < |columns| && cells[k] != before[k] :: Fits(columns[k].kind, cells[k])
    decreases |columns| - i
  {
    hide SetCell, Edit;
    if i == |columns| {
      EditEnd(columns, cells, before, value);
    } else {
      EditStep(columns, cells, before, i, value);
      assert CellValue(columns[i].kind, cells[i]).Some? <==> Fits(columns[i].kind, cells[i]);
      hide CellValue, Fits;
      if cells[i] == before[i] {
        EditSucceedsIff(columns, cells, before, i + 1, value);
      } else if CellValue(columns[i].kind, cells[i]).Some? {
        EditSucceedsIff(columns, cells, before, i + 1,
          SetCell(value, columns[i].path, CellValue(columns[i].kind, cells[i]).value));
      }
    }
  }

  /**
   * An edit succeeds exactly if the name is not blank and no other row's, there is a cell for each column, the row to
   * edit is there, every changed cell fits its kind, and in a comma-separated setting the text has no comma and no line
   * break.
   */
  lemma UpdateSucceedsIff(show: Printer, c: Collection, index: Option<nat>, key: string, cells: seq<string>)
    requires c.schema.delimited ==> c.schema.columns == Columns(Whole())
    ensures var columns := c.schema.columns;
            var start := if index.Some? && index.value < |c.rows| then c.rows[index.value].value else c.schema.template;
            var before := Cells(show, columns, start);
            Updated(show, c, index, key, cells).Some? <==>
            && GoodName(c, index, key) && |cells| == |columns| && (index.Some? ==> index.value < |c.rows|)
            && (forall k | 0 <= k < |columns| && cells[k] != before[k] :: Fits(columns[k].kind, cells[k]))
            && (c.schema.delimited ==>
                if cells[0] == before[0] then !Separates(start) else ',' !in cells[0] && '\n' !in cells[0])
  {
    EditedIs(c, index);
    hide Edit, Cells, Edited, CellValue, BadName, Fits;
    TrimBlank(key);
    NameIff(c, index, key);
    var columns, start := c.schema.columns, Edited(c, index);
    if |cells| == |columns| {
      var before := Cells(show, columns, start);
      EditSucceedsIff(columns, cells, before, 0, start);
      if c.schema.delimited {
        EditOfWhole(columns, cells, before, start);
      }
    }
  }

  lemma NameIff(c: Collection, index: Option<nat>, key: string)
    ensures BadName(c, index, key) <==> !GoodName(c, index, key)
  {
    TrimBlank(key);
  }

  lemma EditOfWhole(columns: seq<Column>, cells: seq<string>, before: seq<string>, start: Json)
    requires columns == Columns(Whole()) && |cells| == |before| == |columns|
    ensures Edit(columns, cells, before, 0, start) == Some(if cells[0] == before[0] then start else Str(cells[0]))
  {
    hide Edit;
    EditStep(columns, cells, before, 0, start);
    EditEnd(columns, cells, before, start);
    EditEnd(columns, cells, before, Str(cells[0]));
  }
}
