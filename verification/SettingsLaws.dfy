/**
 * What the settings editor guarantees: an edit changes the edited columns of one row and nothing else, names stay
 * distinct so that writing back merges no rows, and what is written back opens to the same rows.
 */
module SettingsLaws {
  import opened Wrappers
  import opened Seqs
  import opened Text
  import opened JsonValues
  import opened SettingsCollections
  import KeyOrder

  // ----- distinct names -----

  predicate DistinctKeys(rows: seq<Row>) { forall i, j | 0 <= i < j < |rows| :: rows[i].key != rows[j].key }

  predicate KeysHold(c: Collection) { c.schema.keyed ==> DistinctKeys(c.rows) }

  lemma OpenedKeysHold(schema: Schema, raw: string, parse: Parse)
    requires Opened(schema, raw, parse).Some?
    ensures KeysHold(Opened(schema, raw, parse).value)
  {
    if !schema.delimited && schema.keyed && parse(raw).value.Obj? {
      AscendingIsDistinct(KeyOrder.InOrder(parse(raw).value.fields.Keys));
    }
  }

  lemma AscendingIsDistinct(keys: seq<string>)
    requires KeyOrder.Ascending(keys)
    ensures forall i, j | 0 <= i < j < |keys| :: keys[i] != keys[j]
  {
    forall i, j | 0 <= i < j < |keys|
      ensures keys[i] != keys[j]
    {
      KeyOrder.BeforeIsAsymmetric(keys[i], keys[j]);
    }
  }

  /** An edit keeps names distinct. */
  lemma UpdateKeepsKeys(show: Printer, c: Collection, index: Option<nat>, key: string, cells: seq<string>)
    requires KeysHold(c) && Updated(show, c, index, key, cells).Some?
    ensures KeysHold(Updated(show, c, index, key, cells).value)
  {
    hide Edit, Cells, Edited, Separates;
  }

  lemma {:induction false} RowMapHas(rows: seq<Row>)
    requires DistinctKeys(rows)
    ensures forall i | 0 <= i < |rows| :: rows[i].key in RowMap(rows) && RowMap(rows)[rows[i].key] == rows[i].value
  {
    if rows != [] {
      var most := rows[..|rows| - 1];
      assert forall i | 0 <= i < |most| :: most[i] == rows[i];
      RowMapHas(most);
    }
  }

  lemma {:induction false} RowMapOnly(rows: seq<Row>, key: string) returns (i: nat)
    requires key in RowMap(rows)
    ensures i < |rows| && rows[i].key == key
  {
    var most := rows[..|rows| - 1];
    if rows[|rows| - 1].key == key {
      i := |rows| - 1;
    } else {
      i := RowMapOnly(most, key);
    }
  }

  lemma {:induction false} RowMapSize(rows: seq<Row>)
    requires DistinctKeys(rows)
    ensures |RowMap(rows)| == |rows|
  {
    if rows != [] {
      var most, key := rows[..|rows| - 1], rows[|rows| - 1].key;
      RowMapSize(most);
      if key in RowMap(most) {
        var i := RowMapOnly(most, key);
      }
      assert RowMap(rows).Keys == RowMap(most).Keys + {key};
    }
  }

  lemma RowMapIs(rows: seq<Row>)
    requires DistinctKeys(rows)
    ensures |RowMap(rows)| == |rows|
    ensures forall row: Row :: row in rows <==> row.key in RowMap(rows) && RowMap(rows)[row.key] == row.value
  {
    hide RowMap;
    RowMapSize(rows);
    RowMapHas(rows);
    forall row: Row | row.key in RowMap(rows) && RowMap(rows)[row.key] == row.value
      ensures row in rows
    {
      var i := RowMapOnly(rows, row.key);
      assert rows[i] == row;
    }
  }

  /** The value that is printed when a collection is written back. */
  function WrittenValue(c: Collection): Json {
    if c.inherited then Null else if c.schema.keyed then Obj(RowMap(c.rows)) else Arr(Values(c.rows))
  }

  /**
   * Writing back loses and merges nothing, provided that the one text written parses back to the value it was printed
   * from: a table opens to the same rows, in key order; a list to the same values, in the same order. Only a setting
   * that is inherited opens without the rows it may have had, inherited again.
   */
  lemma WriteBackRoundTrip(show: Printer, parse: Parse, c: Collection)
    requires KeysHold(c) && (c.inherited ==> c.schema.optional) && !c.schema.delimited
    requires parse(Serialized(show, c)) == Some(WrittenValue(c))
    ensures Reopens(c, Opened(c.schema, Serialized(show, c), parse))
  {
    if c.schema.keyed && !c.inherited {
      TableReopens(c.rows);
      assert Opened(c.schema, Serialized(show, c), parse) ==
             Some(Collection(c.schema, FieldRows(RowMap(c.rows)), false));
      hide RowMap, DistinctKeys, FieldRows;
    }
  }

  /** What `c` opens to again: its rows, or none if it is inherited. */
  ghost predicate Reopens(c: Collection, again: Option<Collection>) {
    && again.Some? && again.value.schema == c.schema && again.value.inherited == c.inherited
    && (if c.inherited then again.value.rows == []
        else if c.schema.keyed then
          && |again.value.rows| == |c.rows| && (forall row :: row in again.value.rows <==> row in c.rows)
          && KeyOrder.Ascending(RowKeys(again.value.rows))
        else |again.value.rows| == |c.rows| && Values(again.value.rows) == Values(c.rows))
  }

  lemma TableReopens(rows: seq<Row>)
    requires DistinctKeys(rows)
    ensures var again := FieldRows(RowMap(rows));
            && |again| == |rows| && KeyOrder.Ascending(RowKeys(again)) && forall row :: row in again <==> row in rows
  {
    RowMapIs(rows);
    hide RowMap, DistinctKeys;
    FieldRowsAre(RowMap(rows));
    forall row: Row
      ensures row in FieldRows(RowMap(rows)) <==> row in rows
    {
    }
  }

  lemma FieldRowsAre(fields: map<string, Json>)
    ensures var rows := FieldRows(fields);
            && |rows| == |fields| && KeyOrder.Ascending(RowKeys(rows))
            && forall row :: row in rows <==> row.key in fields && fields[row.key] == row.value
  {
    var rows := FieldRows(fields);
    var order := KeyOrder.InOrder(fields.Keys);
    AscendingIsDistinct(order);
    OrderLength(order, fields.Keys);
    assert RowKeys(rows) == order;
    hide KeyOrder.Ascending;
    forall row
      ensures row in rows <==> row.key in fields && fields[row.key] == row.value
    {
      if row.key in fields {
        assert row.key in order;
        var i :| 0 <= i < |order| && order[i] == row.key;
        assert rows[i] == Row(row.key, fields[row.key]);
      }
    }
  }

  function RowKeys(rows: seq<Row>): (keys: seq<string>)
    ensures |keys| == |rows| && forall i | 0 <= i < |keys| :: keys[i] == rows[i].key
  {
    seq(|rows|, i requires 0 <= i < |rows| => rows[i].key)
  }

  lemma {:induction false} OrderLength(order: seq<string>, keys: set<string>)
    requires (forall i, j | 0 <= i < j < |order| :: order[i] != order[j]) && forall key :: key in order <==> key in keys
    ensures |order| == |keys|
    decreases |order|
  {
    if order == [] {
      assert keys == {};
    } else {
      var rest := order[1..];
      assert forall i | 0 <= i < |rest| :: rest[i] == order[i + 1];
      assert order[0] in keys && forall key | key in order :: key == order[0] || key in rest;
      assert forall key | key in rest :: key in order;
      OrderLength(rest, keys - {order[0]});
    }
  }

  // ----- comma-separated settings -----

  lemma {:induction false} TrimStartSpace(s: string)
    ensures TrimStart([' '] + s) == TrimStart(s)
  {
    assert ([' '] + s)[1..] == s;
  }

  lemma PieceSkipsSpace(field: string)
    ensures Piece([' '] + field) == Piece(field)
  {
    TrimStartSpace(field);
  }

  /** A space before the first field makes no difference. */
  lemma PiecesSkipSpace(s: string)
    ensures Pieces(Split([' '] + s, ',')) == Pieces(Split(s, ','))
  {
    hide Piece;
    var k := Find(s, ',');
    var spaced := [' '] + s;
    assert spaced[1..] == s;
    assert Find(spaced, ',') == k + 1;
    assert spaced[..k + 1] == [' '] + s[..k];
    PieceSkipsSpace(s[..k]);
    if k < |s| {
      assert spaced[k + 2..] == s[k + 1..];
      PiecesCons(spaced[..k + 1], Split(s[k + 1..], ','));
      PiecesCons(s[..k], Split(s[k + 1..], ','));
    } else {
      PiecesCons(spaced, []);
      PiecesCons(s, []);
      assert spaced[..k + 1] == spaced && s[..k] == s;
      assert [spaced] + [] == [spaced] && [s] + [] == [s];
    }
  }

  lemma PiecesCons(field: string, rest: seq<string>)
    ensures Pieces([field] + rest) == Piece(field) + Pieces(rest)
  {
    assert ([field] + rest)[1..] == rest;
  }

  predicate NoCommas(texts: seq<string>) { forall t | t in texts :: ',' !in t }

  lemma JoinStep(texts: seq<string>)
    requires |texts| > 1
    ensures Join(texts, ", ") == texts[0] + [','] + ([' '] + Join(texts[1..], ", "))
  {
    var tail := Join(texts[1..], ", ");
    assert texts[0] + ", " + tail == texts[0] + [','] + ([' '] + tail);
  }

  /** Joined with commas and split again, texts without commas come back trimmed, empty ones left out. */
  lemma {:induction false} PiecesOfJoined(texts: seq<string>)
    requires NoCommas(texts)
    ensures Pieces(Split(Join(texts, ", "), ',')) == Pieces(texts)
  {
    if texts == [] {
      PiecesOfNothing();
    } else {
      hide Split, Piece, Pieces;
      var rest := texts[1..];
      assert texts[0] in texts && forall t | t in rest :: t in texts;
      PiecesCons(texts[0], rest);
      HeadTail(texts);
      if |texts| == 1 {
        SplitField(texts[0], ',', "");
        assert texts == [texts[0]];
      } else {
        JoinStep(texts);
        hide Join;
        PiecesOfJoined(rest);
        var tail := Join(rest, ", ");
        SplitField(texts[0], ',', [' '] + tail);
        PiecesSkipSpace(tail);
        PiecesCons(texts[0], Split([' '] + tail, ','));
      }
    }
  }

  lemma PiecesOfNothing()
    ensures Pieces(Split(Join([], ", "), ',')) == []
  {
    assert Split("", ',') == [""] && Piece("") == [];
    assert [""][1..] == [];
  }

  lemma TrimTwice(s: string)
    ensures Trim(Trim(s)) == Trim(s)
    ensures forall c | c in Trim(s) :: c in s
  {
    TrimStartIs(s);
    TrimEndTwice(TrimStart(s));
    var t := Trim(s);
    assert forall c | c in t :: c in TrimStart(s);
    if t != "" {
      assert t[0] == TrimStart(s)[0];
      assert TrimStart(t) == t;
    }
  }

  lemma PieceTwice(field: string, rest: seq<string>)
    ensures Pieces(Piece(field) + rest) == Piece(field) + Pieces(rest)
    ensures forall t, c | t in Piece(field) && c in t :: c in field
  {
    TrimTwice(field);
    hide Trim;
    if Trim(field) == "" {
      EmptyConcat(rest);
      EmptyConcat(Pieces(rest));
    } else {
      PiecesCons(Trim(field), rest);
    }
  }

  lemma {:induction false} PiecesTwice(fields: seq<string>)
    requires NoCommas(fields)
    ensures Pieces(Pieces(fields)) == Pieces(fields) && NoCommas(Pieces(fields))
  {
    if fields != [] {
      hide Piece;
      var rest := fields[1..];
      assert fields[0] in fields && forall t | t in rest :: t in fields;
      PiecesTwice(rest);
      PieceTwice(fields[0], Pieces(rest));
    }
  }

  lemma {:induction false} TextsOfRows(texts: seq<string>)
    ensures RowTexts(TextRows(texts)) == texts
  {
    if texts != [] {
      assert TextRows(texts)[1..] == TextRows(texts[1..]);
      TextsOfRows(texts[1..]);
    }
  }

  /**
   * A comma-separated setting written back opens to its string rows, trimmed and without the empty ones, as long as no
   * row holds a comma.
   */
  lemma DelimitedReopens(show: Printer, parse: Parse, c: Collection)
    requires c.schema.delimited && !c.schema.keyed && !c.inherited && NoCommas(RowTexts(c.rows))
    ensures Opened(c.schema, Serialized(show, c), parse) ==
            Some(Collection(c.schema, TextRows(Pieces(RowTexts(c.rows))), false))
  {
    PiecesOfJoined(RowTexts(c.rows));
  }

  /** For every string: opened, written back and opened again, it has the same rows. */
  lemma DelimitedRoundTrip(show: Printer, parse: Parse, schema: Schema, raw: string)
    requires schema.delimited && !schema.keyed
    ensures var c := Opened(schema, raw, parse);
            c.Some? && Opened(schema, Serialized(show, c.value), parse) == c
  {
    hide Split, Join;
    var fields := Split(raw, ',');
    assert NoCommas(fields);
    PiecesTwice(fields);
    TextsOfRows(Pieces(fields));
    DelimitedReopens(show, parse, Opened(schema, raw, parse).value);
  }

  lemma {:induction false} RowTextsConcat(a: seq<Row>, b: seq<Row>)
    ensures RowTexts(a + b) == RowTexts(a) + RowTexts(b)
  {
    if a == [] {
      assert a + b == b;
    } else {
      TailConcat(a, b);
      RowTextsConcat(a[1..], b);
      Associative(if a[0].value.Str? then [a[0].value.s] else [], RowTexts(a[1..]), RowTexts(b));
    }
  }

  /** Edits never bring a comma into a row. */
  lemma UpdateKeepsCommasOut(show: Printer, c: Collection, index: Option<nat>, key: string, cells: seq<string>)
    requires c.schema.delimited && NoCommas(RowTexts(c.rows)) && Updated(show, c, index, key, cells).Some?
    ensures NoCommas(RowTexts(Updated(show, c, index, key, cells).value.rows))
  {
    hide Edit, Cells, Edited, BadName;
    var next := Updated(show, c, index, key, cells).value;
    var added := if index.Some? then next.rows[index.value] else next.rows[|c.rows|];
    var before := if index.Some? then c.rows[..index.value] else c.rows;
    var after := if index.Some? then c.rows[index.value + 1..] else [];
    assert next.rows == before + [added] + after;
    assert index.Some? ==> c.rows == before + [c.rows[index.value]] + after;
    RowTextsConcat(before + [added], after);
    RowTextsConcat(before, [added]);
    assert [added][1..] == [];
    if index.Some? {
      RowTextsConcat(before + [c.rows[index.value]], after);
      RowTextsConcat(before, [c.rows[index.value]]);
      assert forall t | t in RowTexts(before) || t in RowTexts(after) :: t in RowTexts(c.rows);
    }
  }

  // ----- what an edit changes -----

  /** Paths of names: well-formed, and no name is an array index. */
  predicate NamePath(path: string) {
    WellFormed(path) && path != "" && forall t | t in Keys(path) :: ParseIndex(t) == None
  }

  /** Columns that do not overlap: the whole value alone, or name paths none of which is above another. */
  predicate Apart(columns: seq<Column>) {
    (|columns| == 1 && columns[0].path == "") ||
    ((forall i | 0 <= i < |columns| :: NamePath(columns[i].path)) &&
     forall i, j | 0 <= i < j < |columns| :: Incomparable(Keys(columns[i].path), Keys(columns[j].path)))
  }

  /** A write changes no name path that it is neither above nor below. */
  lemma WriteSkips(v: Json, path: string, other: string, value: Json)
    requires WellFormed(path) && path != "" && NamePath(other) && Incomparable(Keys(path), Keys(other))
    ensures Pointer(SetCell(v, path, value), other) == Pointer(v, other)
  {
    WriteElsewhere(v, path, other, value);
    KeysAreTokens(other);
    if ReplacesArray(v, Keys(path), Keys(other)) {
      NamesSkipArrays(v, Keys(path), Keys(other));
    }
  }

  lemma ReadBack(v: Json, path: string, value: Json)
    requires WellFormed(path)
    ensures Pointer(SetCell(v, path, value), path) == Some(value)
  {
    WriteThenRead(path);
  }

  /** A path that no column from the i-th on touches. */
  predicate Beside(columns: seq<Column>, cells: seq<string>, before: seq<string>, i: nat, path: string)
    requires |cells| == |before| == |columns|
  {
    forall j | i <= j < |columns| && cells[j] != before[j] :: Incomparable(Keys(columns[j].path), Keys(path))
  }

  /** Edits leave alone whatever they are not about. */
  lemma {:induction false} EditSkips(
    columns: seq<Column>, cells: seq<string>, before: seq<string>, i: nat, value: Json, path: string)
    requires |cells| == |before| == |columns| && i <= |columns| && NamePath(path)
    requires forall j | 0 <= j < |columns| :: NamePath(columns[j].path)
    requires Beside(columns, cells, before, i, path) && Edit(columns, cells, before, i, value).Some?
    ensures Pointer(Edit(columns, cells, before, i, value).value, path) == Pointer(value, path)
    decreases |columns| - i
  {
    hide SetCell, Pointer, Keys, CellValue, ParseIndex, WellFormed, Edit;
    if i == |columns| {
      EditEnd(columns, cells, before, value);
    } else {
      EditStep(columns, cells, before, i, value);
      if cells[i] == before[i] {
        EditSkips(columns, cells, before, i + 1, value, path);
      } else {
        var written := CellValue(columns[i].kind, cells[i]).value;
        WriteSkips(value, columns[i].path, path, written);
        EditSkips(columns, cells, before, i + 1, SetCell(value, columns[i].path, written), path);
      }
    }
  }

  /** The value the k-th column has after an edit. */
  predicate ColumnIs(columns: seq<Column>, cells: seq<string>, before: seq<string>, k: nat, start: Json, end: Json)
    requires |cells| == |before| == |columns| && k < |columns|
  {
    Pointer(end, columns[k].path) ==
    if cells[k] == before[k] then Pointer(start, columns[k].path) else CellValue(columns[k].kind, cells[k])
  }

  lemma {:induction false} EditColumn(
    columns: seq<Column>, cells: seq<string>, before: seq<string>, i: nat, value: Json, k: nat)
    requires |cells| == |before| == |columns| && i <= k < |columns|
    requires forall j | 0 <= j < |columns| :: NamePath(columns[j].path)
    requires forall a, b | 0 <= a < b < |columns| :: Incomparable(Keys(columns[a].path), Keys(columns[b].path))
    requires Edit(columns, cells, before, i, value).Some?
    ensures ColumnIs(columns, cells, before, k, value, Edit(columns, cells, before, i, value).value)
    decreases |columns| - i
  {
    hide SetCell, Pointer, Keys, CellValue, Edit, NamePath;
    EditStep(columns, cells, before, i, value);
    IncomparableBothWays(columns, k);
    if i == k {
      if cells[k] == before[k] {
        EditSkips(columns, cells, before, i + 1, value, columns[k].path);
      } else {
        var written := CellValue(columns[i].kind, cells[i]).value;
        NamesAreWellFormed(columns[k].path);
        ReadBack(value, columns[k].path, written);
        EditSkips(columns, cells, before, i + 1, SetCell(value, columns[i].path, written), columns[k].path);
      }
    } else if cells[i] == before[i] {
      EditColumn(columns, cells, before, i + 1, value, k);
    } else {
      var written := CellValue(columns[i].kind, cells[i]).value;
      NamesAreWellFormed(columns[i].path);
      WriteSkips(value, columns[i].path, columns[k].path, written);
      EditColumn(columns, cells, before, i + 1, SetCell(value, columns[i].path, written), k);
    }
  }

  lemma NamesAreWellFormed(path: string)
    requires NamePath(path)
    ensures WellFormed(path) && path != ""
  {
  }

  lemma IncomparableBothWays(columns: seq<Column>, k: nat)
    requires k < |columns|
    requires forall a, b | 0 <= a < b < |columns| :: Incomparable(Keys(columns[a].path), Keys(columns[b].path))
    ensures forall j | 0 <= j < |columns| && j != k :: Incomparable(Keys(columns[j].path), Keys(columns[k].path))
  {
    hide Keys;
    forall j | 0 <= j < |columns| && j != k
      ensures Incomparable(Keys(columns[j].path), Keys(columns[k].path))
    {
      var a, b := if j < k then j else k, if j < k then k else j;
      assert Incomparable(Keys(columns[a].path), Keys(columns[b].path));
    }
  }

  lemma EditWhole(columns: seq<Column>, cells: seq<string>, before: seq<string>, value: Json)
    requires |cells| == |before| == |columns| == 1 && columns[0].path == ""
             && Edit(columns, cells, before, 0, value).Some?
    ensures ColumnIs(columns, cells, before, 0, value, Edit(columns, cells, before, 0, value).value)
  {
    hide CellValue, Edit;
    EditStep(columns, cells, before, 0, value);
    EditEnd(columns, cells, before, value);
    if cells[0] != before[0] {
      EditEnd(columns, cells, before, CellValue(columns[0].kind, cells[0]).value);
    }
  }

  /** The row an edit is about. */
  function Target(c: Collection, index: Option<nat>): nat { if index.Some? then index.value else |c.rows| }

  /** What an edit starts from: the row it is about, or else the template. */
  lemma EditedIs(c: Collection, index: Option<nat>)
    ensures Edited(c, index) ==
            if index.Some? && index.value < |c.rows| then c.rows[index.value].value else c.schema.template
  {
  }

  /**
   * An edit that succeeds is precise: every other row is as before; the edited row has the given name; each column
   * whose text changed holds the value the text stands for, each other column holds what it held; and so does every
   * path of names that lies beside the changed columns. An edit that fails changes nothing, as `UpdateRow` says.
   */
  lemma UpdateIsPrecise(show: Printer, c: Collection, index: Option<nat>, key: string, cells: seq<string>)
    requires Apart(c.schema.columns) && Updated(show, c, index, key, cells).Some?
    ensures var next, columns, t := Updated(show, c, index, key, cells).value, c.schema.columns, Target(c, index);
            var start := if index.Some? && index.value < |c.rows| then c.rows[index.value].value else c.schema.template;
            && next.schema == c.schema && t < |next.rows|
               && |next.rows| == (if index.Some? then |c.rows| else |c.rows| + 1)
            && (forall i | 0 <= i < |c.rows| && i != t :: next.rows[i] == c.rows[i])
            && next.rows[t].key == key && |cells| == |columns|
            && var before := Cells(show, columns, start);
            && (forall k | 0 <= k < |columns| :: ColumnIs(columns, cells, before, k, start, next.rows[t].value))
            && (forall path | NamePath(path) && |columns| > 0 && columns[0].path != ""
               && Beside(columns, cells, before, 0, path) ::
                  Pointer(next.rows[t].value, path) == Pointer(start, path))
  {
    EditedIs(c, index);
    hide Edit, Separates, BadName, Edited, NamePath, Keys, Pointer, CellValue, Incomparable, Beside, ColumnIs;
    var columns, start := c.schema.columns, Edited(c, index);
    var before := Cells(show, columns, start);
    if |columns| == 1 && columns[0].path == "" {
      EditWhole(columns, cells, before, start);
    } else {
      forall k | 0 <= k < |columns|
        ensures ColumnIs(columns, cells, before, k, start, Edit(columns, cells, before, 0, start).value)
      {
        EditColumn(columns, cells, before, 0, start, k);
      }
      forall path | NamePath(path) && |columns| > 0 && columns[0].path != "" && Beside(columns, cells, before, 0, path)
        ensures Pointer(Edit(columns, cells, before, 0, start).value, path) == Pointer(start, path)
      {
        EditSkips(columns, cells, before, 0, start, path);
      }
    }
  }

  // ----- the schemas of the program -----

  /** A name that needs no escaping and is no array index. */
  predicate Plain(name: string) { name != "" && forall i | 0 <= i < |name| :: 'a' <= name[i] <= 'z' || name[i] == '_' }

  predicate PlainNames(names: seq<string>) { names != [] && forall k | 0 <= k < |names| :: Plain(names[k]) }

  /** Neither list of names leads through the other. */
  predicate Differ(a: seq<string>, b: seq<string>) { exists k | 0 <= k < |a| && k < |b| :: a[k] != b[k] }

  lemma PlainIs(name: string)
    requires Plain(name)
    ensures ParseIndex(name) == None && !HasEscape(name) && '/' !in name
  {
  }

  /** The names of a path are what splitting it gives. */
  lemma {:induction false} SplitPath(names: seq<string>)
    requires PlainNames(names)
    ensures var path := PathOf(names);
            |path| > 1 && path[0] == '/' && path[1] != '/' && Split(path[1..], '/') == names
    decreases |names|
  {
    hide Split, Plain;
    var rest := names[1..];
    FirstOfPath(names);
    PlainIs(names[0]);
    HeadTail(names);
    if rest == [] {
      SplitField(names[0], '/', "");
      assert PathOf(names)[1..] == names[0];
    } else {
      SplitPath(rest);
      SplitField(names[0], '/', PathOf(rest)[1..]);
      assert PathOf(names)[1..] == names[0] + ['/'] + PathOf(rest)[1..];
    }
  }

  lemma FirstOfPath(names: seq<string>)
    requires PlainNames(names)
    ensures PathOf(names)[1..] == names[0] + PathOf(names[1..]) && |names[0]| > 0 && names[0][0] != '/'
  {
    assert Plain(names[0]);
  }

  lemma PathIs(names: seq<string>)
    requires PlainNames(names)
    ensures NamePath(PathOf(names)) && Keys(PathOf(names)) == names
  {
    hide Split, Plain, PathOf;
    SplitPath(names);
    var path := PathOf(names);
    assert TrimSlashes(path) == TrimSlashes(path[1..]) == path[1..];
    forall t | t in names
      ensures ParseIndex(t) == None && !HasEscape(t)
    {
      PlainIs(t);
    }
  }

  /** Fields with plain names that differ have columns that do not overlap. */
  lemma FieldsApart(fields: seq<Field>)
    requires forall i | 0 <= i < |fields| :: PlainNames(fields[i].names)
    requires forall i, j | 0 <= i < j < |fields| :: Differ(fields[i].names, fields[j].names)
    ensures Apart(Columns(fields))
  {
    hide PathOf, Keys, NamePath, PlainNames;
    forall i | 0 <= i < |fields|
      ensures NamePath(PathOf(fields[i].names)) && Keys(PathOf(fields[i].names)) == fields[i].names
    {
      PathIs(fields[i].names);
    }
  }

  predicate InSchemas(fields: seq<Field>) {
    fields == IgnoreFields() || fields == EncryptionFields() || fields == TranslationFields() || fields == ModelFields()
  }

  lemma NamesArePlain(fields: seq<Field>, i: nat, k: nat)
    requires InSchemas(fields) && i < |fields| && k < |fields[i].names|
    ensures Plain(fields[i].names[k])
  {
    if fields == ModelFields() {
      hide ModelFields, Plain;
      ModelNamesArePlain(i, k);
    } else {
      var name := fields[i].names[k];
      forall c | 0 <= c < |name|
        ensures 'a' <= name[c] <= 'z' || name[c] == '_'
      {
      }
    }
  }

  lemma ModelNamesArePlain(i: nat, k: nat)
    requires i < |ModelFields()| && k < |ModelFields()[i].names|
    ensures Plain(ModelFields()[i].names[k])
  {
    if i < 7 {
      FirstModelNamesArePlain(i, k);
    } else {
      LastModelNamesArePlain(i, k);
    }
  }

  lemma FirstModelNamesArePlain(i: nat, k: nat)
    requires i < 7 && k < |ModelFields()[i].names|
    ensures Plain(ModelFields()[i].names[k])
  {
    var name := ModelFields()[i].names[k];
    forall c | 0 <= c < |name|
      ensures 'a' <= name[c] <= 'z' || name[c] == '_'
    {
    }
  }

  lemma LastModelNamesArePlain(i: nat, k: nat)
    requires 7 <= i < |ModelFields()| && k < |ModelFields()[i].names|
    ensures Plain(ModelFields()[i].names[k])
  {
    var name := ModelFields()[i].names[k];
    forall c | 0 <= c < |name|
      ensures 'a' <= name[c] <= 'z' || name[c] == '_'
    {
    }
  }

  lemma NamesDiffer(fields: seq<Field>, i: nat, j: nat)
    requires InSchemas(fields) && i < j < |fields|
    ensures fields[i].names != [] && Differ(fields[i].names, fields[j].names)
  {
    var a, b := fields[i].names, fields[j].names;
    if a[0] == b[0] {
      assert a[1] != b[1];
    }
  }

  lemma NamesAreNames(fields: seq<Field>, i: nat)
    requires InSchemas(fields) && i < |fields|
    ensures fields[i].names != []
  {
  }

  lemma FieldsOfSchemasApart(fields: seq<Field>)
    requires InSchemas(fields)
    ensures Apart(Columns(fields))
  {
    hide InSchemas, Apart, Plain, Differ;
    forall i | 0 <= i < |fields|
      ensures PlainNames(fields[i].names)
    {
      NamesAreNames(fields, i);
      forall k | 0 <= k < |fields[i].names|
        ensures Plain(fields[i].names[k])
      {
        NamesArePlain(fields, i, k);
      }
    }
    forall i, j | 0 <= i < j < |fields|
      ensures Differ(fields[i].names, fields[j].names)
    {
      NamesDiffer(fields, i, j);
    }
    FieldsApart(fields);
  }

  /** Every setting the program edits has columns that do not overlap. */
  lemma SchemasAreApart(path: string)
    ensures Apart(SchemaOf(path).columns)
  {
    hide *;
    var fields := SchemaIsOneOf(path);
    if fields == Whole() {
      WholeIsApart();
    } else {
      FieldsOfSchemasApart(fields);
    }
  }

  lemma SchemaIsOneOf(path: string) returns (fields: seq<Field>)
    ensures SchemaOf(path).columns == Columns(fields) && (fields == Whole() || InSchemas(fields))
  {
    hide IgnoreFields, EncryptionFields, TranslationFields, ModelFields, ModelTemplate, Whole, HasText, IsDelimited;
    fields :=
      if path == "aliases" || path == "statusbar.item_formats" then Whole()
      else if path == "ignores" then IgnoreFields()
      else if HasText(path, ".encryption_channels_") then EncryptionFields()
      else if path == "translate.buffers" || HasText(path, ".translation_channels_") then TranslationFields()
      else if path == "translate.ai.models" then ModelFields()
      else Whole();
  }

  lemma WholeIsApart()
    ensures Apart(Columns(Whole()))
  {
  }
}
