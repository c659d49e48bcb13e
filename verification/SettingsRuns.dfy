/**
 * Sessions of the settings editor of src/ui/settings/collection.rs: a setting is opened, its rows are edited, removed
 * and moved, and it is written back.
 */
module SettingsRuns {
  import opened Wrappers
  import opened SettingsCollections
  import opened SettingsLaws
  import opened Text

  datatype Action =
    | Apply(index: Option<nat>, key: string, cells: seq<string>)
    | Remove(row: nat)
    | Up(row: nat)
    | Down(row: nat)
    /** The box that is shown for optional settings. */
    | Automatic

  function Swapped(rows: seq<Row>, i: nat, j: nat): (r: seq<Row>)
    requires i < |rows| && j < |rows|
    ensures |r| == |rows|
  {
    rows[i := rows[j]][j := rows[i]]
  }

  /** An edit that fails leaves the collection as it was. */
  function Act(show: Printer, c: Collection, action: Action): Collection {
    match action
    case Apply(index, key, cells) => Updated(show, c, index, key, cells).UnwrapOr(c)
    case Remove(row) =>
      if row < |c.rows| then c.(rows := c.rows[..row] + c.rows[row + 1..]) else c
    case Up(row) => if 0 < row < |c.rows| then c.(rows := Swapped(c.rows, row, row - 1)) else c
    case Down(row) => if row + 1 < |c.rows| then c.(rows := Swapped(c.rows, row, row + 1)) else c
    case Automatic => if c.schema.optional then c.(inherited := !c.inherited) else c
  }

  function ActAll(show: Printer, c: Collection, actions: seq<Action>): Collection
    decreases |actions|
  {
    if actions == [] then c else ActAll(show, Act(show, c, actions[0]), actions[1..])
  }

  // ----- what a session keeps -----

  predicate CommaFree(rows: seq<Row>) {
    forall i | 0 <= i < |rows| && rows[i].value.Str? :: ',' !in rows[i].value.s
  }

  lemma {:induction false} CommaFreeIs(rows: seq<Row>)
    ensures CommaFree(rows) <==> NoCommas(RowTexts(rows))
  {
    if rows != [] {
      var rest := rows[1..];
      CommaFreeIs(rest);
      var first := if rows[0].value.Str? then [rows[0].value.s] else [];
      assert RowTexts(rows) == first + RowTexts(rest);
      hide RowTexts;
      assert NoCommas(first + RowTexts(rest)) <==> NoCommas(first) && NoCommas(RowTexts(rest)) by {
        assert forall t | t in first || t in RowTexts(rest) :: t in first + RowTexts(rest);
      }
      assert forall i | 0 <= i < |rest| :: rest[i] == rows[i + 1];
      assert forall i | 0 < i < |rows| :: rows[i] == rest[i - 1];
    }
  }

  /** Names are distinct, only an optional setting is inherited, and a comma-separated one has no comma in a row. */
  predicate Orderly(c: Collection) {
    && KeysHold(c) && (c.inherited ==> c.schema.optional)
    && (c.schema.delimited ==> !c.schema.keyed && CommaFree(c.rows))
  }

  lemma OpenedIsOrderly(schema: Schema, raw: string, parse: Parse)
    requires Opened(schema, raw, parse).Some?
    ensures Orderly(Opened(schema, raw, parse).value) && Opened(schema, raw, parse).value.schema == schema
  {
    OpenedKeysHold(schema, raw, parse);
    var c := Opened(schema, raw, parse).value;
    if schema.delimited {
      var fields := Split(raw, ',');
      PiecesTwice(fields);
      TextsOfRows(Pieces(fields));
      CommaFreeIs(c.rows);
    }
    hide Split, FieldRows, ItemRows, RowTexts;
  }

  lemma ActKeepsOrder(show: Printer, c: Collection, action: Action)
    requires Orderly(c)
    ensures Orderly(Act(show, c, action)) && Act(show, c, action).schema == c.schema
  {
    hide Updated;
    match action
    case Apply(index, key, cells) =>
      if Updated(show, c, index, key, cells).Some? {
        UpdateKeepsKeys(show, c, index, key, cells);
        UpdateKeepsRest(show, c, index, key, cells);
        if c.schema.delimited {
          CommaFreeIs(c.rows);
          UpdateKeepsCommasOut(show, c, index, key, cells);
          CommaFreeIs(Updated(show, c, index, key, cells).value.rows);
        }
      }
    case _ =>
  }

  lemma UpdateKeepsRest(show: Printer, c: Collection, index: Option<nat>, key: string, cells: seq<string>)
    requires Updated(show, c, index, key, cells).Some?
    ensures var next := Updated(show, c, index, key, cells).value; next.schema == c.schema && !next.inherited
  {
    hide Edit, Cells, BadName, Edited, Separates;
  }

  lemma {:induction false} ActAllKeepsOrder(show: Printer, c: Collection, actions: seq<Action>)
    requires Orderly(c)
    ensures Orderly(ActAll(show, c, actions)) && ActAll(show, c, actions).schema == c.schema
    decreases |actions|
  {
    hide Orderly, Act;
    if actions != [] {
      ActKeepsOrder(show, c, actions[0]);
      ActAllKeepsOrder(show, Act(show, c, actions[0]), actions[1..]);
    }
  }

  /**
   * A whole session: whatever is opened, and whatever is then edited, removed, moved and made automatic, what is
   * written back opens to the rows of the editor; none if the setting is inherited. A comma-separated setting opens to
   * its texts, trimmed and without empty ones; any other provided that the text written parses back to the value it
   * was printed from.
   */
  lemma SessionRoundTrip(show: Printer, parse: Parse, schema: Schema, raw: string, actions: seq<Action>)
    requires Opened(schema, raw, parse).Some?
    ensures var c := ActAll(show, Opened(schema, raw, parse).value, actions);
            var again := Opened(schema, Serialized(show, c), parse);
            if !schema.delimited then parse(Serialized(show, c)) == Some(WrittenValue(c)) ==> Reopens(c, again)
            else c.inherited || again == Some(Collection(schema, TextRows(Pieces(RowTexts(c.rows))), false))
  {
    OpenedIsOrderly(schema, raw, parse);
    var c0 := Opened(schema, raw, parse).value;
    ActAllKeepsOrder(show, c0, actions);
    var c := ActAll(show, c0, actions);
    hide ActAll, Opened, Serialized, WrittenValue, Reopens;
    if !schema.delimited {
      if parse(Serialized(show, c)) == Some(WrittenValue(c)) {
        WriteBackRoundTrip(show, parse, c);
      }
    } else if !c.inherited {
      CommaFreeIs(c.rows);
      DelimitedReopens(show, parse, c);
    }
  }

  /** No setting of the program is both comma-separated and optional, so none that is comma-separated is inherited. */
  lemma DelimitedIsNotOptional(path: string)
    ensures !(SchemaOf(path).delimited && SchemaOf(path).optional)
  {
    hide IgnoreFields, EncryptionFields, TranslationFields, ModelFields, ModelTemplate, Whole, HasText;
    if path == "translate.ai.terminal" {
      assert path[0] == 't' && "servers."[0] == 's';
      assert !StartsWith(path, "servers.");
      assert path[0] != "dcc.autochat_masks"[0] && path[0] != "general.flood_exemptions"[0];
    }
  }
}
