/**
 * The structured settings editor of shared/settings_collection.rs: a collection of rows is opened from a setting,
 * edited cell by cell, and written back. Printing and parsing JSON text are inputs.
 */
module SettingsCollections {
  import opened Wrappers
  import opened Text
  import opened Codecs
  import opened JsonValues
  import KeyOrder

  datatype CellKind =
    | TextCell
    | NumberCell
    | ToggleCell
    | ListCell
    | OptionalTextCell
    | SelectCell(options: seq<string>)

  datatype Column = Column(path: string, kind: CellKind)

  datatype Row = Row(key: string, value: Json)

  datatype Schema = Schema(keyed: bool, columns: seq<Column>, template: Json, delimited: bool, optional: bool)

  datatype Collection = Collection(schema: Schema, rows: seq<Row>, inherited: bool)

  type Printer = Json -> string

  type Parse = string -> Option<Json>

  // ----- schemas -----

  /** `contains`. */
  predicate HasText(s: string, part: string) { part <= s || (s != "" && HasText(s[1..], part)) }

  predicate StartsWith(s: string, prefix: string) { prefix <= s }

  predicate EndsWith(s: string, suffix: string) { |suffix| <= |s| && s[|s| - |suffix|..] == suffix }

  /** A field of a row, by the names that lead to it. */
  datatype Field = Field(names: seq<string>, kind: CellKind)

  function PathOf(names: seq<string>): string { if names == [] then "" else "/" + names[0] + PathOf(names[1..]) }

  function Columns(fields: seq<Field>): (columns: seq<Column>)
    ensures |columns| == |fields|
    ensures forall i | 0 <= i < |fields| :: columns[i] == Column(PathOf(fields[i].names), fields[i].kind)
  {
    seq(|fields|, i requires 0 <= i < |fields| => Column(PathOf(fields[i].names), fields[i].kind))
  }

  /** The whole value. */
  function Whole(): seq<Field> { [Field([], TextCell)] }

  function IgnoreFields(): seq<Field> {
    [Field(["mask"], TextCell), Field(["levels"], ListCell), Field(["channels"], ListCell)]
  }

  function EncryptionFields(): seq<Field> {
    [Field(["enabled"], ToggleCell), Field(["mode"], SelectCell(["normal", "quiet", "auto-accept"]))]
  }

  function TranslationFields(): seq<Field> {
    [Field(["incoming"], ToggleCell), Field(["outgoing"], ToggleCell), Field(["lang"], OptionalTextCell),
     Field(["my_lang"], OptionalTextCell)]
  }

  function ModelFields(): seq<Field> {
    [Field(["name"], TextCell), Field(["base_url"], TextCell), Field(["model"], TextCell),
     Field(["api_key_env"], TextCell), Field(["rpm"], NumberCell), Field(["tpm"], NumberCell),
     Field(["max_retries"], NumberCell), Field(["max_output_tokens"], NumberCell),
     Field(["reasoning_effort"], OptionalTextCell), Field(["provider", "only"], ListCell),
     Field(["provider", "quantizations"], ListCell), Field(["provider", "allow_fallbacks"], ToggleCell)]
  }

  function ModelTemplate(): Json {
    Obj(map["name" := Str(""), "base_url" := Str(""), "model" := Str(""), "api_key_env" := Str(""),
            "rpm" := Number("0"), "tpm" := Number("0"), "max_retries" := Number("2"),
            "max_output_tokens" := Number("256")])
  }

  predicate IsDelimited(path: string) {
    path == "dcc.autochat_masks" || path == "general.flood_exemptions" || path == "spellcheck.languages" ||
    (StartsWith(path, "servers.") && EndsWith(path, ".channels"))
  }

  /** The table at the head of `Collection::open`. */
  function SchemaOf(path: string): Schema {
    var delimited, optional := IsDelimited(path), path == "translate.ai.terminal";
    if path == "aliases" || path == "statusbar.item_formats" then
      Schema(true, Columns(Whole()), Str(""), delimited, optional)
    else if path == "ignores" then
      Schema(false, Columns(IgnoreFields()), Obj(map["mask" := Str(""), "levels" := Arr([Str("ALL")])]), delimited,
             optional)
    else if HasText(path, ".encryption_channels_") then
      Schema(true, Columns(EncryptionFields()), Obj(map["enabled" := Bool(true), "mode" := Str("normal")]), delimited,
             optional)
    else if path == "translate.buffers" || HasText(path, ".translation_channels_") then
      Schema(true, Columns(TranslationFields()), Obj(map["incoming" := Bool(false), "outgoing" := Bool(false)]),
             delimited, optional)
    else if path == "translate.ai.models" then
      Schema(false, Columns(ModelFields()), ModelTemplate(), delimited, optional)
    else Schema(false, Columns(Whole()), Str(""), delimited, optional)
  }

  // ----- opening -----

  function Piece(field: string): seq<string> { if Trim(field) == "" then [] else [Trim(field)] }

  /** The trimmed, non-empty fields. */
  function Pieces(fields: seq<string>): seq<string> {
    if fields == [] then [] else Piece(fields[0]) + Pieces(fields[1..])
  }

  function TextRows(texts: seq<string>): (rows: seq<Row>)
    ensures |rows| == |texts| && forall i | 0 <= i < |rows| :: rows[i] == Row("", Str(texts[i]))
  {
    seq(|texts|, i requires 0 <= i < |texts| => Row("", Str(texts[i])))
  }

  function ItemRows(items: seq<Json>): (rows: seq<Row>)
    ensures |rows| == |items| && forall i | 0 <= i < |rows| :: rows[i] == Row("", items[i])
  {
    seq(|items|, i requires 0 <= i < |items| => Row("", items[i]))
  }

  function FieldRows(fields: map<string, Json>): (rows: seq<Row>)
  {
    var order := KeyOrder.InOrder(fields.Keys);
    seq(|order|, i requires 0 <= i < |order| => (assert order[i] in order; Row(order[i], fields[order[i]])))
  }

  function OpenedValue(schema: Schema, value: Json): Option<Collection> {
    if schema.optional && value.Null? then Some(Collection(schema, [], true))
    else if schema.keyed then
      if value.Obj? then Some(Collection(schema, FieldRows(value.fields), false)) else None
    else if value.Arr? then Some(Collection(schema, ItemRows(value.items), false))
    else None
  }

  /** `Collection::open`, for a setting with this schema; `None` is an error. */
  function Opened(schema: Schema, raw: string, parse: Parse): Option<Collection> {
    if schema.delimited then
      if schema.keyed then None
      else Some(Collection(schema, TextRows(Pieces(Split(raw, ','))), false))
    else match parse(raw)
      case None => None
      case Some(value) => OpenedValue(schema, value)
  }

  // ----- cells -----

  function Strings(items: seq<Json>): seq<string> {
    if items == [] then [] else (if items[0].Str? then [items[0].s] else []) + Strings(items[1..])
  }

  function CellText(show: Printer, kind: CellKind, cell: Option<Json>): string {
    var value := cell.UnwrapOr(Null);
    if kind.ListCell? then (if value.Arr? then Join(Strings(value.items), "\n") else "")
    else if kind.ToggleCell? then (if value == Bool(true) then "true" else "false")
    else match value
      case Str(s) => s
      case Null => ""
      case _ => show(value)
  }

  /** `cells`. */
  function Cells(show: Printer, columns: seq<Column>, value: Json): (cells: seq<string>)
    ensures |cells| == |columns|
    ensures forall i | 0 <= i < |cells| :: cells[i] == CellText(show, columns[i].kind, Pointer(value, columns[i].path))
  {
    seq(|columns|, i requires 0 <= i < |columns| => CellText(show, columns[i].kind, Pointer(value, columns[i].path)))
  }

  /** The non-empty lines; a carriage return before the line break belongs to the break. */
  function Lines(fields: seq<string>): seq<Json> {
    if fields == [] then []
    else
      var line := fields[0];
      var text := if |fields| > 1 && line != "" && line[|line| - 1] == '\r' then line[..|line| - 1] else line;
      (if text == "" then [] else [Str(text)]) + Lines(fields[1..])
  }

  const U32_MAX: nat := 0xFFFF_FFFF

  /** The value a cell's text stands for; `None` is an error. */
  function CellValue(kind: CellKind, text: string): Option<Json> {
    match kind
    case SelectCell(options) => if text in options then Some(Str(text)) else None
    case TextCell => Some(Str(text))
    case OptionalTextCell => Some(if text == "" then Null else Str(text))
    case NumberCell =>
      (match ParseUnsigned(text, U32_MAX) case Some(n) => Some(Number(NatToDecimal(n))) case None => None)
    case ToggleCell => Some(Bool(text == "true"))
    case ListCell => Some(Arr(Lines(Split(text, '\n'))))
  }

  // ----- editing -----

  /** Write the changed cells from the i-th on; `None` when one of them is not valid. */
  function Edit(columns: seq<Column>, cells: seq<string>, before: seq<string>, i: nat, value: Json): Option<Json>
    requires |cells| == |before| == |columns| && i <= |columns|
    decreases |columns| - i
  {
    if i == |columns| then Some(value)
    else if cells[i] == before[i] then Edit(columns, cells, before, i + 1, value)
    else match CellValue(columns[i].kind, cells[i])
      case None => None
      case Some(written) => Edit(columns, cells, before, i + 1, SetCell(value, columns[i].path, written))
  }

  lemma EditStep(columns: seq<Column>, cells: seq<string>, before: seq<string>, i: nat, value: Json)
    requires |cells| == |before| == |columns| && i < |columns|
    ensures var written := CellValue(columns[i].kind, cells[i]);
            Edit(columns, cells, before, i, value) ==
            if cells[i] == before[i] then Edit(columns, cells, before, i + 1, value)
            else if written.None? then None
            else Edit(columns, cells, before, i + 1, SetCell(value, columns[i].path, written.value))
  {
    hide CellValue, SetCell;
  }

  lemma EditEnd(columns: seq<Column>, cells: seq<string>, before: seq<string>, value: Json)
    requires |cells| == |before| == |columns|
    ensures Edit(columns, cells, before, |columns|, value) == Some(value)
  {
  }

  /** The name is taken by another row, or empty. */
  predicate BadName(c: Collection, index: Option<nat>, key: string) {
    c.schema.keyed && (Trim(key) == "" || exists i | 0 <= i < |c.rows| :: Some(i) != index && c.rows[i].key == key)
  }

  predicate Separates(value: Json) { value.Str? && (',' in value.s || '\n' in value.s) }

  /** The row being edited, or a new one. */
  function Edited(c: Collection, index: Option<nat>): Json {
    if index.Some? && index.value < |c.rows| then c.rows[index.value].value else c.schema.template
  }

  /** `update_row`; `None` is an error. */
  function Updated(
    show: Printer, c: Collection, index: Option<nat>, key: string, cells: seq<string>): Option<Collection> {
    if BadName(c, index, key) || |cells| != |c.schema.columns| then None
    else
      var start := Edited(c, index);
      match Edit(c.schema.columns, cells, Cells(show, c.schema.columns, start), 0, start)
      case None => None
      case Some(value) =>
        if c.schema.delimited && Separates(value) then None
        else match index
          case None => Some(c.(rows := c.rows + [Row(key, value)], inherited := false))
          case Some(i) =>
            if i < |c.rows| then Some(c.(rows := c.rows[i := Row(key, value)], inherited := false)) else None
  }

  // ----- writing back -----

  function RowTexts(rows: seq<Row>): seq<string> {
    if rows == [] then [] else (if rows[0].value.Str? then [rows[0].value.s] else []) + RowTexts(rows[1..])
  }

  /** A later row of the same name replaces an earlier one. */
  function RowMap(rows: seq<Row>): map<string, Json> {
    if rows == [] then map[] else RowMap(rows[..|rows| - 1])[rows[|rows| - 1].key := rows[|rows| - 1].value]
  }

  function Values(rows: seq<Row>): (items: seq<Json>)
    ensures |items| == |rows| && forall i | 0 <= i < |items| :: items[i] == rows[i].value
  {
    seq(|rows|, i requires 0 <= i < |rows| => rows[i].value)
  }

  /** `serialize`. */
  function Serialized(show: Printer, c: Collection): string {
    if c.inherited then "null"
    else if c.schema.delimited then Join(RowTexts(c.rows), ", ")
    else if c.schema.keyed then show(Obj(RowMap(c.rows)))
    else show(Arr(Values(c.rows)))
  }

  // ----- the same, in place -----

  class SettingsCollection {
    const schema: Schema
    const show: Printer
    var rows: seq<Row>
    var inherited: bool

    constructor (c: Collection, show: Printer)
      ensures State() == c && this.show == show
    {
      this.schema, this.show, this.rows, this.inherited := c.schema, show, c.rows, c.inherited;
    }

    ghost function State(): Collection
      reads this
    {
      Collection(schema, rows, inherited)
    }

    method NameIsBad(index: Option<nat>, key: string) returns (bad: bool)
      ensures bad == BadName(State(), index, key)
    {
      if !schema.keyed {
        return false;
      }
      if Trim(key) == "" {
        return true;
      }
      for i := 0 to |rows|
        invariant forall j | 0 <= j < i :: !(Some(j) != index && rows[j].key == key)
      {
        if Some(i) != index && rows[i].key == key {
          return true;
        }
      }
      return false;
    }

    /** `update_row`. */
    method UpdateRow(index: Option<nat>, key: string, cells: seq<string>) returns (ok: bool)
      modifies this
      ensures var after := Updated(show, old(State()), index, key, cells);
              ok == after.Some? && State() == after.UnwrapOr(old(State()))
    {
      hide CellValue, SetCell, Cells, BadName, Edited, Separates, Edit;
      var bad := NameIsBad(index, key);
      if bad || |cells| != |schema.columns| {
        return false;
      }
      var value := EditedRow(index);
      ghost var start := value;
      var before := Cells(show, schema.columns, value);
      for i := 0 to |cells|
        invariant State() == old(State())
        invariant Edit(schema.columns, cells, before, i, value) == Edit(schema.columns, cells, before, 0, start)
      {
        EditStep(schema.columns, cells, before, i, value);
        if cells[i] != before[i] {
          var written := CellValue(schema.columns[i].kind, cells[i]);
          if written.None? {
            return false;
          }
          value := SetCell(value, schema.columns[i].path, written.value);
        }
      }
      EditEnd(schema.columns, cells, before, value);
      if schema.delimited && Separates(value) {
        return false;
      }
      if index.Some? {
        if index.value >= |rows| {
          return false;
        }
        rows := rows[index.value := Row(key, value)];
      } else {
        rows := rows + [Row(key, value)];
      }
      inherited := false;
      return true;
    }

    method EditedRow(index: Option<nat>) returns (value: Json)
      ensures value == Edited(State(), index)
    {
      value := if index.Some? && index.value < |rows| then rows[index.value].value else schema.template;
    }
  }
}
