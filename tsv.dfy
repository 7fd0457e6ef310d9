/**
 * The TSV side of osm_spreadsheet.py: `TSVOutputter` writes a header and
 * one tab-separated row per object; `load_tsv_into_storage` reads such a
 * file back into an attribute storage keyed by the `osm_type` and `osm_id`
 * columns. Fields are written raw, without any quoting.
 */
module Tsv {
  import opened Wrappers
  import opened Seqs
  import opened PyDict
  import opened Text
  import opened OsmObjects
  import opened Storage

  const OsmTypeColumn: string := "osm_type"
  const OsmIdColumn: string := "osm_id"

  /** The header row: the two identity columns, then the tag columns in order. */
  function HeaderFields(columns: seq<string>): seq<string>
  {
    [OsmTypeColumn, OsmIdColumn] + columns
  }

  /** `[obj.attributes.get(col, '') for col in columns]` */
  function Cells(attributes: Dict, columns: seq<string>): (cells: seq<string>)
    ensures |cells| == |columns|
    ensures forall i | 0 <= i < |columns| :: cells[i] == Get(attributes, columns[i], "")
  {
    if columns == [] then [] else [Get(attributes, columns[0], "")] + Cells(attributes, columns[1..])
  }

  /** The data row of an object: type, `str(id)`, then one cell per column. */
  function RowFields(obj: OSMObject, columns: seq<string>): seq<string>
  {
    [obj.osmType, IntToString(obj.id)] + Cells(obj.attributes, columns)
  }

  /** Whether `add` writes a row: the type is allowed, and with skip-empty some cell is not `''`. */
  predicate Emits(obj: OSMObject, columns: seq<string>, typesAllowed: set<string>, skipEmpty: bool) {
    && obj.osmType in typesAllowed
    && !(skipEmpty && forall c | c in Cells(obj.attributes, columns) :: c == "")
  }

  /** A row has one field per header field. */
  lemma RowMatchesHeader(obj: OSMObject, columns: seq<string>)
    ensures |RowFields(obj, columns)| == |HeaderFields(columns)|
    ensures RowFields(obj, columns)[0] == obj.osmType
    ensures RowFields(obj, columns)[1] == IntToString(obj.id)
  {
  }

  const AllTypes: set<string> := {"node", "way", "relation"}

  class TSVOutputter {
    const columns: seq<string>
    var file: string
    var typesAllowed: set<string>
    var skipEmpty: bool

    /** Writes the header line once, when the outputter is made. */
    constructor (columns: seq<string>)
      ensures this.columns == columns
      ensures file == Join(HeaderFields(columns), Tab) + [Newline]
      ensures typesAllowed == AllTypes && !skipEmpty
    {
      this.columns := columns;
      file := Join(HeaderFields(columns), Tab) + [Newline];
      typesAllowed := AllTypes;
      skipEmpty := false;
    }

    method SetTypesAllowed(types: seq<string>)
      modifies this`typesAllowed
      ensures typesAllowed == set t | t in types
    {
      typesAllowed := set t | t in types;
    }

    method SetSkipEmpty(skip: bool)
      modifies this`skipEmpty
      ensures skipEmpty == skip
    {
      skipEmpty := skip;
    }

    /** `add`: append the object's row, unless its type or its empty cells exclude it. */
    method Add(obj: OSMObject)
      modifies this`file
      ensures file == old(file) +
        if Emits(obj, columns, typesAllowed, skipEmpty) then Join(RowFields(obj, columns), Tab) + [Newline] else ""
    {
      if obj.osmType !in typesAllowed {
        return;
      }
      var cells := CollectCells(obj.attributes, columns);
      var anyCell := AnyNonEmpty(cells);
      if skipEmpty && !anyCell {
        return;
      }
      file := file + Join([obj.osmType, IntToString(obj.id)] + cells, Tab) + [Newline];
    }
  }

  /** The list comprehension of `add`, one column at a time. */
  method CollectCells(attributes: Dict, columns: seq<string>) returns (cells: seq<string>)
    ensures cells == Cells(attributes, columns)
  {
    cells := [];
    for i := 0 to |columns|
      invariant cells == Cells(attributes, columns[..i])
    {
      assert columns[..i + 1] == columns[..i] + [columns[i]];
      CellsAppend(attributes, columns[..i], columns[i]);
      cells := cells + [Get(attributes, columns[i], "")];
    }
    assert columns[..|columns|] == columns;
  }

  /** `any(cells)`: some cell is not the empty string. */
  method AnyNonEmpty(cells: seq<string>) returns (b: bool)
    ensures b <==> exists c | c in cells :: c != ""
  {
    b := false;
    for i := 0 to |cells|
      invariant b <==> exists j | 0 <= j < i :: cells[j] != ""
    {
      b := b || cells[i] != "";
    }
    if b {
      var j :| 0 <= j < |cells| && cells[j] != "";
      assert cells[j] in cells;
    }
  }

  lemma {:induction false} CellsAppend(attributes: Dict, columns: seq<string>, column: string)
    ensures Cells(attributes, columns + [column]) == Cells(attributes, columns) + [Get(attributes, column, "")]
  {
    if columns != [] {
      assert (columns + [column])[1..] == columns[1..] + [column];
      CellsAppend(attributes, columns[1..], column);
    }
  }

  /** The objects an export writes rows for, in order. */
  function Exported(objects: seq<OSMObject>, columns: seq<string>, typesAllowed: set<string>, skipEmpty: bool): (r: seq<OSMObject>)
    ensures forall o | o in r :: o in objects && Emits(o, columns, typesAllowed, skipEmpty)
    ensures forall o | o in objects && Emits(o, columns, typesAllowed, skipEmpty) :: o in r
  {
    if objects == [] then []
    else
      var rest := Exported(objects[1..], columns, typesAllowed, skipEmpty);
      if Emits(objects[0], columns, typesAllowed, skipEmpty) then [objects[0]] + rest else rest
  }

  function RowLines(objects: seq<OSMObject>, columns: seq<string>): (ls: seq<string>)
    ensures |ls| == |objects|
    ensures forall i | 0 <= i < |objects| :: ls[i] == Join(RowFields(objects[i], columns), Tab)
  {
    if objects == [] then [] else [Join(RowFields(objects[0], columns), Tab)] + RowLines(objects[1..], columns)
  }

  /** The lines of the TSV file an export writes. */
  function ExportLines(objects: seq<OSMObject>, columns: seq<string>, typesAllowed: set<string>, skipEmpty: bool): seq<string>
  {
    [Join(HeaderFields(columns), Tab)] + RowLines(Exported(objects, columns, typesAllowed, skipEmpty), columns)
  }

  /**
   * The second pass of an export: a `TSVOutputter` over the given columns,
   * restricted to `types` when some are given (an empty list restricts
   * nothing), fed every object the handler produced.
   */
  method Export(objects: seq<OSMObject>, columns: seq<string>, types: seq<string>, skipEmpty: bool) returns (text: string)
    ensures text == Concat(ExportLines(objects, columns,
      if types != [] then (set t | t in types) else AllTypes, skipEmpty))
  {
    var out := new TSVOutputter(columns);
    if types != [] {
      out.SetTypesAllowed(types);
    }
    if skipEmpty {
      out.SetSkipEmpty(true);
    }
    ghost var allowed := out.typesAllowed;
    for i := 0 to |objects|
      invariant out.columns == columns && out.typesAllowed == allowed && out.skipEmpty == skipEmpty
      invariant out.file == Concat(ExportLines(objects[..i], columns, allowed, skipEmpty))
    {
      ghost var before := out.file;
      out.Add(objects[i]);
      ExportPrefixStep(objects, i, columns, allowed, skipEmpty, before, out.file);
    }
    assert objects[..|objects|] == objects;
    text := out.file;
  }

  /** Exporting one more object appends its row line exactly when it is emitted. */
  lemma ExportStep(objects: seq<OSMObject>, o: OSMObject, columns: seq<string>, typesAllowed: set<string>, skipEmpty: bool)
    ensures Concat(ExportLines(objects + [o], columns, typesAllowed, skipEmpty)) ==
      Concat(ExportLines(objects, columns, typesAllowed, skipEmpty)) +
      if Emits(o, columns, typesAllowed, skipEmpty) then Join(RowFields(o, columns), Tab) + [Newline] else ""
  {
    var lines := ExportLines(objects, columns, typesAllowed, skipEmpty);
    ExportLinesAppend(objects, o, columns, typesAllowed, skipEmpty);
    if Emits(o, columns, typesAllowed, skipEmpty) {
      var row := Join(RowFields(o, columns), Tab);
      assert ExportLines(objects + [o], columns, typesAllowed, skipEmpty) == lines + [row];
      ConcatAppend(lines, row);
      AppendAssoc(Concat(lines), row, [Newline]);
    } else {
      assert ExportLines(objects + [o], columns, typesAllowed, skipEmpty) == lines + [];
      assert lines + [] == lines;
      assert Concat(lines) + "" == Concat(lines);
    }
  }

  /** The loop step of `Export`: one more `add` extends the file to the next prefix's export. */
  lemma ExportPrefixStep(objects: seq<OSMObject>, i: nat, columns: seq<string>, typesAllowed: set<string>, skipEmpty: bool,
                         before: string, after: string)
    requires i < |objects|
    requires before == Concat(ExportLines(objects[..i], columns, typesAllowed, skipEmpty))
    requires after == before +
      if Emits(objects[i], columns, typesAllowed, skipEmpty) then Join(RowFields(objects[i], columns), Tab) + [Newline] else ""
    ensures after == Concat(ExportLines(objects[..i + 1], columns, typesAllowed, skipEmpty))
  {
    assert objects[..i + 1] == objects[..i] + [objects[i]];
    ExportStep(objects[..i], objects[i], columns, typesAllowed, skipEmpty);
  }

  /** Exporting one more object appends its row exactly when it is emitted. */
  lemma ExportLinesAppend(objects: seq<OSMObject>, o: OSMObject, columns: seq<string>, typesAllowed: set<string>, skipEmpty: bool)
    ensures ExportLines(objects + [o], columns, typesAllowed, skipEmpty) ==
      ExportLines(objects, columns, typesAllowed, skipEmpty) +
      if Emits(o, columns, typesAllowed, skipEmpty) then [Join(RowFields(o, columns), Tab)] else []
  {
    var header := [Join(HeaderFields(columns), Tab)];
    var before := Exported(objects, columns, typesAllowed, skipEmpty);
    ExportedAppend(objects, o, columns, typesAllowed, skipEmpty);
    if Emits(o, columns, typesAllowed, skipEmpty) {
      RowLinesAppend(before, o, columns);
      AppendAssoc(header, RowLines(before, columns), [Join(RowFields(o, columns), Tab)]);
    } else {
      assert before + [] == before;
      assert ExportLines(objects, columns, typesAllowed, skipEmpty) + [] == ExportLines(objects, columns, typesAllowed, skipEmpty);
    }
  }

  lemma {:induction false} ExportedAppend(objects: seq<OSMObject>, o: OSMObject, columns: seq<string>, typesAllowed: set<string>, skipEmpty: bool)
    ensures Exported(objects + [o], columns, typesAllowed, skipEmpty) ==
      Exported(objects, columns, typesAllowed, skipEmpty) + (if Emits(o, columns, typesAllowed, skipEmpty) then [o] else [])
  {
    if objects != [] {
      assert (objects + [o])[1..] == objects[1..] + [o];
      ExportedAppend(objects[1..], o, columns, typesAllowed, skipEmpty);
    }
  }

  lemma RowLinesAppend(objects: seq<OSMObject>, o: OSMObject, columns: seq<string>)
    ensures RowLines(objects + [o], columns) == RowLines(objects, columns) + [Join(RowFields(o, columns), Tab)]
  {
  }

  // ---------------------------------------------------------------- reading

  datatype LoadError =
    | MissingColumn(name: string)     // KeyError from `record.pop(...)`
    | InvalidId(text: string)         // ValueError from `int(...)`
    | Rejected(error: StoreError)     // the storage's UNIQUE constraint

  /** `list(zip(a, b))`: pairs up to the shorter of the two. */
  function Zip(a: seq<string>, b: seq<string>): (r: seq<Entry>)
    ensures |r| == if |a| < |b| then |a| else |b|
    ensures forall i | 0 <= i < |r| :: r[i] == (a[i], b[i])
  {
    if a == [] || b == [] then [] else [(a[0], b[0])] + Zip(a[1..], b[1..])
  }

  /** The column names: the first line split at tabs (`['']` for an empty file). */
  function HeaderOf(text: string): seq<string>
  {
    var ls := ReadLines(text);
    if ls == [] then Split("", Tab) else Split(ls[0], Tab)
  }

  /** The data lines: every line after the first. */
  function RowsOf(text: string): seq<string>
  {
    var ls := ReadLines(text);
    if ls == [] then [] else ls[1..]
  }

  /**
   * One data line: its cells zipped with the column names into a dict, from
   * which `osm_type` and then `osm_id` are popped; the id must parse as an int.
   */
  function ParseRecord(columns: seq<string>, line: string): (r: Result<(Key, Dict), LoadError>)
    ensures var record := FromPairs(Zip(columns, Split(line, Tab)));
      && (r.Ok? <==>
          OsmTypeColumn in ToMap(record) && OsmIdColumn in ToMap(record) && ParseInt(ToMap(record)[OsmIdColumn]).Some?)
      && (r.Ok? ==>
          && r.value.0 == (ToMap(record)[OsmTypeColumn], ParseInt(ToMap(record)[OsmIdColumn]).value)
          && ToMap(r.value.1) == ToMap(record) - {OsmTypeColumn, OsmIdColumn})
  {
    var record := FromPairs(Zip(columns, Split(line, Tab)));
    match Pop(record, OsmTypeColumn)
    case None => Err(MissingColumn(OsmTypeColumn))
    case Some((osmType, rest)) =>
      match Pop(rest, OsmIdColumn)
      case None => Err(MissingColumn(OsmIdColumn))
      case Some((idText, tags)) =>
        match ParseInt(idText)
        case None => Err(InvalidId(idText))
        case Some(id) => Ok(((osmType, id), tags))
  }

  /** Loading data lines into a table: each record is inserted; the first failure stops the load. */
  function LoadRows(columns: seq<string>, rows: seq<string>, table: Table): (r: (Table, Option<LoadError>))
    ensures table.Keys <= r.0.Keys
    decreases |rows|
  {
    if rows == [] then (table, None)
    else match ParseRecord(columns, rows[0])
      case Err(e) => (table, Some(e))
      case Ok((key, record)) =>
        match Insert(table, key.0, key.1, record)
        case Err(e) => (table, Some(Rejected(e)))
        case Ok(table') => LoadRows(columns, rows[1..], table')
  }

  /** `load_tsv_into_storage`: the storage afterwards and the exception that stopped the load, if any. */
  method LoadTsvIntoStorage(text: string, storage: AttributesStorage) returns (err: Option<LoadError>)
    modifies storage
    ensures (storage.table, err) == LoadRows(HeaderOf(text), RowsOf(text), old(storage.table))
  {
    var lines := ReadLines(text);
    var columns := if lines == [] then Split("", Tab) else Split(lines[0], Tab);
    var rows := if lines == [] then [] else lines[1..];
    var i := 0;
    while i < |rows|
      invariant 0 <= i <= |rows|
      invariant LoadRows(columns, rows, old(storage.table)) == LoadRows(columns, rows[i..], storage.table)
    {
      assert rows[i..][0] == rows[i] && rows[i..][1..] == rows[i + 1..];
      var parsed := ParseRecord(columns, rows[i]);
      if parsed.Err? {
        return Some(parsed.error);
      }
      var key := parsed.value.0;
      var added := storage.Add(key.0, key.1, parsed.value.1);
      if added.Err? {
        return Some(Rejected(added.error));
      }
      i := i + 1;
    }
    return None;
  }
}
