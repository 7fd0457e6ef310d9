/**
 * Export followed by import: a row written by `TSVOutputter.add` and read
 * back by `load_tsv_into_storage` gives the object's key and one cell per
 * column, and feeding that record to `DiffOutputter.add` leaves an object
 * whose tags are all non-blank unchanged.
 */
module RoundTrip {
  import opened Wrappers
  import opened PyDict
  import opened Text
  import opened OsmObjects
  import opened Storage
  import opened Tsv
  import opened Diff

  /** A field the raw TSV format can carry: no tab, no newline and no carriage return. */
  predicate Plain(s: string) {
    Tab !in s && Newline !in s && Return !in s
  }

  /** Columns that survive a round trip: plain, distinct, and not the two identity columns. */
  predicate ExportableColumns(columns: seq<string>) {
    && (forall i | 0 <= i < |columns| :: Plain(columns[i]))
    && (forall i | 0 <= i < |columns| :: columns[i] != OsmTypeColumn && columns[i] != OsmIdColumn)
    && (forall i, j | 0 <= i < j < |columns| :: columns[i] != columns[j])
  }

  /** An object whose type and tag values are plain. */
  predicate ExportableObject(obj: OSMObject) {
    && Plain(obj.osmType)
    && forall i | 0 <= i < |obj.attributes| :: Plain(obj.attributes[i].1)
  }

  /** The record the row of `obj` stands for: every column with its cell. */
  function RecordOf(obj: OSMObject, columns: seq<string>): (r: seq<Entry>)
    ensures |r| == |columns|
    ensures forall i | 0 <= i < |columns| :: r[i] == (columns[i], Get(obj.attributes, columns[i], ""))
    ensures ExportableColumns(columns) ==> DistinctKeys(r)
  {
    Zip(columns, Cells(obj.attributes, columns))
  }

  lemma PlainCells(obj: OSMObject, columns: seq<string>)
    requires ExportableObject(obj)
    ensures forall i | 0 <= i < |columns| :: Plain(Cells(obj.attributes, columns)[i])
  {
    forall i | 0 <= i < |columns| ensures Plain(Cells(obj.attributes, columns)[i]) {
      var k := columns[i];
      if k in ToMap(obj.attributes) {
        InToMapIff(obj.attributes, k);
        var j := IndexOf(obj.attributes, k);
        ToMapAt(obj.attributes, j);
      }
    }
  }

  /**
   * The row of an exportable object, read back under the header written
   * for the same columns, gives the object's key and its record.
   */
  lemma RowRoundTrip(obj: OSMObject, columns: seq<string>)
    requires ExportableColumns(columns) && ExportableObject(obj)
    ensures DistinctKeys(RecordOf(obj, columns))
    ensures ParseRecord(HeaderFields(columns), Join(RowFields(obj, columns), Tab)) ==
      Ok(((obj.osmType, obj.id), RecordOf(obj, columns)))
  {
    var record := RecordOf(obj, columns);
    RowPairs(obj, columns);
    var d: Dict := [(OsmTypeColumn, obj.osmType), (OsmIdColumn, IntToString(obj.id))] + record;
    PopFirst(d);
    var rest: Dict := d[1..];
    PopFirst(rest);
    assert rest[1..] == record;
    ParseIntToString(obj.id);
  }

  /** The row read back under the header: the two identity entries, then the record, as a dictionary. */
  lemma RowPairs(obj: OSMObject, columns: seq<string>)
    requires ExportableColumns(columns) && ExportableObject(obj)
    ensures var pairs := [(OsmTypeColumn, obj.osmType), (OsmIdColumn, IntToString(obj.id))] + RecordOf(obj, columns);
      && DistinctKeys(pairs)
      && FromPairs(Zip(HeaderFields(columns), Split(Join(RowFields(obj, columns), Tab), Tab))) == pairs
  {
    RowFieldsSplit(obj, columns);
    var pairs := Zip(HeaderFields(columns), RowFields(obj, columns));
    ZipRow(obj, columns);
    IdentityFirst(obj, columns);
    assert [] + pairs == pairs;
    UpdateFresh([], pairs);
  }

  /** Zipping the header with a row gives the identity entries, then the record. */
  lemma ZipRow(obj: OSMObject, columns: seq<string>)
    ensures Zip(HeaderFields(columns), RowFields(obj, columns)) ==
      [(OsmTypeColumn, obj.osmType), (OsmIdColumn, IntToString(obj.id))] + RecordOf(obj, columns)
  {
    var header, fields := HeaderFields(columns), RowFields(obj, columns);
    var pairs := Zip(header, fields);
    var expected := [(OsmTypeColumn, obj.osmType), (OsmIdColumn, IntToString(obj.id))] + RecordOf(obj, columns);
    assert |pairs| == |expected|;
    forall i | 0 <= i < |pairs| ensures pairs[i] == expected[i] {
      if i >= 2 {
        assert header[i] == columns[i - 2];
        assert fields[i] == Cells(obj.attributes, columns)[i - 2];
      }
    }
  }

  /** The identity entries come before the record's columns, which are distinct and not identity columns. */
  lemma IdentityFirst(obj: OSMObject, columns: seq<string>)
    requires ExportableColumns(columns)
    ensures DistinctKeys([(OsmTypeColumn, obj.osmType), (OsmIdColumn, IntToString(obj.id))] + RecordOf(obj, columns))
  {
    var record := RecordOf(obj, columns);
    var pairs := [(OsmTypeColumn, obj.osmType), (OsmIdColumn, IntToString(obj.id))] + record;
    forall i, j | 0 <= i < j < |pairs| ensures pairs[i].0 != pairs[j].0 {
      if j >= 2 {
        assert pairs[j] == record[j - 2];
        if i >= 2 {
          assert pairs[i] == record[i - 2];
        }
      }
    }
  }

  /** No field of an exportable row holds a tab, so splitting the line gives the fields back. */
  lemma RowFieldsSplit(obj: OSMObject, columns: seq<string>)
    requires ExportableObject(obj)
    ensures Split(Join(RowFields(obj, columns), Tab), Tab) == RowFields(obj, columns)
  {
    var fields := RowFields(obj, columns);
    var cells := Cells(obj.attributes, columns);
    PlainCells(obj, columns);
    IntToStringPlain(obj.id);
    forall i | 0 <= i < |fields| ensures Tab !in fields[i] {
      if i >= 2 {
        assert fields[i] == cells[i - 2];
      }
    }
    SplitJoin(fields, Tab);
  }

  /** Where a key of a dictionary's mapping sits, and what it holds there. */
  lemma EntryOf(d: Dict, k: string)
    requires k in ToMap(d)
    ensures IndexOf(d, k) < |d| && d[IndexOf(d, k)] == (k, ToMap(d)[k])
  {
    InToMapIff(d, k);
    ToMapAt(d, IndexOf(d, k));
  }

  /** The record read back maps each of its keys to the object's value, or `''`. */
  lemma RecordMapping(obj: OSMObject, columns: seq<string>, k: string)
    requires ExportableColumns(columns)
    requires k in ToMap(RecordOf(obj, columns))
    ensures ToMap(RecordOf(obj, columns))[k] == Get(obj.attributes, k, "")
  {
    var record: Dict := RecordOf(obj, columns);
    EntryOf(record, k);
  }

  /**
   * Importing, unchanged, the row exported for an object whose tags are
   * all non-blank leaves the object unchanged: no tag differs and the
   * action is not forced to `modify`, whatever the ignore prefix.
   */
  lemma ReimportUnchanged(obj: OSMObject, columns: seq<string>, prefix: Option<string>)
    requires ExportableColumns(columns)
    requires forall i | 0 <= i < |obj.attributes| :: !Blank(obj.attributes[i].1)
    ensures Decide(obj, Some(RecordOf(obj, columns)), prefix) == Decision(obj.attributes, false)
  {
    var record: Dict := RecordOf(obj, columns);
    if record != [] {
      var a := ToMap(obj.attributes);
      var r := ToMap(record);
      assert forall k | k in a :: !Blank(a[k]) by {
        forall k | k in a ensures !Blank(a[k]) {
          EntryOf(obj.attributes, k);
        }
      }
      assert forall k | k in r :: r[k] == Get(obj.attributes, k, "") by {
        forall k | k in r ensures r[k] == Get(obj.attributes, k, "") {
          RecordMapping(obj, columns, k);
        }
      }
      assert Blank("") by {
        BlankIff("");
      }
      assert MergedFrom(a, a, r, prefix);
      MergeMeaning(obj.attributes, record, prefix);
      MergedFromUnique(a, ToMap(ApplyChanges(obj.attributes, record, prefix)), a, r, prefix);
    }
  }

  /** No two of the objects share a `(type, id)` key. */
  predicate DistinctIds(objects: seq<OSMObject>) {
    forall i, j | 0 <= i < j < |objects| :: (objects[i].osmType, objects[i].id) != (objects[j].osmType, objects[j].id)
  }

  /** The table a load of the rows of `objects` builds on top of `table`. */
  function LoadedFrom(table: Table, objects: seq<OSMObject>, columns: seq<string>): Table
    requires ExportableColumns(columns)
    decreases |objects|
  {
    if objects == [] then table
    else
      var record: Dict := RecordOf(objects[0], columns);
      LoadedFrom(table[(objects[0].osmType, objects[0].id) := record], objects[1..], columns)
  }

  /** After the load, the key of each object holds that object's record. */
  lemma {:induction false} LoadedFromLookup(table: Table, objects: seq<OSMObject>, columns: seq<string>, i: nat)
    requires ExportableColumns(columns) && DistinctIds(objects) && i < |objects|
    ensures Lookup(LoadedFrom(table, objects, columns), objects[i].osmType, objects[i].id) == Some(RecordOf(objects[i], columns))
    decreases |objects|
  {
    var record: Dict := RecordOf(objects[0], columns);
    var table' := table[(objects[0].osmType, objects[0].id) := record];
    if i == 0 {
      LoadedFromKeeps(table', objects[1..], columns, (objects[0].osmType, objects[0].id));
    } else {
      LoadedFromLookup(table', objects[1..], columns, i - 1);
    }
  }

  /** A key that none of the objects has keeps its entry through the load. */
  lemma {:induction false} LoadedFromKeeps(table: Table, objects: seq<OSMObject>, columns: seq<string>, key: Key)
    requires ExportableColumns(columns) && key in table
    requires forall i | 0 <= i < |objects| :: (objects[i].osmType, objects[i].id) != key
    ensures key in LoadedFrom(table, objects, columns) && LoadedFrom(table, objects, columns)[key] == table[key]
    decreases |objects|
  {
    if objects != [] {
      var record: Dict := RecordOf(objects[0], columns);
      LoadedFromKeeps(table[(objects[0].osmType, objects[0].id) := record], objects[1..], columns, key);
    }
  }

  /**
   * Loading the row lines of exportable objects with distinct keys, under
   * the header written for the same columns, into a table that has none
   * of their keys, inserts every record and raises nothing.
   */
  lemma {:induction false} LoadRowLines(table: Table, objects: seq<OSMObject>, columns: seq<string>)
    requires ExportableColumns(columns) && DistinctIds(objects)
    requires forall i | 0 <= i < |objects| :: ExportableObject(objects[i]) && (objects[i].osmType, objects[i].id) !in table
    ensures LoadRows(HeaderFields(columns), RowLines(objects, columns), table) == (LoadedFrom(table, objects, columns), None)
    decreases |objects|
  {
    if objects != [] {
      var o := objects[0];
      var rows := RowLines(objects, columns);
      var record: Dict := RecordOf(o, columns);
      assert rows[1..] == RowLines(objects[1..], columns);
      LoadRowOf(table, o, columns, rows);
      var table' := table[(o.osmType, o.id) := record];
      var tail := objects[1..];
      forall i | 0 <= i < |tail|
        ensures ExportableObject(tail[i]) && (tail[i].osmType, tail[i].id) !in table'
      {
        assert tail[i] == objects[i + 1];
      }
      forall i, j | 0 <= i < j < |tail| ensures (tail[i].osmType, tail[i].id) != (tail[j].osmType, tail[j].id) {
        assert tail[i] == objects[i + 1] && tail[j] == objects[j + 1];
      }
      LoadRowLines(table', tail, columns);
    }
  }

  /** The row of an exportable object with a new key is inserted and the load goes on. */
  lemma LoadRowOf(table: Table, o: OSMObject, columns: seq<string>, rows: seq<string>)
    requires ExportableColumns(columns) && ExportableObject(o) && (o.osmType, o.id) !in table
    requires rows != [] && rows[0] == Join(RowFields(o, columns), Tab)
    ensures var record: Dict := RecordOf(o, columns);
      LoadRows(HeaderFields(columns), rows, table) == LoadRows(HeaderFields(columns), rows[1..], table[(o.osmType, o.id) := record])
  {
    RowRoundTrip(o, columns);
    LoadRowsStep(HeaderFields(columns), rows, table, (o.osmType, o.id), RecordOf(o, columns));
  }

  /** A row that parses to a new key is inserted and the load goes on. */
  lemma LoadRowsStep(columns: seq<string>, rows: seq<string>, table: Table, key: Key, record: Dict)
    requires rows != [] && ParseRecord(columns, rows[0]) == Ok((key, record)) && key !in table
    ensures LoadRows(columns, rows, table) == LoadRows(columns, rows[1..], table[key := record])
  {
    assert Insert(table, key.0, key.1, record) == Ok(table[key := record]);
  }

  /** Keeping some of the objects, in order, keeps their keys distinct. */
  lemma {:induction false} ExportedDistinct(objects: seq<OSMObject>, columns: seq<string>, typesAllowed: set<string>, skipEmpty: bool)
    requires DistinctIds(objects)
    ensures DistinctIds(Exported(objects, columns, typesAllowed, skipEmpty))
  {
    if objects != [] {
      ExportedDistinct(objects[1..], columns, typesAllowed, skipEmpty);
      var rest := Exported(objects[1..], columns, typesAllowed, skipEmpty);
      var r := Exported(objects, columns, typesAllowed, skipEmpty);
      if Emits(objects[0], columns, typesAllowed, skipEmpty) {
        forall i, j | 0 <= i < j < |r| ensures (r[i].osmType, r[i].id) != (r[j].osmType, r[j].id) {
          if i == 0 {
            assert r[j] == rest[j - 1] && r[j] in objects[1..];
            var k :| 0 <= k < |objects[1..]| && objects[1..][k] == r[j];
            assert objects[k + 1] == r[j];
          } else {
            assert r[i] == rest[i - 1] && r[j] == rest[j - 1];
          }
        }
      }
    }
  }

  lemma JoinWithout(fields: seq<string>, sep: char, c: char)
    requires c != sep
    requires forall i | 0 <= i < |fields| :: c !in fields[i]
    ensures c !in Join(fields, sep)
    decreases |fields|
  {
    if |fields| > 1 {
      JoinWithout(fields[1..], sep, c);
    }
  }

  /** The fields of an exportable object's row are plain. */
  lemma RowFieldsPlain(obj: OSMObject, columns: seq<string>)
    requires ExportableObject(obj)
    ensures forall i | 0 <= i < |RowFields(obj, columns)| :: Plain(RowFields(obj, columns)[i])
  {
    var fields := RowFields(obj, columns);
    PlainCells(obj, columns);
    IntToStringPlain(obj.id);
    forall i | 0 <= i < |fields| ensures Plain(fields[i]) {
      if i >= 2 {
        assert fields[i] == Cells(obj.attributes, columns)[i - 2];
      }
    }
  }

  /** No line an export of exportable objects writes holds a newline or a carriage return. */
  lemma ExportLinesPlain(objects: seq<OSMObject>, columns: seq<string>, typesAllowed: set<string>, skipEmpty: bool)
    requires ExportableColumns(columns)
    requires forall i | 0 <= i < |objects| :: ExportableObject(objects[i])
    ensures var lines := ExportLines(objects, columns, typesAllowed, skipEmpty);
      forall i | 0 <= i < |lines| :: Newline !in lines[i] && Return !in lines[i]
  {
    var exported := Exported(objects, columns, typesAllowed, skipEmpty);
    var lines := ExportLines(objects, columns, typesAllowed, skipEmpty);
    var header := HeaderFields(columns);
    assert forall i | 0 <= i < |header| :: Plain(header[i]) by {
      forall i | 0 <= i < |header| ensures Plain(header[i]) {
        if i >= 2 {
          assert header[i] == columns[i - 2];
        }
      }
    }
    forall i | 0 <= i < |exported| ensures ExportableObject(exported[i]) {
      assert exported[i] in exported;
    }
    forall i | 0 <= i < |lines| ensures Newline !in lines[i] && Return !in lines[i] {
      if i == 0 {
        JoinPlain(header);
      } else {
        RowFieldsPlain(exported[i - 1], columns);
        JoinPlain(RowFields(exported[i - 1], columns));
      }
    }
  }

  /** A line of plain fields joined with tabs holds no newline and no carriage return. */
  lemma JoinPlain(fields: seq<string>)
    requires forall i | 0 <= i < |fields| :: Plain(fields[i])
    ensures Newline !in Join(fields, Tab) && Return !in Join(fields, Tab)
  {
    JoinWithout(fields, Tab, Newline);
    JoinWithout(fields, Tab, Return);
  }

  /**
   * The whole file round trip: loading into an empty storage the text an
   * export writes for exportable objects with distinct keys raises nothing
   * and stores, under each exported object's key, its row's record.
   */
  lemma LoadExport(objects: seq<OSMObject>, columns: seq<string>, typesAllowed: set<string>, skipEmpty: bool)
    requires ExportableColumns(columns) && DistinctIds(objects)
    requires forall i | 0 <= i < |objects| :: ExportableObject(objects[i])
    ensures var text := Concat(ExportLines(objects, columns, typesAllowed, skipEmpty));
      LoadRows(HeaderOf(text), RowsOf(text), map[]) ==
        (LoadedFrom(map[], Exported(objects, columns, typesAllowed, skipEmpty), columns), None)
  {
    var exported := Exported(objects, columns, typesAllowed, skipEmpty);
    var lines := ExportLines(objects, columns, typesAllowed, skipEmpty);
    var header := HeaderFields(columns);
    assert forall i | 0 <= i < |header| :: Plain(header[i]) by {
      forall i | 0 <= i < |header| ensures Plain(header[i]) {
        if i >= 2 {
          assert header[i] == columns[i - 2];
        }
      }
    }
    forall i | 0 <= i < |exported| ensures ExportableObject(exported[i]) {
      assert exported[i] in exported;
    }
    ExportLinesPlain(objects, columns, typesAllowed, skipEmpty);
    ReadLinesConcat(lines);
    SplitJoin(header, Tab);
    ExportedDistinct(objects, columns, typesAllowed, skipEmpty);
    LoadRowLines(map[], exported, columns);
  }

  /** The same export saved with "\r\n" line ends loads exactly as the "\n" file does. */
  lemma LoadExportCrlf(objects: seq<OSMObject>, columns: seq<string>, typesAllowed: set<string>, skipEmpty: bool)
    requires ExportableColumns(columns) && DistinctIds(objects)
    requires forall i | 0 <= i < |objects| :: ExportableObject(objects[i])
    ensures var text := ConcatCrlf(ExportLines(objects, columns, typesAllowed, skipEmpty));
      LoadRows(HeaderOf(text), RowsOf(text), map[]) ==
        (LoadedFrom(map[], Exported(objects, columns, typesAllowed, skipEmpty), columns), None)
  {
    var lines := ExportLines(objects, columns, typesAllowed, skipEmpty);
    ExportLinesPlain(objects, columns, typesAllowed, skipEmpty);
    ReadLinesCrlf(lines);
    ReadLinesConcat(lines);
    LoadExport(objects, columns, typesAllowed, skipEmpty);
  }

  /** A key that none of the objects has and the table lacks stays absent. */
  lemma {:induction false} LoadedFromAbsent(table: Table, objects: seq<OSMObject>, columns: seq<string>, key: Key)
    requires ExportableColumns(columns) && key !in table
    requires forall i | 0 <= i < |objects| :: (objects[i].osmType, objects[i].id) != key
    ensures key !in LoadedFrom(table, objects, columns)
    decreases |objects|
  {
    if objects != [] {
      var record: Dict := RecordOf(objects[0], columns);
      var tail := objects[1..];
      forall i | 0 <= i < |tail| ensures (tail[i].osmType, tail[i].id) != key {
        assert tail[i] == objects[i + 1];
      }
      LoadedFromAbsent(table[(objects[0].osmType, objects[0].id) := record], tail, columns, key);
    }
  }

  /**
   * Export, then import of the file unedited: every object of the original
   * document whose tags are all non-blank is written to the changefile
   * exactly as with no spreadsheet at all, its tags and its action intact,
   * whether or not its row was exported.
   */
  lemma ExportImportUnchanged(objects: seq<OSMObject>, columns: seq<string>, typesAllowed: set<string>, skipEmpty: bool,
                              prefix: Option<string>, quote: string -> string, n: nat)
    requires ExportableColumns(columns) && DistinctIds(objects)
    requires forall i | 0 <= i < |objects| :: ExportableObject(objects[i])
    requires n < |objects| && forall i | 0 <= i < |objects[n].attributes| :: !Blank(objects[n].attributes[i].1)
    ensures var text := Concat(ExportLines(objects, columns, typesAllowed, skipEmpty));
      var loaded := LoadRows(HeaderOf(text), RowsOf(text), map[]);
      var record := Lookup(loaded.0, objects[n].osmType, objects[n].id);
      && loaded.1 == None
      && Decide(objects[n], record, prefix) == Decision(objects[n].attributes, false)
      && ObjectItems(objects[n], record, prefix, quote) == ObjectItems(objects[n], None, prefix, quote)
  {
    var obj := objects[n];
    var exported := Exported(objects, columns, typesAllowed, skipEmpty);
    LoadExport(objects, columns, typesAllowed, skipEmpty);
    ExportedDistinct(objects, columns, typesAllowed, skipEmpty);
    var table := LoadedFrom(map[], exported, columns);
    if Emits(obj, columns, typesAllowed, skipEmpty) {
      assert obj in exported;
      var k :| 0 <= k < |exported| && exported[k] == obj;
      LoadedFromLookup(map[], exported, columns, k);
      ReimportUnchanged(obj, columns, prefix);
    } else {
      forall i | 0 <= i < |exported| ensures (exported[i].osmType, exported[i].id) != (obj.osmType, obj.id) {
        assert exported[i] in objects;
        var j :| 0 <= j < |objects| && objects[j] == exported[i];
        assert j != n;
      }
      LoadedFromAbsent(map[], exported, columns, (obj.osmType, obj.id));
    }
  }

  /** A node `id=1` at a fixed place with one tag `name=Foo`, no metadata. */
  function FooNode(id: int): OSMObject
  {
    OSMObject("node", id, [("name", "Foo")], None, None, None, None, None, None, None, Some("51.5"), Some("-0.1"), [], [])
  }

  /** The exported file for the columns `[name]` and one row of cells. */
  lemma ScenarioText(obj: OSMObject, cell: string)
    requires obj.osmType == "node" && obj.id == 1 && ExportableObject(obj)
    requires Get(obj.attributes, "name", "") == cell
    ensures ScenarioFile(cell) == Concat(ExportLines([obj], ["name"], AllTypes, false))
  {
    var header := Join(HeaderFields(["name"]), Tab);
    var row := Join(RowFields(obj, ["name"]), Tab);
    ScenarioHeader();
    ScenarioRow(obj, cell);
    assert Exported([obj], ["name"], AllTypes, false) == [obj];
    var lines := ExportLines([obj], ["name"], AllTypes, false);
    assert lines == [header, row];
    assert Concat(lines[1..]) == row + [Newline];
    assert Concat(lines) == header + [Newline] + (row + [Newline]);
  }

  lemma ScenarioHeader()
    ensures Join(HeaderFields(["name"]), Tab) == "osm_type\tosm_id\tname"
  {
    var fields := HeaderFields(["name"]);
    assert fields[1..][1..] == ["name"];
  }

  lemma ScenarioRow(obj: OSMObject, cell: string)
    requires obj.osmType == "node" && obj.id == 1
    requires Get(obj.attributes, "name", "") == cell
    ensures Join(RowFields(obj, ["name"]), Tab) == "node\t1\t" + cell
  {
    assert IntToString(1) == "1";
    var fields := RowFields(obj, ["name"]);
    assert fields == ["node", "1", cell];
    assert Join(fields[2..], Tab) == cell;
    assert Join(fields[1..], Tab) == "1" + [Tab] + cell;
    assert Join(fields, Tab) == "node" + [Tab] + ("1" + [Tab] + cell);
  }

  /** Loading that file stores the one record, keyed `(node, 1)`. */
  lemma ScenarioLoad(obj: OSMObject, cell: string)
    requires obj.osmType == "node" && obj.id == 1 && ExportableObject(obj)
    requires Get(obj.attributes, "name", "") == cell
    ensures LoadRows(HeaderOf(ScenarioFile(cell)), RowsOf(ScenarioFile(cell)), map[]) == (map[("node", 1) := [("name", cell)]], None)
  {
    ScenarioText(obj, cell);
    assert ExportableColumns(["name"]);
    assert DistinctIds([obj]);
    LoadExport([obj], ["name"], AllTypes, false);
    assert Exported([obj], ["name"], AllTypes, false) == [obj];
    assert RecordOf(obj, ["name"]) == [("name", cell)];
  }

  /** The file an export of node 1 under the columns `[name]` writes, with `cell` in its one cell. */
  function ScenarioFile(cell: string): string
  {
    "osm_type\tosm_id\tname\nnode\t1\t" + cell + "\n"
  }

  /** The same file saved with "\r\n" line ends. */
  function ScenarioCrlfFile(cell: string): string
  {
    "osm_type\tosm_id\tname\r\nnode\t1\t" + cell + "\r\n"
  }

  lemma ScenarioCrlfText(obj: OSMObject, cell: string)
    requires obj.osmType == "node" && obj.id == 1 && ExportableObject(obj)
    requires Get(obj.attributes, "name", "") == cell
    ensures ScenarioCrlfFile(cell) == ConcatCrlf(ExportLines([obj], ["name"], AllTypes, false))
  {
    var header := Join(HeaderFields(["name"]), Tab);
    var row := Join(RowFields(obj, ["name"]), Tab);
    ScenarioHeader();
    ScenarioRow(obj, cell);
    assert Exported([obj], ["name"], AllTypes, false) == [obj];
    var lines := ExportLines([obj], ["name"], AllTypes, false);
    assert lines == [header, row];
    assert ConcatCrlf(lines[1..]) == row + [Return, Newline];
    assert ConcatCrlf(lines) == header + [Return, Newline] + (row + [Return, Newline]);
  }

  /** Loading the "\r\n" file stores the same one record as the "\n" file. */
  lemma ScenarioCrlfLoad(obj: OSMObject, cell: string)
    requires obj.osmType == "node" && obj.id == 1 && ExportableObject(obj)
    requires Get(obj.attributes, "name", "") == cell
    ensures LoadRows(HeaderOf(ScenarioCrlfFile(cell)), RowsOf(ScenarioCrlfFile(cell)), map[]) == (map[("node", 1) := [("name", cell)]], None)
  {
    ScenarioCrlfText(obj, cell);
    assert ExportableColumns(["name"]);
    assert DistinctIds([obj]);
    LoadExportCrlf([obj], ["name"], AllTypes, false);
    assert Exported([obj], ["name"], AllTypes, false) == [obj];
    assert RecordOf(obj, ["name"]) == [("name", cell)];
  }

  /**
   * Clearing the `name` cell of node 1 in the exported file (the record
   * `ScenarioLoad` stores for the cell `''`) deletes the tag: the node is
   * written self-closed, with `action="modify"`.
   */
  lemma ClearedNameScenario(quote: string -> string)
    ensures ObjectItems(FooNode(1), Some([("name", "")]), None, quote) ==
      [StartTag("node", [("id", quote("1")), ("lat", quote("51.5")), ("lon", quote("-0.1")), ("action", quote("modify"))], true)]
  {
    ClearedNameDecision();
    FooNodeModified(quote);
  }

  /**
   * Leaving the `name` cell of node 2 as exported (`Foo`) changes nothing:
   * the node keeps its own action, here none, and its `name` tag.
   */
  lemma UnchangedNameScenario(quote: string -> string)
    ensures ObjectItems(FooNode(2), Some([("name", "Foo")]), None, quote) ==
      [ StartTag("node", [("id", quote("2")), ("lat", quote("51.5")), ("lon", quote("-0.1"))], false),
        StartTag("tag", [("k", quote("name")), ("v", quote("Foo"))], true),
        EndTag("node") ]
  {
    var obj := FooNode(2);
    var d := Decision([("name", "Foo")], false);
    UnchangedNameDecision();
    assert ObjectItems(obj, Some([("name", "Foo")]), None, quote) == ElementItems(obj, d, quote);
    FooNodeUnmodified(quote);
    var head := StartTag("node", [("id", quote("2")), ("lat", quote("51.5")), ("lon", quote("-0.1"))], false);
    var tag := StartTag("tag", [("k", quote("name")), ("v", quote("Foo"))], true);
    assert ElementAttrs(obj, d, quote) == head.attrs && !Simple(obj, d);
    assert TagItems(d.tags, quote) == [tag] by {
      assert d.tags[1..] == [];
    }
    assert NdItems(obj.nodes, quote) == [] && MemberItems(obj.members, quote) == [];
    assert ElementItems(obj, d, quote) == [head] + ([] + ([] + ([tag] + [EndTag("node")])));
  }

  /** The merge of the unedited row of node 2 leaves its tags as they were. */
  lemma UnchangedNameDecision()
    ensures Decide(FooNode(2), Some([("name", "Foo")]), None) == Decision([("name", "Foo")], false)
  {
    var obj := FooNode(2);
    assert !Blank("Foo") by {
      BlankIff("Foo");
      assert !IsSpace("Foo"[0]);
    }
    assert ExportableColumns(["name"]);
    assert RecordOf(obj, ["name"]) == [("name", "Foo")];
    ReimportUnchanged(obj, ["name"], None);
  }

  /** The merge of the cleared row: no tag is left, and the node has changed. */
  lemma ClearedNameDecision()
    ensures Decide(FooNode(1), Some([("name", "")]), None) == Decision([], true)
  {
    var obj := FooNode(1);
    var record: Dict := [("name", "")];
    var merged := ApplyChanges(obj.attributes, record, None);
    MergeMeaning(obj.attributes, record, None);
    assert Blank("") by {
      BlankIff("");
    }
    assert ToMap(merged) == map[] by {
      assert forall k | k in ToMap(merged) :: k in ToMap(record) || k in ToMap(obj.attributes);
    }
    ToMapEmpty(merged);
  }

  /** The attributes written for a node with no metadata but its place: id, lat, lon, then the action if any. */
  lemma PlaceOnlyAttrs(obj: OSMObject, action: Option<string>, quote: string -> string)
    requires obj.timestamp.None? && obj.uid.None? && obj.user.None? && obj.visible.None?
    requires obj.version.None? && obj.changeset.None? && obj.lat.Some? && obj.lon.Some?
    ensures Rendered(ObjectAttrs(obj, action), quote) ==
      [("id", quote(IntToString(obj.id))), ("lat", quote(obj.lat.value)), ("lon", quote(obj.lon.value))]
      + (if action.Some? then [("action", quote(action.value))] else [])
  {
    var attrs := ObjectAttrs(obj, action);
    var last: seq<(string, string)> := if action.Some? then [("action", quote(action.value))] else [];
    var place := [("lat", quote(obj.lat.value)), ("lon", quote(obj.lon.value))] + last;
    RenderedCons(attrs[9], [], quote);
    assert attrs[9..] == [attrs[9]] + [];
    RenderedCons(attrs[8], attrs[9..], quote);
    RenderedCons(attrs[7], attrs[8..], quote);
    assert Rendered(attrs[7..], quote) == place;
    RenderedMetadata(attrs, quote);
    RenderedCons(attrs[0], attrs[1..], quote);
  }

  /** The six metadata attributes between id and lat render to nothing when absent. */
  lemma RenderedMetadata(attrs: seq<(string, Option<string>)>, quote: string -> string)
    requires |attrs| == 10 && forall i | 1 <= i < 7 :: attrs[i].1.None?
    ensures Rendered(attrs[1..], quote) == Rendered(attrs[7..], quote)
  {
    RenderedCons(attrs[6], attrs[7..], quote);
    RenderedCons(attrs[5], attrs[6..], quote);
    RenderedCons(attrs[4], attrs[5..], quote);
    RenderedCons(attrs[3], attrs[4..], quote);
    RenderedCons(attrs[2], attrs[3..], quote);
    RenderedCons(attrs[1], attrs[2..], quote);
  }

  /** The attributes written for node 1 once it is marked modified. */
  lemma FooNodeModified(quote: string -> string)
    ensures Rendered(ObjectAttrs(FooNode(1), Some("modify")), quote) ==
      [("id", quote("1")), ("lat", quote("51.5")), ("lon", quote("-0.1")), ("action", quote("modify"))]
  {
    var obj := FooNode(1);
    assert obj.id == 1 && obj.lat == Some("51.5") && obj.lon == Some("-0.1");
    PlaceOnlyAttrs(obj, Some("modify"), quote);
    SmallIds();
  }

  /** The attributes written for node 2 with its own (absent) action. */
  lemma FooNodeUnmodified(quote: string -> string)
    ensures Rendered(ObjectAttrs(FooNode(2), None), quote) ==
      [("id", quote("2")), ("lat", quote("51.5")), ("lon", quote("-0.1"))]
  {
    var obj := FooNode(2);
    assert obj.id == 2 && obj.lat == Some("51.5") && obj.lon == Some("-0.1");
    PlaceOnlyAttrs(obj, None, quote);
    SmallIds();
  }

  lemma SmallIds()
    ensures IntToString(1) == "1" && IntToString(2) == "2"
  {
  }
}
