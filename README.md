# osm-spreadsheet, modelled in Dafny

The tool edits OpenStreetMap tags through a spreadsheet. The **export**
command reads an `.osm` XML document and writes one TSV row per node, way and
relation: `osm_type`, `osm_id`, then one cell per tag column. The **import**
command reads the edited TSV into an attribute store keyed by `(type, id)`.
It then re-reads the original document and writes a JOSM changefile. In that
file, every object whose merged tags differ from its original tags carries
`action="modify"`. `osm2table.py` is an older Python 2 export-only tool. It
parses the document twice: once to find the columns, then to print rows with
them.

The model follows the two scripts piece by piece.

| module | file | models |
|---|---|---|
| `Wrappers` | `wrappers.dfy` | `Option` and `Result` |
| `PyDict` | `pydict.dfy` | Python 3 dicts, which keep insertion order: a sequence of pairs with distinct keys. `ToMap` is the abstract mapping; `Put`, `Update`, `Filter`, `Pop` and `FromPairs` are dict operations |
| `Seqs` | `seqs.dfy` | one fact about sequence concatenation, shared by the output modules |
| `Text` | `text.dfy` | `split`/`join`, reading a text file line by line with universal newlines, `strip()`, `str(int)` and `int(str)` |
| `OsmObjects` | `osm_object.dfy` | `OSMObject` and the SAX events an object is built from |
| `Storage` | `storage.dfy` | `OSMAttributesStorage`, a finite map whose insert fails on a duplicate key |
| `Columns` | `columns.dfy` | `ColumnDetector` of osm_spreadsheet.py |
| `Tsv` | `tsv.dfy` | `TSVOutputter` and `load_tsv_into_storage` |
| `Ingest` | `ingest.dfy` | `Handler` of osm_spreadsheet.py: a fold over SAX events that hands finished objects on |
| `Diff` | `diff.dfy` | `DiffOutputter`: `_apply_changes`, `add`, `_output_xml_element` and `finish`. The changefile is modelled as a sequence of element records |
| `RoundTrip` | `roundtrip.dfy` | export followed by import; concrete single-node documents |
| `Osm2Table` | `osm2table.dfy` | all of osm2table.py: `ColumnDetector`, `Outputter`, `Handler` and the two-pass `load` |

Where the source changes state, so does the model:
- the handlers, column detectors, outputters and the store are classes whose methods update their fields;
- `TSVOutputter.add`, `DiffOutputter.add`, `load_tsv_into_storage` and both passes of `load` are methods with loops.

Each method is proved against a function of the inputs and the old state. The
properties the tools rely on are proved about those functions as lemmas:
- the merge rules;
- the changefile shape;
- the export/import round trip;
- the column union;
- the row and header layout.

Points where the code behaves in a way that is easy to miss:

- **Duplicate store keys are rejected.** The `UNIQUE(osm_type, osm_id)`
  constraint (osm_spreadsheet.py:51) makes a second `add` of the same
  `(type, id)` raise. `Storage.Insert` and `Storage.AttributesStorage.Add`
  return `DuplicateKey`. A TSV with two rows for one object therefore stops the
  import at the second row (`Tsv.LoadRows`).
- **The finished object is kept after its end element.** Neither handler
  resets `self.obj` when an object ends (osm_spreadsheet.py:130-132,
  osm2table.py:59-65). `Ingest.OnEnd` and `Osm2Table.OnEnd` keep `current`. So
  a `tag` after an object's end changes the kept object, and only a later
  repeated end element would hand it on again.
- **The TSV file is read with universal newlines.** It is opened in text mode
  (osm_spreadsheet.py:308), so `"\r\n"` and a lone `"\r"` arrive as `"\n"`
  before `readline` and the line loop see them (`Text.Universal`). A file saved
  with `"\r\n"` line ends loads exactly as one saved with `"\n"`
  (`RoundTrip.LoadExportCrlf`). A carriage return can therefore never reach a
  cell, so the round-trip lemmas require cells without one (`RoundTrip.Plain`).
- **A child before any object fails.** A `tag`, `nd` or `member` before the
  first object fails the same way the code does: the AttributeError or
  TypeError on `None` becomes `NoCurrentObject`. osm2table.py has two more
  failures, and both are modelled:
  - `nd` or `member` inside a node tuple becomes `NoAppend`;
  - an end element whose tuple has the other shape becomes `WrongArity`.
- **Python's evaluation order decides which error is reported.** `Ingest.OnStart`
  reads `attrs['v']` before `self.obj` and `attrs['k']`, as Python evaluates
  `a[k] = v`.
- **Rows are zipped with the header and cut short.** `dict(zip(...))` stops at
  the shorter of the two lists (`Tsv.Zip`). A short row can therefore lose
  `osm_id` (`MissingColumn`). A repeated header name keeps its first position
  and its last value (`PyDict.FromPairs`).
- **A tag column named `osm_type` or `osm_id` collides with the identity
  columns.** The round-trip lemmas exclude such columns (`RoundTrip.ExportableColumns`).
- **Unchanged objects are copied as they were.** An object whose merge gives
  exactly its original tags is written with the original tags in their
  original order and the original `action`.

## Model

| member | source | states |
|---|---|---|
| `PyDict.Get` | osm_spreadsheet.py:94 | `d.get(k, default)`: the mapped value when the key is present, the default otherwise |
| `PyDict.Put` | osm_spreadsheet.py:124 | `d[k] = v`: the mapping gains or overwrites `k`; an existing key keeps its position and a new key goes last |
| `PyDict.ToMapEmpty` | osm_spreadsheet.py:171 | a dict maps nothing exactly when it is empty, which is when it is false |
| `PyDict.UpdateToMap` | osm_spreadsheet.py:164 | `d.update(e)`: keys of `e` override those of `d`, and the other keys of `d` stay |
| `PyDict.FilterToMap` | osm_spreadsheet.py:162-165 | a dict comprehension with a condition keeps exactly the entries that satisfy it |
| `PyDict.FilterOrder` | osm_spreadsheet.py:162-165 | a dict comprehension with a condition keeps the surviving keys in their order |
| `PyDict.UpdateKeys` | osm_spreadsheet.py:164 | after `d.update(e)` the keys of `d` stay where they were, and the keys of `e` that `d` lacks follow in the order of `e` |
| `PyDict.Remove` | osm_spreadsheet.py:227-228 | removing a key drops it from the mapping and leaves the other entries; a missing key changes nothing |
| `PyDict.RemoveOrder` | osm_spreadsheet.py:227-228 | removing a present key leaves exactly the entries before it and after it, in order |
| `PyDict.Pop` | osm_spreadsheet.py:227-228 | `pop(k)` fails exactly when `k` is missing. Otherwise it returns the value at `k`'s position, and a dict that maps every other key as before, with the entries before and after `k` in order |
| `Text.Split` | osm_spreadsheet.py:223-225 | `split(sep)` gives at least one field, and no field contains the separator |
| `Text.SplitJoin` | osm_spreadsheet.py:223-225 | splitting a joined list of separator-free fields gives those fields back |
| `Text.JoinSplit` | osm_spreadsheet.py:223-225 | joining the fields of a split gives the original string |
| `Text.Lines` | osm_spreadsheet.py:223-225 | the lines of a text, each with its newline stripped, contain no newline |
| `Text.LinesConcat` | osm_spreadsheet.py:223-225 | cutting at newlines a text made of `line + "\n"` lines gives those lines |
| `Text.Universal` | osm_spreadsheet.py:308 | text mode turns `"\r\n"` and a lone `"\r"` into `"\n"`: no carriage return is left, and the text does not grow |
| `Text.UniversalPlain` | osm_spreadsheet.py:308 | a text without carriage returns is read unchanged |
| `Text.UniversalCrlf` | osm_spreadsheet.py:308 | a file of `line + "\r\n"` lines reads as the file of `line + "\n"` lines |
| `Text.ReadLines` | osm_spreadsheet.py:223-225 | the lines `readline` and the line loop deliver, each with its newline stripped, contain no newline |
| `Text.ReadLinesConcat` | osm_spreadsheet.py:223-225 | reading back a file written as `line + "\n"` lines, none holding a newline or a carriage return, gives those lines |
| `Text.ReadLinesCrlf` | osm_spreadsheet.py:223-225 | reading back a file written as `line + "\r\n"` lines gives the same lines |
| `Text.BlankIff` | osm_spreadsheet.py:165 | `v.strip() == ''` exactly when every character of `v` is whitespace |
| `Text.ParseIntToString` | osm_spreadsheet.py:228 | `int(str(i)) == i` for every integer |
| `Text.IntToStringPlain` | osm_spreadsheet.py:99 | `str(id)` holds no tab, no newline and no carriage return |
| `Storage.Insert` | osm_spreadsheet.py:51-58 | the insert fails with `DuplicateKey` exactly when the key is present; otherwise it adds the key with the given record and keeps every other entry |
| `Storage.LookupAfterInsert` | osm_spreadsheet.py:55-65 | after a successful insert, `get` of that key returns the record and `get` of any other key is unchanged |
| `Storage.AttributesStorage.constructor` | osm_spreadsheet.py:42-53 | a new store is empty |
| `Storage.AttributesStorage.Add` | osm_spreadsheet.py:55-58 | `add` is rejected exactly when the key is already stored, leaving the store unchanged; otherwise it stores the record under `(type, id)` |
| `Storage.AttributesStorage.Get` | osm_spreadsheet.py:60-65 | `get` returns the stored record when the key is present and None otherwise |
| `Columns.ColumnDetector.constructor` | osm_spreadsheet.py:68-69 | the column set starts empty |
| `Columns.ColumnDetector.Add` | osm_spreadsheet.py:71-72 | the columns become the old columns plus the object's tag keys |
| `Columns.DetectColumns` | osm_spreadsheet.py:233-239 | after the detection pass, a key is a column exactly when some object has it as a tag key |
| `Tsv.Cells` | osm_spreadsheet.py:94 | one cell per column, in column order: the tag value, or `''` when the object lacks the tag |
| `Tsv.RowMatchesHeader` | osm_spreadsheet.py:76-99 | a row has as many fields as the header, and starts with the type and `str(id)` |
| `Tsv.TSVOutputter.constructor` | osm_spreadsheet.py:75-82 | the file holds exactly the header line `osm_type, osm_id, columns...`; all three types are allowed and empty rows are not skipped |
| `Tsv.TSVOutputter.SetTypesAllowed` | osm_spreadsheet.py:84-85 | the allowed types become the set of the given types |
| `Tsv.TSVOutputter.SetSkipEmpty` | osm_spreadsheet.py:87-88 | the skip-empty flag becomes the given value |
| `Tsv.TSVOutputter.Add` | osm_spreadsheet.py:90-99 | the file grows by the object's row exactly when its type is allowed and it is not an all-empty row under skip-empty; otherwise the file is unchanged |
| `Tsv.CollectCells` | osm_spreadsheet.py:94 | the cell loop computes `[attributes.get(col, '') for col in columns]` |
| `Tsv.AnyNonEmpty` | osm_spreadsheet.py:96 | `any(columns)` is true exactly when some cell is not `''` |
| `Tsv.Exported` | osm_spreadsheet.py:90-97 | the exported objects are exactly the input objects that pass the type and skip-empty filters |
| `Tsv.RowLines` | osm_spreadsheet.py:99 | one tab-joined row per object, in order |
| `Tsv.Export` | osm_spreadsheet.py:244-255 | the export writes the header and then the row of each object that passes the filters, in document order; an empty type list allows all three types |
| `Tsv.ExportStep` | osm_spreadsheet.py:90-99 | feeding one more object appends its row exactly when it passes the filters |
| `Tsv.Zip` | osm_spreadsheet.py:226 | `zip` pairs the header with the cells, position by position, up to the shorter of the two |
| `Tsv.ParseRecord` | osm_spreadsheet.py:225-228 | a row loads exactly when its record has `osm_type` and an `osm_id` that parses as an integer; the key is that pair and the record is everything else |
| `Tsv.LoadRows` | osm_spreadsheet.py:224-230 | loading rows only adds keys to the store |
| `Tsv.LoadTsvIntoStorage` | osm_spreadsheet.py:219-230 | the store after the load, and the error that stopped it, are those of loading the data lines under the first line's columns |
| `Ingest.Required` | osm_spreadsheet.py:117-128 | `attrs[name]` succeeds exactly when the attribute is present, and returns its value |
| `Ingest.NewObject` | osm_spreadsheet.py:116-122 | a new object has the element's type, `int(attrs['id'])`, no tags, nodes or members, and the optional metadata; only a node carries lat/lon. It fails exactly when `id` is missing or not an integer, or a node lacks `lat` or `lon` |
| `Ingest.OnStart` | osm_spreadsheet.py:115-128 | an object element starts a new object; `tag` sets `k` to `v`, so the last value wins; `nd` and `member` append in order, and each of the three fails exactly when there is no object or an attribute it reads is missing; other elements change nothing |
| `Ingest.OnEnd` | osm_spreadsheet.py:130-132 | an object end hands the current object on, and the end element of anything else hands nothing on; an object end with no object fails |
| `Ingest.FilledStep` | osm_spreadsheet.py:123-128 | one child event inside an object never fails and moves the fold one step |
| `Ingest.ChildrenFold` | osm_spreadsheet.py:115-132 | a run of child events inside an object is the same as starting from the filled-in object |
| `Ingest.ObjectElementFold` | osm_spreadsheet.py:115-132 | a whole object element hands on exactly one object: its tags are those of the `tag` children with the last value winning, its nodes are the `nd` refs in order, and its members are the `member` triples in order |
| `Ingest.Handler.constructor` | osm_spreadsheet.py:111-113 | a new handler has no current object |
| `Ingest.Handler.StartElement` | osm_spreadsheet.py:115-128 | the handler's object becomes the result of `OnStart`, and the call fails with its error |
| `Ingest.Handler.EndElement` | osm_spreadsheet.py:130-132 | what the handler hands on is the result of `OnEnd` |
| `Ingest.Drive` | osm_spreadsheet.py:252-255 | feeding the events one by one hands on the objects of `Parse`, in order, and stops at the same error |
| `Diff.MergeMeaning` | osm_spreadsheet.py:159-165 | `_apply_changes` keeps no blank value. A non-ignored spreadsheet column decides its key: a non-blank cell sets it and a blank cell deletes it. Every other key, including an ignored column, keeps the object's value unless that value is blank |
| `Diff.MergeOrder` | osm_spreadsheet.py:159-165 | the merged tags keep the object's own keys in their order, followed by the spreadsheet columns the object lacks, in column order; ignored columns and blank values are left out |
| `Diff.KeptColumns` | osm_spreadsheet.py:161-163 | with a true prefix, the columns that start with it are dropped; without one nothing is dropped |
| `Diff.OverlayMerged` | osm_spreadsheet.py:164-165 | overlaying the kept columns and dropping blank values meets the merge rules |
| `Diff.MergedFromUnique` | osm_spreadsheet.py:159-165 | the merge rules determine the merged mapping uniquely |
| `Diff.Decide` | osm_spreadsheet.py:167-175 | with no record or an empty one, the written tags are the original tags. A changed object is written with exactly the merge, entry for entry and in the merge's order (the order `MergeOrder` states); the object is changed exactly when the merge differs from the original tags as a mapping, and an unchanged object keeps its original tags in their order |
| `Diff.ApplyRecord` | osm_spreadsheet.py:168-175 | the statements of `add` compute the tags and the changed flag of `Decide` |
| `Diff.RenderedSpec` | osm_spreadsheet.py:154-155 | rendered attributes keep their order; every attribute whose value is not None appears quoted, and nothing else appears |
| `Diff.RenderedPresence` | osm_spreadsheet.py:154-155 | for distinct names, a name appears exactly when its value is not None; an empty string still appears |
| `Diff.ObjectAttrNames` | osm_spreadsheet.py:178-189 | the object attributes are `id, timestamp, uid, user, visible, version, changeset, lat, lon, action`, in that order and distinct |
| `Diff.ObjectAttrsRendered` | osm_spreadsheet.py:178-189 | the object element shows its attributes in that fixed order: `id` first, and every other attribute exactly when its value is present |
| `Diff.ElementAttributes` | osm_spreadsheet.py:178-189 | a changed object's element carries `action="modify"`; an unchanged one carries its own action, or no action attribute when it has none |
| `Diff.ElementShape` | osm_spreadsheet.py:177-203 | the element is self-closed, with nothing after it, exactly when the written tags, nodes and members are all empty. Otherwise the `nd` children come first, then the `member` children, then the `tag` children, each in order, followed by `</type>` |
| `Diff.NdItemsMeaning` | osm_spreadsheet.py:191-192 | the i-th `nd` child is self-closed with `ref` set to the i-th node |
| `Diff.MemberItemsMeaning` | osm_spreadsheet.py:193-198 | the i-th `member` child carries the i-th member's type, ref and role |
| `Diff.TagItemsMeaning` | osm_spreadsheet.py:199-200 | the i-th `tag` child carries the i-th written key and value |
| `Diff.EmptyRecordIsNoRecord` | osm_spreadsheet.py:170-171 | an empty spreadsheet record writes the same element as no record, and no record never changes an object |
| `Diff.BlankOriginalForcesChange` | osm_spreadsheet.py:165-175 | with any non-empty record, an object that has a blank tag value is changed, and its written tags are all non-blank |
| `Diff.ClearedCellDeletesTag` | osm_spreadsheet.py:164-188 | clearing a non-ignored cell of an existing tag deletes that tag and marks the object `modify` |
| `Diff.CellSetsTag` | osm_spreadsheet.py:164-175 | a non-ignored non-blank cell becomes the written value of its key; if that differs from the original, the object is changed |
| `Diff.IgnoredColumnHasNoEffect` | osm_spreadsheet.py:161-175 | adding or changing an ignored column of a non-empty record changes neither the written tags nor the changed flag |
| `Diff.DiffOutputter.constructor` | osm_spreadsheet.py:140-145 | a new outputter has written the prolog and root element, and has no ignore prefix |
| `Diff.DiffOutputter.SetColumnIgnorePrefix` | osm_spreadsheet.py:147-148 | the ignore prefix becomes the given one |
| `Diff.DiffOutputter.Add` | osm_spreadsheet.py:167-203 | `add` appends exactly the element of the object, merged with the record the store holds for its `(type, id)` |
| `Diff.DiffOutputter.AddAll` | osm_spreadsheet.py:266-269 | feeding several objects appends their elements in order, each with its own record |
| `Diff.DiffOutputter.Finish` | osm_spreadsheet.py:205-206 | `finish` appends `</osm>` |
| `Diff.WriteNodes` | osm_spreadsheet.py:191-192 | the `nd` loop writes one self-closed `nd` per node, in order |
| `Diff.WriteMembers` | osm_spreadsheet.py:193-198 | the member loop writes one `member` element per member, in order |
| `Diff.WriteTags` | osm_spreadsheet.py:199-200 | the tag loop writes one `tag` per written entry, in order |
| `Diff.WriteChangefile` | osm_spreadsheet.py:261-270 | the import writes the prolog, the element of every object in document order, and `</osm>`; an empty prefix ignores nothing |
| `RoundTrip.RecordOf` | osm_spreadsheet.py:226 | the record of a row has one entry per column, mapping the column to its cell |
| `RoundTrip.RowRoundTrip` | osm_spreadsheet.py:223-228 | reading back an exported row gives key `(type, id)` and the record that maps every column to `attributes.get(col, '')` |
| `RoundTrip.RowFieldsSplit` | osm_spreadsheet.py:225 | splitting an exported row at tabs gives back its fields |
| `RoundTrip.RecordMapping` | osm_spreadsheet.py:226 | in a re-imported record, every column maps to the object's tag value, or `''` |
| `RoundTrip.ReimportUnchanged` | osm_spreadsheet.py:159-175 | re-importing an object's own row leaves the object unchanged when its tags are all non-blank, whatever the prefix |
| `RoundTrip.LoadRowLines` | osm_spreadsheet.py:224-230 | loading the rows of distinct objects stores each object's record under its key, with no error |
| `RoundTrip.ExportLinesPlain` | osm_spreadsheet.py:76-99 | no line an export of exportable objects writes holds a newline or a carriage return |
| `RoundTrip.LoadExport` | osm_spreadsheet.py:219-230 | loading an exported file stores exactly the records of the exported objects, with no error |
| `RoundTrip.LoadExportCrlf` | osm_spreadsheet.py:219-230 | the same export saved with `"\r\n"` line ends loads the same records, with no error |
| `RoundTrip.ExportImportUnchanged` | osm_spreadsheet.py:167-175 | after export and import, an object whose tags are all non-blank is written exactly as with no record: not changed, with its original tags and action |
| `RoundTrip.ScenarioHeader` | osm_spreadsheet.py:76-78 | example of `Tsv.Export`: the header of a one-column export is `osm_type<TAB>osm_id<TAB>name` |
| `RoundTrip.ScenarioRow` | osm_spreadsheet.py:99 | example of `Tsv.RowMatchesHeader`: node 1 with the given `name` exports as `node<TAB>1<TAB>name` |
| `RoundTrip.ScenarioText` | osm_spreadsheet.py:244-255 | example of `Tsv.Export`: the export of that node is the header line followed by its row |
| `RoundTrip.ScenarioLoad` | osm_spreadsheet.py:219-230 | example of `RoundTrip.LoadExport`: loading that file stores `{name: cell}` under `("node", 1)` |
| `RoundTrip.ScenarioCrlfText` | osm_spreadsheet.py:244-255 | example of `Tsv.Export` saved with `"\r\n"` line ends: the header line and the row, each followed by `"\r\n"` |
| `RoundTrip.ScenarioCrlfLoad` | osm_spreadsheet.py:219-230 | example of `RoundTrip.LoadExportCrlf`: loading the `"\r\n"` file stores the same `{name: cell}` under `("node", 1)` |
| `RoundTrip.UnchangedNameDecision` | osm_spreadsheet.py:167-175 | example of `RoundTrip.ReimportUnchanged`: a record repeating node 2's `name=Foo` tag leaves it unchanged |
| `RoundTrip.ClearedNameDecision` | osm_spreadsheet.py:167-175 | example of `Diff.ClearedCellDeletesTag`: clearing node 1's only tag `name=Foo` deletes it and changes the node |
| `RoundTrip.UnchangedNameScenario` | osm_spreadsheet.py:177-203 | example of `Diff.ElementShape`: unchanged node 2 is written open, with its `name` tag and a closing tag, and no action |
| `RoundTrip.ClearedNameScenario` | osm_spreadsheet.py:177-203 | example of `Diff.ElementShape`: node 1 with its only tag cleared is written self-closed with `action="modify"` |
| `RoundTrip.PlaceOnlyAttrs` | osm_spreadsheet.py:178-189 | example of `Diff.ObjectAttrsRendered`: a node with no metadata renders as `id, lat, lon` and then the action, if any |
| `RoundTrip.FooNodeModified` | osm_spreadsheet.py:178-189 | example of `Diff.ObjectAttrsRendered`: the modified node's attributes render as `id, lat, lon, action` |
| `RoundTrip.FooNodeUnmodified` | osm_spreadsheet.py:178-189 | example of `Diff.ObjectAttrsRendered`: the unmodified node without an action renders as `id, lat, lon` |
| `Osm2Table.RequiredNumber` | osm2table.py:47-57 | `long(attrs[name])` succeeds exactly when the attribute is present and its value is an integer |
| `Osm2Table.OnStart` | osm2table.py:45-57 | `node` makes `(id, {}, lat, lon)`; `way` and `relation` make `(id, {}, [])`. `tag` sets `k` to `v`, so the last value wins. `nd` appends `long(ref)` and `member` appends `(long(ref), type, role)`, in order. Each fails exactly when an attribute it reads is missing, a number does not parse, there is no tuple, or (for `nd` and `member`) the tuple is a node's; other elements change nothing |
| `Osm2Table.OnEnd` | osm2table.py:59-65 | a node end calls `add_node(id, attrs, lat, lon)`; a way or relation end calls `add_way` or `add_relation(id, attrs, list)`. Each fails exactly when there is no tuple of that shape; other ends call nothing |
| `Osm2Table.ChildrenFold` | osm2table.py:52-57 | the children of a way or relation fold into its tuple: tags with the last value winning, `nd` and `member` entries appended in order |
| `Osm2Table.ListElementFold` | osm2table.py:45-65 | a whole way or relation element produces exactly one call, carrying its id, its folded tags and its list in document order |
| `Osm2Table.StartList` | osm2table.py:48-51 | a way or relation start begins an empty tuple with the parsed id |
| `Osm2Table.EndList` | osm2table.py:62-65 | a way or relation end calls `add_way` or `add_relation` with the tuple spread out |
| `Osm2Table.CallKeysMeaning` | osm2table.py:11-21 | the collected keys are exactly those that are a tag key of some call |
| `Osm2Table.ColumnDetector.constructor` | osm2table.py:8-9 | the column set starts empty |
| `Osm2Table.ColumnDetector.AddObject` | osm2table.py:11-12 | the columns become the old columns plus the tag keys |
| `Osm2Table.ColumnDetector.AddNode` | osm2table.py:14-15 | `add_node` adds its tag keys to the columns |
| `Osm2Table.ColumnDetector.AddWay` | osm2table.py:17-18 | `add_way` adds its tag keys to the columns |
| `Osm2Table.ColumnDetector.AddRelation` | osm2table.py:20-21 | `add_relation` adds its tag keys to the columns |
| `Osm2Table.Cells` | osm2table.py:29 | one cell per column, in order: the tag value, or `''` |
| `Osm2Table.RowMatchesHeader` | osm2table.py:25-29 | a row is `str(id), type` and then the cells, as long as the header `osm_id, osm_type, columns...` |
| `Osm2Table.RowLinesMeaning` | osm2table.py:29 | one tab-joined row per call, in order |
| `Osm2Table.Outputter.constructor` | osm2table.py:24-26 | a new outputter has printed exactly the header line, and keeps the column list |
| `Osm2Table.Outputter.AddObject` | osm2table.py:28-29 | `add_object` prints one row for the object under the kept column list |
| `Osm2Table.Outputter.AddNode` | osm2table.py:31-32 | `add_node` prints the object's row with type `node` |
| `Osm2Table.Outputter.AddWay` | osm2table.py:34-35 | `add_way` prints the object's row with type `way` |
| `Osm2Table.Outputter.AddRelation` | osm2table.py:37-38 | `add_relation` prints the object's row with type `relation` |
| `Osm2Table.Handler.constructor` | osm2table.py:41-43 | a new handler has no tuple |
| `Osm2Table.Handler.StartElement` | osm2table.py:45-57 | the handler's tuple becomes the result of `OnStart`, and the call fails with its error |
| `Osm2Table.Handler.EndElement` | osm2table.py:59-65 | the call the handler makes is the result of `OnEnd` |
| `Osm2Table.DetectCall` | osm2table.py:59-65 | a call on the column detector adds that call's tag keys |
| `Osm2Table.PrintCall` | osm2table.py:59-65 | a call on the outputter prints that call's row |
| `Osm2Table.Dispatch` | osm2table.py:45-65 | one event moves the handler as the fold's step does, and produces that step's call |
| `Osm2Table.DetectPass` | osm2table.py:72-76 | the first pass stops at the parse's error and adds exactly the tag keys of every call made before it |
| `Osm2Table.OutputPass` | osm2table.py:78-82 | the second pass stops at the same error and prints one row per call, in order, under the fixed column list |
| `Osm2Table.SetToSeq` | osm2table.py:78 | `list(set)` holds every element of the set exactly once |
| `Osm2Table.Load` | osm2table.py:67-82 | a failing first pass prints nothing. Otherwise the column list is the union of all tag keys with no repeats, and the output is the header and one row per object, all under that same single list |

## Left out

- The XML text and the SAX parser (`make_parser`, `parse`, `seek`) are not modelled. The handler's input is a sequence of `SaxEvent`s, and an element's attributes are a string mapping. Malformed XML is not modelled.
- Objects are not handed over while the parse runs. In the source, each finished object goes to the outputter as its end tag is read. The model collects `Parse(events).objects` first, then feeds them to the outputter (`Ingest.Parsed`). The objects before an error are the same in both. What the model does not capture is that, in the source, the outputter has already written those objects when the exception escapes.
- sqlite3 and pickle are not modelled: the store is a map from `(type, id)` to a record. The 64-bit limit of an sqlite `integer` is not modelled, so ids are unbounded.
- `xml.sax.saxutils.quoteattr` is not defined: the model takes it as a parameter, the function `quote`.
- `DiffOutputter.add`'s output bytes are not modelled. The prolog text, indentation, the `%s<%s %s%s>` layout and `.encode` are left out. Each element is a record (`Diff.XmlItem`): a name, an ordered attribute list with absent values removed, and a self-closed flag.
- Newline translation on output is not modelled: rows are written with `"\n"`, which is what text mode writes on POSIX systems. On Windows it writes `"\r\n"`, and `RoundTrip.LoadExportCrlf` states that such a file loads the same.
- osm2table.py's `print` statements are not modelled as output: each printed line is a string in `Outputter.lines`. `.encode('utf-8')` is taken as the identity.
- `int()` and `long()` are simplified: an optional sign and ASCII decimal digits (`Text.ParseInt`). Surrounding whitespace, `_` separators, non-ASCII digits and Python 2's `L` suffix are not accepted.
- `strip()` is simplified: it removes only the ASCII characters `str.isspace()` accepts (`Text.IsSpace`), not the other Unicode whitespace.
- Set iteration order is not modelled. `list(coldet.columns)` gives an unspecified order. `Osm2Table.SetToSeq` may choose any order, and `Tsv.Export` takes any column list.
- `OSMAttributesStorageOutputter` and `load_xml_into_storage` are not modelled. No command uses them.
- `OSMObject.__str__` is not modelled; it is only used for debugging.
- `argparse`, `main`, the file arguments and the module-level `load(sys.argv[1])` call are not modelled. Their orchestration is stated as:
  - `Columns.DetectColumns`;
  - `Tsv.Export`;
  - `Diff.WriteChangefile`;
  - `Osm2Table.Load`.
- The handler state after an exception is not modelled: the model stops at the first error. An example is the node object that `startElement` has already stored before `attrs['lat']` fails.
- `Tsv.LoadRows`: its own contract states only that loading adds keys. What it stores is stated by `RoundTrip.LoadRowLines` and `RoundTrip.LoadExport`, and `Tsv.LoadTsvIntoStorage` is proved equal to it.
- `Diff.Rendered`, `Diff.NdItems`, `Diff.MemberItems` and `Diff.TagItems`: their own contracts bound only the length. Their contents are stated by `Diff.RenderedSpec` and the `...Meaning` lemmas.
