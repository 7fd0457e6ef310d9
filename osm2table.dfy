/**
 * osm2table.py, the older export-only tool: a SAX handler that keeps the
 * object being read as a tuple and calls `add_node`, `add_way` or
 * `add_relation` on its store when the object ends; a `ColumnDetector`
 * store that collects tag keys; an `Outputter` store that prints one
 * tab-separated line per object; and `load`, which parses the document
 * twice, first to find the columns and then to print with them.
 */
module Osm2Table {
  import opened Wrappers
  import opened Seqs
  import opened Text
  import opened OsmObjects

  /** An entry of the list of a way or relation tuple: `long(ref)` for `nd`, `(long(ref), type, role)` for `member`. */
  datatype Child =
    | NodeRef(ref: int)
    | MemberRef(ref: int, memberType: string, role: string)

  /** `self.obj`: `(id, attrs, lat, lon)` for a node, `(id, attrs, list)` for a way or relation. */
  datatype Current =
    | NodeTuple(id: int, attrs: map<string, string>, lat: string, lon: string)
    | ListTuple(id: int, attrs: map<string, string>, children: seq<Child>)

  /** A call the handler makes on its store, with the tuple spread as arguments. */
  datatype Call =
    | AddNode(id: int, attrs: map<string, string>, lat: string, lon: string)
    | AddWay(id: int, attrs: map<string, string>, children: seq<Child>)
    | AddRelation(id: int, attrs: map<string, string>, children: seq<Child>)

  /** The exceptions the handler raises. */
  datatype Error =
    | MissingAttribute(element: string, attribute: string)  // KeyError on `attrs[...]`
    | InvalidNumber(text: string)                            // ValueError from `long(...)`
    | NoCurrentObject(element: string)                       // `self.obj` is still None
    | NoAppend(element: string)                              // `obj[2]` of a node tuple is the latitude string
    | WrongArity(element: string)                            // `add_x(*self.obj)` with a tuple of the other shape

  /** `long(attrs[name])` */
  function RequiredNumber(attrs: map<string, string>, element: string, name: string): (r: Result<int, Error>)
    ensures r.Ok? <==> name in attrs && ParseInt(attrs[name]).Some?
    ensures r.Ok? ==> r.value == ParseInt(attrs[name]).value
  {
    if name !in attrs then Err(MissingAttribute(element, name))
    else match ParseInt(attrs[name])
      case None => Err(InvalidNumber(attrs[name]))
      case Some(n) => Ok(n)
  }

  /**
   * `startElement`: the tuple afterwards. An object element starts a new
   * tuple with no tags; `tag` sets one key, the last value winning; `nd`
   * and `member` append to the list; other elements change nothing.
   */
  function OnStart(current: Option<Current>, name: string, attrs: map<string, string>): (r: Result<Option<Current>, Error>)
    ensures name == "node" ==> (r.Ok? <==>
      "id" in attrs && ParseInt(attrs["id"]).Some? && "lat" in attrs && "lon" in attrs)
    ensures name == "node" && r.Ok? ==>
      r.value == Some(NodeTuple(ParseInt(attrs["id"]).value, map[], attrs["lat"], attrs["lon"]))
    ensures name in {"way", "relation"} ==> (r.Ok? <==> "id" in attrs && ParseInt(attrs["id"]).Some?)
    ensures name in {"way", "relation"} && r.Ok? ==> r.value == Some(ListTuple(ParseInt(attrs["id"]).value, map[], []))
    ensures name == "tag" ==> (r.Ok? <==> "v" in attrs && current.Some? && "k" in attrs)
    ensures name == "tag" && r.Ok? ==>
      r.value == Some(current.value.(attrs := current.value.attrs[attrs["k"] := attrs["v"]]))
    ensures name == "nd" ==> (r.Ok? <==>
      current.Some? && current.value.ListTuple? && "ref" in attrs && ParseInt(attrs["ref"]).Some?)
    ensures name == "nd" && r.Ok? ==>
      r.value == Some(current.value.(children := current.value.children + [NodeRef(ParseInt(attrs["ref"]).value)]))
    ensures name == "member" ==> (r.Ok? <==>
      && current.Some? && current.value.ListTuple?
      && "ref" in attrs && ParseInt(attrs["ref"]).Some? && "type" in attrs && "role" in attrs)
    ensures name == "member" && r.Ok? ==>
      r.value == Some(current.value.(children := current.value.children +
        [MemberRef(ParseInt(attrs["ref"]).value, attrs["type"], attrs["role"])]))
    ensures name !in {"node", "way", "relation", "tag", "nd", "member"} ==> r == Ok(current)
  {
    if name == "node" then
      // the tuple's items are evaluated left to right
      match RequiredNumber(attrs, name, "id")
      case Err(e) => Err(e)
      case Ok(id) =>
        if "lat" !in attrs then Err(MissingAttribute(name, "lat"))
        else if "lon" !in attrs then Err(MissingAttribute(name, "lon"))
        else Ok(Some(NodeTuple(id, map[], attrs["lat"], attrs["lon"])))
    else if name == "way" || name == "relation" then
      match RequiredNumber(attrs, name, "id")
      case Err(e) => Err(e)
      case Ok(id) => Ok(Some(ListTuple(id, map[], [])))
    else if name == "tag" then
      // the right-hand side `attrs['v']` is evaluated before the target
      if "v" !in attrs then Err(MissingAttribute(name, "v"))
      else if current.None? then Err(NoCurrentObject(name))
      else if "k" !in attrs then Err(MissingAttribute(name, "k"))
      else Ok(Some(current.value.(attrs := current.value.attrs[attrs["k"] := attrs["v"]])))
    else if name == "nd" || name == "member" then
      // `self.obj[2].append` is looked up before its argument is evaluated
      if current.None? then Err(NoCurrentObject(name))
      else if current.value.NodeTuple? then Err(NoAppend(name))
      else match RequiredNumber(attrs, name, "ref")
        case Err(e) => Err(e)
        case Ok(ref) =>
          if name == "nd" then Ok(Some(current.value.(children := current.value.children + [NodeRef(ref)])))
          else if "type" !in attrs then Err(MissingAttribute(name, "type"))
          else if "role" !in attrs then Err(MissingAttribute(name, "role"))
          else Ok(Some(current.value.(children := current.value.children + [MemberRef(ref, attrs["type"], attrs["role"])])))
    else Ok(current)
  }

  /**
   * `endElement`: the store call the end of an object element makes with
   * the current tuple, which is kept; the tuple must have the shape the
   * called method takes.
   */
  function OnEnd(current: Option<Current>, name: string): (r: Result<Option<Call>, Error>)
    ensures name !in {"node", "way", "relation"} ==> r == Ok(None)
    ensures name == "node" ==> (r.Ok? <==> current.Some? && current.value.NodeTuple?)
    ensures name in {"way", "relation"} ==> (r.Ok? <==> current.Some? && current.value.ListTuple?)
    ensures name in {"node", "way", "relation"} && r.Ok? ==>
      && r.value.Some? && r.value.value.id == current.value.id && r.value.value.attrs == current.value.attrs
      && (name == "node" <==> r.value.value.AddNode?)
      && (name == "way" <==> r.value.value.AddWay?)
    ensures name == "node" && r.Ok? ==>
      r.value.value.lat == current.value.lat && r.value.value.lon == current.value.lon
    ensures name in {"way", "relation"} && r.Ok? ==> r.value.value.children == current.value.children
  {
    if name != "node" && name != "way" && name != "relation" then Ok(None)
    else if current.None? then Err(NoCurrentObject(name))
    else match current.value
      case NodeTuple(id, attrs, lat, lon) =>
        if name == "node" then Ok(Some(AddNode(id, attrs, lat, lon))) else Err(WrongArity(name))
      case ListTuple(id, attrs, children) =>
        if name == "way" then Ok(Some(AddWay(id, attrs, children)))
        else if name == "relation" then Ok(Some(AddRelation(id, attrs, children)))
        else Err(WrongArity(name))
  }

  /** The store calls of one parse in order, then the exception that stopped it, if any. */
  datatype Parsed = Parsed(calls: seq<Call>, error: Option<Error>)

  function Run(current: Option<Current>, events: seq<SaxEvent>): Parsed
    decreases |events|
  {
    if events == [] then Parsed([], None)
    else match events[0]
      case StartElement(name, attrs) =>
        (match OnStart(current, name, attrs)
         case Err(e) => Parsed([], Some(e))
         case Ok(next) => Run(next, events[1..]))
      case EndElement(name) =>
        (match OnEnd(current, name)
         case Err(e) => Parsed([], Some(e))
         case Ok(call) =>
           var rest := Run(current, events[1..]);
           if call.Some? then Parsed([call.value] + rest.calls, rest.error) else rest)
  }

  /** A parse of a whole document with a fresh handler. */
  function Parse(events: seq<SaxEvent>): Parsed
  {
    Run(None, events)
  }

  /** One event: the tuple afterwards and the store call it makes, if any. */
  function Next(current: Option<Current>, e: SaxEvent): Result<(Option<Current>, Option<Call>), Error>
  {
    match e
    case StartElement(name, attrs) =>
      (match OnStart(current, name, attrs)
       case Err(err) => Err(err)
       case Ok(next) => Ok((next, None)))
    case EndElement(name) =>
      (match OnEnd(current, name)
       case Err(err) => Err(err)
       case Ok(call) => Ok((current, call)))
  }

  /** A parse is the first event's step followed by the parse of the rest. */
  lemma RunStep(current: Option<Current>, events: seq<SaxEvent>)
    requires events != []
    ensures Next(current, events[0]).Err? ==> Run(current, events) == Parsed([], Some(Next(current, events[0]).error))
    ensures Next(current, events[0]).Ok? ==>
      var (next, call) := Next(current, events[0]).value;
      var rest := Run(next, events[1..]);
      Run(current, events) == if call.Some? then Parsed([call.value] + rest.calls, rest.error) else rest
  {
  }

  /** An event that may stand between the start and the end of a way or relation element. */
  predicate ChildEvent(e: SaxEvent) {
    match e
    case StartElement(n, a) =>
      || (n == "tag" && "k" in a && "v" in a)
      || (n == "nd" && "ref" in a && ParseInt(a["ref"]).Some?)
      || (n == "member" && "ref" in a && ParseInt(a["ref"]).Some? && "type" in a && "role" in a)
    case EndElement(n) => n !in {"node", "way", "relation"}
  }

  /** The tags after the `tag` children `cs`, stored one after the other: the last value of a key wins. */
  function TagsAfter(tags: map<string, string>, cs: seq<SaxEvent>): map<string, string>
    requires forall i | 0 <= i < |cs| :: ChildEvent(cs[i])
    decreases |cs|
  {
    if cs == [] then tags
    else
      assert ChildEvent(cs[0]);
      var next := if cs[0].StartElement? && cs[0].name == "tag" then tags[cs[0].attrs["k"] := cs[0].attrs["v"]] else tags;
      TagsAfter(next, cs[1..])
  }

  /** The list entries of the `nd` and `member` children, in document order. */
  function ChildrenOf(cs: seq<SaxEvent>): seq<Child>
    requires forall i | 0 <= i < |cs| :: ChildEvent(cs[i])
  {
    if cs == [] then []
    else
      assert ChildEvent(cs[0]);
      var rest := ChildrenOf(cs[1..]);
      if cs[0].StartElement? && cs[0].name == "nd" then [NodeRef(ParseInt(cs[0].attrs["ref"]).value)] + rest
      else if cs[0].StartElement? && cs[0].name == "member" then
        [MemberRef(ParseInt(cs[0].attrs["ref"]).value, cs[0].attrs["type"], cs[0].attrs["role"])] + rest
      else rest
  }

  /** Reading the first child of a way or relation, then the others, fills the tuple as reading them all. */
  lemma ListStep(id: int, tags: map<string, string>, list: seq<Child>, cs: seq<SaxEvent>)
    requires cs != [] && forall i | 0 <= i < |cs| :: ChildEvent(cs[i])
    ensures cs[0].StartElement? ==> match OnStart(Some(ListTuple(id, tags, list)), cs[0].name, cs[0].attrs)
      case Ok(next) =>
        && next.Some? && next.value.ListTuple? && next.value.id == id
        && TagsAfter(next.value.attrs, cs[1..]) == TagsAfter(tags, cs)
        && next.value.children + ChildrenOf(cs[1..]) == list + ChildrenOf(cs)
      case Err(_) => false
    ensures cs[0].EndElement? ==> (
      && OnEnd(Some(ListTuple(id, tags, list)), cs[0].name) == Ok(None)
      && TagsAfter(tags, cs[1..]) == TagsAfter(tags, cs) && ChildrenOf(cs[1..]) == ChildrenOf(cs))
  {
    assert ChildEvent(cs[0]);
    var tail := cs[1..];
    if cs[0].StartElement? {
      var n, a := cs[0].name, cs[0].attrs;
      if n == "nd" {
        var c := NodeRef(ParseInt(a["ref"]).value);
        assert ChildrenOf(cs) == [c] + ChildrenOf(tail);
        assert list + ChildrenOf(cs) == (list + [c]) + ChildrenOf(tail);
      } else if n == "member" {
        var c := MemberRef(ParseInt(a["ref"]).value, a["type"], a["role"]);
        assert ChildrenOf(cs) == [c] + ChildrenOf(tail);
        assert list + ChildrenOf(cs) == (list + [c]) + ChildrenOf(tail);
      }
    }
  }

  /** Reading the children of a way or relation calls nothing and leaves the filled tuple current. */
  lemma {:induction false} ChildrenFold(id: int, tags: map<string, string>, list: seq<Child>, cs: seq<SaxEvent>, rest: seq<SaxEvent>)
    requires forall i | 0 <= i < |cs| :: ChildEvent(cs[i])
    ensures Run(Some(ListTuple(id, tags, list)), cs + rest) ==
      Run(Some(ListTuple(id, TagsAfter(tags, cs), list + ChildrenOf(cs))), rest)
    decreases |cs|
  {
    if cs == [] {
      assert cs + rest == rest;
      assert list + [] == list;
    } else {
      var events := cs + rest;
      assert events[0] == cs[0] && events[1..] == cs[1..] + rest;
      ListStep(id, tags, list, cs);
      if cs[0].StartElement? {
        var o' := OnStart(Some(ListTuple(id, tags, list)), cs[0].name, cs[0].attrs).value.value;
        ChildrenFold(id, o'.attrs, o'.children, cs[1..], rest);
      } else {
        ChildrenFold(id, tags, list, cs[1..], rest);
      }
    }
  }

  /**
   * One well-formed way or relation element makes exactly one store call:
   * its tags are the `tag` children with the last value of a key winning,
   * its list the `nd` refs and `member` triples in document order.
   */
  lemma ListElementFold(name: string, attrs: map<string, string>, cs: seq<SaxEvent>)
    requires name in {"way", "relation"} && "id" in attrs && ParseInt(attrs["id"]).Some?
    requires forall i | 0 <= i < |cs| :: ChildEvent(cs[i])
    ensures var id := ParseInt(attrs["id"]).value;
      var tags := TagsAfter(map[], cs);
      Parse([StartElement(name, attrs)] + cs + [EndElement(name)]) ==
        Parsed([if name == "way" then AddWay(id, tags, ChildrenOf(cs)) else AddRelation(id, tags, ChildrenOf(cs))], None)
  {
    var id := ParseInt(attrs["id"]).value;
    var events := [StartElement(name, attrs)] + cs + [EndElement(name)];
    assert events == [StartElement(name, attrs)] + (cs + [EndElement(name)]);
    StartList(name, attrs, cs + [EndElement(name)]);
    ChildrenFold(id, map[], [], cs, [EndElement(name)]);
    assert [] + ChildrenOf(cs) == ChildrenOf(cs);
    EndList(name, id, TagsAfter(map[], cs), ChildrenOf(cs));
  }

  lemma StartList(name: string, attrs: map<string, string>, rest: seq<SaxEvent>)
    requires name in {"way", "relation"} && "id" in attrs && ParseInt(attrs["id"]).Some?
    ensures Parse([StartElement(name, attrs)] + rest) == Run(Some(ListTuple(ParseInt(attrs["id"]).value, map[], [])), rest)
  {
    var events := [StartElement(name, attrs)] + rest;
    assert events[0] == StartElement(name, attrs) && events[1..] == rest;
  }

  lemma EndList(name: string, id: int, tags: map<string, string>, list: seq<Child>)
    requires name in {"way", "relation"}
    ensures Run(Some(ListTuple(id, tags, list)), [EndElement(name)]) ==
      Parsed([if name == "way" then AddWay(id, tags, list) else AddRelation(id, tags, list)], None)
  {
    assert [EndElement(name)][1..] == [];
  }

  /** The tag keys of every object handed to the store, as a set. */
  function CallKeys(calls: seq<Call>): set<string>
  {
    if calls == [] then {} else calls[0].attrs.Keys + CallKeys(calls[1..])
  }

  /** A key is collected exactly when some object handed to the store has it among its tags. */
  lemma {:induction false} CallKeysMeaning(calls: seq<Call>)
    ensures forall k :: k in CallKeys(calls) <==> exists i | 0 <= i < |calls| :: k in calls[i].attrs
  {
    if calls != [] {
      CallKeysMeaning(calls[1..]);
      assert forall i | 1 <= i < |calls| :: calls[i] == calls[1..][i - 1];
    }
  }

  lemma {:induction false} CallKeysAppend(calls: seq<Call>, c: Call)
    ensures CallKeys(calls + [c]) == CallKeys(calls) + c.attrs.Keys
  {
    if calls != [] {
      assert (calls + [c])[1..] == calls[1..] + [c];
      CallKeysAppend(calls[1..], c);
    }
  }

  class ColumnDetector {
    var columns: set<string>

    constructor ()
      ensures columns == {}
    {
      columns := {};
    }

    /** `add_object`: `columns |= set(attrs.keys())` */
    method AddObject(attrs: map<string, string>)
      modifies this
      ensures columns == old(columns) + attrs.Keys
    {
      columns := columns + attrs.Keys;
    }

    method AddNode(id: int, attrs: map<string, string>, lat: string, lon: string)
      modifies this
      ensures columns == old(columns) + attrs.Keys
    {
      AddObject(attrs);
    }

    method AddWay(id: int, attrs: map<string, string>, nodes: seq<Child>)
      modifies this
      ensures columns == old(columns) + attrs.Keys
    {
      AddObject(attrs);
    }

    method AddRelation(id: int, attrs: map<string, string>, members: seq<Child>)
      modifies this
      ensures columns == old(columns) + attrs.Keys
    {
      AddObject(attrs);
    }
  }

  /** The header line's fields: `osm_id`, `osm_type`, then the columns (the reverse of the other tool's first two). */
  function Header(columns: seq<string>): seq<string>
  {
    ["osm_id", "osm_type"] + columns
  }

  /** `[attrs.get(col, '') for col in columns]` */
  function Cells(attrs: map<string, string>, columns: seq<string>): (cells: seq<string>)
    ensures |cells| == |columns|
    ensures forall i | 0 <= i < |columns| :: cells[i] == if columns[i] in attrs then attrs[columns[i]] else ""
  {
    if columns == [] then []
    else [if columns[0] in attrs then attrs[columns[0]] else ""] + Cells(attrs, columns[1..])
  }

  /** The fields of an object's line: `str(id)`, the type, then one cell per column. */
  function Row(columns: seq<string>, id: int, osmType: string, attrs: map<string, string>): seq<string>
  {
    [IntToString(id), osmType] + Cells(attrs, columns)
  }

  /** The type name each store method passes on to `add_object`. */
  function TypeOf(c: Call): string
  {
    match c
    case AddNode(_, _, _, _) => "node"
    case AddWay(_, _, _) => "way"
    case AddRelation(_, _, _) => "relation"
  }

  function CallRow(columns: seq<string>, c: Call): seq<string>
  {
    Row(columns, c.id, TypeOf(c), c.attrs)
  }

  /** Every line's fields line up with the header's: one per column after the two identity fields. */
  lemma RowMatchesHeader(columns: seq<string>, c: Call)
    ensures |CallRow(columns, c)| == |Header(columns)|
    ensures CallRow(columns, c)[0] == IntToString(c.id) && CallRow(columns, c)[1] == TypeOf(c)
    ensures forall i | 0 <= i < |columns| ::
      CallRow(columns, c)[2 + i] == if columns[i] in c.attrs then c.attrs[columns[i]] else ""
  {
  }

  /** The lines printed for the store calls, in order, all under the same columns. */
  function RowLines(columns: seq<string>, calls: seq<Call>): seq<string>
  {
    if calls == [] then [] else [Join(CallRow(columns, calls[0]), Tab)] + RowLines(columns, calls[1..])
  }

  /** One line per store call, the i-th made of the i-th call's row. */
  lemma {:induction false} RowLinesMeaning(columns: seq<string>, calls: seq<Call>)
    ensures |RowLines(columns, calls)| == |calls|
    ensures forall i | 0 <= i < |calls| :: RowLines(columns, calls)[i] == Join(CallRow(columns, calls[i]), Tab)
  {
    if calls != [] {
      var rest := RowLines(columns, calls[1..]);
      RowLinesMeaning(columns, calls[1..]);
      assert RowLines(columns, calls) == [Join(CallRow(columns, calls[0]), Tab)] + rest;
      forall i | 1 <= i < |calls|
        ensures RowLines(columns, calls)[i] == Join(CallRow(columns, calls[i]), Tab)
      {
        assert RowLines(columns, calls)[i] == rest[i - 1];
        assert calls[1..][i - 1] == calls[i];
      }
    }
  }

  lemma {:induction false} RowLinesAppend(columns: seq<string>, calls: seq<Call>, c: Call)
    ensures RowLines(columns, calls + [c]) == RowLines(columns, calls) + [Join(CallRow(columns, c), Tab)]
  {
    if calls != [] {
      assert (calls + [c])[1..] == calls[1..] + [c];
      RowLinesAppend(columns, calls[1..], c);
    }
  }

  class Outputter {
    const columns: seq<string>
    var lines: seq<string>

    /** Prints the header line. */
    constructor (columns: seq<string>)
      ensures this.columns == columns
      ensures lines == [Join(Header(columns), Tab)]
    {
      this.columns := columns;
      lines := [Join(["osm_id", "osm_type"] + columns, Tab)];
    }

    /** `add_object`: print the object's line. */
    method AddObject(attrs: map<string, string>, id: int, osmType: string)
      modifies this`lines
      ensures lines == old(lines) + [Join(Row(columns, id, osmType, attrs), Tab)]
    {
      lines := lines + [Join([IntToString(id), osmType] + Cells(attrs, columns), Tab)];
    }

    method AddNode(id: int, attrs: map<string, string>, lat: string, lon: string)
      modifies this`lines
      ensures lines == old(lines) + [Join(Row(columns, id, "node", attrs), Tab)]
    {
      AddObject(attrs, id, "node");
    }

    method AddWay(id: int, attrs: map<string, string>, nodes: seq<Child>)
      modifies this`lines
      ensures lines == old(lines) + [Join(Row(columns, id, "way", attrs), Tab)]
    {
      AddObject(attrs, id, "way");
    }

    method AddRelation(id: int, attrs: map<string, string>, members: seq<Child>)
      modifies this`lines
      ensures lines == old(lines) + [Join(Row(columns, id, "relation", attrs), Tab)]
    {
      AddObject(attrs, id, "relation");
    }
  }

  class Handler {
    var obj: Option<Current>

    constructor ()
      ensures obj == None
    {
      obj := None;
    }

    method StartElement(name: string, attrs: map<string, string>) returns (r: Result<(), Error>)
      modifies this
      ensures var s := OnStart(old(obj), name, attrs);
        (r.Ok? <==> s.Ok?) && (s.Ok? ==> obj == s.value) && (s.Err? ==> r.error == s.error)
    {
      var s := OnStart(obj, name, attrs);
      if s.Err? {
        return Err(s.error);
      }
      obj := s.value;
      return Ok(());
    }

    method EndElement(name: string) returns (r: Result<Option<Call>, Error>)
      ensures r == OnEnd(obj, name)
    {
      r := OnEnd(obj, name);
    }
  }

  /** `self.store.add_x(*self.obj)` with the detector as the store. */
  method DetectCall(coldet: ColumnDetector, c: Call)
    modifies coldet
    ensures coldet.columns == old(coldet.columns) + c.attrs.Keys
  {
    match c {
      case AddNode(id, attrs, lat, lon) => coldet.AddNode(id, attrs, lat, lon);
      case AddWay(id, attrs, nodes) => coldet.AddWay(id, attrs, nodes);
      case AddRelation(id, attrs, members) => coldet.AddRelation(id, attrs, members);
    }
  }

  /** `self.store.add_x(*self.obj)` with the outputter as the store. */
  method PrintCall(out: Outputter, c: Call)
    modifies out
    ensures out.lines == old(out.lines) + [Join(CallRow(out.columns, c), Tab)]
  {
    match c {
      case AddNode(id, attrs, lat, lon) => out.AddNode(id, attrs, lat, lon);
      case AddWay(id, attrs, nodes) => out.AddWay(id, attrs, nodes);
      case AddRelation(id, attrs, members) => out.AddRelation(id, attrs, members);
    }
  }

  /** The parser handing one event to the handler. */
  method Dispatch(h: Handler, e: SaxEvent) returns (r: Result<Option<Call>, Error>)
    modifies h
    ensures var n := Next(old(h.obj), e);
      (r.Ok? <==> n.Ok?) && (n.Err? ==> r.error == n.error) && (n.Ok? ==> h.obj == n.value.0 && r.value == n.value.1)
  {
    match e {
      case StartElement(name, attrs) =>
        var s := h.StartElement(name, attrs);
        if s.Err? {
          return Err(s.error);
        }
        return Ok(None);
      case EndElement(name) =>
        r := h.EndElement(name);
    }
  }

  /** The first pass: the handler over the whole document, the detector as its store. */
  method DetectPass(events: seq<SaxEvent>, coldet: ColumnDetector) returns (err: Option<Error>)
    modifies coldet
    ensures err == Parse(events).error
    ensures coldet.columns == old(coldet.columns) + CallKeys(Parse(events).calls)
  {
    var h := new Handler();
    ghost var calls: seq<Call> := [];
    var i := 0;
    while i < |events|
      invariant 0 <= i <= |events|
      invariant var r := Run(h.obj, events[i..]); Parse(events) == Parsed(calls + r.calls, r.error)
      invariant coldet.columns == old(coldet.columns) + CallKeys(calls)
    {
      ghost var before := h.obj;
      RunStep(before, events[i..]);
      assert events[i..][0] == events[i] && events[i..][1..] == events[i + 1..];
      var r := Dispatch(h, events[i]);
      if r.Err? {
        assert calls + [] == calls;
        return Some(r.error);
      }
      if r.value.Some? {
        var c := r.value.value;
        DetectCall(coldet, c);
        CallKeysAppend(calls, c);
        AppendAssoc(calls, [c], Run(h.obj, events[i + 1..]).calls);
        calls := calls + [c];
      }
      i := i + 1;
    }
    assert events[i..] == [];
    assert calls + [] == calls;
    return None;
  }

  /** The second pass: the handler over the whole document, the outputter as its store. */
  method OutputPass(events: seq<SaxEvent>, out: Outputter) returns (err: Option<Error>)
    modifies out
    ensures err == Parse(events).error
    ensures out.lines == old(out.lines) + RowLines(out.columns, Parse(events).calls)
  {
    var h := new Handler();
    ghost var calls: seq<Call> := [];
    var i := 0;
    while i < |events|
      invariant 0 <= i <= |events|
      invariant var r := Run(h.obj, events[i..]); Parse(events) == Parsed(calls + r.calls, r.error)
      invariant out.lines == old(out.lines) + RowLines(out.columns, calls)
    {
      ghost var before := h.obj;
      RunStep(before, events[i..]);
      assert events[i..][0] == events[i] && events[i..][1..] == events[i + 1..];
      var r := Dispatch(h, events[i]);
      if r.Err? {
        assert calls + [] == calls;
        return Some(r.error);
      }
      if r.value.Some? {
        var c := r.value.value;
        ghost var printed := out.lines;
        PrintCall(out, c);
        PrintStep(old(out.lines), printed, out.lines, out.columns, calls, c);
        AppendAssoc(calls, [c], Run(h.obj, events[i + 1..]).calls);
        calls := calls + [c];
      }
      i := i + 1;
    }
    assert events[i..] == [];
    assert calls + [] == calls;
    return None;
  }

  /** Printing one more call's row extends the printed lines by that row. */
  lemma PrintStep(start: seq<string>, before: seq<string>, after: seq<string>, columns: seq<string>, calls: seq<Call>, c: Call)
    requires before == start + RowLines(columns, calls)
    requires after == before + [Join(CallRow(columns, c), Tab)]
    ensures after == start + RowLines(columns, calls + [c])
  {
    RowLinesAppend(columns, calls, c);
    AppendAssoc(start, RowLines(columns, calls), [Join(CallRow(columns, c), Tab)]);
  }

  /** `list(columns)`: the elements of a set, each once, in some order. */
  method SetToSeq(s: set<string>) returns (xs: seq<string>)
    ensures forall x :: x in xs <==> x in s
    ensures forall i, j | 0 <= i < j < |xs| :: xs[i] != xs[j]
  {
    xs := [];
    var rest := s;
    while rest != {}
      invariant forall x :: x in s <==> x in xs || x in rest
      invariant forall x | x in xs :: x !in rest
      invariant forall i, j | 0 <= i < j < |xs| :: xs[i] != xs[j]
      decreases |rest|
    {
      var x :| x in rest;
      xs := xs + [x];
      rest := rest - {x};
    }
  }

  /**
   * `load`: the first pass finds the columns, the second prints the header
   * and one line per object with that same column list. The second pass
   * reads the same document, so an error stops the first pass and nothing
   * is printed; otherwise every object is printed.
   */
  method Load(events: seq<SaxEvent>) returns (columns: seq<string>, lines: seq<string>, err: Option<Error>)
    ensures err == Parse(events).error
    ensures err.Some? ==> lines == []
    ensures err.None? ==> forall k :: k in columns <==> k in CallKeys(Parse(events).calls)
    ensures err.None? ==> forall i, j | 0 <= i < j < |columns| :: columns[i] != columns[j]
    ensures err.None? ==> lines == [Join(Header(columns), Tab)] + RowLines(columns, Parse(events).calls)
  {
    var coldet := new ColumnDetector();
    err := DetectPass(events, coldet);
    if err.Some? {
      return [], [], err;
    }
    columns := SetToSeq(coldet.columns);
    var outputter := new Outputter(columns);
    err := OutputPass(events, outputter);
    lines := outputter.lines;
  }
}
