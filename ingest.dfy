/**
 * `Handler`: the SAX content handler of osm_spreadsheet.py. It keeps the
 * object being read in `obj`, fills it from the `tag`, `nd` and `member`
 * children, and hands it to the consumer when the object element ends.
 * The parser itself is not modelled: its callbacks are a sequence of events.
 */
module Ingest {
  import opened Wrappers
  import opened PyDict
  import opened Text
  import opened OsmObjects

  /** The exceptions the handler can raise on malformed input. */
  datatype IngestError =
    | MissingAttribute(element: string, attribute: string)  // KeyError on `attrs[...]`
    | InvalidNumber(text: string)                            // ValueError from `int(...)`
    | NoCurrentObject(element: string)                       // a child or end before any object

  function Required(attrs: map<string, string>, element: string, name: string): (r: Result<string, IngestError>)
    ensures r.Ok? <==> name in attrs
    ensures r.Ok? ==> r.value == attrs[name]
  {
    if name in attrs then Ok(attrs[name]) else Err(MissingAttribute(element, name))
  }

  /** The fresh object `startElement` builds for a `node`, `way` or `relation` element. */
  function NewObject(name: string, attrs: map<string, string>): (r: Result<OSMObject, IngestError>)
    requires name in ObjectElements
    ensures r.Ok? ==> (
      && r.value.osmType == name && r.value.attributes == []
      && r.value.nodes == [] && r.value.members == []
      && "id" in attrs && ParseInt(attrs["id"]) == Some(r.value.id)
      && r.value.timestamp == AttrGet(attrs, "timestamp") && r.value.user == AttrGet(attrs, "user")
      && r.value.uid == AttrGet(attrs, "uid") && r.value.version == AttrGet(attrs, "version")
      && r.value.changeset == AttrGet(attrs, "changeset") && r.value.visible == AttrGet(attrs, "visible")
      && r.value.action == AttrGet(attrs, "action")
      && (name == "node" ==> "lat" in attrs && "lon" in attrs && r.value.lat == Some(attrs["lat"]) && r.value.lon == Some(attrs["lon"]))
      && (name != "node" ==> r.value.lat == None && r.value.lon == None))
    ensures r.Err? <==> (
      || "id" !in attrs || ParseInt(attrs["id"]).None?
      || (name == "node" && ("lat" !in attrs || "lon" !in attrs)))
  {
    if "id" !in attrs then Err(MissingAttribute(name, "id"))
    else match ParseInt(attrs["id"])
      case None => Err(InvalidNumber(attrs["id"]))
      case Some(id) =>
        var o := OSMObject(name, id, [], AttrGet(attrs, "timestamp"), AttrGet(attrs, "user"),
          AttrGet(attrs, "uid"), AttrGet(attrs, "version"), AttrGet(attrs, "changeset"),
          AttrGet(attrs, "visible"), AttrGet(attrs, "action"), None, None, [], []);
        if name != "node" then Ok(o)
        else if "lat" !in attrs then Err(MissingAttribute(name, "lat"))
        else if "lon" !in attrs then Err(MissingAttribute(name, "lon"))
        else Ok(o.(lat := Some(attrs["lat"]), lon := Some(attrs["lon"])))
  }

  /**
   * `startElement`: the current object afterwards. An object element
   * replaces it; a `tag` sets one key (a repeated key takes the last value);
   * `nd` and `member` append; every other element leaves it as it is.
   */
  function OnStart(current: Option<OSMObject>, name: string, attrs: map<string, string>): (r: Result<Option<OSMObject>, IngestError>)
    ensures name in ObjectElements ==> (r.Ok? <==> NewObject(name, attrs).Ok?)
    ensures name in ObjectElements && r.Ok? ==> r.value == Some(NewObject(name, attrs).value)
    ensures name == "tag" ==> (r.Ok? <==> "v" in attrs && current.Some? && "k" in attrs)
    ensures name == "tag" && r.Ok? ==> (
      && r.value.Some?
      && r.value.value == current.value.(attributes := r.value.value.attributes)
      && ToMap(r.value.value.attributes) == ToMap(current.value.attributes)[attrs["k"] := attrs["v"]])
    ensures name == "nd" ==> (r.Ok? <==> current.Some? && "ref" in attrs)
    ensures name == "nd" && r.Ok? ==>
      r.value == Some(current.value.(nodes := current.value.nodes + [attrs["ref"]]))
    ensures name == "member" ==> (r.Ok? <==> current.Some? && "type" in attrs && "ref" in attrs && "role" in attrs)
    ensures name == "member" && r.Ok? ==>
      r.value == Some(current.value.(members := current.value.members + [Member(attrs["type"], attrs["ref"], attrs["role"])]))
    ensures name !in ObjectElements + {"tag", "nd", "member"} ==> r == Ok(current)
  {
    if name in ObjectElements then
      match NewObject(name, attrs)
      case Ok(o) => Ok(Some(o))
      case Err(e) => Err(e)
    else if name == "tag" then
      // the right-hand side `attrs['v']` is evaluated before the target
      if "v" !in attrs then Err(MissingAttribute(name, "v"))
      else if current.None? then Err(NoCurrentObject(name))
      else if "k" !in attrs then Err(MissingAttribute(name, "k"))
      else
        var o := current.value;
        Ok(Some(o.(attributes := Put(o.attributes, attrs["k"], attrs["v"]))))
    else if name == "nd" then
      if current.None? then Err(NoCurrentObject(name))
      else if "ref" !in attrs then Err(MissingAttribute(name, "ref"))
      else Ok(Some(current.value.(nodes := current.value.nodes + [attrs["ref"]])))
    else if name == "member" then
      if current.None? then Err(NoCurrentObject(name))
      else if "type" !in attrs then Err(MissingAttribute(name, "type"))
      else if "ref" !in attrs then Err(MissingAttribute(name, "ref"))
      else if "role" !in attrs then Err(MissingAttribute(name, "role"))
      else
        var m := Member(attrs["type"], attrs["ref"], attrs["role"]);
        Ok(Some(current.value.(members := current.value.members + [m])))
    else Ok(current)
  }

  /**
   * `endElement`: the object handed to the consumer, if any. The end of an
   * object element hands over the current object, which is not forgotten.
   */
  function OnEnd(current: Option<OSMObject>, name: string): (r: Result<Option<OSMObject>, IngestError>)
    ensures r.Err? <==> name in ObjectElements && current.None?
    ensures r.Ok? ==> r.value == if name in ObjectElements then current else None
  {
    if name !in ObjectElements then Ok(None)
    else if current.None? then Err(NoCurrentObject(name))
    else Ok(current)
  }

  /** What one parse hands to the consumer: the objects in order, then the error that stopped it, if any. */
  datatype Parsed = Parsed(objects: seq<OSMObject>, error: Option<IngestError>)

  function Run(current: Option<OSMObject>, events: seq<SaxEvent>): (r: Parsed)
    decreases |events|
  {
    if events == [] then Parsed([], None)
    else match events[0]
      case StartElement(name, attrs) =>
        (match OnStart(current, name, attrs)
         case Err(e) => Parsed([], Some(e))
         case Ok(next) => Run(next, events[1..]))
      case EndElement(name) =>
        (match OnEnd(current, name)
         case Err(e) => Parsed([], Some(e))
         case Ok(out) =>
           var rest := Run(current, events[1..]);
           if out.Some? then Parsed([out.value] + rest.objects, rest.error) else rest)
  }

  /** `Handler(outputter)` driven by a parse of a whole document. */
  function Parse(events: seq<SaxEvent>): Parsed
  {
    Run(None, events)
  }

  /** An event that may stand between the start and the end of an object element. */
  predicate ChildEvent(e: SaxEvent) {
    match e
    case StartElement(n, a) =>
      || (n == "tag" && "k" in a && "v" in a)
      || (n == "nd" && "ref" in a)
      || (n == "member" && "type" in a && "ref" in a && "role" in a)
    case EndElement(n) => n !in ObjectElements
  }

  /** The `(k, v)` pairs of the `tag` children, in document order. */
  function TagPairs(cs: seq<SaxEvent>): seq<Entry>
    requires forall i | 0 <= i < |cs| :: ChildEvent(cs[i])
  {
    if cs == [] then []
    else
      assert ChildEvent(cs[0]);
      var rest := TagPairs(cs[1..]);
      if cs[0].StartElement? && cs[0].name == "tag" then [(cs[0].attrs["k"], cs[0].attrs["v"])] + rest else rest
  }

  /** The `ref` attributes of the `nd` children, in document order. */
  function NdRefs(cs: seq<SaxEvent>): seq<string>
    requires forall i | 0 <= i < |cs| :: ChildEvent(cs[i])
  {
    if cs == [] then []
    else
      assert ChildEvent(cs[0]);
      var rest := NdRefs(cs[1..]);
      if cs[0].StartElement? && cs[0].name == "nd" then [cs[0].attrs["ref"]] + rest else rest
  }

  /** The `member` children, in document order. */
  function MemberChildren(cs: seq<SaxEvent>): seq<Member>
    requires forall i | 0 <= i < |cs| :: ChildEvent(cs[i])
  {
    if cs == [] then []
    else
      assert ChildEvent(cs[0]);
      var rest := MemberChildren(cs[1..]);
      if cs[0].StartElement? && cs[0].name == "member" then
        [Member(cs[0].attrs["type"], cs[0].attrs["ref"], cs[0].attrs["role"])] + rest
      else rest
  }

  /** The object after reading children `cs`: tags stored in order (the last value of a key wins), nd and member appended. */
  function Filled(o: OSMObject, cs: seq<SaxEvent>): OSMObject
    requires forall i | 0 <= i < |cs| :: ChildEvent(cs[i])
  {
    o.(attributes := Update(o.attributes, TagPairs(cs)),
       nodes := o.nodes + NdRefs(cs),
       members := o.members + MemberChildren(cs))
  }

  /** Reading the first child and then the others fills the object as reading them all at once. */
  lemma FilledStep(o: OSMObject, cs: seq<SaxEvent>)
    requires cs != [] && forall i | 0 <= i < |cs| :: ChildEvent(cs[i])
    ensures cs[0].StartElement? ==> OnStart(Some(o), cs[0].name, cs[0].attrs).Ok?
    ensures cs[0].StartElement? ==> match OnStart(Some(o), cs[0].name, cs[0].attrs)
      case Ok(next) => next.Some? && Filled(next.value, cs[1..]) == Filled(o, cs)
      case Err(_) => false
    ensures cs[0].EndElement? ==> OnEnd(Some(o), cs[0].name) == Ok(None) && Filled(o, cs[1..]) == Filled(o, cs)
  {
    assert ChildEvent(cs[0]);
    var tail := cs[1..];
    if cs[0].StartElement? {
      var n, a := cs[0].name, cs[0].attrs;
      var o' := OnStart(Some(o), n, a).value.value;
      if n == "tag" {
        assert TagPairs(cs) == [(a["k"], a["v"])] + TagPairs(tail);
        assert Update(o.attributes, TagPairs(cs)) == Update(Put(o.attributes, a["k"], a["v"]), TagPairs(tail));
      } else if n == "nd" {
        assert NdRefs(cs) == [a["ref"]] + NdRefs(tail);
        assert o.nodes + NdRefs(cs) == (o.nodes + [a["ref"]]) + NdRefs(tail);
      } else {
        var m := Member(a["type"], a["ref"], a["role"]);
        assert MemberChildren(cs) == [m] + MemberChildren(tail);
        assert o.members + MemberChildren(cs) == (o.members + [m]) + MemberChildren(tail);
      }
    }
  }

  /** Reading the children of an object emits nothing and leaves the filled object current. */
  lemma {:induction false} ChildrenFold(o: OSMObject, cs: seq<SaxEvent>, rest: seq<SaxEvent>)
    requires forall i | 0 <= i < |cs| :: ChildEvent(cs[i])
    ensures Run(Some(o), cs + rest) == Run(Some(Filled(o, cs)), rest)
    decreases |cs|
  {
    if cs == [] {
      assert cs + rest == rest;
      assert Filled(o, cs) == o;
    } else {
      var events := cs + rest;
      assert events[0] == cs[0] && events[1..] == cs[1..] + rest;
      FilledStep(o, cs);
      if cs[0].StartElement? {
        var o' := OnStart(Some(o), cs[0].name, cs[0].attrs).value.value;
        ChildrenFold(o', cs[1..], rest);
      } else {
        ChildrenFold(o, cs[1..], rest);
      }
    }
  }

  /**
   * One well-formed object element hands exactly one object to the consumer:
   * its tags are the `tag` children in order with the last value of a key
   * winning, its `nd` and `member` children are kept in document order.
   */
  lemma ObjectElementFold(name: string, attrs: map<string, string>, cs: seq<SaxEvent>, endName: string)
    requires name in ObjectElements && endName in ObjectElements
    requires NewObject(name, attrs).Ok?
    requires forall i | 0 <= i < |cs| :: ChildEvent(cs[i])
    ensures var p := Parse([StartElement(name, attrs)] + cs + [EndElement(endName)]);
      && p.error == None && |p.objects| == 1
      && p.objects[0] == NewObject(name, attrs).value.(
           attributes := FromPairs(TagPairs(cs)), nodes := NdRefs(cs), members := MemberChildren(cs))
      && p.objects[0].osmType == name
      && p.objects[0].attributes == FromPairs(TagPairs(cs))
      && p.objects[0].nodes == NdRefs(cs)
      && p.objects[0].members == MemberChildren(cs)
  {
    var o := NewObject(name, attrs).value;
    var events := [StartElement(name, attrs)] + cs + [EndElement(endName)];
    assert events[0] == StartElement(name, attrs);
    assert events[1..] == cs + [EndElement(endName)];
    ChildrenFold(o, cs, [EndElement(endName)]);
  }

  class Handler {
    var obj: Option<OSMObject>

    constructor ()
      ensures obj == None
    {
      obj := None;
    }

    method StartElement(name: string, attrs: map<string, string>) returns (r: Result<(), IngestError>)
      modifies this
      ensures var s := OnStart(old(obj), name, attrs);
        (r.Ok? <==> s.Ok?) && (s.Ok? ==> obj == s.value) && (s.Err? ==> r.error == s.error)
    {
      if name in ObjectElements {
        var o := NewObject(name, attrs);
        if o.Err? {
          return Err(o.error);
        }
        obj := Some(o.value);
      } else if name == "tag" {
        if "v" !in attrs {
          return Err(MissingAttribute(name, "v"));
        }
        if obj.None? {
          return Err(NoCurrentObject(name));
        }
        if "k" !in attrs {
          return Err(MissingAttribute(name, "k"));
        }
        obj := Some(obj.value.(attributes := Put(obj.value.attributes, attrs["k"], attrs["v"])));
      } else if name == "nd" {
        if obj.None? {
          return Err(NoCurrentObject(name));
        }
        if "ref" !in attrs {
          return Err(MissingAttribute(name, "ref"));
        }
        obj := Some(obj.value.(nodes := obj.value.nodes + [attrs["ref"]]));
      } else if name == "member" {
        if obj.None? {
          return Err(NoCurrentObject(name));
        }
        if "type" !in attrs {
          return Err(MissingAttribute(name, "type"));
        }
        if "ref" !in attrs {
          return Err(MissingAttribute(name, "ref"));
        }
        if "role" !in attrs {
          return Err(MissingAttribute(name, "role"));
        }
        obj := Some(obj.value.(members := obj.value.members + [Member(attrs["type"], attrs["ref"], attrs["role"])]));
      }
      return Ok(());
    }

    method EndElement(name: string) returns (r: Result<Option<OSMObject>, IngestError>)
      ensures r == OnEnd(obj, name)
    {
      if name in ObjectElements {
        if obj.None? {
          return Err(NoCurrentObject(name));
        }
        return Ok(obj);
      }
      return Ok(None);
    }
  }

  /** The parser calling the handler for every event in turn, stopping at the first exception. */
  method Drive(events: seq<SaxEvent>) returns (p: Parsed)
    ensures p == Parse(events)
  {
    var h := new Handler();
    var objects: seq<OSMObject> := [];
    var i := 0;
    while i < |events|
      invariant 0 <= i <= |events|
      invariant var r := Run(h.obj, events[i..]); Parse(events) == Parsed(objects + r.objects, r.error)
    {
      assert events[i..][0] == events[i] && events[i..][1..] == events[i + 1..];
      match events[i] {
        case StartElement(name, attrs) =>
          var r := h.StartElement(name, attrs);
          if r.Err? {
            return Parsed(objects, Some(r.error));
          }
        case EndElement(name) =>
          var r := h.EndElement(name);
          if r.Err? {
            return Parsed(objects, Some(r.error));
          }
          if r.value.Some? {
            objects := objects + [r.value.value];
          }
      }
      i := i + 1;
    }
    assert events[i..] == [];
    return Parsed(objects, None);
  }
}
