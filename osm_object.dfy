/** The in-memory description of one OpenStreetMap object and the SAX events it is built from. */
module OsmObjects {
  import opened Wrappers
  import opened PyDict

  /** A relation member `(type, ref, role)` as the attributes of a `member` element give it. */
  datatype Member = Member(memberType: string, ref: string, role: string)

  /**
   * `OSMObject`: a node, way or relation. Every metadata field is the
   * attribute string of the element, or None when the element lacks it;
   * `nodes` holds the `ref` strings of the `nd` children in document order.
   */
  datatype OSMObject = OSMObject(
    osmType: string,
    id: int,
    attributes: Dict,
    timestamp: Option<string>,
    user: Option<string>,
    uid: Option<string>,
    version: Option<string>,
    changeset: Option<string>,
    visible: Option<string>,
    action: Option<string>,
    lat: Option<string>,
    lon: Option<string>,
    nodes: seq<string>,
    members: seq<Member>)

  /** The element names that start a new object. */
  const ObjectElements: set<string> := {"node", "way", "relation"}

  /** The callbacks a SAX parser makes; the attributes of an element are a string mapping. */
  datatype SaxEvent =
    | StartElement(name: string, attrs: map<string, string>)
    | EndElement(name: string)

  /** `attrs.get(name)` */
  function AttrGet(attrs: map<string, string>, name: string): Option<string>
  {
    if name in attrs then Some(attrs[name]) else None
  }
}
