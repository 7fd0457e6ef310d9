/** `ColumnDetector` of osm_spreadsheet.py: the set of every tag key seen. */
module Columns {
  import opened PyDict
  import opened OsmObjects

  class ColumnDetector {
    var columns: set<string>

    constructor ()
      ensures columns == {}
    {
      columns := {};
    }

    /** `add`: `columns |= set(object.attributes.keys())` */
    method Add(obj: OSMObject)
      modifies this
      ensures columns == old(columns) + ToMap(obj.attributes).Keys
    {
      columns := columns + ToMap(obj.attributes).Keys;
    }
  }

  /**
   * The first pass of an export without explicit columns: every object the
   * handler produced goes through a fresh detector; the result holds exactly
   * the keys that occur in some object's tags.
   */
  method DetectColumns(objects: seq<OSMObject>) returns (columns: set<string>)
    ensures forall k :: k in columns <==> exists i | 0 <= i < |objects| :: k in ToMap(objects[i].attributes)
  {
    var detector := new ColumnDetector();
    for n := 0 to |objects|
      invariant forall k :: k in detector.columns <==> exists i | 0 <= i < n :: k in ToMap(objects[i].attributes)
    {
      detector.Add(objects[n]);
    }
    columns := detector.columns;
  }
}
