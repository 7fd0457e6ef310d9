/**
 * `OSMAttributesStorage`: a table with one row per `(osm_type, osm_id)`
 * holding a snapshot of tags. The table's UNIQUE constraint makes a second
 * insert of a key fail with an integrity error.
 */
module Storage {
  import opened Wrappers
  import opened PyDict

  type Key = (string, int)

  type Table = map<Key, Dict>

  /** The integrity error sqlite raises for an insert of a key already present. */
  datatype StoreError = DuplicateKey(osmType: string, osmId: int)

  /** An insert into the table as a value: the new table, or the integrity error. */
  function Insert(table: Table, osmType: string, osmId: int, attributes: Dict): (r: Result<Table, StoreError>)
    ensures r.Err? <==> (osmType, osmId) in table
    ensures r.Err? ==> r.error == DuplicateKey(osmType, osmId)
    ensures r.Ok? ==> r.value.Keys == table.Keys + {(osmType, osmId)}
    ensures r.Ok? ==> r.value[(osmType, osmId)] == attributes
    ensures r.Ok? ==> forall k | k in table :: r.value[k] == table[k]
  {
    if (osmType, osmId) in table then Err(DuplicateKey(osmType, osmId))
    else Ok(table[(osmType, osmId) := attributes])
  }

  /** A lookup into the table as a value: the snapshot, or None for an unknown key. */
  function Lookup(table: Table, osmType: string, osmId: int): Option<Dict>
  {
    if (osmType, osmId) in table then Some(table[(osmType, osmId)]) else None
  }

  /** `get` after a successful `add` returns what was added; other keys are unaffected. */
  lemma LookupAfterInsert(table: Table, t: string, i: int, a: Dict, t': string, i': int)
    requires Insert(table, t, i, a).Ok?
    ensures Lookup(Insert(table, t, i, a).value, t', i') ==
      if (t', i') == (t, i) then Some(a) else Lookup(table, t', i')
  {
  }

  class AttributesStorage {
    var table: Table

    constructor ()
      ensures table == map[]
    {
      table := map[];
    }

    /** `add`: insert a row; a key already in the table is refused and nothing changes. */
    method Add(osmType: string, osmId: int, attributes: Dict) returns (r: Result<(), StoreError>)
      modifies this
      ensures r.Err? <==> (osmType, osmId) in old(table)
      ensures r.Err? ==> r.error == DuplicateKey(osmType, osmId) && table == old(table)
      ensures r.Ok? ==> table == old(table)[(osmType, osmId) := attributes]
    {
      if (osmType, osmId) in table {
        return Err(DuplicateKey(osmType, osmId));
      }
      table := table[(osmType, osmId) := attributes];
      return Ok(());
    }

    /** `get`: the stored snapshot, or None when no row has that key. */
    method Get(osmType: string, osmId: int) returns (r: Option<Dict>)
      ensures r.Some? <==> (osmType, osmId) in table
      ensures r.Some? ==> r.value == table[(osmType, osmId)]
      ensures r == Lookup(table, osmType, osmId)
    {
      if (osmType, osmId) in table {
        r := Some(table[(osmType, osmId)]);
      } else {
        r := None;
      }
    }
  }
}
