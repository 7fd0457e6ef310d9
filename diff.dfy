/**
 * `DiffOutputter` of osm_spreadsheet.py: for every object of the original
 * document it merges the edited spreadsheet record into the object's tags,
 * decides whether the object changed, and writes the object as a JOSM
 * changefile element. The written text is modelled as a sequence of
 * element records; `quote` stands for `xml.sax.saxutils.quoteattr`.
 */
module Diff {
  import opened Wrappers
  import opened Seqs
  import opened PyDict
  import opened Text
  import opened OsmObjects
  import opened Storage

  /** One line of the changefile. */
  datatype XmlItem =
    | Declaration                                                       // the XML prolog and the `<osm ...>` root
    | StartTag(name: string, attrs: seq<(string, string)>, selfClosed: bool)
    | EndTag(name: string)

  /** Whether a spreadsheet column is dropped: only a non-empty prefix (a true value) drops anything. */
  predicate Ignored(prefix: Option<string>, key: string) {
    prefix.Some? && prefix.value != "" && StartsWith(key, prefix.value)
  }

  /**
   * What the merge promises, key by key: no value of the result is blank; a
   * spreadsheet column that is not ignored decides its key (a blank cell
   * deletes it); every other key keeps the object's value unless that is blank.
   */
  ghost predicate MergedFrom(m: map<string, string>, a: map<string, string>, r: map<string, string>, prefix: Option<string>) {
    && (forall k | k in m :: !Blank(m[k]))
    && (forall k | k in r && !Ignored(prefix, k) ::
          && (k in m <==> !Blank(r[k]))
          && (k in m ==> m[k] == r[k]))
    && (forall k | k !in r || Ignored(prefix, k) ::
          && (k in m <==> k in a && !Blank(a[k]))
          && (k in m ==> m[k] == a[k]))
  }

  /**
   * `_apply_changes`: copy the tags, drop the ignored spreadsheet columns,
   * overlay the remaining spreadsheet values, then delete every entry whose
   * value is blank.
   */
  function ApplyChanges(attributes: Dict, record: Dict, prefix: Option<string>): Dict
  {
    var kept := if prefix.Some? && prefix.value != "" then Filter(record, (k, _) => !StartsWith(k, prefix.value)) else record;
    var overlaid := Update(attributes, kept);
    Filter(overlaid, (_, v) => !Blank(v))
  }

  /** The merge keeps the rules of `MergedFrom`. */
  lemma MergeMeaning(attributes: Dict, record: Dict, prefix: Option<string>)
    ensures MergedFrom(ToMap(ApplyChanges(attributes, record, prefix)), ToMap(attributes), ToMap(record), prefix)
  {
    var kept := if prefix.Some? && prefix.value != "" then Filter(record, (k, _) => !StartsWith(k, prefix.value)) else record;
    var overlaid := Update(attributes, kept);
    var merged := Filter(overlaid, (_, v) => !Blank(v));
    assert merged == ApplyChanges(attributes, record, prefix);
    var r := ToMap(record);
    KeptColumns(record, prefix, kept);
    UpdateToMap(attributes, kept);
    var o := ToMap(attributes) + Visible(r, prefix);
    assert ToMap(overlaid) == o;
    FilterToMap(overlaid, (_, v) => !Blank(v));
    assert ToMap(merged) == map k | k in o && !Blank(o[k]) :: o[k];
    OverlayMerged(ToMap(attributes), r, prefix);
  }

  /**
   * The order of the merged tags: the object's own keys where they were,
   * then the spreadsheet columns the object lacks in column order, with the
   * ignored columns and the blank values left out.
   */
  lemma MergeOrder(attributes: Dict, record: Dict, prefix: Option<string>)
    ensures var kept := if prefix.Some? && prefix.value != "" then Filter(record, (k, _) => !StartsWith(k, prefix.value)) else record;
      Subsequence(Keys(ApplyChanges(attributes, record, prefix)), Keys(attributes) + Keys(Filter(kept, NotIn(ToMap(attributes).Keys))))
  {
    var kept := if prefix.Some? && prefix.value != "" then Filter(record, (k, _) => !StartsWith(k, prefix.value)) else record;
    var overlaid := Update(attributes, kept);
    UpdateKeys(attributes, kept);
    FilterOrder(overlaid, (_, v) => !Blank(v));
  }

  /** The spreadsheet columns that are not ignored. */
  function Visible(r: map<string, string>, prefix: Option<string>): map<string, string>
  {
    map k | k in r && !Ignored(prefix, k) :: r[k]
  }

  lemma KeptColumns(record: Dict, prefix: Option<string>, kept: Dict)
    requires kept == if prefix.Some? && prefix.value != "" then Filter(record, (k, _) => !StartsWith(k, prefix.value)) else record
    ensures ToMap(kept) == Visible(ToMap(record), prefix)
  {
    if prefix.Some? && prefix.value != "" {
      FilterToMap(record, (k, _) => !StartsWith(k, prefix.value));
    }
  }

  /** Overlaying the visible columns and dropping blank values follows the merge rules. */
  lemma OverlayMerged(a: map<string, string>, r: map<string, string>, prefix: Option<string>)
    ensures var o := a + Visible(r, prefix);
      MergedFrom(map k | k in o && !Blank(o[k]) :: o[k], a, r, prefix)
  {
  }

  /** The tags an object is written with, and whether it counts as changed. */
  datatype Decision = Decision(tags: Dict, changed: bool)

  /**
   * Lines 168-175 of `add`: a record that is missing or empty (a false dict)
   * changes nothing; otherwise the merge is compared with the original tags.
   * The written tags are always the merge when there is a record, and the
   * object is changed exactly when they differ from the original tags.
   */
  function Decide(obj: OSMObject, record: Option<Dict>, prefix: Option<string>): (d: Decision)
    ensures record.Some? && record.value != [] ==>
      ToMap(d.tags) == ToMap(ApplyChanges(obj.attributes, record.value, prefix))
    ensures record.None? || record.value == [] ==> d.tags == obj.attributes
    ensures d.changed <==> ToMap(d.tags) != ToMap(obj.attributes)
    ensures !d.changed ==> d.tags == obj.attributes
    ensures d.changed ==> record.Some? && d.tags == ApplyChanges(obj.attributes, record.value, prefix)
  {
    if record.Some? && record.value != [] then
      var merged := ApplyChanges(obj.attributes, record.value, prefix);
      if ToMap(merged) != ToMap(obj.attributes) then Decision(merged, true)
      else Decision(obj.attributes, false)
    else Decision(obj.attributes, false)
  }

  /** The `action` attribute: forced to `modify` for a changed object, the original one otherwise. */
  function OutputAction(obj: OSMObject, d: Decision): Option<string>
  {
    if d.changed then Some("modify") else obj.action
  }

  /** The attributes of the object element, in the order `add` lists them; None is an absent value. */
  function ObjectAttrs(obj: OSMObject, action: Option<string>): seq<(string, Option<string>)>
  {
    [ ("id", Some(IntToString(obj.id))), ("timestamp", obj.timestamp), ("uid", obj.uid),
      ("user", obj.user), ("visible", obj.visible), ("version", obj.version),
      ("changeset", obj.changeset), ("lat", obj.lat), ("lon", obj.lon), ("action", action) ]
  }

  /** The attribute order of an object element. */
  const AttrOrder: seq<string> :=
    ["id", "timestamp", "uid", "user", "visible", "version", "changeset", "lat", "lon", "action"]

  /** `_output_xml_element`'s attribute list: absent values are left out, the others quoted. */
  function Rendered(attrs: seq<(string, Option<string>)>, quote: string -> string): (r: seq<(string, string)>)
    ensures |r| <= |attrs|
  {
    if attrs == [] then []
    else
      var rest := Rendered(attrs[1..], quote);
      if attrs[0].1.Some? then [(attrs[0].0, quote(attrs[0].1.value))] + rest else rest
  }

  /**
   * The rendered list keeps the attribute order, renders every present
   * value quoted, and holds nothing else.
   */
  lemma {:induction false} RenderedSpec(attrs: seq<(string, Option<string>)>, quote: string -> string)
    ensures var r := Rendered(attrs, quote);
      && Subsequence(Keys(r), Keys(attrs))
      && (forall i | 0 <= i < |attrs| && attrs[i].1.Some? :: (attrs[i].0, quote(attrs[i].1.value)) in r)
      && (forall p | p in r :: exists i | 0 <= i < |attrs| :: attrs[i].1.Some? && p == (attrs[i].0, quote(attrs[i].1.value)))
  {
    if attrs != [] {
      RenderedSpec(attrs[1..], quote);
      var rest := Rendered(attrs[1..], quote);
      assert forall i | 1 <= i < |attrs| :: attrs[i] == attrs[1..][i - 1];
      assert Keys(attrs)[1..] == Keys(attrs[1..]);
      if attrs[0].1.Some? {
        assert Keys(Rendered(attrs, quote))[1..] == Keys(rest);
      }
    }
  }

  function NdItems(nodes: seq<string>, quote: string -> string): (items: seq<XmlItem>)
    ensures |items| == |nodes|
  {
    if nodes == [] then [] else [StartTag("nd", [("ref", quote(nodes[0]))], true)] + NdItems(nodes[1..], quote)
  }

  function MemberItem(m: Member, quote: string -> string): XmlItem
  {
    StartTag("member", [("type", quote(m.memberType)), ("ref", quote(m.ref)), ("role", quote(m.role))], true)
  }

  function MemberItems(members: seq<Member>, quote: string -> string): (items: seq<XmlItem>)
    ensures |items| == |members|
  {
    if members == [] then [] else [MemberItem(members[0], quote)] + MemberItems(members[1..], quote)
  }

  function TagItems(tags: seq<Entry>, quote: string -> string): (items: seq<XmlItem>)
    ensures |items| == |tags|
  {
    if tags == [] then []
    else [StartTag("tag", [("k", quote(tags[0].0)), ("v", quote(tags[0].1))], true)] + TagItems(tags[1..], quote)
  }

  /** One self-closed `nd` element per node reference, in order. */
  lemma {:induction false} NdItemsMeaning(nodes: seq<string>, quote: string -> string)
    ensures forall i | 0 <= i < |nodes| :: NdItems(nodes, quote)[i] == StartTag("nd", [("ref", quote(nodes[i]))], true)
  {
    if nodes != [] {
      NdItemsMeaning(nodes[1..], quote);
      assert forall i | 1 <= i < |nodes| :: nodes[i] == nodes[1..][i - 1];
    }
  }

  /** One self-closed `member` element per member, in order. */
  lemma {:induction false} MemberItemsMeaning(members: seq<Member>, quote: string -> string)
    ensures forall i | 0 <= i < |members| :: MemberItems(members, quote)[i] == MemberItem(members[i], quote)
  {
    if members != [] {
      MemberItemsMeaning(members[1..], quote);
      assert forall i | 1 <= i < |members| :: members[i] == members[1..][i - 1];
    }
  }

  /** One self-closed `tag` element per entry, in order. */
  lemma {:induction false} TagItemsMeaning(tags: seq<Entry>, quote: string -> string)
    ensures forall i | 0 <= i < |tags| ::
      TagItems(tags, quote)[i] == StartTag("tag", [("k", quote(tags[i].0)), ("v", quote(tags[i].1))], true)
  {
    if tags != [] {
      TagItemsMeaning(tags[1..], quote);
      assert forall i | 1 <= i < |tags| :: tags[i] == tags[1..][i - 1];
    }
  }

  /** Everything `add` writes for one object, given the record the storage holds for it. */
  function ObjectItems(obj: OSMObject, record: Option<Dict>, prefix: Option<string>, quote: string -> string): seq<XmlItem>
  {
    ElementItems(obj, Decide(obj, record, prefix), quote)
  }

  /** The element written for `obj` once the merge has decided its tags. */
  function ElementItems(obj: OSMObject, d: Decision, quote: string -> string): seq<XmlItem>
  {
    var simple := Simple(obj, d);
    [StartTag(obj.osmType, ElementAttrs(obj, d, quote), simple)]
      + (NdItems(obj.nodes, quote) + (MemberItems(obj.members, quote) + (TagItems(d.tags, quote)
      + (if simple then [] else [EndTag(obj.osmType)]))))
  }

  /** An element with nothing inside it is written self-closed. */
  predicate Simple(obj: OSMObject, d: Decision) {
    d.tags == [] && obj.nodes == [] && obj.members == []
  }

  /** The rendered attributes of the object element. */
  function ElementAttrs(obj: OSMObject, d: Decision, quote: string -> string): seq<(string, string)>
  {
    Rendered(ObjectAttrs(obj, OutputAction(obj, d)), quote)
  }

  /** Rendering a list one attribute at a time. */
  lemma RenderedCons(head: (string, Option<string>), rest: seq<(string, Option<string>)>, quote: string -> string)
    ensures Rendered([head] + rest, quote) ==
      (if head.1.Some? then [(head.0, quote(head.1.value))] else []) + Rendered(rest, quote)
  {
    assert ([head] + rest)[1..] == rest;
  }

  /** With distinct names, a name is rendered exactly when its value is present, and with that value quoted. */
  lemma {:induction false} RenderedPresence(attrs: seq<(string, Option<string>)>, quote: string -> string)
    requires DistinctKeys(attrs)
    ensures var r := Rendered(attrs, quote);
      forall i | 0 <= i < |attrs| ::
        && (attrs[i].0 in Keys(r) <==> attrs[i].1.Some?)
        && (attrs[i].1.Some? ==> (attrs[i].0, quote(attrs[i].1.value)) in r)
  {
    if attrs != [] {
      RenderedPresence(attrs[1..], quote);
      RenderedSpec(attrs[1..], quote);
      var rest := Rendered(attrs[1..], quote);
      forall i | 0 <= i < |attrs| ensures attrs[i].0 in Keys(Rendered(attrs, quote)) <==> attrs[i].1.Some? {
        if i == 0 {
          forall j | 0 <= j < |rest| ensures Keys(rest)[j] != attrs[0].0 {
            assert rest[j] in rest;
            var i' :| 0 <= i' < |attrs[1..]| && attrs[1..][i'].1.Some? && rest[j] == (attrs[1..][i'].0, quote(attrs[1..][i'].1.value));
            assert attrs[1..][i'] == attrs[1 + i'];
          }
        } else {
          assert attrs[i] == attrs[1..][i - 1];
        }
      }
    }
  }

  /**
   * The attributes of an object element: the fixed order `id, timestamp,
   * uid, user, visible, version, changeset, lat, lon, action`, an absent
   * value left out, an empty string kept.
   */
  lemma ObjectAttrsRendered(obj: OSMObject, action: Option<string>, quote: string -> string)
    ensures var values := ObjectAttrs(obj, action);
      var r := Rendered(values, quote);
      && Subsequence(Keys(r), AttrOrder)
      && r[0] == ("id", quote(IntToString(obj.id)))
      && (forall i | 0 <= i < |AttrOrder| ::
            && (AttrOrder[i] in Keys(r) <==> values[i].1.Some?)
            && (values[i].1.Some? ==> (AttrOrder[i], quote(values[i].1.value)) in r))
  {
    var attrs := ObjectAttrs(obj, action);
    ObjectAttrNames(obj, action);
    RenderedSpec(attrs, quote);
    RenderedPresence(attrs, quote);
  }

  lemma ObjectAttrNames(obj: OSMObject, action: Option<string>)
    ensures Keys(ObjectAttrs(obj, action)) == AttrOrder
    ensures DistinctKeys(ObjectAttrs(obj, action))
  {
    var attrs := ObjectAttrs(obj, action);
    assert forall i | 0 <= i < |attrs| :: attrs[i].0 == AttrOrder[i];
    assert forall i, j | 0 <= i < j < |AttrOrder| :: AttrOrder[i] != AttrOrder[j] by {
      forall i, j | 0 <= i < j < |AttrOrder| ensures AttrOrder[i] != AttrOrder[j] {
        assert |AttrOrder[i]| != |AttrOrder[j]| || AttrOrder[i][0] != AttrOrder[j][0] || AttrOrder[i][1] != AttrOrder[j][1];
      }
    }
  }

  /** The object element is named after the type and carries `action="modify"` exactly when the object changed. */
  lemma ElementAttributes(obj: OSMObject, record: Option<Dict>, prefix: Option<string>, quote: string -> string)
    ensures var items := ObjectItems(obj, record, prefix, quote);
      var d := Decide(obj, record, prefix);
      && items[0] == StartTag(obj.osmType, Rendered(ObjectAttrs(obj, OutputAction(obj, d)), quote), items[0].selfClosed)
      && (d.changed ==> ("action", quote("modify")) in items[0].attrs)
      && (!d.changed && obj.action.Some? ==> ("action", quote(obj.action.value)) in items[0].attrs)
      && (!d.changed && obj.action.None? ==> "action" !in Keys(items[0].attrs))
  {
    var d := Decide(obj, record, prefix);
    ObjectAttrsRendered(obj, OutputAction(obj, d), quote);
    assert AttrOrder[9] == "action";
  }

  /**
   * The shape of what `add` writes: the object element is self-closed exactly
   * when there are no tags to write, no `nd` and no `member`; then come the
   * `nd` children, the `member` children and the `tag` children, each in
   * order, and the closing tag unless the element was self-closed.
   */
  lemma ElementShape(obj: OSMObject, record: Option<Dict>, prefix: Option<string>, quote: string -> string)
    ensures var items := ObjectItems(obj, record, prefix, quote);
      var tags := Decide(obj, record, prefix).tags;
      var simple := tags == [] && obj.nodes == [] && obj.members == [];
      var n, m, t := |obj.nodes|, |obj.members|, |tags|;
      && items[0].StartTag? && (items[0].selfClosed <==> simple)
      && |items| == 1 + n + m + t + (if simple then 0 else 1)
      && (forall i | 0 <= i < n :: items[1 + i] == StartTag("nd", [("ref", quote(obj.nodes[i]))], true))
      && (forall i | 0 <= i < m :: items[1 + n + i] == MemberItem(obj.members[i], quote))
      && (forall i | 0 <= i < t ::
            items[1 + n + m + i] == StartTag("tag", [("k", quote(tags[i].0)), ("v", quote(tags[i].1))], true))
      && (simple <==> items == [items[0]])
      && (!simple ==> items[|items| - 1] == EndTag(obj.osmType))
  {
    ElementItemsShape(obj, Decide(obj, record, prefix), quote);
  }

  lemma ElementItemsShape(obj: OSMObject, d: Decision, quote: string -> string)
    ensures var items := ElementItems(obj, d, quote);
      var simple := d.tags == [] && obj.nodes == [] && obj.members == [];
      var n, m, t := |obj.nodes|, |obj.members|, |d.tags|;
      && items[0].StartTag? && (items[0].selfClosed <==> simple)
      && |items| == 1 + n + m + t + (if simple then 0 else 1)
      && (forall i | 0 <= i < n :: items[1 + i] == StartTag("nd", [("ref", quote(obj.nodes[i]))], true))
      && (forall i | 0 <= i < m :: items[1 + n + i] == MemberItem(obj.members[i], quote))
      && (forall i | 0 <= i < t ::
            items[1 + n + m + i] == StartTag("tag", [("k", quote(d.tags[i].0)), ("v", quote(d.tags[i].1))], true))
      && (simple <==> items == [items[0]])
      && (!simple ==> items[|items| - 1] == EndTag(obj.osmType))
  {
    ElementItemsHead(obj, d, quote);
    ElementItemsChildren(obj, d, quote);
  }

  lemma ElementItemsHead(obj: OSMObject, d: Decision, quote: string -> string)
    ensures var items := ElementItems(obj, d, quote);
      var simple := d.tags == [] && obj.nodes == [] && obj.members == [];
      && items[0].StartTag? && (items[0].selfClosed <==> simple)
      && |items| == 1 + |obj.nodes| + |obj.members| + |d.tags| + (if simple then 0 else 1)
      && (simple <==> items == [items[0]])
      && (!simple ==> items[|items| - 1] == EndTag(obj.osmType))
  {
    var simple := Simple(obj, d);
    Parts(StartTag(obj.osmType, ElementAttrs(obj, d, quote), simple),
      NdItems(obj.nodes, quote), MemberItems(obj.members, quote), TagItems(d.tags, quote),
      if simple then [] else [EndTag(obj.osmType)]);
  }

  /** The children of an element, read off its item sequence. */
  lemma ElementItemsChildren(obj: OSMObject, d: Decision, quote: string -> string)
    ensures var items := ElementItems(obj, d, quote);
      var n, m := |obj.nodes|, |obj.members|;
      && (forall i | 0 <= i < n :: items[1 + i] == StartTag("nd", [("ref", quote(obj.nodes[i]))], true))
      && (forall i | 0 <= i < m :: items[1 + n + i] == MemberItem(obj.members[i], quote))
      && (forall i | 0 <= i < |d.tags| ::
            items[1 + n + m + i] == StartTag("tag", [("k", quote(d.tags[i].0)), ("v", quote(d.tags[i].1))], true))
  {
    var simple := Simple(obj, d);
    Parts(StartTag(obj.osmType, ElementAttrs(obj, d, quote), simple),
      NdItems(obj.nodes, quote), MemberItems(obj.members, quote), TagItems(d.tags, quote),
      if simple then [] else [EndTag(obj.osmType)]);
    NdItemsMeaning(obj.nodes, quote);
    MemberItemsMeaning(obj.members, quote);
    TagItemsMeaning(d.tags, quote);
  }

  lemma Parts<T>(h: T, a: seq<T>, b: seq<T>, c: seq<T>, e: seq<T>)
    ensures var s := [h] + (a + (b + (c + e)));
      && |s| == 1 + |a| + |b| + |c| + |e| && s[0] == h
      && s[1..1 + |a|] == a && s[1 + |a|..1 + |a| + |b|] == b
      && s[1 + |a| + |b|..1 + |a| + |b| + |c|] == c && s[1 + |a| + |b| + |c|..] == e
  {
    var s := [h] + (a + (b + (c + e)));
    assert s[1..] == a + (b + (c + e));
    assert s[1 + |a|..] == b + (c + e);
    assert s[1 + |a| + |b|..] == c + e;
  }

  /** An empty record is treated as no record at all. */
  lemma EmptyRecordIsNoRecord(obj: OSMObject, prefix: Option<string>, quote: string -> string)
    ensures ObjectItems(obj, Some([]), prefix, quote) == ObjectItems(obj, None, prefix, quote)
    ensures !Decide(obj, None, prefix).changed
  {
  }

  /** With a non-empty record, a blank tag of the original object is deleted and forces a change. */
  lemma BlankOriginalForcesChange(obj: OSMObject, record: Dict, prefix: Option<string>, k: string)
    requires record != []
    requires k in ToMap(obj.attributes) && Blank(ToMap(obj.attributes)[k])
    ensures var d := Decide(obj, Some(record), prefix);
      d.changed && forall x | x in ToMap(d.tags) :: !Blank(ToMap(d.tags)[x])
  {
    MergeMeaning(obj.attributes, record, prefix);
  }

  /** A cleared (blank) spreadsheet cell for a tag deletes that tag and marks the object modified. */
  lemma ClearedCellDeletesTag(obj: OSMObject, record: Dict, prefix: Option<string>, k: string)
    requires k in ToMap(record) && !Ignored(prefix, k) && Blank(ToMap(record)[k])
    requires k in ToMap(obj.attributes)
    ensures var d := Decide(obj, Some(record), prefix);
      d.changed && k !in ToMap(d.tags) && OutputAction(obj, d) == Some("modify")
  {
    ToMapEmpty(record);
    MergeMeaning(obj.attributes, record, prefix);
  }

  /** A non-blank cell sets its tag; a new value marks the object modified. */
  lemma CellSetsTag(obj: OSMObject, record: Dict, prefix: Option<string>, k: string)
    requires k in ToMap(record) && !Ignored(prefix, k) && !Blank(ToMap(record)[k])
    ensures var d := Decide(obj, Some(record), prefix);
      && k in ToMap(d.tags) && ToMap(d.tags)[k] == ToMap(record)[k]
      && (k !in ToMap(obj.attributes) || ToMap(obj.attributes)[k] != ToMap(record)[k] ==> d.changed)
  {
    ToMapEmpty(record);
    MergeMeaning(obj.attributes, record, prefix);
  }

  /** The merge rules determine the merged tags completely. */
  lemma MergedFromUnique(m1: map<string, string>, m2: map<string, string>, a: map<string, string>, r: map<string, string>, prefix: Option<string>)
    requires MergedFrom(m1, a, r, prefix) && MergedFrom(m2, a, r, prefix)
    ensures m1 == m2
  {
    assert forall k :: k in m1 <==> k in m2 by {
      forall k ensures k in m1 <==> k in m2 {
        if k in r && !Ignored(prefix, k) {
        } else {
        }
      }
    }
  }

  /** A column with the ignore prefix never affects the written tags, whatever its value. */
  lemma IgnoredColumnHasNoEffect(obj: OSMObject, record: Dict, prefix: Option<string>, k: string, v: string)
    requires record != [] && Ignored(prefix, k)
    ensures ToMap(Decide(obj, Some(Put(record, k, v)), prefix).tags) == ToMap(Decide(obj, Some(record), prefix).tags)
    ensures Decide(obj, Some(Put(record, k, v)), prefix).changed == Decide(obj, Some(record), prefix).changed
  {
    var record' := Put(record, k, v);
    ToMapEmpty(record');
    var a, r := ToMap(obj.attributes), ToMap(record);
    var m := ToMap(ApplyChanges(obj.attributes, record, prefix));
    var m' := ToMap(ApplyChanges(obj.attributes, record', prefix));
    MergeMeaning(obj.attributes, record, prefix);
    MergeMeaning(obj.attributes, record', prefix);
    MergedIgnoringKey(m', a, r, prefix, k, v);
    MergedFromUnique(m, m', a, r, prefix);
  }

  /** The merge rules do not look at the cell of an ignored column. */
  lemma MergedIgnoringKey(m: map<string, string>, a: map<string, string>, r: map<string, string>, prefix: Option<string>, k: string, v: string)
    requires Ignored(prefix, k) && MergedFrom(m, a, r[k := v], prefix)
    ensures MergedFrom(m, a, r, prefix)
  {
    var r' := r[k := v];
    forall x | x in r && !Ignored(prefix, x)
      ensures (x in m <==> !Blank(r[x])) && (x in m ==> m[x] == r[x])
    {
      assert x in r' && r'[x] == r[x];
    }
    forall x | x !in r || Ignored(prefix, x)
      ensures (x in m <==> x in a && !Blank(a[x])) && (x in m ==> m[x] == a[x])
    {
      assert x !in r' || Ignored(prefix, x);
    }
  }

  class DiffOutputter {
    const storage: AttributesStorage
    const quote: string -> string
    var out: seq<XmlItem>
    var ignorePrefix: Option<string>

    /** Writes the prolog and the opening `<osm>` element. */
    constructor (storage: AttributesStorage, quote: string -> string)
      ensures this.storage == storage && this.quote == quote
      ensures out == [Declaration] && ignorePrefix == None
    {
      this.storage := storage;
      this.quote := quote;
      out := [Declaration];
      ignorePrefix := None;
    }

    method SetColumnIgnorePrefix(prefix: string)
      modifies this`ignorePrefix
      ensures ignorePrefix == Some(prefix)
    {
      ignorePrefix := Some(prefix);
    }

    /** `add`: look the object up, merge, and write its element and children. */
    method Add(obj: OSMObject)
      modifies this`out
      ensures out == old(out) + ObjectItems(obj, Lookup(storage.table, obj.osmType, obj.id), ignorePrefix, quote)
    {
      var record := storage.Get(obj.osmType, obj.id);
      var attrsToOutput, changed := ApplyRecord(obj, record, ignorePrefix);
      var simpleTag := attrsToOutput == [] && obj.nodes == [] && obj.members == [];
      var action := if changed then Some("modify") else obj.action;
      var nds := WriteNodes(obj.nodes, quote);
      var members := WriteMembers(obj.members, quote);
      var tags := WriteTags(attrsToOutput, quote);
      ghost var d := Decision(attrsToOutput, changed);
      assert action == OutputAction(obj, d) && simpleTag == Simple(obj, d);
      var element := [StartTag(obj.osmType, Rendered(ObjectAttrs(obj, action), quote), simpleTag)]
        + (nds + (members + (tags + (if simpleTag then [] else [EndTag(obj.osmType)]))));
      assert element == ElementItems(obj, d, quote);
      out := out + element;
    }

    /** One `add` per object, in document order. */
    method AddAll(objects: seq<OSMObject>)
      modifies this`out
      ensures out == old(out) + ObjectsItems(objects, storage.table, ignorePrefix, quote)
    {
      assert objects[..0] == [];
      for i := 0 to |objects|
        invariant out == old(out) + ObjectsItems(objects[..i], storage.table, ignorePrefix, quote)
      {
        ghost var before := out;
        Add(objects[i]);
        AddStep(old(out), before, out, objects, i, storage.table, ignorePrefix, quote);
      }
      assert objects[..|objects|] == objects;
    }

    /** `finish`: close the `<osm>` element. */
    method Finish()
      modifies this`out
      ensures out == old(out) + [EndTag("osm")]
    {
      out := out + [EndTag("osm")];
    }
  }

  /** The merge step of `add`: the tags to write and whether they changed. */
  method ApplyRecord(obj: OSMObject, record: Option<Dict>, prefix: Option<string>) returns (tags: Dict, changed: bool)
    ensures Decision(tags, changed) == Decide(obj, record, prefix)
  {
    tags := obj.attributes;
    changed := false;
    if record.Some? && record.value != [] {
      var changedAttrs := ApplyChanges(obj.attributes, record.value, prefix);
      if ToMap(changedAttrs) != ToMap(obj.attributes) {
        tags := changedAttrs;
        changed := true;
      }
    }
  }

  method WriteNodes(nodes: seq<string>, quote: string -> string) returns (items: seq<XmlItem>)
    ensures items == NdItems(nodes, quote)
  {
    items := [];
    for i := 0 to |nodes|
      invariant items == NdItems(nodes[..i], quote)
    {
      assert nodes[..i + 1] == nodes[..i] + [nodes[i]];
      NdItemsAppend(nodes[..i], nodes[i], quote);
      items := items + [StartTag("nd", [("ref", quote(nodes[i]))], true)];
    }
    assert nodes[..|nodes|] == nodes;
  }

  method WriteMembers(members: seq<Member>, quote: string -> string) returns (items: seq<XmlItem>)
    ensures items == MemberItems(members, quote)
  {
    items := [];
    for i := 0 to |members|
      invariant items == MemberItems(members[..i], quote)
    {
      assert members[..i + 1] == members[..i] + [members[i]];
      MemberItemsAppend(members[..i], members[i], quote);
      var m := members[i];
      items := items + [StartTag("member", [("type", quote(m.memberType)), ("ref", quote(m.ref)), ("role", quote(m.role))], true)];
    }
    assert members[..|members|] == members;
  }

  method WriteTags(tags: seq<Entry>, quote: string -> string) returns (items: seq<XmlItem>)
    ensures items == TagItems(tags, quote)
  {
    items := [];
    for i := 0 to |tags|
      invariant items == TagItems(tags[..i], quote)
    {
      assert tags[..i + 1] == tags[..i] + [tags[i]];
      TagItemsAppend(tags[..i], tags[i], quote);
      var (key, value) := tags[i];
      items := items + [StartTag("tag", [("k", quote(key)), ("v", quote(value))], true)];
    }
    assert tags[..|tags|] == tags;
  }

  lemma {:induction false} NdItemsAppend(nodes: seq<string>, n: string, quote: string -> string)
    ensures NdItems(nodes + [n], quote) == NdItems(nodes, quote) + [StartTag("nd", [("ref", quote(n))], true)]
  {
    if nodes != [] {
      assert (nodes + [n])[1..] == nodes[1..] + [n];
      NdItemsAppend(nodes[1..], n, quote);
    }
  }

  lemma {:induction false} MemberItemsAppend(members: seq<Member>, m: Member, quote: string -> string)
    ensures MemberItems(members + [m], quote) == MemberItems(members, quote) + [MemberItem(m, quote)]
  {
    if members != [] {
      assert (members + [m])[1..] == members[1..] + [m];
      MemberItemsAppend(members[1..], m, quote);
    }
  }

  lemma {:induction false} TagItemsAppend(tags: seq<Entry>, t: Entry, quote: string -> string)
    ensures TagItems(tags + [t], quote) == TagItems(tags, quote) + [StartTag("tag", [("k", quote(t.0)), ("v", quote(t.1))], true)]
  {
    if tags != [] {
      assert (tags + [t])[1..] == tags[1..] + [t];
      TagItemsAppend(tags[1..], t, quote);
    }
  }

  /** The whole changefile for the objects of the original document, in order. */
  function Changefile(objects: seq<OSMObject>, table: Table, prefix: Option<string>, quote: string -> string): seq<XmlItem>
  {
    [Declaration] + ObjectsItems(objects, table, prefix, quote) + [EndTag("osm")]
  }

  function ObjectsItems(objects: seq<OSMObject>, table: Table, prefix: Option<string>, quote: string -> string): seq<XmlItem>
  {
    if objects == [] then [] else
      var last := objects[|objects| - 1];
      ObjectsItems(objects[..|objects| - 1], table, prefix, quote) + ObjectItems(last, Lookup(table, last.osmType, last.id), prefix, quote)
  }

  /** One more `add` extends the output by the next object's element. */
  lemma AddStep(start: seq<XmlItem>, before: seq<XmlItem>, after: seq<XmlItem>, objects: seq<OSMObject>, i: nat,
                table: Table, prefix: Option<string>, quote: string -> string)
    requires i < |objects|
    requires before == start + ObjectsItems(objects[..i], table, prefix, quote)
    requires after == before + ObjectItems(objects[i], Lookup(table, objects[i].osmType, objects[i].id), prefix, quote)
    ensures after == start + ObjectsItems(objects[..i + 1], table, prefix, quote)
  {
    ObjectsItemsAppend(objects, i, table, prefix, quote);
    AppendAssoc(start, ObjectsItems(objects[..i], table, prefix, quote),
      ObjectItems(objects[i], Lookup(table, objects[i].osmType, objects[i].id), prefix, quote));
  }

  lemma ObjectsItemsAppend(objects: seq<OSMObject>, i: nat, table: Table, prefix: Option<string>, quote: string -> string)
    requires i < |objects|
    ensures ObjectsItems(objects[..i + 1], table, prefix, quote) ==
      ObjectsItems(objects[..i], table, prefix, quote) + ObjectItems(objects[i], Lookup(table, objects[i].osmType, objects[i].id), prefix, quote)
  {
    assert objects[..i + 1][..i] == objects[..i];
    assert objects[..i + 1][i] == objects[i];
  }

  /**
   * An import pass: a `DiffOutputter` over the loaded storage, with the
   * ignore prefix when one is given (an empty one ignores nothing), fed
   * every object of the original document and then finished.
   */
  method WriteChangefile(objects: seq<OSMObject>, storage: AttributesStorage, prefix: Option<string>, quote: string -> string)
    returns (items: seq<XmlItem>)
    ensures items == Changefile(objects, storage.table, EffectivePrefix(prefix), quote)
  {
    var out := new DiffOutputter(storage, quote);
    if prefix.Some? && prefix.value != "" {
      out.SetColumnIgnorePrefix(prefix.value);
    }
    out.AddAll(objects);
    out.Finish();
    items := out.out;
  }

  /** The prefix the command line hands the outputter: an empty one is not set. */
  function EffectivePrefix(prefix: Option<string>): Option<string>
  {
    if prefix.Some? && prefix.value != "" then prefix else None
  }
}
