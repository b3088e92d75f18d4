/**
 * PlzNodeMapper: one node per postal code line, labelled PostalCode and Location, with
 * all five fields of the line as properties. Every field is set: the postal code file
 * has no optional columns.
 */
module PlzNodeMapper {
  import opened Wrappers
  import opened GraphStore
  import opened OpenGeoDbProperties
  import opened PlzParser

  /** The labels of a postal code node. */
  const PlzLabels: set<string> := {PostalCodeLabel, LocationLabel}

  /** The properties of the node for a postal code line. */
  function PlzProps(b: PlzTabBean): map<PropKey, PropValue> {
    map[LOC_ID := IntProp(b.id), POSTAL_CODE := StrProp(b.plz), LATITUDE := RealProp(b.lat),
        LONGITUDE := RealProp(b.lon), PLACE_NAME := StrProp(b.placeName)]
  }

  /** The node createPlzNode builds for a postal code line. */
  function PlzNodeOf(b: PlzTabBean): NodeRecord {
    NodeRecord(PlzLabels, PlzProps(b))
  }

  /**
   * One setProperty on node `n`, whose record is `r` in a store that is otherwise `base`.
   */
  method SetOn(store: Store, n: NodeId, key: PropKey, v: PropValue,
               ghost base: map<NodeId, NodeRecord>, ghost r: NodeRecord)
    requires store.nodes == base[n := r]
    modifies store
    ensures store.nodes == base[n := NodeRecord(r.labels, r.props[key := v])]
    ensures store.nextId == old(store.nextId) && store.edges == old(store.edges)
  {
    store.SetProperty(n, key, v);
  }

  /** createPlzNode: a fresh node, then one setProperty per field. */
  method CreatePlzNode(store: Store, b: PlzTabBean) returns (n: NodeId)
    requires store.Valid()
    modifies store
    ensures store.Valid() && n == old(store.nextId) && n !in old(store.nodes) && store.nextId == n + 1
    ensures store.nodes == old(store.nodes)[n := PlzNodeOf(b)]
    ensures store.edges == old(store.edges)
    ensures n in store.FindNodes(LocationLabel, LOC_ID, IntProp(b.id))
    ensures n in store.FindNodes(PostalCodeLabel, POSTAL_CODE, StrProp(b.plz))
    ensures n !in store.FindNodes(PlaceLabel, LOC_ID, IntProp(b.id))
  {
    n := store.CreateNode(PlzLabels);
    ghost var base := old(store.nodes);
    ghost var p: map<PropKey, PropValue> := map[];
    SetOn(store, n, LOC_ID, IntProp(b.id), base, NodeRecord(PlzLabels, p));
    p := p[LOC_ID := IntProp(b.id)];
    SetOn(store, n, POSTAL_CODE, StrProp(b.plz), base, NodeRecord(PlzLabels, p));
    p := p[POSTAL_CODE := StrProp(b.plz)];
    SetOn(store, n, LATITUDE, RealProp(b.lat), base, NodeRecord(PlzLabels, p));
    p := p[LATITUDE := RealProp(b.lat)];
    SetOn(store, n, LONGITUDE, RealProp(b.lon), base, NodeRecord(PlzLabels, p));
    p := p[LONGITUDE := RealProp(b.lon)];
    SetOn(store, n, PLACE_NAME, StrProp(b.placeName), base, NodeRecord(PlzLabels, p));
    p := p[PLACE_NAME := StrProp(b.placeName)];
  }

  /** A postal code node carries exactly the postal code keys. */
  lemma PlzNodeKeys(b: PlzTabBean)
    ensures PlzProps(b).Keys == PlzKeys
  {
  }

  /** A postal code node is found by Location and its LOC_ID, and by PostalCode and its postal code. */
  lemma PlzNodeFound(b: PlzTabBean)
    ensures Matches(PlzNodeOf(b), LocationLabel, LOC_ID, IntProp(b.id))
    ensures Matches(PlzNodeOf(b), PostalCodeLabel, POSTAL_CODE, StrProp(b.plz))
    ensures PlaceLabel !in PlzNodeOf(b).labels
  {
  }

  /** A String property read back, the empty string when it is absent. */
  function TextOf(props: map<PropKey, PropValue>, key: PropKey): string {
    var s := StringOf(props, key);
    if s.Some? then s.value else ""
  }

  /** The postal code line a node describes. */
  function PlzBeanOf(r: NodeRecord): PlzTabBean {
    var p := r.props;
    PlzTabBean(
      id := IntOf(p, LOC_ID),
      plz := TextOf(p, POSTAL_CODE),
      lon := RealOf(p, LONGITUDE),
      lat := RealOf(p, LATITUDE),
      placeName := TextOf(p, PLACE_NAME))
  }

  /** A postal code node holds its line in full: reading it back gives the line. */
  lemma PlzNodeReadsBack(b: PlzTabBean)
    ensures PlzBeanOf(PlzNodeOf(b)) == b
  {
  }

  /** Different postal code lines give different nodes; latitude and longitude are not swapped. */
  lemma PlzNodeInjective(a: PlzTabBean, b: PlzTabBean)
    ensures PlzNodeOf(a) == PlzNodeOf(b) <==> a == b
  {
    PlzNodeReadsBack(a);
    PlzNodeReadsBack(b);
  }
}
