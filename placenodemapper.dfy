/**
 * PlaceNodeMapper: one node per place, labelled Place and Location (and with the place's
 * type as a further label), carrying the place's fields as properties. A String field is
 * set only when it is non-null and a number only when it is positive; the postal codes
 * and the parent id are not properties, they become relationships.
 */
module PlaceNodeMapper {
  import opened Wrappers
  import opened JavaText
  import opened GraphStore
  import opened OpenGeoDbProperties
  import opened PlaceParser

  /** A String field as a property value: present when the field is non-null. */
  function TextValue(v: Option<string>): Option<PropValue> {
    if v.Some? then Some(StrProp(v.value)) else None
  }

  /** An int field as a property value: present when the field is positive. */
  function PositiveIntValue(n: int32): Option<PropValue> {
    if n > 0 then Some(IntProp(n)) else None
  }

  /** A double field as a property value: present when the field is positive. */
  function PositiveRealValue(d: real): Option<PropValue> {
    if d > 0.0 then Some(RealProp(d)) else None
  }

  /** A property set when it has a value: the effect of one guarded setProperty. */
  function Put(props: map<PropKey, PropValue>, key: PropKey, v: Option<PropValue>): map<PropKey, PropValue> {
    if v.Some? then props[key := v.value] else props
  }

  /** The value that createPlaceNode gives a key, if it sets it at all. */
  function PlaceProp(b: PlaceBean, k: PropKey): Option<PropValue> {
    match k
    case LOC_ID => Some(IntProp(b.id))
    case AGS => TextValue(b.ags)
    case ASCII => TextValue(b.ascii)
    case NAME => TextValue(b.name)
    case LATITUDE => PositiveRealValue(b.lat)
    case LONGITUDE => PositiveRealValue(b.lon)
    case AMT => TextValue(b.amt)
    case DIALING_CODE => TextValue(b.vorwahl)
    case POPULATION => PositiveIntValue(b.einwohner)
    case AREA => PositiveRealValue(b.flaeche)
    case NUMBER_PLATE_CODE => TextValue(b.kz)
    case TYPE => TextValue(b.typ)
    case LEVEL => PositiveIntValue(b.level)
    case INVALID => TextValue(b.invalid)
    case POSTAL_CODE => None
    case PLACE_NAME => None
  }

  /** The properties a place gets from the keys in `keys`. */
  function PropsOver(b: PlaceBean, keys: set<PropKey>): map<PropKey, PropValue> {
    map k | k in keys && PlaceProp(b, k).Some? :: PlaceProp(b, k).value
  }

  /** The properties of the node for a place. */
  function PlaceProps(b: PlaceBean): map<PropKey, PropValue> {
    PropsOver(b, PlaceKeys)
  }

  /** The labels of the node for a place: Place, Location and the place's type if it has one. */
  function PlaceLabels(b: PlaceBean): set<string> {
    {PlaceLabel, LocationLabel} + if b.typ.Some? then {b.typ.value} else {}
  }

  /** The node createPlaceNode builds for a place. */
  function PlaceNodeOf(b: PlaceBean): NodeRecord {
    NodeRecord(PlaceLabels(b), PlaceProps(b))
  }

  /**
   * One guarded setProperty on node `n`, whose record is `r` in a store that is otherwise
   * `base`: the property is set when `v` holds a value and left alone otherwise.
   */
  method SetIfPresent(store: Store, n: NodeId, key: PropKey, v: Option<PropValue>,
                      ghost base: map<NodeId, NodeRecord>, ghost r: NodeRecord)
    requires store.nodes == base[n := r]
    modifies store
    ensures store.nodes == base[n := NodeRecord(r.labels, Put(r.props, key, v))]
    ensures store.nextId == old(store.nextId) && store.edges == old(store.edges)
  {
    if v.Some? {
      store.SetProperty(n, key, v.value);
    }
  }

  /** The type's guarded setProperty, which also adds the type as a label. */
  method SetTypeIfPresent(store: Store, n: NodeId, typ: Option<string>,
                          ghost base: map<NodeId, NodeRecord>, ghost r: NodeRecord)
    requires store.nodes == base[n := r]
    modifies store
    ensures store.nodes == base[n := NodeRecord(r.labels + (if typ.Some? then {typ.value} else {}),
                                                Put(r.props, TYPE, TextValue(typ)))]
    ensures store.nextId == old(store.nextId) && store.edges == old(store.edges)
  {
    if typ.Some? {
      store.SetProperty(n, TYPE, StrProp(typ.value));
      store.AddLabel(n, typ.value);
    } else {
      assert r.labels + {} == r.labels;
    }
  }

  /** createPlaceNode: a fresh node, then one setProperty (and addLabel) per field that is set. */
  method CreatePlaceNode(store: Store, b: PlaceBean) returns (n: NodeId)
    requires store.Valid()
    modifies store
    ensures store.Valid() && n == old(store.nextId) && n !in old(store.nodes) && store.nextId == n + 1
    ensures store.nodes == old(store.nodes)[n := PlaceNodeOf(b)]
    ensures store.edges == old(store.edges)
    ensures n in store.FindNodes(LocationLabel, LOC_ID, IntProp(b.id))
    ensures n in store.FindNodes(PlaceLabel, LOC_ID, IntProp(b.id))
  {
    n := store.CreateNode({PlaceLabel, LocationLabel});
    ghost var base := old(store.nodes);
    ghost var labels := {PlaceLabel, LocationLabel};
    ghost var p: map<PropKey, PropValue> := map[];
    // LOC_ID is set unconditionally
    SetIfPresent(store, n, LOC_ID, Some(IntProp(b.id)), base, NodeRecord(labels, p));
    p := Put(p, LOC_ID, Some(IntProp(b.id)));
    SetIfPresent(store, n, AGS, TextValue(b.ags), base, NodeRecord(labels, p));
    p := Put(p, AGS, TextValue(b.ags));
    SetIfPresent(store, n, ASCII, TextValue(b.ascii), base, NodeRecord(labels, p));
    p := Put(p, ASCII, TextValue(b.ascii));
    SetIfPresent(store, n, NAME, TextValue(b.name), base, NodeRecord(labels, p));
    p := Put(p, NAME, TextValue(b.name));
    SetIfPresent(store, n, LATITUDE, PositiveRealValue(b.lat), base, NodeRecord(labels, p));
    p := Put(p, LATITUDE, PositiveRealValue(b.lat));
    SetIfPresent(store, n, LONGITUDE, PositiveRealValue(b.lon), base, NodeRecord(labels, p));
    p := Put(p, LONGITUDE, PositiveRealValue(b.lon));
    SetIfPresent(store, n, AMT, TextValue(b.amt), base, NodeRecord(labels, p));
    p := Put(p, AMT, TextValue(b.amt));
    SetIfPresent(store, n, DIALING_CODE, TextValue(b.vorwahl), base, NodeRecord(labels, p));
    p := Put(p, DIALING_CODE, TextValue(b.vorwahl));
    SetIfPresent(store, n, POPULATION, PositiveIntValue(b.einwohner), base, NodeRecord(labels, p));
    p := Put(p, POPULATION, PositiveIntValue(b.einwohner));
    SetIfPresent(store, n, AREA, PositiveRealValue(b.flaeche), base, NodeRecord(labels, p));
    p := Put(p, AREA, PositiveRealValue(b.flaeche));
    SetIfPresent(store, n, NUMBER_PLATE_CODE, TextValue(b.kz), base, NodeRecord(labels, p));
    p := Put(p, NUMBER_PLATE_CODE, TextValue(b.kz));
    SetTypeIfPresent(store, n, b.typ, base, NodeRecord(labels, p));
    p := Put(p, TYPE, TextValue(b.typ));
    labels := PlaceLabels(b);
    SetIfPresent(store, n, LEVEL, PositiveIntValue(b.level), base, NodeRecord(labels, p));
    p := Put(p, LEVEL, PositiveIntValue(b.level));
    SetIfPresent(store, n, INVALID, TextValue(b.invalid), base, NodeRecord(labels, p));
    p := Put(p, INVALID, TextValue(b.invalid));
    PlacePropsInOrder(b);
  }

  /** The properties as createPlaceNode sets them: one guarded setProperty after another. */
  ghost function SetInOrder(b: PlaceBean): map<PropKey, PropValue> {
    SetKind(SetSize(SetPosition(SetIds(map[], b), b), b), b)
  }

  /** The guarded setProperty calls from LOC_ID to NAME, applied to `p`. */
  ghost function SetIds(p: map<PropKey, PropValue>, b: PlaceBean): map<PropKey, PropValue> {
    Put(Put(Put(Put(p, LOC_ID, Some(IntProp(b.id))), AGS, TextValue(b.ags)), ASCII, TextValue(b.ascii)), NAME, TextValue(b.name))
  }

  /** The guarded setProperty calls from LATITUDE to DIALING_CODE, applied to `p`. */
  ghost function SetPosition(p: map<PropKey, PropValue>, b: PlaceBean): map<PropKey, PropValue> {
    Put(Put(Put(Put(p, LATITUDE, PositiveRealValue(b.lat)), LONGITUDE, PositiveRealValue(b.lon)), AMT, TextValue(b.amt)), DIALING_CODE, TextValue(b.vorwahl))
  }

  /** The guarded setProperty calls from POPULATION to NUMBER_PLATE_CODE, applied to `p`. */
  ghost function SetSize(p: map<PropKey, PropValue>, b: PlaceBean): map<PropKey, PropValue> {
    Put(Put(Put(p, POPULATION, PositiveIntValue(b.einwohner)), AREA, PositiveRealValue(b.flaeche)), NUMBER_PLATE_CODE, TextValue(b.kz))
  }

  /** The guarded setProperty calls from TYPE to INVALID, applied to `p`. */
  ghost function SetKind(p: map<PropKey, PropValue>, b: PlaceBean): map<PropKey, PropValue> {
    Put(Put(Put(p, TYPE, TextValue(b.typ)), LEVEL, PositiveIntValue(b.level)), INVALID, TextValue(b.invalid))
  }

  /** SetIds extends the table by its keys. */
  lemma SetIdsByKey(b: PlaceBean, keys: set<PropKey>)
    ensures SetIds(PropsOver(b, keys), b) == PropsOver(b, keys + {LOC_ID, AGS, ASCII, NAME})
  {
    var ks := keys;
    PutOneKey(b, ks, LOC_ID);
    ks := ks + {LOC_ID};
    PutOneKey(b, ks, AGS);
    ks := ks + {AGS};
    PutOneKey(b, ks, ASCII);
    ks := ks + {ASCII};
    PutOneKey(b, ks, NAME);
    ks := ks + {NAME};
    assert ks == keys + {LOC_ID, AGS, ASCII, NAME};
  }

  /** SetPosition extends the table by its keys. */
  lemma SetPositionByKey(b: PlaceBean, keys: set<PropKey>)
    ensures SetPosition(PropsOver(b, keys), b) == PropsOver(b, keys + {LATITUDE, LONGITUDE, AMT, DIALING_CODE})
  {
    var ks := keys;
    PutOneKey(b, ks, LATITUDE);
    ks := ks + {LATITUDE};
    PutOneKey(b, ks, LONGITUDE);
    ks := ks + {LONGITUDE};
    PutOneKey(b, ks, AMT);
    ks := ks + {AMT};
    PutOneKey(b, ks, DIALING_CODE);
    ks := ks + {DIALING_CODE};
    assert ks == keys + {LATITUDE, LONGITUDE, AMT, DIALING_CODE};
  }

  /** SetSize extends the table by its keys. */
  lemma SetSizeByKey(b: PlaceBean, keys: set<PropKey>)
    ensures SetSize(PropsOver(b, keys), b) == PropsOver(b, keys + {POPULATION, AREA, NUMBER_PLATE_CODE})
  {
    var ks := keys;
    PutOneKey(b, ks, POPULATION);
    ks := ks + {POPULATION};
    PutOneKey(b, ks, AREA);
    ks := ks + {AREA};
    PutOneKey(b, ks, NUMBER_PLATE_CODE);
    ks := ks + {NUMBER_PLATE_CODE};
    assert ks == keys + {POPULATION, AREA, NUMBER_PLATE_CODE};
  }

  /** SetKind extends the table by its keys. */
  lemma SetKindByKey(b: PlaceBean, keys: set<PropKey>)
    ensures SetKind(PropsOver(b, keys), b) == PropsOver(b, keys + {TYPE, LEVEL, INVALID})
  {
    var ks := keys;
    PutOneKey(b, ks, TYPE);
    ks := ks + {TYPE};
    PutOneKey(b, ks, LEVEL);
    ks := ks + {LEVEL};
    PutOneKey(b, ks, INVALID);
    ks := ks + {INVALID};
    assert ks == keys + {TYPE, LEVEL, INVALID};
  }

  /** The place keys, one group after another in the order createPlaceNode sets them. */
  lemma PlaceKeysByGroup()
    ensures {} + {LOC_ID, AGS, ASCII, NAME} + {LATITUDE, LONGITUDE, AMT, DIALING_CODE}
      + {POPULATION, AREA, NUMBER_PLATE_CODE} + {TYPE, LEVEL, INVALID} == PlaceKeys
  {
  }

  /**
   * The guarded setProperty calls, in the order createPlaceNode makes them, give the
   * key-by-key table: each key is set at most once, so their order does not matter.
   */
  lemma PlacePropsInOrder(b: PlaceBean)
    ensures SetInOrder(b) == PlaceProps(b)
  {
    var k0: set<PropKey> := {};
    assert PropsOver(b, k0) == map[];
    SetIdsByKey(b, k0);
    var k1 := k0 + {LOC_ID, AGS, ASCII, NAME};
    SetPositionByKey(b, k1);
    var k2 := k1 + {LATITUDE, LONGITUDE, AMT, DIALING_CODE};
    SetSizeByKey(b, k2);
    var k3 := k2 + {POPULATION, AREA, NUMBER_PLATE_CODE};
    SetKindByKey(b, k3);
    PlaceKeysByGroup();
  }

  /** Setting one more key's property extends the properties by that key. */
  lemma PutOneKey(b: PlaceBean, keys: set<PropKey>, key: PropKey)
    ensures Put(PropsOver(b, keys), key, PlaceProp(b, key)) == PropsOver(b, keys + {key})
  {
  }

  /** A place node carries only place keys, and the String ones exactly when the field is set. */
  lemma PlaceNodeTextKeys(b: PlaceBean)
    ensures PlaceProps(b).Keys <= PlaceKeys
    ensures AGS in PlaceProps(b) <==> b.ags.Some?
    ensures ASCII in PlaceProps(b) <==> b.ascii.Some?
    ensures NAME in PlaceProps(b) <==> b.name.Some?
    ensures AMT in PlaceProps(b) <==> b.amt.Some?
    ensures DIALING_CODE in PlaceProps(b) <==> b.vorwahl.Some?
    ensures NUMBER_PLATE_CODE in PlaceProps(b) <==> b.kz.Some?
    ensures TYPE in PlaceProps(b) <==> b.typ.Some?
    ensures INVALID in PlaceProps(b) <==> b.invalid.Some?
  {
  }

  /** A place node always carries LOC_ID, and each other number exactly when it is positive. */
  lemma PlaceNodeNumberKeys(b: PlaceBean)
    ensures LOC_ID in PlaceProps(b)
    ensures LATITUDE in PlaceProps(b) <==> b.lat > 0.0
    ensures LONGITUDE in PlaceProps(b) <==> b.lon > 0.0
    ensures POPULATION in PlaceProps(b) <==> b.einwohner > 0
    ensures AREA in PlaceProps(b) <==> b.flaeche > 0.0
    ensures LEVEL in PlaceProps(b) <==> b.level > 0
  {
  }

  /** A place node is found by Location or Place and its LOC_ID, and carries its type as a label. */
  lemma PlaceNodeFound(b: PlaceBean)
    ensures Matches(PlaceNodeOf(b), LocationLabel, LOC_ID, IntProp(b.id))
    ensures Matches(PlaceNodeOf(b), PlaceLabel, LOC_ID, IntProp(b.id))
    ensures b.typ.Some? ==> b.typ.value in PlaceNodeOf(b).labels
  {
  }

  // ---------------------------------------------------------------------------
  // Reading a place back from its node
  // ---------------------------------------------------------------------------

  /** The place a node describes; postal codes and the parent id are not on the node. */
  function PlaceBeanOf(r: NodeRecord): PlaceBean {
    var p := r.props;
    PlaceBean(
      id := IntOf(p, LOC_ID), ags := StringOf(p, AGS), ascii := StringOf(p, ASCII), name := StringOf(p, NAME),
      lat := RealOf(p, LATITUDE), lon := RealOf(p, LONGITUDE), amt := StringOf(p, AMT), plzs := None,
      vorwahl := StringOf(p, DIALING_CODE), einwohner := IntOf(p, POPULATION), flaeche := RealOf(p, AREA),
      kz := StringOf(p, NUMBER_PLATE_CODE), typ := StringOf(p, TYPE), level := IntOf(p, LEVEL), of := 0,
      invalid := StringOf(p, INVALID))
  }

  /** A number the mapper keeps only when positive. */
  function PositiveInt(n: int32): int32 {
    if n > 0 then n else 0
  }

  /** A number the mapper keeps only when positive. */
  function PositiveReal(d: real): real {
    if d > 0.0 then d else 0.0
  }

  /** What of a place its node keeps: no postal codes, no parent, and non-positive numbers as 0. */
  function Kept(b: PlaceBean): PlaceBean {
    b.(lat := PositiveReal(b.lat), lon := PositiveReal(b.lon), plzs := None,
       einwohner := PositiveInt(b.einwohner), flaeche := PositiveReal(b.flaeche),
       level := PositiveInt(b.level), of := 0)
  }

  /** The String fields of a place read back from its node as they were. */
  lemma TextFieldsReadBack(b: PlaceBean)
    ensures var p := PlaceProps(b);
      && StringOf(p, AGS) == b.ags && StringOf(p, ASCII) == b.ascii && StringOf(p, NAME) == b.name
      && StringOf(p, AMT) == b.amt && StringOf(p, DIALING_CODE) == b.vorwahl
      && StringOf(p, NUMBER_PLATE_CODE) == b.kz && StringOf(p, TYPE) == b.typ
      && StringOf(p, INVALID) == b.invalid
  {
  }

  /** The numeric fields of a place read back from its node, non-positive ones as 0. */
  lemma NumberFieldsReadBack(b: PlaceBean)
    ensures var p := PlaceProps(b);
      && IntOf(p, LOC_ID) == b.id && RealOf(p, LATITUDE) == PositiveReal(b.lat)
      && RealOf(p, LONGITUDE) == PositiveReal(b.lon) && IntOf(p, POPULATION) == PositiveInt(b.einwohner)
      && RealOf(p, AREA) == PositiveReal(b.flaeche) && IntOf(p, LEVEL) == PositiveInt(b.level)
  {
  }

  /** The node for a place holds exactly what Kept keeps of it. */
  lemma PlaceNodeReadsBack(b: PlaceBean)
    ensures PlaceBeanOf(PlaceNodeOf(b)) == Kept(b)
  {
    TextFieldsReadBack(b);
    NumberFieldsReadBack(b);
  }

  /** Two places get the same properties exactly when the node keeps the same of both. */
  lemma PlaceNodeSame(a: PlaceBean, b: PlaceBean)
    ensures PlaceProps(a) == PlaceProps(b) <==> Kept(a) == Kept(b)
  {
    PlaceNodeReadsBack(a);
    PlaceNodeReadsBack(b);
    if Kept(a) == Kept(b) {
      forall k ensures PlaceProp(a, k) == PlaceProp(b, k) {
        PlacePropKept(a, k);
        PlacePropKept(b, k);
      }
      PropsOverSame(a, b, PlaceKeys);
    }
  }

  /** A key's property depends only on what Kept keeps. */
  lemma PlacePropKept(b: PlaceBean, k: PropKey)
    ensures PlaceProp(b, k) == PlaceProp(Kept(b), k)
  {
  }

  /** Places with the same property table agree on every set of keys. */
  lemma PropsOverSame(a: PlaceBean, b: PlaceBean, keys: set<PropKey>)
    requires forall k :: PlaceProp(a, k) == PlaceProp(b, k)
    ensures PropsOver(a, keys) == PropsOver(b, keys)
  {
  }

  /** Kept loses nothing the node holds: keeping twice is keeping once, and gives the same node. */
  lemma KeptIdempotent(b: PlaceBean)
    ensures Kept(Kept(b)) == Kept(b)
    ensures PlaceNodeOf(Kept(b)) == PlaceNodeOf(b)
  {
    PlaceNodeSame(Kept(b), b);
  }
}
