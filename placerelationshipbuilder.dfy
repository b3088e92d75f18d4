/**
 * PlaceRelationshipBuilder: the relationships of one place. A PART_OF relationship goes
 * from the place to its parent, and a POSTAL_CODE_FOR relationship from each of its postal
 * codes to the place. Both node caches are complete maps built before linking. A lookup
 * that misses is skipped without complaint; only the store can raise, when an end of a
 * relationship is not a live node.
 */
module PlaceRelationshipBuilder {
  import opened Wrappers
  import opened JavaText
  import opened GraphStore
  import opened PlaceParser

  /** The place node cache: place id to node. */
  type PlaceNodeMap = map<int32, NodeId>

  /** The postal code node cache: postal code to node. */
  type PlzNodeMap = map<string, NodeId>

  /** The PART_OF relationship of a place: there is one when it has a parent and both are cached. */
  function PartOfLinks(placeMap: PlaceNodeMap, b: PlaceBean): seq<Edge> {
    if b.of > 0 && b.id in placeMap && b.of in placeMap then [Edge(placeMap[b.id], placeMap[b.of], PART_OF)]
    else []
  }

  /** Each comma-separated piece, trimmed. */
  function Trimmed(pieces: seq<string>): seq<string> {
    seq(|pieces|, k requires 0 <= k < |pieces| => Trim(pieces[k]))
  }

  /** The relationship for one postal code: one when the code is cached. */
  function TokenLink(code: string, plzMap: PlzNodeMap, target: NodeId): seq<Edge> {
    if code in plzMap then [Edge(plzMap[code], target, POSTAL_CODE_FOR)] else []
  }

  /** The relationships for the postal codes at positions lo up to hi, in order. */
  function LinksBetween(codes: seq<string>, lo: nat, hi: nat, plzMap: PlzNodeMap, target: NodeId): seq<Edge>
    requires lo <= hi <= |codes|
    decreases hi - lo
  {
    if hi == lo then [] else LinksBetween(codes, lo, hi - 1, plzMap, target) + TokenLink(codes[hi - 1], plzMap, target)
  }

  /** The relationships for all the postal codes, in order. */
  function TokenLinks(codes: seq<string>, plzMap: PlzNodeMap, target: NodeId): seq<Edge> {
    LinksBetween(codes, 0, |codes|, plzMap, target)
  }

  /** The POSTAL_CODE_FOR relationships of a place: none unless it has postal codes and is cached. */
  function PostalLinks(placeMap: PlaceNodeMap, plzMap: PlzNodeMap, b: PlaceBean): seq<Edge> {
    if b.plzs.Some? && b.id in placeMap then TokenLinks(Trimmed(Split(b.plzs.value, ',')), plzMap, placeMap[b.id])
    else []
  }

  /** Every relationship of a place, in the order buildRelationshipsForPlace creates them. */
  function PlaceLinks(placeMap: PlaceNodeMap, plzMap: PlzNodeMap, b: PlaceBean): seq<Edge> {
    PartOfLinks(placeMap, b) + PostalLinks(placeMap, plzMap, b)
  }

  // ---------------------------------------------------------------------------
  // The builder's methods
  // ---------------------------------------------------------------------------

  /**
   * buildRelationshipsForPlace: the PART_OF step, then the postal code step. `ok` is false
   * when the store raised, and then the relationships before the failing one stay.
   */
  method BuildRelationshipsForPlace(store: Store, placeMap: PlaceNodeMap, plzMap: PlzNodeMap, b: PlaceBean)
    returns (ok: bool)
    modifies store
    ensures ok <==> EdgesLive(old(store.nodes), PlaceLinks(placeMap, plzMap, b))
    ensures store.edges == old(store.edges) + LivePrefix(old(store.nodes), PlaceLinks(placeMap, plzMap, b))
    ensures store.nodes == old(store.nodes) && store.nextId == old(store.nextId)
  {
    ghost var partOf := PartOfLinks(placeMap, b);
    ghost var postal := PostalLinks(placeMap, plzMap, b);
    ok := BuildPartOfRelationshipForPlace(store, placeMap, b);
    if ok {
      ok := BuildPostalCodeRelationships(store, placeMap, plzMap, b);
      LivePrefixThen(old(store.nodes), old(store.edges), partOf, postal);
    } else {
      LivePrefixStopped(old(store.nodes), partOf, postal);
    }
  }

  /** buildPostalCodeRelationships: one createRelationshipTo per piece of plzs whose postal code is cached. */
  method BuildPostalCodeRelationships(store: Store, placeMap: PlaceNodeMap, plzMap: PlzNodeMap, b: PlaceBean)
    returns (ok: bool)
    modifies store
    ensures ok <==> EdgesLive(old(store.nodes), PostalLinks(placeMap, plzMap, b))
    ensures store.edges == old(store.edges) + LivePrefix(old(store.nodes), PostalLinks(placeMap, plzMap, b))
    ensures store.nodes == old(store.nodes) && store.nextId == old(store.nextId)
  {
    ok := true;
    if b.plzs.Some? {
      if b.id in placeMap {
        var placeNode := placeMap[b.id];
        var postalCodes := Split(b.plzs.value, ',');
        ok := LinkPostalCodes(store, postalCodes, plzMap, placeNode);
      }
    }
  }

  /**
   * The loop of buildPostalCodeRelationships: for each piece in order, its trimmed form is
   * looked up and, on a hit, a relationship from that postal code's node to the place's
   * node is created.
   */
  method LinkPostalCodes(store: Store, postalCodes: seq<string>, plzMap: PlzNodeMap, placeNode: NodeId)
    returns (ok: bool)
    modifies store
    ensures ok <==> EdgesLive(old(store.nodes), TokenLinks(Trimmed(postalCodes), plzMap, placeNode))
    ensures store.edges == old(store.edges) + LivePrefix(old(store.nodes), TokenLinks(Trimmed(postalCodes), plzMap, placeNode))
    ensures store.nodes == old(store.nodes) && store.nextId == old(store.nextId)
  {
    ghost var codes := Trimmed(postalCodes);
    ok := true;
    var i := 0;
    while i < |postalCodes|
      invariant 0 <= i <= |postalCodes| && ok
      invariant store.nodes == old(store.nodes) && store.nextId == old(store.nextId)
      invariant EdgesLive(store.nodes, LinksBetween(codes, 0, i, plzMap, placeNode))
      invariant store.edges == old(store.edges) + LinksBetween(codes, 0, i, plzMap, placeNode)
    {
      var code := Trim(postalCodes[i]);
      assert code == codes[i];
      if code in plzMap {
        ok := store.CreateRelationshipTo(plzMap[code], placeNode, POSTAL_CODE_FOR);
        if !ok {
          StopsAtDeadLink(store.nodes, codes, i, plzMap, placeNode);
          return;
        }
      }
      LiveLinksStep(store.nodes, codes, i, plzMap, placeNode);
      i := i + 1;
    }
    LivePrefixShape(store.nodes, TokenLinks(codes, plzMap, placeNode));
  }

  /** buildPartOfRelationshipForPlace: one createRelationshipTo from the place to its parent, if both are cached. */
  method BuildPartOfRelationshipForPlace(store: Store, placeMap: PlaceNodeMap, b: PlaceBean) returns (ok: bool)
    modifies store
    ensures ok <==> EdgesLive(old(store.nodes), PartOfLinks(placeMap, b))
    ensures store.edges == old(store.edges) + LivePrefix(old(store.nodes), PartOfLinks(placeMap, b))
    ensures store.nodes == old(store.nodes) && store.nextId == old(store.nextId)
  {
    ok := true;
    if b.of > 0 {
      if b.id in placeMap && b.of in placeMap {
        var placeNode := placeMap[b.id];
        var ofNode := placeMap[b.of];
        ok := store.CreateRelationshipTo(placeNode, ofNode, PART_OF);
        LivePrefixOne(old(store.nodes), Edge(placeNode, ofNode, PART_OF));
      }
    }
  }

  /** The relationships of the codes so far stay live past one more code whose relationship, if any, is live. */
  lemma LiveLinksStep(nodes: map<NodeId, NodeRecord>, codes: seq<string>, i: nat, plzMap: PlzNodeMap, target: NodeId)
    requires i < |codes| && EdgesLive(nodes, LinksBetween(codes, 0, i, plzMap, target))
    requires codes[i] in plzMap ==> Live(nodes, Edge(plzMap[codes[i]], target, POSTAL_CODE_FOR))
    ensures EdgesLive(nodes, LinksBetween(codes, 0, i + 1, plzMap, target))
  {
    EdgesLiveAppend(nodes, LinksBetween(codes, 0, i, plzMap, target), TokenLink(codes[i], plzMap, target));
  }

  /** The postal code loop stops at the first code whose relationship has a dead end. */
  lemma StopsAtDeadLink(nodes: map<NodeId, NodeRecord>, codes: seq<string>, i: nat, plzMap: PlzNodeMap, target: NodeId)
    requires i < |codes| && EdgesLive(nodes, LinksBetween(codes, 0, i, plzMap, target))
    requires codes[i] in plzMap && !Live(nodes, Edge(plzMap[codes[i]], target, POSTAL_CODE_FOR))
    ensures LivePrefix(nodes, TokenLinks(codes, plzMap, target)) == LinksBetween(codes, 0, i, plzMap, target)
    ensures !EdgesLive(nodes, TokenLinks(codes, plzMap, target))
  {
    TokenLinksAt(codes, i, plzMap, target);
    LivePrefixStops(nodes, LinksBetween(codes, 0, i, plzMap, target), Edge(plzMap[codes[i]], target, POSTAL_CODE_FOR),
                    LinksBetween(codes, i + 1, |codes|, plzMap, target));
  }

  // ---------------------------------------------------------------------------
  // What the relationships of a place are
  // ---------------------------------------------------------------------------

  /** A place has a PART_OF relationship exactly when its parent id is positive and both ids are cached; it goes from child to parent. */
  lemma PartOfLinksShape(placeMap: PlaceNodeMap, b: PlaceBean)
    ensures |PartOfLinks(placeMap, b)| <= 1
    ensures PartOfLinks(placeMap, b) != [] <==> b.of > 0 && b.id in placeMap && b.of in placeMap
    ensures forall e :: e in PartOfLinks(placeMap, b) ==>
      e.kind == PART_OF && e.start == placeMap[b.id] && e.end == placeMap[b.of]
  {
  }

  /** The codes can be taken in two runs: their relationships are those of each run, in order. */
  lemma {:induction false} LinksBetweenSplit(codes: seq<string>, lo: nat, mid: nat, hi: nat, plzMap: PlzNodeMap, target: NodeId)
    requires lo <= mid <= hi <= |codes|
    ensures LinksBetween(codes, lo, hi, plzMap, target) ==
      LinksBetween(codes, lo, mid, plzMap, target) + LinksBetween(codes, mid, hi, plzMap, target)
    decreases hi - mid
  {
    if hi > mid {
      LinksBetweenSplit(codes, lo, mid, hi - 1, plzMap, target);
    }
  }

  /** The relationship of a cached code sits between those of the codes before and after it. */
  lemma TokenLinksAt(codes: seq<string>, i: nat, plzMap: PlzNodeMap, target: NodeId)
    requires i < |codes| && codes[i] in plzMap
    ensures TokenLinks(codes, plzMap, target) ==
      LinksBetween(codes, 0, i, plzMap, target) + [Edge(plzMap[codes[i]], target, POSTAL_CODE_FOR)]
      + LinksBetween(codes, i + 1, |codes|, plzMap, target)
  {
    LinksBetweenSplit(codes, 0, i, i + 1, plzMap, target);
    LinksBetweenSplit(codes, 0, i + 1, |codes|, plzMap, target);
  }

  /**
   * A relationship comes from the codes exactly when some code is cached; it goes from that
   * code's node to the target.
   */
  lemma TokenLinksMembers(codes: seq<string>, plzMap: PlzNodeMap, target: NodeId, e: Edge)
    ensures e in TokenLinks(codes, plzMap, target) <==>
      exists k :: 0 <= k < |codes| && codes[k] in plzMap && e == Edge(plzMap[codes[k]], target, POSTAL_CODE_FOR)
  {
    if e in TokenLinks(codes, plzMap, target) {
      var k := TokenLinkSource(codes, |codes|, plzMap, target, e);
    } else {
      forall k | 0 <= k < |codes| && codes[k] in plzMap
        ensures e != Edge(plzMap[codes[k]], target, POSTAL_CODE_FOR)
      {
        TokenLinksAt(codes, k, plzMap, target);
      }
    }
  }

  /** The code a relationship of the first n codes comes from. */
  lemma {:induction false} TokenLinkSource(codes: seq<string>, n: nat, plzMap: PlzNodeMap, target: NodeId, e: Edge)
    returns (k: nat)
    requires n <= |codes| && e in LinksBetween(codes, 0, n, plzMap, target)
    ensures k < n && codes[k] in plzMap && e == Edge(plzMap[codes[k]], target, POSTAL_CODE_FOR)
  {
    if e in LinksBetween(codes, 0, n - 1, plzMap, target) {
      k := TokenLinkSource(codes, n - 1, plzMap, target, e);
    } else {
      k := n - 1;
    }
  }

  /** The positions below n of the cached codes. */
  function Hits(codes: seq<string>, n: nat, plzMap: PlzNodeMap): set<nat> {
    set k: nat | k < n && k < |codes| && codes[k] in plzMap
  }

  /** There is one relationship per cached code, counting a repeated code again. */
  lemma {:induction false} LinksBetweenCount(codes: seq<string>, n: nat, plzMap: PlzNodeMap, target: NodeId)
    requires n <= |codes|
    ensures |LinksBetween(codes, 0, n, plzMap, target)| == |Hits(codes, n, plzMap)|
  {
    if n == 0 {
      assert Hits(codes, n, plzMap) == {};
    } else {
      LinksBetweenCount(codes, n - 1, plzMap, target);
      var h := Hits(codes, n - 1, plzMap);
      var extra: set<nat> := if codes[n - 1] in plzMap then {n - 1} else {};
      assert Hits(codes, n, plzMap) == h + extra;
      assert n - 1 !in h;
    }
  }

  /** A postal code listed twice gives two equal relationships: nothing is de-duplicated. */
  lemma TokenLinksDuplicate(codes: seq<string>, i: nat, j: nat, plzMap: PlzNodeMap, target: NodeId)
    requires i < j < |codes| && codes[i] == codes[j] && codes[i] in plzMap
    ensures var links := TokenLinks(codes, plzMap, target);
      exists p, q :: 0 <= p < q < |links| && links[p] == links[q] == Edge(plzMap[codes[i]], target, POSTAL_CODE_FOR)
  {
    var links := TokenLinks(codes, plzMap, target);
    var e := Edge(plzMap[codes[i]], target, POSTAL_CODE_FOR);
    TokenLinksAt(codes, i, plzMap, target);
    TokenLinksAt(codes, j, plzMap, target);
    var p := |LinksBetween(codes, 0, i, plzMap, target)|;
    var q := |LinksBetween(codes, 0, j, plzMap, target)|;
    LinksBetweenSplit(codes, 0, i + 1, j, plzMap, target);
    assert p < q;
    assert links[p] == e;
    assert links[q] == e;
  }

  /** Every POSTAL_CODE_FOR relationship of a place ends at the place's node and starts at a cached postal code node. */
  lemma PostalLinksInto(placeMap: PlaceNodeMap, plzMap: PlzNodeMap, b: PlaceBean, e: Edge)
    requires e in PostalLinks(placeMap, plzMap, b)
    ensures b.plzs.Some? && b.id in placeMap
    ensures e.kind == POSTAL_CODE_FOR && e.end == placeMap[b.id] && e.start in plzMap.Values
  {
    var codes := Trimmed(Split(b.plzs.value, ','));
    TokenLinksMembers(codes, plzMap, placeMap[b.id], e);
    var k :| 0 <= k < |codes| && codes[k] in plzMap && e == Edge(plzMap[codes[k]], placeMap[b.id], POSTAL_CODE_FOR);
    assert plzMap[codes[k]] in plzMap.Values;
  }

  /**
   * A place with postal codes that is cached gets one POSTAL_CODE_FOR relationship per
   * comma-separated piece whose trimmed form is a cached postal code.
   */
  lemma PostalLinksCount(placeMap: PlaceNodeMap, plzMap: PlzNodeMap, b: PlaceBean)
    requires b.plzs.Some? && b.id in placeMap
    ensures var pieces := Split(b.plzs.value, ',');
      |PostalLinks(placeMap, plzMap, b)| == |set k: nat | k < |pieces| && Trim(pieces[k]) in plzMap|
  {
    var pieces := Split(b.plzs.value, ',');
    var codes := Trimmed(pieces);
    LinksBetweenCount(codes, |codes|, plzMap, placeMap[b.id]);
    assert Hits(codes, |codes|, plzMap) == set k: nat | k < |pieces| && Trim(pieces[k]) in plzMap;
  }
}
