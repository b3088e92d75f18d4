/**
 * The importer: it parses both files, opens an empty store, and then runs three phases,
 * each in its own transaction. The phases create the place nodes, create the postal code
 * nodes, and link every place. A phase that raises is rolled back and logged, and the
 * next phase runs regardless.
 *
 * The store's own failures are an input: `Fault` says at which bean of a node phase the
 * store raises. The linking phase raises when a relationship has an end that is not a
 * live node, for instance a node that a failed phase created and that was rolled back.
 */
module Importer {
  import opened Wrappers
  import opened JavaText
  import opened GraphStore
  import opened KeyedNodes
  import opened PlaceParser
  import PlzParser
  import PlaceNodeMapper
  import PlzNodeMapper
  import opened PlaceRelationshipBuilder
  import TabSeparatedBeanReader
  import CellProcessors

  /** The position of the bean at which the store raises during a node phase, if any. */
  type Fault = Option<nat>

  /** How many beans a node phase gets through before the store raises. */
  function Reached(fault: Fault, n: nat): (m: nat)
    ensures m <= n && (m < n <==> fault.Some? && fault.value < n)
    ensures m < n ==> m == fault.value
  {
    if fault.Some? && fault.value < n then fault.value else n
  }

  /** The key of the place node cache. */
  function PlaceKey(b: PlaceBean): int32 {
    b.id
  }

  /** The key of the postal code node cache. */
  function PlzKey(b: PlzParser.PlzTabBean): string {
    b.plz
  }

  /** The relationships buildRelationshipsForPlace tries to create for one place, against fixed caches. */
  function Plan(placeMap: PlaceNodeMap, plzMap: PlzNodeMap): PlaceBean -> seq<Edge> {
    b => PlaceLinks(placeMap, plzMap, b)
  }

  /** The relationships of the places at positions lo up to hi, in the order they are built. */
  function LinksOf(placeMap: PlaceNodeMap, plzMap: PlzNodeMap, beans: seq<PlaceBean>, lo: nat, hi: nat): seq<Edge>
    requires lo <= hi <= |beans|
  {
    Concat(Plan(placeMap, plzMap), beans, lo, hi)
  }

  /** The relationships createRelationships tries to create, in order. */
  function AllLinks(placeMap: PlaceNodeMap, plzMap: PlzNodeMap, beans: seq<PlaceBean>): seq<Edge> {
    LinksOf(placeMap, plzMap, beans, 0, |beans|)
  }

  /** Taking the next place: its relationships follow those before it, and those after it follow. */
  lemma LinksOfStep(placeMap: PlaceNodeMap, plzMap: PlzNodeMap, beans: seq<PlaceBean>, i: nat)
    requires i < |beans|
    ensures LinksOf(placeMap, plzMap, beans, 0, i + 1) ==
      LinksOf(placeMap, plzMap, beans, 0, i) + PlaceLinks(placeMap, plzMap, beans[i])
    ensures AllLinks(placeMap, plzMap, beans) ==
      LinksOf(placeMap, plzMap, beans, 0, i + 1) + LinksOf(placeMap, plzMap, beans, i + 1, |beans|)
  {
    assert Plan(placeMap, plzMap)(beans[i]) == PlaceLinks(placeMap, plzMap, beans[i]);
    ConcatSplit(Plan(placeMap, plzMap), beans, 0, i + 1, |beans|);
  }

  // ---------------------------------------------------------------------------
  // The phases on values
  // ---------------------------------------------------------------------------

  /** The store and the importer's two node caches. */
  datatype State = State(nodes: map<NodeId, NodeRecord>, nextId: nat, edges: seq<Edge>,
                         placeMap: PlaceNodeMap, plzMap: PlzNodeMap)

  /** The three units of work doImport runs in transactions, in this order. */
  datatype Phase = PlaceNodes | PlzNodes | Relationships

  /** A phase's transaction: the state after it and whether it committed. */
  datatype Step = Step(state: State, committed: bool)

  /** The final state of a run and which of its three transactions committed. */
  datatype Outcome = Outcome(state: State, placeNodesCommitted: bool, plzNodesCommitted: bool,
                             relationshipsCommitted: bool)

  /** What a phase has written when it returns or raises. */
  function Attempt(s: State, phase: Phase, places: seq<PlaceBean>, plzs: seq<PlzParser.PlzTabBean>,
                   fault: Fault): State
  {
    match phase
    case PlaceNodes =>
      var m := Reached(fault, |places|);
      s.(nodes := s.nodes + Numbered(PlaceNodeMapper.PlaceNodeOf, places, s.nextId, m),
         nextId := s.nextId + m,
         placeMap := KeyMap(PlaceKey, places, s.nextId, m))
    case PlzNodes =>
      var m := Reached(fault, |plzs|);
      s.(nodes := s.nodes + Numbered(PlzNodeMapper.PlzNodeOf, plzs, s.nextId, m),
         nextId := s.nextId + m,
         plzMap := KeyMap(PlzKey, plzs, s.nextId, m))
    case Relationships =>
      s.(edges := s.edges + LivePrefix(s.nodes, AllLinks(s.placeMap, s.plzMap, places)))
  }

  /** Whether a phase returns normally instead of raising. */
  predicate Returns(s: State, phase: Phase, places: seq<PlaceBean>, plzs: seq<PlzParser.PlzTabBean>,
                    fault: Fault)
  {
    match phase
    case PlaceNodes => Reached(fault, |places|) == |places|
    case PlzNodes => Reached(fault, |plzs|) == |plzs|
    case Relationships => EdgesLive(s.nodes, AllLinks(s.placeMap, s.plzMap, places))
  }

  /**
   * doInTransaction: when the phase returns, its writes are kept. When it raises, the
   * store's nodes and relationships go back to where they were; the handles it used are
   * not handed out again, and the caches keep what the phase put in them.
   */
  function Transaction(s: State, phase: Phase, places: seq<PlaceBean>, plzs: seq<PlzParser.PlzTabBean>,
                       fault: Fault): Step
  {
    var t := Attempt(s, phase, places, plzs, fault);
    if Returns(s, phase, places, plzs, fault) then Step(t, true)
    else Step(t.(nodes := s.nodes, edges := s.edges), false)
  }

  /** The three transactions in order, from a given store and caches. */
  function Run(s0: State, places: seq<PlaceBean>, plzs: seq<PlzParser.PlzTabBean>, placeFault: Fault,
               plzFault: Fault): Outcome
  {
    var s1 := Transaction(s0, PlaceNodes, places, plzs, placeFault);
    var s2 := Transaction(s1.state, PlzNodes, places, plzs, plzFault);
    var s3 := Transaction(s2.state, Relationships, places, plzs, None);
    Outcome(s3.state, s1.committed, s2.committed, s3.committed)
  }

  /** doImport after parsing: the three transactions on an empty store. */
  function Import(places: seq<PlaceBean>, plzs: seq<PlzParser.PlzTabBean>, placeFault: Fault,
                  plzFault: Fault): Outcome
  {
    Run(State(map[], 0, [], map[], map[]), places, plzs, placeFault, plzFault)
  }

  /** What the caches held before does not matter: each node phase starts its cache afresh. */
  lemma RunOnEmptyStore(s0: State, places: seq<PlaceBean>, plzs: seq<PlzParser.PlzTabBean>,
                        placeFault: Fault, plzFault: Fault)
    requires s0.nodes == map[] && s0.nextId == 0 && s0.edges == []
    ensures Run(s0, places, plzs, placeFault, plzFault) == Import(places, plzs, placeFault, plzFault)
  {
    var e := State(map[], 0, [], map[], map[]);
    var a1 := Transaction(s0, PlaceNodes, places, plzs, placeFault);
    var b1 := Transaction(e, PlaceNodes, places, plzs, placeFault);
    assert a1 == b1.(state := b1.state.(plzMap := s0.plzMap));
    var a2 := Transaction(a1.state, PlzNodes, places, plzs, plzFault);
    var b2 := Transaction(b1.state, PlzNodes, places, plzs, plzFault);
    assert a2 == b2;
  }

  // ---------------------------------------------------------------------------
  // The importer
  // ---------------------------------------------------------------------------

  class Importer {
    var placeBeans: seq<PlaceBean>
    var plzBeans: seq<PlzParser.PlzTabBean>
    var store: Store
    var placeNodeMap: PlaceNodeMap
    var plzNodeMap: PlzNodeMap

    /** The store and the caches as a value. */
    ghost function Snapshot(): State
      reads this, store
    {
      State(store.nodes, store.nextId, store.edges, placeNodeMap, plzNodeMap)
    }

    /** An importer that has not read anything yet. */
    constructor ()
      ensures placeBeans == [] && plzBeans == [] && placeNodeMap == map[] && plzNodeMap == map[]
      ensures fresh(store) && store.Valid()
      ensures store.nodes == map[] && store.nextId == 0 && store.edges == []
    {
      placeBeans := [];
      plzBeans := [];
      store := new Store();
      placeNodeMap := map[];
      plzNodeMap := map[];
    }

    /** createPlaceNodes: one node per place bean, cached under its id; the store may raise. */
    method CreatePlaceNodes(fault: Fault) returns (ok: bool)
      requires store.Valid()
      modifies this, store
      ensures store == old(store) && store.Valid()
      ensures placeBeans == old(placeBeans) && plzBeans == old(plzBeans) && plzNodeMap == old(plzNodeMap)
      ensures ok <==> Reached(fault, |placeBeans|) == |placeBeans|
      ensures store.nodes == old(store.nodes) +
        Numbered(PlaceNodeMapper.PlaceNodeOf, placeBeans, old(store.nextId), Reached(fault, |placeBeans|))
      ensures store.nextId == old(store.nextId) + Reached(fault, |placeBeans|)
      ensures placeNodeMap == KeyMap(PlaceKey, placeBeans, old(store.nextId), Reached(fault, |placeBeans|))
      ensures store.edges == old(store.edges)
    {
      ghost var nodes := store.nodes;
      ghost var start := store.nextId;
      placeNodeMap := map[];
      var i := 0;
      while i < |placeBeans|
        invariant i <= Reached(fault, |placeBeans|)
        invariant store == old(store) && store.Valid()
        invariant placeBeans == old(placeBeans) && plzBeans == old(plzBeans) && plzNodeMap == old(plzNodeMap)
        invariant store.nextId == start + i && store.edges == old(store.edges)
        invariant store.nodes == nodes + Numbered(PlaceNodeMapper.PlaceNodeOf, placeBeans, start, i)
        invariant placeNodeMap == KeyMap(PlaceKey, placeBeans, start, i)
      {
        if fault == Some(i) {
          // the store raises; the exception leaves the loop and the phase
          assert i == Reached(fault, |placeBeans|);
          return false;
        }
        var b := placeBeans[i];
        var n := PlaceNodeMapper.CreatePlaceNode(store, b);
        placeNodeMap := placeNodeMap[b.id := n];
        NumberedNext(PlaceNodeMapper.PlaceNodeOf, placeBeans, start, i, nodes);
        KeyMapNext(PlaceKey, placeBeans, start, i, b.id);
        i := i + 1;
      }
      ok := true;
    }

    /** createPlzNodes: one node per postal code bean, cached under its postal code; the store may raise. */
    method CreatePlzNodes(fault: Fault) returns (ok: bool)
      requires store.Valid()
      modifies this, store
      ensures store == old(store) && store.Valid()
      ensures placeBeans == old(placeBeans) && plzBeans == old(plzBeans) && placeNodeMap == old(placeNodeMap)
      ensures ok <==> Reached(fault, |plzBeans|) == |plzBeans|
      ensures store.nodes == old(store.nodes) +
        Numbered(PlzNodeMapper.PlzNodeOf, plzBeans, old(store.nextId), Reached(fault, |plzBeans|))
      ensures store.nextId == old(store.nextId) + Reached(fault, |plzBeans|)
      ensures plzNodeMap == KeyMap(PlzKey, plzBeans, old(store.nextId), Reached(fault, |plzBeans|))
      ensures store.edges == old(store.edges)
    {
      ghost var nodes := store.nodes;
      ghost var start := store.nextId;
      plzNodeMap := map[];
      var i := 0;
      while i < |plzBeans|
        invariant i <= Reached(fault, |plzBeans|)
        invariant store == old(store) && store.Valid()
        invariant placeBeans == old(placeBeans) && plzBeans == old(plzBeans) && placeNodeMap == old(placeNodeMap)
        invariant store.nextId == start + i && store.edges == old(store.edges)
        invariant store.nodes == nodes + Numbered(PlzNodeMapper.PlzNodeOf, plzBeans, start, i)
        invariant plzNodeMap == KeyMap(PlzKey, plzBeans, start, i)
      {
        if fault == Some(i) {
          // the store raises; the exception leaves the loop and the phase
          assert i == Reached(fault, |plzBeans|);
          return false;
        }
        var b := plzBeans[i];
        var n := PlzNodeMapper.CreatePlzNode(store, b);
        plzNodeMap := plzNodeMap[b.plz := n];
        NumberedNext(PlzNodeMapper.PlzNodeOf, plzBeans, start, i, nodes);
        KeyMapNext(PlzKey, plzBeans, start, i, b.plz);
        i := i + 1;
      }
      ok := true;
    }

    /**
     * createRelationships: the builder once per place bean, in order, against both caches.
     * It raises at the first relationship with an end that is not a live node.
     */
    method CreateRelationships() returns (ok: bool)
      modifies store
      ensures ok <==> EdgesLive(old(store.nodes), AllLinks(placeNodeMap, plzNodeMap, placeBeans))
      ensures store.edges == old(store.edges) + LivePrefix(old(store.nodes), AllLinks(placeNodeMap, plzNodeMap, placeBeans))
      ensures store.nodes == old(store.nodes) && store.nextId == old(store.nextId)
    {
      ghost var nodes := store.nodes;
      var i := 0;
      while i < |placeBeans|
        invariant i <= |placeBeans|
        invariant store.nodes == nodes && store.nextId == old(store.nextId)
        invariant EdgesLive(nodes, LinksOf(placeNodeMap, plzNodeMap, placeBeans, 0, i))
        invariant store.edges == old(store.edges) + LinksOf(placeNodeMap, plzNodeMap, placeBeans, 0, i)
      {
        ghost var done := LinksOf(placeNodeMap, plzNodeMap, placeBeans, 0, i);
        ghost var here := PlaceLinks(placeNodeMap, plzNodeMap, placeBeans[i]);
        ghost var rest := LinksOf(placeNodeMap, plzNodeMap, placeBeans, i + 1, |placeBeans|);
        ghost var before := store.edges;
        LinksOfStep(placeNodeMap, plzNodeMap, placeBeans, i);
        ok := BuildRelationshipsForPlace(store, placeNodeMap, plzNodeMap, placeBeans[i]);
        if !ok {
          LinkRunFails(nodes, old(store.edges), done, here, rest, before, store.edges);
          return;
        }
        LinkRunGoes(nodes, old(store.edges), done, here, before, store.edges);
        i := i + 1;
      }
      ok := true;
      LivePrefixShape(nodes, AllLinks(placeNodeMap, plzNodeMap, placeBeans));
    }

    /**
     * doInTransaction: runs the phase; when it raises, the failure is logged and the
     * transaction rolled back, and nothing is passed on to the caller.
     */
    method DoInTransaction(phase: Phase, fault: Fault) returns (committed: bool)
      requires store.Valid()
      modifies this, store
      ensures store == old(store) && store.Valid()
      ensures placeBeans == old(placeBeans) && plzBeans == old(plzBeans)
      ensures Step(Snapshot(), committed) == Transaction(old(Snapshot()), phase, placeBeans, plzBeans, fault)
    {
      var savedNodes := store.nodes;
      var savedEdges := store.edges;
      var ok: bool;
      match phase {
        case PlaceNodes => ok := CreatePlaceNodes(fault);
        case PlzNodes => ok := CreatePlzNodes(fault);
        case Relationships => ok := CreateRelationships();
      }
      if ok {
        committed := true;
      } else {
        store.Rollback(savedNodes, savedEdges);
        committed := false;
      }
    }

    /**
     * doImport: parse the place file (with a header line) and the postal code file (without
     * one), open an empty store, then run the three phases in order, whatever each of them
     * does. The flags say which transactions committed.
     */
    method DoImport(placeRows: seq<CellProcessors.Row>, plzRows: seq<CellProcessors.Row>,
                    placeFault: Fault, plzFault: Fault)
      returns (placeNodesCommitted: bool, plzNodesCommitted: bool, relationshipsCommitted: bool)
      modifies this
      ensures placeBeans == TabSeparatedBeanReader.Surviving(PlaceParser.ParseRow,
                              TabSeparatedBeanReader.DataRows(placeRows, true))
      ensures plzBeans == TabSeparatedBeanReader.Surviving(PlzParser.ParseRow,
                            TabSeparatedBeanReader.DataRows(plzRows, false))
      ensures fresh(store) && store.Valid()
      ensures Import(placeBeans, plzBeans, placeFault, plzFault) ==
        Outcome(Snapshot(), placeNodesCommitted, plzNodesCommitted, relationshipsCommitted)
    {
      placeBeans := PlaceParser.ReadDataFromStream(placeRows);
      plzBeans := PlzParser.ReadDataFromStream(plzRows);
      store := new Store();
      ghost var s0 := Snapshot();
      placeNodesCommitted := DoInTransaction(PlaceNodes, placeFault);
      plzNodesCommitted := DoInTransaction(PlzNodes, plzFault);
      relationshipsCommitted := DoInTransaction(Relationships, None);
      RunOnEmptyStore(s0, placeBeans, plzBeans, placeFault, plzFault);
    }
  }

  // ---------------------------------------------------------------------------
  // What a run of the importer does
  // ---------------------------------------------------------------------------

  /** One more place whose relationships were all created: the run goes on. */
  lemma LinkRunGoes(nodes: map<NodeId, NodeRecord>, e0: seq<Edge>, done: seq<Edge>, here: seq<Edge>,
                    before: seq<Edge>, after: seq<Edge>)
    requires EdgesLive(nodes, done) && before == e0 + done
    requires EdgesLive(nodes, here) && after == before + LivePrefix(nodes, here)
    ensures EdgesLive(nodes, done + here) && after == e0 + (done + here)
  {
    LivePrefixShape(nodes, here);
    EdgesLiveAppend(nodes, done, here);
  }

  /** A place whose builder raised: the run ends there, and the places after it are not tried. */
  lemma LinkRunFails(nodes: map<NodeId, NodeRecord>, e0: seq<Edge>, done: seq<Edge>, here: seq<Edge>,
                     rest: seq<Edge>, before: seq<Edge>, after: seq<Edge>)
    requires EdgesLive(nodes, done) && before == e0 + done
    requires !EdgesLive(nodes, here) && after == before + LivePrefix(nodes, here)
    ensures !EdgesLive(nodes, done + here + rest)
    ensures after == e0 + LivePrefix(nodes, done + here + rest)
  {
    LivePrefixFails(nodes, done, here, rest);
  }

  /**
   * Every relationship a place can have ends at a cached place node. A PART_OF
   * relationship also starts at one; a POSTAL_CODE_FOR relationship starts at a cached
   * postal code node.
   */
  lemma LinksOfEnds(placeMap: PlaceNodeMap, plzMap: PlzNodeMap, beans: seq<PlaceBean>, lo: nat, hi: nat)
    requires lo <= hi <= |beans|
    ensures forall e :: e in LinksOf(placeMap, plzMap, beans, lo, hi) ==>
      e.end in placeMap.Values &&
      (e.kind == PART_OF ==> e.start in placeMap.Values) &&
      (e.kind == POSTAL_CODE_FOR ==> e.start in plzMap.Values)
  {
    forall e | e in LinksOf(placeMap, plzMap, beans, lo, hi)
      ensures e.end in placeMap.Values
      ensures e.kind == PART_OF ==> e.start in placeMap.Values
      ensures e.kind == POSTAL_CODE_FOR ==> e.start in plzMap.Values
    {
      ConcatMembers(Plan(placeMap, plzMap), beans, lo, hi, e);
      var j :| lo <= j < hi && e in Plan(placeMap, plzMap)(beans[j]);
      var b := beans[j];
      assert e in PartOfLinks(placeMap, b) + PostalLinks(placeMap, plzMap, b);
      if e in PartOfLinks(placeMap, b) {
        PartOfLinksShape(placeMap, b);
        assert placeMap[b.id] in placeMap.Values && placeMap[b.of] in placeMap.Values;
      } else {
        PostalLinksInto(placeMap, plzMap, b, e);
        assert placeMap[b.id] in placeMap.Values;
      }
    }
  }

  /**
   * The live nodes after a run in which the place phase got through m beans and the postal
   * code phase through z: the nodes of each phase that committed.
   */
  function LiveNodes(places: seq<PlaceBean>, plzs: seq<PlzParser.PlzTabBean>, m: nat, z: nat): map<NodeId, NodeRecord>
    requires m <= |places| && z <= |plzs|
  {
    TwoPhases(PlaceNodeMapper.PlaceNodeOf, PlzNodeMapper.PlzNodeOf, places, plzs, m, z)
  }

  /** The place phase's transaction: its nodes stay exactly when the store never raised; its cache stays either way. */
  lemma PlacePhase(s: State, places: seq<PlaceBean>, plzs: seq<PlzParser.PlzTabBean>, fault: Fault)
    ensures var t := Transaction(s, PlaceNodes, places, plzs, fault);
      var m := Reached(fault, |places|);
      && (t.committed <==> m == |places|)
      && t.state == State(if t.committed then s.nodes + Numbered(PlaceNodeMapper.PlaceNodeOf, places, s.nextId, m) else s.nodes,
                          s.nextId + m, s.edges, KeyMap(PlaceKey, places, s.nextId, m), s.plzMap)
  {
  }

  /** The postal code phase's transaction, likewise. */
  lemma PlzPhase(s: State, places: seq<PlaceBean>, plzs: seq<PlzParser.PlzTabBean>, fault: Fault)
    ensures var t := Transaction(s, PlzNodes, places, plzs, fault);
      var z := Reached(fault, |plzs|);
      && (t.committed <==> z == |plzs|)
      && t.state == State(if t.committed then s.nodes + Numbered(PlzNodeMapper.PlzNodeOf, plzs, s.nextId, z) else s.nodes,
                          s.nextId + z, s.edges, s.placeMap, KeyMap(PlzKey, plzs, s.nextId, z))
  {
  }

  /** The linking transaction: it keeps all the relationships or none of them. */
  lemma LinkPhase(s: State, places: seq<PlaceBean>, plzs: seq<PlzParser.PlzTabBean>)
    ensures var t := Transaction(s, Relationships, places, plzs, None);
      var all := AllLinks(s.placeMap, s.plzMap, places);
      && (t.committed <==> EdgesLive(s.nodes, all))
      && t.state == s.(edges := if t.committed then s.edges + all else s.edges)
  {
    LivePrefixShape(s.nodes, AllLinks(s.placeMap, s.plzMap, places));
  }

  /** A run, phase by phase: how far each node phase got decides the nodes, the handles and the caches. */
  lemma ImportParts(places: seq<PlaceBean>, plzs: seq<PlzParser.PlzTabBean>, placeFault: Fault, plzFault: Fault)
    ensures var o := Import(places, plzs, placeFault, plzFault);
      var m := Reached(placeFault, |places|);
      var z := Reached(plzFault, |plzs|);
      && (o.placeNodesCommitted <==> m == |places|)
      && (o.plzNodesCommitted <==> z == |plzs|)
      && o.state.nextId == m + z
      && o.state.nodes == LiveNodes(places, plzs, m, z)
      && o.state.placeMap == KeyMap(PlaceKey, places, 0, m)
      && o.state.plzMap == KeyMap(PlzKey, plzs, m, z)
      && o.relationshipsCommitted == EdgesLive(o.state.nodes, AllLinks(o.state.placeMap, o.state.plzMap, places))
      && o.state.edges == if o.relationshipsCommitted then AllLinks(o.state.placeMap, o.state.plzMap, places) else []
  {
    var s0 := State(map[], 0, [], map[], map[]);
    var t1 := Transaction(s0, PlaceNodes, places, plzs, placeFault);
    PlacePhase(s0, places, plzs, placeFault);
    var t2 := Transaction(t1.state, PlzNodes, places, plzs, plzFault);
    PlzPhase(t1.state, places, plzs, plzFault);
    LinkPhase(t2.state, places, plzs);
  }

  /**
   * The nodes after a run in which the place phase got through m beans and the postal
   * code phase through z. The place phase hands out handles 0 up to m and the postal code
   * phase the next z. A phase's nodes are live exactly when it got through all its beans,
   * and each is the node of its bean.
   */
  lemma RunNodes(places: seq<PlaceBean>, plzs: seq<PlzParser.PlzTabBean>, m: nat, z: nat)
    requires m <= |places| && z <= |plzs|
    ensures var nodes := LiveNodes(places, plzs, m, z);
      && (forall h: nat :: h in nodes <==> (m == |places| && h < m) || (z == |plzs| && m <= h < m + z))
      && (forall h :: h in nodes && h < m ==> nodes[h] == PlaceNodeMapper.PlaceNodeOf(places[h]))
      && (forall h :: h in nodes && m <= h ==> nodes[h] == PlzNodeMapper.PlzNodeOf(plzs[h - m]))
  {
    TwoPhasesShape(PlaceNodeMapper.PlaceNodeOf, PlzNodeMapper.PlzNodeOf, places, plzs, m, z);
  }

  /** When every cached node is live, every relationship the builder plans can be created. */
  lemma LinksLive(placeMap: PlaceNodeMap, plzMap: PlzNodeMap, places: seq<PlaceBean>, nodes: map<NodeId, NodeRecord>)
    requires forall k :: k in placeMap ==> placeMap[k] in nodes
    requires forall k :: k in plzMap ==> plzMap[k] in nodes
    ensures EdgesLive(nodes, AllLinks(placeMap, plzMap, places))
  {
    var all := AllLinks(placeMap, plzMap, places);
    LinksOfEnds(placeMap, plzMap, places, 0, |places|);
    forall k | 0 <= k < |all| ensures Live(nodes, all[k]) {
      var e := all[k];
      assert e in all;
      var a :| a in placeMap && placeMap[a] == e.end;
      if e.kind == PART_OF {
        var b :| b in placeMap && placeMap[b] == e.start;
      } else {
        var c :| c in plzMap && plzMap[c] == e.start;
      }
    }
  }

  /** When no cached place node is live, no planned relationship can be created. */
  lemma LinksWithDeadPlaces(placeMap: PlaceNodeMap, plzMap: PlzNodeMap, places: seq<PlaceBean>,
                            nodes: map<NodeId, NodeRecord>)
    requires forall k :: k in placeMap ==> placeMap[k] !in nodes
    ensures EdgesLive(nodes, AllLinks(placeMap, plzMap, places)) <==> AllLinks(placeMap, plzMap, places) == []
  {
    var all := AllLinks(placeMap, plzMap, places);
    LinksOfEnds(placeMap, plzMap, places, 0, |places|);
    if all != [] {
      assert all[0] in all;
      var a :| a in placeMap && placeMap[a] == all[0].end;
      assert !Live(nodes, all[0]);
    }
  }

  /**
   * When the cached place nodes are live and the cached postal code nodes are not, exactly
   * the PART_OF relationships can be created.
   */
  lemma LinksWithDeadPostalCodes(placeMap: PlaceNodeMap, plzMap: PlzNodeMap, places: seq<PlaceBean>,
                                 nodes: map<NodeId, NodeRecord>)
    requires forall k :: k in placeMap ==> placeMap[k] in nodes
    requires forall k :: k in plzMap ==> plzMap[k] !in nodes
    ensures EdgesLive(nodes, AllLinks(placeMap, plzMap, places)) <==>
      forall e :: e in AllLinks(placeMap, plzMap, places) ==> e.kind == PART_OF
  {
    var all := AllLinks(placeMap, plzMap, places);
    LinksOfEnds(placeMap, plzMap, places, 0, |places|);
    forall e | e in all ensures Live(nodes, e) <==> e.kind == PART_OF {
      var a :| a in placeMap && placeMap[a] == e.end;
      if e.kind == PART_OF {
        var b :| b in placeMap && placeMap[b] == e.start;
      } else {
        var c :| c in plzMap && plzMap[c] == e.start;
      }
    }
    if EdgesLive(nodes, all) {
      forall e | e in all ensures e.kind == PART_OF {
        var k :| 0 <= k < |all| && all[k] == e;
      }
    }
  }

  /**
   * Both node phases got through all their beans: there is one node per bean, every bean's
   * key is cached, and every cached node is live, so every planned relationship can be
   * created.
   */
  lemma CompleteRun(places: seq<PlaceBean>, plzs: seq<PlzParser.PlzTabBean>)
    ensures var nodes := LiveNodes(places, plzs, |places|, |plzs|);
      var placeMap := KeyMap(PlaceKey, places, 0, |places|);
      var plzMap := KeyMap(PlzKey, plzs, |places|, |plzs|);
      && (forall h: nat :: h in nodes <==> h < |places| + |plzs|)
      && (forall j :: 0 <= j < |places| ==> places[j].id in placeMap)
      && (forall j :: 0 <= j < |plzs| ==> plzs[j].plz in plzMap)
      && EdgesLive(nodes, AllLinks(placeMap, plzMap, places))
  {
    CompleteNodes(places, plzs);
    CompleteCaches(places, plzs);
    CompleteLinks(places, plzs);
  }

  /** After two complete node phases there is one node per bean. */
  lemma CompleteNodes(places: seq<PlaceBean>, plzs: seq<PlzParser.PlzTabBean>)
    ensures forall h: nat :: h in LiveNodes(places, plzs, |places|, |plzs|) <==> h < |places| + |plzs|
  {
    RunNodes(places, plzs, |places|, |plzs|);
  }

  /** After two complete node phases every bean's key is cached. */
  lemma CompleteCaches(places: seq<PlaceBean>, plzs: seq<PlzParser.PlzTabBean>)
    ensures forall j :: 0 <= j < |places| ==> places[j].id in KeyMap(PlaceKey, places, 0, |places|)
    ensures forall j :: 0 <= j < |plzs| ==> plzs[j].plz in KeyMap(PlzKey, plzs, |places|, |plzs|)
  {
    KeyMapCovers(PlaceKey, places, 0, |places|);
    KeyMapCovers(PlzKey, plzs, |places|, |plzs|);
  }

  /** After two complete node phases every planned relationship joins live nodes. */
  lemma CompleteLinks(places: seq<PlaceBean>, plzs: seq<PlzParser.PlzTabBean>)
    ensures EdgesLive(LiveNodes(places, plzs, |places|, |plzs|),
                      AllLinks(KeyMap(PlaceKey, places, 0, |places|), KeyMap(PlzKey, plzs, |places|, |plzs|), places))
  {
    CachedNodesLive(places, plzs);
    LinksLive(KeyMap(PlaceKey, places, 0, |places|), KeyMap(PlzKey, plzs, |places|, |plzs|), places,
              LiveNodes(places, plzs, |places|, |plzs|));
  }

  /** After two complete node phases every cached handle names a live node. */
  lemma CachedNodesLive(places: seq<PlaceBean>, plzs: seq<PlzParser.PlzTabBean>)
    ensures forall k :: k in KeyMap(PlaceKey, places, 0, |places|) ==>
      KeyMap(PlaceKey, places, 0, |places|)[k] in LiveNodes(places, plzs, |places|, |plzs|)
    ensures forall k :: k in KeyMap(PlzKey, plzs, |places|, |plzs|) ==>
      KeyMap(PlzKey, plzs, |places|, |plzs|)[k] in LiveNodes(places, plzs, |places|, |plzs|)
  {
    var m := |places|;
    var z := |plzs|;
    RunNodes(places, plzs, m, z);
    KeyMapInto(PlaceKey, places, 0, m);
    KeyMapInto(PlzKey, plzs, m, z);
  }

  /**
   * A run in which the store never raises: all three transactions commit. There is one
   * node per bean, every bean's key is cached, and every relationship the builder plans is
   * created, between live nodes.
   */
  lemma ImportWithoutFaults(places: seq<PlaceBean>, plzs: seq<PlzParser.PlzTabBean>, placeFault: Fault,
                            plzFault: Fault)
    requires Reached(placeFault, |places|) == |places| && Reached(plzFault, |plzs|) == |plzs|
    ensures var o := Import(places, plzs, placeFault, plzFault);
      && o.placeNodesCommitted && o.plzNodesCommitted && o.relationshipsCommitted
      && (forall h: nat :: h in o.state.nodes <==> h < |places| + |plzs|)
      && (forall j :: 0 <= j < |places| ==> places[j].id in o.state.placeMap)
      && (forall j :: 0 <= j < |plzs| ==> plzs[j].plz in o.state.plzMap)
      && o.state.edges == AllLinks(o.state.placeMap, o.state.plzMap, places)
      && EdgesLive(o.state.nodes, o.state.edges)
  {
    ImportParts(places, plzs, placeFault, plzFault);
    CompleteRun(places, plzs);
  }

  /**
   * A run in which the place phase raises: its nodes are gone, but its cache still names
   * them. The postal code phase runs regardless. The linking phase then can create no
   * relationship, since each one ends at a place node: it commits only when there is
   * nothing to link. This rests on the store never reusing a handle: if it handed out
   * the handles freed by the rolled-back place phase again, the stale cache entries would
   * name postal code nodes.
   */
  lemma ImportPlaceFault(places: seq<PlaceBean>, plzs: seq<PlzParser.PlzTabBean>, placeFault: Fault,
                         plzFault: Fault)
    requires Reached(placeFault, |places|) < |places|
    ensures var o := Import(places, plzs, placeFault, plzFault);
      && !o.placeNodesCommitted
      && (o.plzNodesCommitted <==> Reached(plzFault, |plzs|) == |plzs|)
      && (forall k :: k in o.state.placeMap ==> o.state.placeMap[k] !in o.state.nodes)
      && o.state.edges == []
      && (o.relationshipsCommitted <==> AllLinks(o.state.placeMap, o.state.plzMap, places) == [])
  {
    var m := Reached(placeFault, |places|);
    var z := Reached(plzFault, |plzs|);
    ImportParts(places, plzs, placeFault, plzFault);
    RunNodes(places, plzs, m, z);
    var pm := KeyMap(PlaceKey, places, 0, m);
    KeyMapShape(PlaceKey, places, 0, m);
    LinksWithDeadPlaces(pm, KeyMap(PlzKey, plzs, m, z), places, LiveNodes(places, plzs, m, z));
  }

  /**
   * A run in which only the postal code phase raises: the place nodes stay and the postal
   * code nodes are gone. The linking phase commits exactly when every planned relationship
   * is a PART_OF one, since a POSTAL_CODE_FOR relationship starts at a postal code node.
   * This rests on the store never reusing a handle, so that no stale cache entry can
   * name a node created later.
   */
  lemma ImportPlzFault(places: seq<PlaceBean>, plzs: seq<PlzParser.PlzTabBean>, placeFault: Fault,
                       plzFault: Fault)
    requires Reached(placeFault, |places|) == |places| && Reached(plzFault, |plzs|) < |plzs|
    ensures var o := Import(places, plzs, placeFault, plzFault);
      var all := AllLinks(o.state.placeMap, o.state.plzMap, places);
      && o.placeNodesCommitted && !o.plzNodesCommitted
      && (forall k :: k in o.state.plzMap ==> o.state.plzMap[k] !in o.state.nodes)
      && (o.relationshipsCommitted <==> forall e :: e in all ==> e.kind == PART_OF)
      && o.state.edges == if o.relationshipsCommitted then all else []
  {
    var m := Reached(placeFault, |places|);
    var z := Reached(plzFault, |plzs|);
    ImportParts(places, plzs, placeFault, plzFault);
    RunNodes(places, plzs, m, z);
    var pm := KeyMap(PlaceKey, places, 0, m);
    var zm := KeyMap(PlzKey, plzs, m, z);
    KeyMapShape(PlaceKey, places, 0, m);
    KeyMapShape(PlzKey, plzs, m, z);
    LinksWithDeadPostalCodes(pm, zm, places, LiveNodes(places, plzs, m, z));
  }
}
