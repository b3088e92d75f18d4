/**
 * The graph store the importer writes to, reduced to what the importer uses: nodes with
 * a label set and a property map, typed directed relationships, lookup by label and
 * property, and the undo of a failed transaction.
 *
 * Node handles are never reused: a node created in a transaction that is rolled back
 * stays dead, and a later attempt to link it fails.
 */
module GraphStore {
  import opened Wrappers
  import opened JavaText
  import opened OpenGeoDbProperties

  /** A node handle. */
  type NodeId = nat

  /** A property value: Integer, Double or String. */
  datatype PropValue = IntProp(i: int32) | RealProp(r: real) | StrProp(s: string)

  /** A node's labels and properties. */
  datatype NodeRecord = NodeRecord(labels: set<string>, props: map<PropKey, PropValue>)

  /** The two relationship types the importer creates. */
  datatype RelType = PART_OF | POSTAL_CODE_FOR

  /** A relationship from `start` to `end`. */
  datatype Edge = Edge(start: NodeId, end: NodeId, kind: RelType)

  /** findNodesByLabelAndProperty's test on one node. */
  predicate Matches(r: NodeRecord, name: string, key: PropKey, value: PropValue) {
    name in r.labels && key in r.props && r.props[key] == value
  }

  /** A String property read back: None when it is absent or not a String. */
  function StringOf(props: map<PropKey, PropValue>, key: PropKey): Option<string> {
    if key in props && props[key].StrProp? then Some(props[key].s) else None
  }

  /** An Integer property read back: 0 when it is absent or not an Integer. */
  function IntOf(props: map<PropKey, PropValue>, key: PropKey): int32 {
    if key in props && props[key].IntProp? then props[key].i else 0
  }

  /** A Double property read back: 0.0 when it is absent or not a Double. */
  function RealOf(props: map<PropKey, PropValue>, key: PropKey): real {
    if key in props && props[key].RealProp? then props[key].r else 0.0
  }

  /** Both ends of an edge are live nodes, so createRelationshipTo can make it. */
  predicate Live(nodes: map<NodeId, NodeRecord>, e: Edge) {
    e.start in nodes && e.end in nodes
  }

  /** Both ends of every edge are live nodes. */
  predicate EdgesLive(nodes: map<NodeId, NodeRecord>, edges: seq<Edge>) {
    forall k :: 0 <= k < |edges| ==> Live(nodes, edges[k])
  }

  /**
   * The edges a run of createRelationshipTo calls makes before one of them raises: the
   * longest prefix whose edges are all live.
   */
  function LivePrefix(nodes: map<NodeId, NodeRecord>, edges: seq<Edge>): seq<Edge> {
    if edges == [] then []
    else if Live(nodes, edges[0]) then [edges[0]] + LivePrefix(nodes, edges[1..])
    else []
  }

  /**
   * LivePrefix is a prefix whose edges are all live and that stops just before the first
   * edge that is not: it is the whole list exactly when every edge is live.
   */
  lemma {:induction false} LivePrefixShape(nodes: map<NodeId, NodeRecord>, edges: seq<Edge>)
    ensures var p := LivePrefix(nodes, edges);
      && |p| <= |edges| && p == edges[..|p|] && EdgesLive(nodes, p)
      && (|p| < |edges| ==> !Live(nodes, edges[|p|]))
      && (p == edges <==> EdgesLive(nodes, edges))
  {
    if edges != [] && Live(nodes, edges[0]) {
      var t := edges[1..];
      LivePrefixShape(nodes, t);
      var q := LivePrefix(nodes, t);
      var p := [edges[0]] + q;
      assert p == edges[..|p|] by {
        assert edges == [edges[0]] + t;
      }
      assert EdgesLive(nodes, p) by {
        forall k | 0 <= k < |p| ensures Live(nodes, p[k]) {
          if k > 0 {
            assert p[k] == q[k - 1];
          }
        }
      }
      if EdgesLive(nodes, edges) {
        assert EdgesLive(nodes, t) by {
          forall k | 0 <= k < |t| ensures Live(nodes, t[k]) {
            assert t[k] == edges[k + 1];
          }
        }
      }
      if p == edges {
        assert q == t;
      }
    }
  }

  /** A concatenation is live exactly when both parts are. */
  lemma EdgesLiveAppend(nodes: map<NodeId, NodeRecord>, a: seq<Edge>, b: seq<Edge>)
    ensures EdgesLive(nodes, a + b) <==> EdgesLive(nodes, a) && EdgesLive(nodes, b)
  {
    if EdgesLive(nodes, a + b) {
      forall k | 0 <= k < |a| ensures Live(nodes, a[k]) {
        assert (a + b)[k] == a[k];
      }
      forall k | 0 <= k < |b| ensures Live(nodes, b[k]) {
        assert (a + b)[|a| + k] == b[k];
      }
    }
  }

  /** A run of calls stops at the first edge with a dead end, after creating the live ones before it. */
  lemma LivePrefixStops(nodes: map<NodeId, NodeRecord>, before: seq<Edge>, e: Edge, after: seq<Edge>)
    requires EdgesLive(nodes, before) && !Live(nodes, e)
    ensures LivePrefix(nodes, before + [e] + after) == before
    ensures !EdgesLive(nodes, before + [e] + after)
  {
    assert before + [e] + after == before + ([e] + after);
    LivePrefixAfterLive(nodes, before, [e] + after);
    assert ([e] + after)[0] == e;
    assert (before + [e] + after)[|before|] == e;
  }

  /** After a list of calls that all succeeded, the next list's calls continue the run. */
  lemma LivePrefixThen(nodes: map<NodeId, NodeRecord>, e0: seq<Edge>, a: seq<Edge>, c: seq<Edge>)
    requires EdgesLive(nodes, a)
    ensures (e0 + LivePrefix(nodes, a)) + LivePrefix(nodes, c) == e0 + LivePrefix(nodes, a + c)
    ensures EdgesLive(nodes, c) <==> EdgesLive(nodes, a + c)
  {
    LivePrefixShape(nodes, a);
    LivePrefixAfterLive(nodes, a, c);
    EdgesLiveAppend(nodes, a, c);
  }

  /** After a list of calls that raised, the next list's calls are never made. */
  lemma LivePrefixStopped(nodes: map<NodeId, NodeRecord>, a: seq<Edge>, c: seq<Edge>)
    requires !EdgesLive(nodes, a)
    ensures LivePrefix(nodes, a) == LivePrefix(nodes, a + c)
    ensures !EdgesLive(nodes, a + c)
  {
    LivePrefixAfterDead(nodes, a, c);
    EdgesLiveAppend(nodes, a, c);
  }

  /**
   * Calls for `a` that all succeed, then calls for `p` of which one raises: the edges of
   * `a` and the live prefix of `p` are created, and those for `rest` are never tried.
   */
  lemma LivePrefixFails(nodes: map<NodeId, NodeRecord>, a: seq<Edge>, p: seq<Edge>, rest: seq<Edge>)
    requires EdgesLive(nodes, a) && !EdgesLive(nodes, p)
    ensures LivePrefix(nodes, a + p + rest) == a + LivePrefix(nodes, p)
    ensures !EdgesLive(nodes, a + p + rest)
  {
    assert a + p + rest == a + (p + rest);
    LivePrefixAfterLive(nodes, a, p + rest);
    LivePrefixAfterDead(nodes, p, rest);
    EdgesLiveAppend(nodes, p, rest);
    EdgesLiveAppend(nodes, a, p + rest);
  }

  /** A single call: it creates its edge exactly when both ends are live. */
  lemma LivePrefixOne(nodes: map<NodeId, NodeRecord>, e: Edge)
    ensures LivePrefix(nodes, [e]) == if Live(nodes, e) then [e] else []
    ensures EdgesLive(nodes, [e]) <==> Live(nodes, e)
  {
    assert [e][1..] == [];
  }

  /** A list of calls that all succeed is followed by the next list's calls. */
  lemma {:induction false} LivePrefixAfterLive(nodes: map<NodeId, NodeRecord>, a: seq<Edge>, b: seq<Edge>)
    requires EdgesLive(nodes, a)
    ensures LivePrefix(nodes, a + b) == a + LivePrefix(nodes, b)
  {
    if a == [] {
      assert a + b == b;
    } else {
      var t := a[1..];
      assert a == [a[0]] + t;
      assert a + b == [a[0]] + (t + b);
      assert Live(nodes, a[0]);
      assert EdgesLive(nodes, t) by {
        forall k | 0 <= k < |t| ensures Live(nodes, t[k]) {
          assert t[k] == a[k + 1];
        }
      }
      LivePrefixAfterLive(nodes, t, b);
    }
  }

  /** Once a call raises, the calls after it are never made. */
  lemma {:induction false} LivePrefixAfterDead(nodes: map<NodeId, NodeRecord>, a: seq<Edge>, b: seq<Edge>)
    requires !EdgesLive(nodes, a)
    ensures LivePrefix(nodes, a + b) == LivePrefix(nodes, a)
  {
    assert a != [];
    assert (a + b)[0] == a[0];
    if Live(nodes, a[0]) {
      assert (a + b)[1..] == a[1..] + b;
      assert !EdgesLive(nodes, a[1..]) by {
        var k :| 0 <= k < |a| && !Live(nodes, a[k]);
        assert a[1..][k - 1] == a[k];
      }
      LivePrefixAfterDead(nodes, a[1..], b);
    }
  }

  class Store {
    /** The live nodes. */
    var nodes: map<NodeId, NodeRecord>
    /** The handle the next created node receives. */
    var nextId: NodeId
    /** The relationships, in creation order. */
    var edges: seq<Edge>

    /** Every live handle was handed out before. */
    ghost predicate Valid()
      reads this
    {
      forall n :: n in nodes ==> n < nextId
    }

    /** An empty store. */
    constructor ()
      ensures Valid() && nodes == map[] && nextId == 0 && edges == []
    {
      nodes := map[];
      nextId := 0;
      edges := [];
    }

    /** GraphDatabaseService.createNode(labels...): a new node with no properties. */
    method CreateNode(labels: set<string>) returns (n: NodeId)
      requires Valid()
      modifies this
      ensures Valid()
      ensures n == old(nextId) && n !in old(nodes) && nextId == n + 1
      ensures nodes == old(nodes)[n := NodeRecord(labels, map[])]
      ensures edges == old(edges)
    {
      n := nextId;
      nodes := nodes[n := NodeRecord(labels, map[])];
      nextId := nextId + 1;
    }

    /** Node.setProperty: sets or replaces one property of a live node. */
    method SetProperty(n: NodeId, key: PropKey, value: PropValue)
      requires n in nodes
      modifies this
      ensures nodes == old(nodes)[n := old(nodes)[n].(props := old(nodes)[n].props[key := value])]
      ensures nextId == old(nextId) && edges == old(edges)
    {
      nodes := nodes[n := nodes[n].(props := nodes[n].props[key := value])];
    }

    /** Node.addLabel: adds one label to a live node. */
    method AddLabel(n: NodeId, name: string)
      requires n in nodes
      modifies this
      ensures nodes == old(nodes)[n := old(nodes)[n].(labels := old(nodes)[n].labels + {name})]
      ensures nextId == old(nextId) && edges == old(edges)
    {
      nodes := nodes[n := nodes[n].(labels := nodes[n].labels + {name})];
    }

    /**
     * Node.createRelationshipTo. `ok` is false when either end is not a live node (the
     * store's NotFoundException); nothing is created then.
     */
    method CreateRelationshipTo(from: NodeId, to: NodeId, kind: RelType) returns (ok: bool)
      modifies this
      ensures ok <==> from in nodes && to in nodes
      ensures edges == if ok then old(edges) + [Edge(from, to, kind)] else old(edges)
      ensures nodes == old(nodes) && nextId == old(nextId)
    {
      ok := from in nodes && to in nodes;
      if ok {
        edges := edges + [Edge(from, to, kind)];
      }
    }

    /** Transaction.failure followed by finish: the nodes and edges go back to a saved state. */
    method Rollback(savedNodes: map<NodeId, NodeRecord>, savedEdges: seq<Edge>)
      requires Valid() && forall n :: n in savedNodes ==> n < nextId
      modifies this
      ensures Valid() && nodes == savedNodes && edges == savedEdges && nextId == old(nextId)
    {
      nodes := savedNodes;
      edges := savedEdges;
    }

    /** findNodesByLabelAndProperty: the live nodes with the label and the property value. */
    function FindNodes(name: string, key: PropKey, value: PropValue): set<NodeId>
      reads this
    {
      set n | n in nodes && Matches(nodes[n], name, key, value)
    }
  }
}
