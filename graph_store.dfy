/** The graph store: the node and edge lists, the filtered view handed to the
    graph display, the two filters, and the local mutators. Database replies
    are parameters; `signedIn` says whether a user is logged in. */
module GraphStore {
  import opened Js
  import opened Seqs
  import opened Records
  import opened Graph

  /** The edge fields `addEdge` receives. */
  datatype EdgeInput = EdgeInput(source: string, target: string, kind: string,
                                 weight: Option<real>, caption: Option<string>)

  /** The row `addEdge` inserts into `graph_edges` (owner and creation time
      aside). */
  datatype EdgeInsert = EdgeInsert(sourceNode: string, targetNode: string, edgeType: string,
                                   weight: real, caption: Option<string>)

  /** The nodes left after removing a node id: all others, in order. */
  function WithoutNode(nodes: seq<Node>, nodeId: string): (r: seq<Node>)
    ensures IsSubseq(r, nodes)
    ensures forall n :: n in r <==> n in nodes && n.id != nodeId
    ensures forall n :: Count(r, n) == if n.id != nodeId then Count(nodes, n) else 0
  {
    var keep := (n: Node) => n.id != nodeId;
    assert forall n :: Count(Filter(nodes, keep), n) == if n.id != nodeId then Count(nodes, n) else 0 by {
      forall n { FilterCount(nodes, keep, n); }
    }
    Filter(nodes, keep)
  }

  /** The edges left after removing a node id: those not touching it. */
  function WithoutIncident(edges: seq<Edge>, nodeId: string): (r: seq<Edge>)
    ensures IsSubseq(r, edges)
    ensures forall e :: e in r <==> e in edges && e.source != nodeId && e.target != nodeId
    ensures forall e :: Count(r, e) == if e.source != nodeId && e.target != nodeId then Count(edges, e) else 0
  {
    var keep := (e: Edge) => e.source != nodeId && e.target != nodeId;
    assert forall e :: Count(Filter(edges, keep), e) ==
                       if e.source != nodeId && e.target != nodeId then Count(edges, e) else 0 by {
      forall e { FilterCount(edges, keep, e); }
    }
    Filter(edges, keep)
  }

  /** `edgeData.weight || 1`. */
  function InsertWeight(w: Option<real>): (r: real)
    ensures r != 0.0
    ensures w.Some? && w.value != 0.0 ==> r == w.value
  {
    if w.Some? && w.value != 0.0 then w.value else 1.0
  }

  /** The edge the store appends for a row returned by the insert. */
  function EdgeOfRow(row: EdgeRow): Edge
  {
    Edge(row.id, row.sourceNode, row.targetNode, row.edgeType, row.weight, row.caption)
  }

  class Store {
    var nodes: seq<Node>
    var edges: seq<Edge>
    var loading: bool
    var error: Option<string>
    var graphData: GraphData
    var nodeTypeFilter: string
    var timeFilter: string

    constructor ()
      ensures nodes == [] && edges == [] && !loading && error == None
      ensures graphData == GraphData([], [])
      ensures nodeTypeFilter == "all" && timeFilter == "all"
    {
      nodes := [];
      edges := [];
      loading := false;
      error := None;
      graphData := GraphData([], []);
      nodeTypeFilter := "all";
      timeFilter := "all";
    }

    /** The fields the local mutators leave alone. */
    function Aside(): (GraphData, bool, Option<string>, string, string)
      reads this
    {
      (graphData, loading, error, nodeTypeFilter, timeFilter)
    }

    /** A full load: on a database error only the error is recorded; otherwise
        the nodes and edges are rebuilt from the rows and the filtered view is
        recomputed under the current filters. */
    method LoadGraph(signedIn: bool, memoriesReply: Result<seq<Memory>>,
                     edgesReply: Result<seq<EdgeRow>>, now: int)
      modifies this
      ensures nodeTypeFilter == old(nodeTypeFilter) && timeFilter == old(timeFilter)
      ensures !signedIn ==> unchanged(this)
      ensures signedIn ==> !loading
      ensures signedIn && memoriesReply.Err? ==>
        error == Some(memoriesReply.error)
        && nodes == old(nodes) && edges == old(edges) && graphData == old(graphData)
      ensures signedIn && memoriesReply.Ok? && edgesReply.Err? ==>
        error == Some(edgesReply.error)
        && nodes == old(nodes) && edges == old(edges) && graphData == old(graphData)
      ensures signedIn && memoriesReply.Ok? && edgesReply.Ok? ==>
        && error == None
        && nodes == RebuildNodes(memoriesReply.value)
        && edges == RebuildEdges(memoriesReply.value, edgesReply.value)
        && graphData == ApplyFilters(GraphData(nodes, edges), nodeTypeFilter, timeFilter, now)
    {
      if !signedIn {
        return;
      }
      loading, error := true, None;
      if memoriesReply.Err? {
        error, loading := Some(memoriesReply.error), false;
        return;
      }
      if edgesReply.Err? {
        error, loading := Some(edgesReply.error), false;
        return;
      }
      var ns, es := BuildGraph(memoriesReply.value, edgesReply.value);
      var filtered := ApplyFilters(GraphData(ns, es), nodeTypeFilter, timeFilter, now);
      nodes, edges, graphData, loading := ns, es, filtered, false;
    }

    /** Sets both filters and recomputes the view; the node and edge lists
        stay as they are. */
    method UpdateFilters(typeFilter: string, timeFilter': string, now: int)
      modifies this
      ensures nodeTypeFilter == typeFilter && timeFilter == timeFilter'
      ensures graphData == ApplyFilters(GraphData(nodes, edges), typeFilter, timeFilter', now)
      ensures nodes == old(nodes) && edges == old(edges)
      ensures loading == old(loading) && error == old(error)
    {
      graphData := ApplyFilters(GraphData(nodes, edges), typeFilter, timeFilter', now);
      nodeTypeFilter, timeFilter := typeFilter, timeFilter';
    }

    /** Appends one node. */
    method AddNode(signedIn: bool, node: Node)
      modifies this
      ensures nodes == if signedIn then old(nodes) + [node] else old(nodes)
      ensures edges == old(edges) && graphData == old(graphData)
      ensures loading == old(loading) && error == old(error)
      ensures nodeTypeFilter == old(nodeTypeFilter) && timeFilter == old(timeFilter)
    {
      if signedIn {
        nodes := nodes + [node];
      }
    }

    /** Removes every node with the id and every edge touching it; nothing
        else is removed (no node left without edges is swept). The matching
        database delete is not modelled. */
    method RemoveNode(signedIn: bool, nodeId: string)
      modifies this
      ensures nodes == if signedIn then WithoutNode(old(nodes), nodeId) else old(nodes)
      ensures edges == if signedIn then WithoutIncident(old(edges), nodeId) else old(edges)
      ensures graphData == old(graphData)
      ensures loading == old(loading) && error == old(error)
      ensures nodeTypeFilter == old(nodeTypeFilter) && timeFilter == old(timeFilter)
    {
      if signedIn {
        nodes, edges := WithoutNode(nodes, nodeId), WithoutIncident(edges, nodeId);
      }
    }

    /** Inserts an edge row (returned as `sent`) and, when the insert
        succeeds, appends the edge built from the returned row. */
    method AddEdge(signedIn: bool, input: EdgeInput, reply: Result<EdgeRow>) returns (sent: Option<EdgeInsert>)
      modifies this
      ensures sent == if signedIn then
          Some(EdgeInsert(input.source, input.target, input.kind, InsertWeight(input.weight), input.caption))
        else None
      ensures edges == if signedIn && reply.Ok? then old(edges) + [EdgeOfRow(reply.value)] else old(edges)
      ensures nodes == old(nodes) && graphData == old(graphData)
      ensures loading == old(loading) && error == old(error)
      ensures nodeTypeFilter == old(nodeTypeFilter) && timeFilter == old(timeFilter)
    {
      if !signedIn {
        return None;
      }
      sent := Some(EdgeInsert(input.source, input.target, input.kind, InsertWeight(input.weight), input.caption));
      if reply.Ok? {
        edges := edges + [EdgeOfRow(reply.value)];
      }
    }
  }

  /** Removing a node keeps every other node and every edge not touching it,
      in order, and leaves no edge touching it. */
  lemma RemoveNodeExact(nodes: seq<Node>, edges: seq<Edge>, nodeId: string)
    ensures forall n :: n in nodes && n.id != nodeId ==> n in WithoutNode(nodes, nodeId)
    ensures forall e :: e in WithoutIncident(edges, nodeId) ==> e.source != nodeId && e.target != nodeId
    ensures |WithoutNode(nodes, nodeId)| == |nodes| - Count(Ids(nodes), nodeId)
  {
    WithoutNodeCount(nodes, nodeId);
  }

  function Ids(nodes: seq<Node>): (r: seq<string>)
    ensures |r| == |nodes|
    ensures forall i :: 0 <= i < |nodes| ==> r[i] == nodes[i].id
  {
    if nodes == [] then [] else [nodes[0].id] + Ids(nodes[1..])
  }

  lemma {:induction false} WithoutNodeCount(nodes: seq<Node>, nodeId: string)
    ensures |WithoutNode(nodes, nodeId)| == |nodes| - Count(Ids(nodes), nodeId)
  {
    if nodes != [] {
      WithoutNodeCount(nodes[1..], nodeId);
      assert Ids(nodes)[1..] == Ids(nodes[1..]);
    }
  }
}
