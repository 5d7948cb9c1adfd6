/** The knowledge graph derived from the memory log: memory nodes, one node
    per distinct person, place and event, the stored edges and the implicit
    `contains` edges; the type and time filters; and the read-only queries of
    the graph store. */
module Graph {
  import opened Seqs
  import opened Js
  import opened Text
  import opened Records
  import opened Tallies

  datatype Kind = Person | Place | Event

  function KindName(k: Kind): string
  {
    match k
    case Person => "person"
    case Place => "place"
    case Event => "event"
  }

  /** A mention `{ type, value }` of a person, place or event in a memory. */
  datatype Entity = Entity(kind: Kind, value: string)

  /** What a node carries in `data`: the memory row, or the entity. */
  datatype NodeData = MemoryData(memory: Memory) | EntityData(entity: Entity)

  datatype Node = Node(id: string, kind: string, caption: string, data: NodeData)

  /** An edge of the store; `weight` and `label` may be absent. */
  datatype Edge = Edge(id: string, source: string, target: string, kind: string,
                       weight: Option<real>, caption: Option<string>)

  /** A row of the `graph_edges` table. */
  datatype EdgeRow = EdgeRow(id: string, sourceNode: string, targetNode: string,
                             edgeType: string, weight: Option<real>, caption: Option<string>)

  /** `{ nodes, links }` as handed to the graph view. */
  datatype GraphData = GraphData(nodes: seq<Node>, links: seq<Edge>)

  function MemoryNodeId(memoryId: string): string
  {
    "memory_" + memoryId
  }

  function EntityNodeId(e: Entity): string
  {
    KindName(e.kind) + "_" + e.value
  }

  /** The first 50 characters of the content followed by "..." (always). */
  function MemoryLabel(content: string): string
  {
    Prefix(content, 50) + "..."
  }

  function MemoryNode(m: Memory): Node
  {
    Node(MemoryNodeId(m.id), "memory", MemoryLabel(m.content), MemoryData(m))
  }

  function EntityNode(e: Entity): Node
  {
    Node(EntityNodeId(e), KindName(e.kind), e.value, EntityData(e))
  }

  /** `values.map(v => ({ type: k, value: v }))`. */
  function Tagged(k: Kind, values: seq<string>): (r: seq<Entity>)
    ensures |r| == |values|
    ensures forall i :: 0 <= i < |r| ==> r[i] == Entity(k, values[i])
  {
    if values == [] then [] else [Entity(k, values[0])] + Tagged(k, values[1..])
  }

  /** The people, then the places, then the events of a memory. */
  function Mentions(m: Memory): seq<Entity>
  {
    Tagged(Person, m.people) + Tagged(Place, m.places) + Tagged(Event, m.events)
  }

  /** Every mention of every memory, in memory order. */
  function AllMentions(ms: seq<Memory>): seq<Entity>
    decreases |ms|
  {
    if ms == [] then [] else AllMentions(ms[..|ms| - 1]) + Mentions(ms[|ms| - 1])
  }

  function MemoryNodes(ms: seq<Memory>): (r: seq<Node>)
    ensures |r| == |ms|
    ensures forall i :: 0 <= i < |ms| ==> r[i] == MemoryNode(ms[i])
    decreases |ms|
  {
    if ms == [] then [] else MemoryNodes(ms[..|ms| - 1]) + [MemoryNode(ms[|ms| - 1])]
  }

  function EntityNodes(es: seq<Entity>): (r: seq<Node>)
    ensures |r| == |es|
    ensures forall i :: 0 <= i < |es| ==> r[i] == EntityNode(es[i])
    decreases |es|
  {
    if es == [] then [] else EntityNodes(es[..|es| - 1]) + [EntityNode(es[|es| - 1])]
  }

  /** The nodes of a full rebuild: one node per memory, then one node per
      distinct entity in order of first mention. */
  function RebuildNodes(ms: seq<Memory>): seq<Node>
  {
    MemoryNodes(ms) + EntityNodes(Unique(AllMentions(ms)))
  }

  /** A stored edge as the store holds it: `weight || 1`. */
  function StoredEdge(row: EdgeRow): (e: Edge)
    ensures e.weight.Some? && e.weight.value != 0.0
    ensures row.weight.Some? && row.weight.value != 0.0 ==> e.weight == row.weight
  {
    var w := if row.weight.Some? && row.weight.value != 0.0 then row.weight.value else 1.0;
    Edge(row.id, row.sourceNode, row.targetNode, row.edgeType, Some(w), row.caption)
  }

  /** The implicit edge from a memory to one of its mentions. */
  function ContainsEdge(m: Memory, e: Entity): Edge
  {
    var source := MemoryNodeId(m.id);
    var target := EntityNodeId(e);
    Edge(source + "_" + target, source, target, "contains", Some(1.0), None)
  }

  /** One `contains` edge per mention, in mention order. */
  function ContainsEdges(m: Memory, es: seq<Entity>): (r: seq<Edge>)
    ensures |r| == |es|
    ensures forall k :: 0 <= k < |es| ==> r[k] == ContainsEdge(m, es[k])
    decreases |es|
  {
    if es == [] then [] else ContainsEdges(m, es[..|es| - 1]) + [ContainsEdge(m, es[|es| - 1])]
  }

  lemma ContainsEdgesStep(m: Memory, es: seq<Entity>, j: nat)
    requires j < |es|
    ensures ContainsEdges(m, es[..j + 1]) == ContainsEdges(m, es[..j]) + [ContainsEdge(m, es[j])]
  {
    assert es[..j + 1][..j] == es[..j];
  }

  function ImplicitEdges(ms: seq<Memory>): seq<Edge>
    decreases |ms|
  {
    if ms == [] then []
    else
      var m := ms[|ms| - 1];
      ImplicitEdges(ms[..|ms| - 1]) + ContainsEdges(m, Mentions(m))
  }

  function StoredEdges(rows: seq<EdgeRow>): (r: seq<Edge>)
    ensures |r| == |rows|
    ensures forall k :: 0 <= k < |rows| ==> r[k] == StoredEdge(rows[k])
    decreases |rows|
  {
    if rows == [] then [] else StoredEdges(rows[..|rows| - 1]) + [StoredEdge(rows[|rows| - 1])]
  }

  /** The edges of a full rebuild: the stored edges, then the implicit ones. */
  function RebuildEdges(ms: seq<Memory>, rows: seq<EdgeRow>): seq<Edge>
  {
    StoredEdges(rows) + ImplicitEdges(ms)
  }

  function NodeIds(nodes: seq<Node>): set<string>
  {
    set n | n in nodes :: n.id
  }

  /** The node and edge derivation of a full graph load, step by step as the
      store performs it: the memory nodes are pushed while the entity nodes
      are collected in a map keyed by node id (the first occurrence wins);
      the entity nodes follow the memory nodes; the stored edges precede the
      implicit ones. */
  method BuildGraph(memories: seq<Memory>, rows: seq<EdgeRow>) returns (nodes: seq<Node>, edges: seq<Edge>)
    ensures nodes == RebuildNodes(memories)
    ensures edges == RebuildEdges(memories, rows)
  {
    nodes := BuildNodes(memories);
    edges := BuildEdges(memories, rows);
  }

  method BuildNodes(memories: seq<Memory>) returns (nodes: seq<Node>)
    ensures nodes == RebuildNodes(memories)
  {
    nodes := [];
    var entityNodes: seq<Node> := [];
    var seen: set<string> := {};
    ghost var distinct: seq<Entity> := [];
    var i := 0;
    while i < |memories|
      invariant 0 <= i <= |memories|
      invariant nodes == MemoryNodes(memories[..i])
      invariant distinct == Unique(AllMentions(memories[..i]))
      invariant entityNodes == EntityNodes(distinct)
      invariant seen == EntityIds(distinct)
    {
      var memory := memories[i];
      nodes := nodes + [MemoryNode(memory)];
      var entities := Mentions(memory);
      entityNodes, seen := AddEntityNodes(entityNodes, seen, entities, distinct);
      UniqueIntoAppend([], AllMentions(memories[..i]), entities);
      distinct := UniqueInto(distinct, entities);
      assert memories[..i + 1][..i] == memories[..i];
      i := i + 1;
    }
    assert memories[..i] == memories;
    nodes := nodes + entityNodes;
  }

  /** The entity-map update for the mentions of one memory: a mention whose
      node id is already a key is skipped. `distinct` is the list of entities
      already in the map, in insertion order. */
  method AddEntityNodes(entityNodes: seq<Node>, seen: set<string>, entities: seq<Entity>, ghost distinct: seq<Entity>)
    returns (entityNodes': seq<Node>, seen': set<string>)
    requires entityNodes == EntityNodes(distinct) && seen == EntityIds(distinct)
    ensures entityNodes' == EntityNodes(UniqueInto(distinct, entities))
    ensures seen' == EntityIds(UniqueInto(distinct, entities))
  {
    entityNodes', seen' := entityNodes, seen;
    ghost var d := distinct;
    var j := 0;
    while j < |entities|
      invariant 0 <= j <= |entities|
      invariant d == UniqueInto(distinct, entities[..j])
      invariant entityNodes' == EntityNodes(d)
      invariant seen' == EntityIds(d)
    {
      var entity := entities[j];
      var nodeId := EntityNodeId(entity);
      SeenIff(d, entity);
      UniqueIntoStep(distinct, entities, j);
      EntityNodesSnoc(d, entity);
      if nodeId !in seen' {
        seen' := seen' + {nodeId};
        entityNodes' := entityNodes' + [EntityNode(entity)];
        d := d + [entity];
      }
      j := j + 1;
    }
    assert entities[..j] == entities;
  }

  lemma UniqueIntoStep(distinct: seq<Entity>, entities: seq<Entity>, j: nat)
    requires j < |entities|
    ensures var d := UniqueInto(distinct, entities[..j]);
      UniqueInto(distinct, entities[..j + 1]) == if entities[j] in d then d else d + [entities[j]]
  {
    assert entities[..j + 1][..j] == entities[..j];
  }

  lemma EntityNodesSnoc(es: seq<Entity>, e: Entity)
    ensures EntityNodes(es + [e]) == EntityNodes(es) + [EntityNode(e)]
  {
    assert (es + [e])[..|es|] == es;
  }

  method BuildEdges(memories: seq<Memory>, rows: seq<EdgeRow>) returns (edges: seq<Edge>)
    ensures edges == RebuildEdges(memories, rows)
  {
    edges := CopyStoredEdges(rows);
    var i := 0;
    while i < |memories|
      invariant 0 <= i <= |memories|
      invariant edges == StoredEdges(rows) + ImplicitEdges(memories[..i])
    {
      var memory := memories[i];
      ghost var stored, before := StoredEdges(rows), ImplicitEdges(memories[..i]);
      ghost var added := ContainsEdges(memory, Mentions(memory));
      edges := AddContainsEdges(edges, memory);
      assert memories[..i + 1][..i] == memories[..i];
      assert ImplicitEdges(memories[..i + 1]) == before + added;
      AppendAssoc(stored, before, added);
      i := i + 1;
    }
    assert memories[..i] == memories;
  }

  /** Pushes every stored edge, with `weight || 1`. */
  method CopyStoredEdges(rows: seq<EdgeRow>) returns (edges: seq<Edge>)
    ensures edges == StoredEdges(rows)
  {
    edges := [];
    var k := 0;
    while k < |rows|
      invariant 0 <= k <= |rows|
      invariant edges == StoredEdges(rows[..k])
    {
      edges := edges + [StoredEdge(rows[k])];
      assert rows[..k + 1][..k] == rows[..k];
      k := k + 1;
    }
    assert rows[..k] == rows;
  }

  /** Pushes one `contains` edge per mention of a memory. */
  method AddContainsEdges(edges: seq<Edge>, memory: Memory) returns (edges': seq<Edge>)
    ensures edges' == edges + ContainsEdges(memory, Mentions(memory))
  {
    var entities := Mentions(memory);
    edges' := edges;
    var j := 0;
    while j < |entities|
      invariant 0 <= j <= |entities|
      invariant edges' == edges + ContainsEdges(memory, entities[..j])
    {
      ContainsEdgesStep(memory, entities, j);
      edges' := edges' + [ContainsEdge(memory, entities[j])];
      j := j + 1;
    }
    assert entities[..j] == entities;
  }

  /** The keys of the entity map. */
  ghost function EntityIds(es: seq<Entity>): set<string>
  {
    set e | e in es :: EntityNodeId(e)
  }

  lemma SeenIff(es: seq<Entity>, x: Entity)
    ensures EntityNodeId(x) in EntityIds(es) <==> x in es
    ensures EntityIds(es + [x]) == EntityIds(es) + {EntityNodeId(x)}
  {
    if EntityNodeId(x) in EntityIds(es) {
      var e :| e in es && EntityNodeId(e) == EntityNodeId(x);
      EntityNodeIdInjective(e, x);
    }
  }

  /** The second letter of a kind name tells the kinds apart. */
  function KindMark(k: Kind): (c: char)
    ensures c == KindName(k)[1]
  {
    match k
    case Person => 'e'
    case Place => 'l'
    case Event => 'v'
  }

  /** Distinct entities have distinct node ids: the kind prefixes differ. */
  lemma EntityNodeIdInjective(a: Entity, b: Entity)
    ensures EntityNodeId(a) == EntityNodeId(b) <==> a == b
  {
    var ia, ib := EntityNodeId(a), EntityNodeId(b);
    var ka, kb := KindName(a.kind), KindName(b.kind);
    if ia == ib {
      assert ia[1] == KindMark(a.kind) && ib[1] == KindMark(b.kind);
      assert a.kind == b.kind;
      assert ia[|ka| + 1..] == a.value;
      assert ib[|kb| + 1..] == b.value;
    }
  }

  /** A memory node id never equals an entity node id. */
  lemma MemoryAndEntityIdsDiffer(memoryId: string, e: Entity)
    ensures MemoryNodeId(memoryId) != EntityNodeId(e)
  {
    var a, b := MemoryNodeId(memoryId), EntityNodeId(e);
    assert a[0] == 'm';
    assert b[0] == KindName(e.kind)[0];
  }

  /** The label of a memory node: the first 50 characters of the content,
      then "..." even when the content is shorter. */
  lemma MemoryLabelFacts(content: string)
    ensures var lbl := MemoryLabel(content);
      && |lbl| == (if |content| < 50 then |content| else 50) + 3
      && lbl[|lbl| - 3..] == "..."
      && StartsWith(content, lbl[..|lbl| - 3])
  {
    var p := Prefix(content, 50);
    assert (p + "...")[..|p|] == p;
    assert (p + "...")[|p|..] == "...";
  }

  /** The first `|ms|` nodes of a rebuild are the memory nodes, in memory
      order, each with id `memory_<id>` carrying its memory. */
  lemma RebuildMemoryNode(ms: seq<Memory>, i: nat)
    requires i < |ms|
    ensures var nodes := RebuildNodes(ms);
      && i < |nodes|
      && nodes[i].id == "memory_" + ms[i].id
      && nodes[i].kind == "memory"
      && nodes[i].caption == MemoryLabel(ms[i].content)
      && nodes[i].data == MemoryData(ms[i])
  {
  }

  /** Every node after the memory nodes is an entity node. */
  lemma RebuildEntityNode(ms: seq<Memory>, j: nat)
    requires |ms| <= j < |RebuildNodes(ms)|
    ensures var nodes := RebuildNodes(ms);
      var u := Unique(AllMentions(ms));
      && j - |ms| < |u|
      && nodes[j] == EntityNode(u[j - |ms|])
      && nodes[j].kind != "memory"
      && nodes[j].data.EntityData?
  {
    var u := Unique(AllMentions(ms));
    assert RebuildNodes(ms)[j] == EntityNodes(u)[j - |ms|];
  }

  /** An entity is mentioned by some memory iff the rebuild has its node. */
  lemma RebuildEntityPresent(ms: seq<Memory>, e: Entity)
    ensures e in AllMentions(ms) <==> EntityNode(e) in RebuildNodes(ms)
  {
    var nodes := RebuildNodes(ms);
    var all := AllMentions(ms);
    var u := Unique(all);
    UniqueFacts(all);
    if EntityNode(e) in nodes {
      var k :| 0 <= k < |nodes| && nodes[k] == EntityNode(e);
      if k < |ms| {
        RebuildMemoryNode(ms, k);
      } else {
        RebuildEntityNode(ms, k);
        assert u[k - |ms|] == e;
      }
    }
    if e in all {
      var k :| 0 <= k < |u| && u[k] == e;
      RebuildEntityNode(ms, |ms| + k);
    }
  }

  /** Entity nodes have pairwise distinct ids: one node per (kind, value). */
  lemma RebuildEntityIdsDistinct(ms: seq<Memory>, i: nat, j: nat)
    requires |ms| <= i < j < |RebuildNodes(ms)|
    ensures RebuildNodes(ms)[i].id != RebuildNodes(ms)[j].id
  {
    var u := Unique(AllMentions(ms));
    UniqueFacts(AllMentions(ms));
    RebuildEntityNode(ms, i);
    RebuildEntityNode(ms, j);
    EntityNodeIdInjective(u[i - |ms|], u[j - |ms|]);
  }

  /** Entity nodes appear in the order of the first mention of each entity. */
  lemma RebuildEntityOrder(ms: seq<Memory>, i: nat, j: nat)
    requires |ms| <= i < j < |RebuildNodes(ms)|
    ensures RebuildNodes(ms)[i].data.EntityData? && RebuildNodes(ms)[j].data.EntityData?
    ensures FirstMention(ms, RebuildNodes(ms)[i].data.entity) < FirstMention(ms, RebuildNodes(ms)[j].data.entity)
  {
    RebuildEntityNode(ms, i);
    RebuildEntityNode(ms, j);
    FirstMentionOrder(ms, i - |ms|, j - |ms|);
  }

  lemma FirstMentionOrder(ms: seq<Memory>, k1: nat, k2: nat)
    requires k1 < k2 < |Unique(AllMentions(ms))|
    ensures var u := Unique(AllMentions(ms));
      FirstMention(ms, u[k1]) < FirstMention(ms, u[k2])
  {
    var all := AllMentions(ms);
    UniqueFirstOccurrenceOrder(all, k1, k2);
    FirstMentionOf(ms, Unique(all)[k1]);
    FirstMentionOf(ms, Unique(all)[k2]);
  }

  lemma FirstMentionOf(ms: seq<Memory>, e: Entity)
    requires e in AllMentions(ms)
    ensures FirstMention(ms, e) == IndexOf(AllMentions(ms), e)
  {
  }

  /** The position of the first mention of `e`, or the number of mentions
      when it is never mentioned. */
  function FirstMention(ms: seq<Memory>, e: Entity): (r: nat)
    ensures r <= |AllMentions(ms)|
    ensures r < |AllMentions(ms)| <==> e in AllMentions(ms)
    ensures r < |AllMentions(ms)| ==> AllMentions(ms)[r] == e
    ensures forall k :: 0 <= k < r && k < |AllMentions(ms)| ==> AllMentions(ms)[k] != e
  {
    var all := AllMentions(ms);
    if e in all then IndexOf(all, e) else |all|
  }

  /** With distinct memory ids, every node of a rebuild has its own id. */
  lemma RebuildIdsDistinct(ms: seq<Memory>, i: nat, j: nat)
    requires forall a, b :: 0 <= a < b < |ms| ==> ms[a].id != ms[b].id
    requires i < j < |RebuildNodes(ms)|
    ensures RebuildNodes(ms)[i].id != RebuildNodes(ms)[j].id
  {
    var nodes := RebuildNodes(ms);
    var u := Unique(AllMentions(ms));
    if j < |ms| {
      RebuildMemoryNode(ms, i);
      RebuildMemoryNode(ms, j);
      assert nodes[i].id[7..] == ms[i].id && nodes[j].id[7..] == ms[j].id;
    } else if i < |ms| {
      RebuildMemoryNode(ms, i);
      RebuildEntityNode(ms, j);
      MemoryAndEntityIdsDiffer(ms[i].id, u[j - |ms|]);
    } else {
      RebuildEntityIdsDistinct(ms, i, j);
    }
  }

  /** The implicit edges pair up one to one with the mentions, in order: the
      `k`-th is the `contains` edge from a memory to the `k`-th mention. */
  lemma {:induction false} ImplicitEdgesFacts(ms: seq<Memory>)
    ensures |ImplicitEdges(ms)| == |AllMentions(ms)|
    ensures forall k :: 0 <= k < |ImplicitEdges(ms)| ==>
      exists m :: m in ms && ImplicitEdges(ms)[k] == ContainsEdge(m, AllMentions(ms)[k])
    decreases |ms|
  {
    if ms != [] {
      var init := ms[..|ms| - 1];
      var m := ms[|ms| - 1];
      ImplicitEdgesFacts(init);
      var n := |ImplicitEdges(init)|;
      forall k | 0 <= k < |ImplicitEdges(ms)|
        ensures exists m' :: m' in ms && ImplicitEdges(ms)[k] == ContainsEdge(m', AllMentions(ms)[k])
      {
        if k < n {
          var m' :| m' in init && ImplicitEdges(init)[k] == ContainsEdge(m', AllMentions(init)[k]);
          assert m' in ms;
        } else {
          assert ImplicitEdges(ms)[k] == ContainsEdge(m, AllMentions(ms)[k]);
        }
      }
    }
  }

  /** The rebuilt edge list holds the stored edges first, in order, each
      with a non-zero weight (1 when the stored weight is missing or 0), and
      then one edge per mention. */
  lemma RebuildEdgesLayout(ms: seq<Memory>, rows: seq<EdgeRow>)
    ensures |RebuildEdges(ms, rows)| == |rows| + |AllMentions(ms)|
    ensures forall k :: 0 <= k < |rows| ==> RebuildEdges(ms, rows)[k] == StoredEdge(rows[k])
  {
    ImplicitEdgesFacts(ms);
  }

  /** After the stored edges comes exactly one `contains` edge of weight 1
      per mention, in mention order, from a memory node to the mention's
      node; repeated mentions give repeated edges. */
  lemma RebuildImplicitEdge(ms: seq<Memory>, rows: seq<EdgeRow>, k: nat)
    requires |rows| <= k < |rows| + |AllMentions(ms)|
    ensures k < |RebuildEdges(ms, rows)|
    ensures var e := RebuildEdges(ms, rows)[k];
      && e.kind == "contains" && e.weight == Some(1.0)
      && e.target == EntityNodeId(AllMentions(ms)[k - |rows|])
      && e.id == e.source + "_" + e.target
      && exists m :: m in ms && e.source == MemoryNodeId(m.id)
  {
    ImplicitEdgesFacts(ms);
    var all := AllMentions(ms);
    var e := ImplicitEdges(ms)[k - |rows|];
    assert RebuildEdges(ms, rows)[k] == e;
    var m :| m in ms && e == ContainsEdge(m, all[k - |rows|]);
    assert e.source == MemoryNodeId(m.id);
  }

  /** Both endpoints of every implicit edge are nodes of the rebuild. */
  lemma RebuildImplicitEdgeEndpoints(ms: seq<Memory>, rows: seq<EdgeRow>, k: nat)
    requires |rows| <= k < |rows| + |AllMentions(ms)|
    ensures k < |RebuildEdges(ms, rows)|
    ensures var e := RebuildEdges(ms, rows)[k];
      var ids := NodeIds(RebuildNodes(ms));
      e.source in ids && e.target in ids
  {
    var nodes := RebuildNodes(ms);
    var all := AllMentions(ms);
    RebuildImplicitEdge(ms, rows, k);
    var e := RebuildEdges(ms, rows)[k];
    var m :| m in ms && e.source == MemoryNodeId(m.id);
    var i :| 0 <= i < |ms| && ms[i] == m;
    RebuildMemoryNode(ms, i);
    assert nodes[i] in nodes;
    var x := all[k - |rows|];
    RebuildEntityPresent(ms, x);
    assert EntityNode(x) in nodes && EntityNode(x).id == e.target;
  }

  // ---------------------------------------------------------------------
  // Filters

  /** The span of a time filter in milliseconds; an unknown filter has none
      (its cutoff is an invalid date, against which every comparison fails). */
  function TimeWindow(timeFilter: string): Option<int>
  {
    if timeFilter == "week" then Some(7 * DayMs)
    else if timeFilter == "month" then Some(30 * DayMs)
    else if timeFilter == "year" then Some(365 * DayMs)
    else None
  }

  /** The time test of one node: memory nodes with a creation time must be
      strictly newer than the cutoff; every other node passes. */
  predicate KeptByTime(n: Node, timeFilter: string, now: int)
  {
    if n.kind == "memory" && n.data.MemoryData? && n.data.memory.createdAt.Some? then
      match TimeWindow(timeFilter)
      case Some(w) => n.data.memory.createdAt.value > now - w
      case None => false
    else true
  }

  function OfType(nodes: seq<Node>, typeFilter: string): seq<Node>
  {
    Filter(nodes, (n: Node) => n.kind == typeFilter)
  }

  function InWindow(nodes: seq<Node>, timeFilter: string, now: int): seq<Node>
  {
    Filter(nodes, (n: Node) => KeptByTime(n, timeFilter, now))
  }

  /** The links whose two endpoints are among `nodes`. */
  function Between(links: seq<Edge>, nodes: seq<Node>): seq<Edge>
  {
    var ids := NodeIds(nodes);
    Filter(links, (l: Edge) => l.source in ids && l.target in ids)
  }

  /** The graph restricted by a node-type filter and a time filter, each
      "all" when off; `now` is the current time in milliseconds. */
  function ApplyFilters(g: GraphData, typeFilter: string, timeFilter: string, now: int): GraphData
  {
    var afterType :=
      if typeFilter != "all" then
        var ns := OfType(g.nodes, typeFilter);
        GraphData(ns, Between(g.links, ns))
      else g;
    if timeFilter != "all" then
      var ns := InWindow(afterType.nodes, timeFilter, now);
      GraphData(ns, Between(afterType.links, ns))
    else afterType
  }

  /** A node survives the filters iff it is in the input, has the selected
      type and passes the time test; the survivors keep their input order. */
  lemma ApplyFiltersNodes(g: GraphData, typeFilter: string, timeFilter: string, now: int)
    ensures var r := ApplyFilters(g, typeFilter, timeFilter, now);
      && IsSubseq(r.nodes, g.nodes)
      && IsSubseq(r.links, g.links)
      && forall n :: n in r.nodes <==>
           && n in g.nodes
           && (typeFilter == "all" || n.kind == typeFilter)
           && (timeFilter == "all" || KeptByTime(n, timeFilter, now))
  {
    var r := ApplyFilters(g, typeFilter, timeFilter, now);
    var a := if typeFilter != "all" then
        var ns := OfType(g.nodes, typeFilter); GraphData(ns, Between(g.links, ns))
      else g;
    assert IsSubseq(a.nodes, g.nodes) && IsSubseq(a.links, g.links) by {
      if typeFilter == "all" {
        IsSubseqRefl(g.nodes);
        IsSubseqRefl(g.links);
      }
    }
    if timeFilter != "all" {
      IsSubseqTrans(r.nodes, a.nodes, g.nodes);
      IsSubseqTrans(r.links, a.links, g.links);
    }
  }

  lemma {:induction false} IsSubseqRefl<T>(s: seq<T>)
    ensures IsSubseq(s, s)
  {
    if s != [] {
      IsSubseqRefl(s[1..]);
    }
  }

  /** Whenever a filter is on, the kept links are exactly the input links
      that join two kept nodes. */
  lemma ApplyFiltersClosed(g: GraphData, typeFilter: string, timeFilter: string, now: int)
    requires typeFilter != "all" || timeFilter != "all"
    ensures var r := ApplyFilters(g, typeFilter, timeFilter, now);
      forall l :: l in r.links <==> l in g.links && l.source in NodeIds(r.nodes) && l.target in NodeIds(r.nodes)
  {
    if typeFilter != "all" && timeFilter != "all" {
      var a := OfType(g.nodes, typeFilter);
      var r := ApplyFilters(g, typeFilter, timeFilter, now);
      assert r.nodes == InWindow(a, timeFilter, now);
      NodeIdsSubset(r.nodes, a);
    }
  }

  /** The ids of a node list include those of any list drawn from it. */
  lemma NodeIdsSubset(a: seq<Node>, b: seq<Node>)
    requires forall n :: n in a ==> n in b
    ensures NodeIds(a) <= NodeIds(b)
  {
  }

  /** With both filters off the graph is returned as it is, dangling links
      included. */
  lemma ApplyFiltersOff(g: GraphData, now: int)
    ensures ApplyFilters(g, "all", "all", now) == g
  {
  }

  /** The node set under both filters is the intersection of the node sets
      under each filter alone. */
  lemma ApplyFiltersIntersect(g: GraphData, typeFilter: string, timeFilter: string, now: int)
    ensures forall n :: n in ApplyFilters(g, typeFilter, timeFilter, now).nodes <==>
      n in ApplyFilters(g, typeFilter, "all", now).nodes && n in ApplyFilters(g, "all", timeFilter, now).nodes
  {
    ApplyFiltersNodes(g, typeFilter, timeFilter, now);
    ApplyFiltersNodes(g, typeFilter, "all", now);
    ApplyFiltersNodes(g, "all", timeFilter, now);
  }

  // ---------------------------------------------------------------------
  // Queries

  /** The edges incident to a node, in edge order. */
  function Connections(edges: seq<Edge>, nodeId: string): (r: seq<Edge>)
    ensures IsSubseq(r, edges)
    ensures forall e :: e in r <==> e in edges && (e.source == nodeId || e.target == nodeId)
    ensures forall e :: Count(r, e) == if e.source == nodeId || e.target == nodeId then Count(edges, e) else 0
  {
    var touches := (e: Edge) => e.source == nodeId || e.target == nodeId;
    assert forall e :: Count(Filter(edges, touches), e) == if touches(e) then Count(edges, e) else 0 by {
      forall e { FilterCount(edges, touches, e); }
    }
    Filter(edges, touches)
  }

  /** The far end of an edge seen from `nodeId`: the target when the edge
      leaves the node, else the source when it enters it. */
  function OtherEnd(e: Edge, nodeId: string): Option<string>
  {
    if e.source == nodeId then Some(e.target)
    else if e.target == nodeId then Some(e.source)
    else None
  }

  ghost predicate IsNeighbor(edges: seq<Edge>, nodeId: string, x: string)
  {
    exists k :: 0 <= k < |edges| && OtherEnd(edges[k], nodeId) == Some(x)
  }

  /** The neighbours of a node: the nodes, in node-list order, at the far end
      of some edge incident to it. */
  method NodeNeighbors(nodes: seq<Node>, edges: seq<Edge>, nodeId: string) returns (r: seq<Node>)
    ensures IsSubseq(r, nodes)
    ensures forall n :: n in r <==> n in nodes && IsNeighbor(edges, nodeId, n.id)
    ensures forall n :: Count(r, n) == if IsNeighbor(edges, nodeId, n.id) then Count(nodes, n) else 0
  {
    var neighborIds: set<string> := {};
    var k := 0;
    while k < |edges|
      invariant 0 <= k <= |edges|
      invariant forall x :: x in neighborIds <==> exists i :: 0 <= i < k && OtherEnd(edges[i], nodeId) == Some(x)
    {
      var e := edges[k];
      if e.source == nodeId {
        neighborIds := neighborIds + {e.target};
      } else if e.target == nodeId {
        neighborIds := neighborIds + {e.source};
      }
      k := k + 1;
    }
    var near := (n: Node) => n.id in neighborIds;
    forall n ensures Count(Filter(nodes, near), n) == if near(n) then Count(nodes, n) else 0 {
      FilterCount(nodes, near, n);
    }
    r := Filter(nodes, near);
  }

  /** `node.data?.content`, present only for memory nodes. */
  function Content(n: Node): Option<string>
  {
    if n.data.MemoryData? then Some(n.data.memory.content) else None
  }

  predicate Matches(n: Node, term: string)
  {
    Contains(Lower(n.caption), term)
    || (Content(n).Some? && Content(n).value != "" && Contains(Lower(Content(n).value), term))
  }

  /** The nodes whose label or memory content contains the query, ignoring
      case. */
  function Search(nodes: seq<Node>, query: string): (r: seq<Node>)
    ensures IsSubseq(r, nodes)
    ensures forall n :: n in r <==> n in nodes && Matches(n, Lower(query))
    ensures forall n :: Count(r, n) == if Matches(n, Lower(query)) then Count(nodes, n) else 0
  {
    var term := Lower(query);
    var hit := (n: Node) => Matches(n, term);
    assert forall n :: Count(Filter(nodes, hit), n) == if hit(n) then Count(nodes, n) else 0 by {
      forall n { FilterCount(nodes, hit, n); }
    }
    Filter(nodes, hit)
  }

  lemma LowerIdempotent(s: string)
    ensures Lower(Lower(s)) == Lower(s)
  {
  }

  /** Searching is insensitive to the case of the query. */
  lemma SearchIgnoresCase(nodes: seq<Node>, query: string)
    ensures Search(nodes, Lower(query)) == Search(nodes, query)
  {
    LowerIdempotent(query);
  }

  /** An empty query returns every node. */
  lemma SearchEmpty(nodes: seq<Node>)
    ensures Search(nodes, "") == nodes
  {
    assert Lower("") == "";
    forall i | 0 <= i < |nodes|
      ensures Matches(nodes[i], "")
    {
      ContainsEmpty(Lower(nodes[i].caption));
    }
    FilterAll(nodes, (n: Node) => Matches(n, ""));
  }

  // ---------------------------------------------------------------------
  // Statistics

  datatype GraphStats = GraphStats(totalNodes: nat, totalEdges: nat, nodeTypes: Table, density: real)

  function Kinds(nodes: seq<Node>): (r: seq<string>)
    ensures |r| == |nodes|
    ensures forall i :: 0 <= i < |nodes| ==> r[i] == nodes[i].kind
  {
    if nodes == [] then [] else [nodes[0].kind] + Kinds(nodes[1..])
  }

  /** `2E / (V (V - 1))` for more than one node, else 0. */
  function Density(v: nat, e: nat): real
  {
    if v > 1 then (2 * e) as real / (v * (v - 1)) as real else 0.0
  }

  /** Node and edge counts, the count of each node type in order of first
      appearance, and the density. */
  function Stats(nodes: seq<Node>, edges: seq<Edge>): GraphStats
  {
    GraphStats(|nodes|, |edges|, Frequencies(Kinds(nodes)), Density(|nodes|, |edges|))
  }

  /** Each type is counted by its number of nodes, and the per-type counts
      sum to the node count. */
  lemma StatsCounts(nodes: seq<Node>, edges: seq<Edge>, kind: string)
    ensures var s := Stats(nodes, edges);
      && s.totalNodes == |nodes| && s.totalEdges == |edges|
      && SumCounts(s.nodeTypes) == s.totalNodes
      && Lookup(s.nodeTypes, kind) == Count(Kinds(nodes), kind)
  {
    FrequenciesSum(Kinds(nodes));
    FrequenciesCount(Kinds(nodes), kind);
  }

  /** The density is never negative; it is 0 exactly when there are no
      edges or at most one node. It has no upper bound, since edges may
      repeat. */
  lemma DensityRange(v: nat, e: nat)
    ensures Density(v, e) >= 0.0
    ensures Density(v, e) == 0.0 <==> v <= 1 || e == 0
    ensures v > 1 && e > v * (v - 1) / 2 ==> Density(v, e) > 1.0
  {
    if v > 1 {
      var pairs := v * (v - 1);
      PairsPositive(v);
      if e > pairs / 2 {
        assert 2 * e > pairs;
      }
      RatioFacts((2 * e) as real, pairs as real);
    }
  }

  lemma PairsPositive(v: nat)
    requires v > 1
    ensures v * (v - 1) > 0
  {
  }

  /** A non-negative ratio over a positive divisor is non-negative, is 0
      exactly when the dividend is, and exceeds 1 when the dividend exceeds
      the divisor. */
  lemma RatioFacts(a: real, b: real)
    requires a >= 0.0 && b > 0.0
    ensures a / b >= 0.0
    ensures a / b == 0.0 <==> a == 0.0
    ensures a > b ==> a / b > 1.0
  {
    var q := a / b;
    assert q * b == a;
    if a > b {
      assert q * b > 1.0 * b;
    }
  }
}
