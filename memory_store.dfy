/** The memory log store: the loaded page of memories, the list filters, the
    pagination counters, and the save, update, delete, forget and statistics
    operations together with the calls they make into the graph store.
    Database replies are parameters; `signedIn` says whether a user is logged
    in and `now` is the current instant in milliseconds. */
module MemoryStore {
  import opened Js
  import opened Seqs
  import opened Records
  import opened Tallies
  import opened Graph
  import opened GraphStore

  /** Rows per page (the store's `pageSize`, which nothing changes). */
  const PageSize: nat := 20

  datatype DateRange = DateRange(start: int, end: int)

  datatype Filters = Filters(dateRange: Option<DateRange>, people: seq<string>,
                             tags: seq<string>, searchQuery: string)

  const DefaultFilters := Filters(None, [], [], "")

  /** The keys present in a `setFilters` argument; an absent key is `None`. */
  datatype FilterPatch = FilterPatch(dateRange: Option<Option<DateRange>>, people: Option<seq<string>>,
                                     tags: Option<seq<string>>, searchQuery: Option<string>)

  /** `{ ...filters, ...patch }`. */
  function Merge(f: Filters, p: FilterPatch): Filters
  {
    Filters(if p.dateRange.Some? then p.dateRange.value else f.dateRange,
            if p.people.Some? then p.people.value else f.people,
            if p.tags.Some? then p.tags.value else f.tags,
            if p.searchQuery.Some? then p.searchQuery.value else f.searchQuery)
  }

  /** The patch carrying every key of `f`. */
  function Whole(f: Filters): FilterPatch
  {
    FilterPatch(Some(f.dateRange), Some(f.people), Some(f.tags), Some(f.searchQuery))
  }

  /** `{ ...p, ...q }`: the keys of either, `q` winning. */
  function Then(p: FilterPatch, q: FilterPatch): FilterPatch
  {
    FilterPatch(if q.dateRange.Some? then q.dateRange else p.dateRange,
                if q.people.Some? then q.people else p.people,
                if q.tags.Some? then q.tags else p.tags,
                if q.searchQuery.Some? then q.searchQuery else p.searchQuery)
  }

  /** Merging keeps every key the patch lacks and takes every key it has; an
      empty patch changes nothing, merging twice is merging once, two merges
      are one merge of the combined patch, and clearing is merging the
      defaults as a whole. */
  lemma MergeLaws(f: Filters, p: FilterPatch, q: FilterPatch)
    ensures Merge(f, FilterPatch(None, None, None, None)) == f
    ensures Merge(Merge(f, p), p) == Merge(f, p)
    ensures Merge(Merge(f, p), q) == Merge(f, Then(p, q))
    ensures Merge(f, Whole(DefaultFilters)) == DefaultFilters
    ensures p.searchQuery.None? ==> Merge(f, p).searchQuery == f.searchQuery
    ensures p.searchQuery.Some? ==> Merge(f, p).searchQuery == p.searchQuery.value
  {
  }

  /** The first row index a page asks for: `(page - 1) * pageSize`. */
  function PageOffset(page: int): int
  {
    (page - 1) * PageSize
  }

  /** The last row index a page asks for: `offset + pageSize - 1`. */
  function PageLast(page: int): int
  {
    PageOffset(page) + PageSize - 1
  }

  /** Each page asks for exactly `pageSize` rows, consecutive pages are
      adjacent, and every row index lies on page `row / pageSize + 1`. */
  lemma PagesTile(page: int, row: nat)
    ensures PageLast(page) - PageOffset(page) + 1 == PageSize
    ensures PageOffset(page + 1) == PageLast(page) + 1
    ensures PageOffset(row / PageSize + 1) <= row <= PageLast(row / PageSize + 1)
  {
  }

  /** `Math.ceil(count / pageSize)` for a count that is a natural number. */
  function TotalPages(count: nat): (r: nat)
    ensures r * PageSize >= count
    ensures r > 0 ==> (r - 1) * PageSize < count
  {
    (count + PageSize - 1) / PageSize
  }

  /** The page holding the last row is the last page. */
  lemma LastRowOnLastPage(count: nat)
    requires count > 0
    ensures (count - 1) / PageSize + 1 == TotalPages(count)
  {
  }

  /** What `loadMemories` asks the database for: the row range, then a full
      text search when the query is non-empty, a date range when one is set,
      and a tag containment test when tags are selected. */
  datatype PageQuery = PageQuery(from: int, to: int, textSearch: Option<string>,
                                 dateRange: Option<DateRange>, tags: Option<seq<string>>)

  function QueryFor(f: Filters, page: int): (q: PageQuery)
    ensures q.from == PageOffset(page) && q.to == PageLast(page)
    ensures q.textSearch.Some? <==> f.searchQuery != ""
    ensures q.textSearch.Some? ==> q.textSearch.value == f.searchQuery
    ensures q.dateRange == f.dateRange
    ensures q.tags.Some? <==> f.tags != []
    ensures q.tags.Some? ==> q.tags.value == f.tags
  {
    PageQuery(PageOffset(page), PageLast(page),
              if f.searchQuery != "" then Some(f.searchQuery) else None,
              f.dateRange,
              if |f.tags| > 0 then Some(f.tags) else None)
  }

  /** A page reply: the rows (`null` when absent) and the exact count. */
  datatype PageReply = PageReply(data: Option<seq<Memory>>, count: Option<nat>)

  /** The fields of the `memoryData` a save receives; a missing or null field
      is `None`. */
  datatype MemoryInput = MemoryInput(content: Option<string>, tags: Option<seq<string>>,
                                     people: Option<seq<string>>, places: Option<seq<string>>,
                                     events: Option<seq<string>>, sentiment: Option<string>,
                                     confidence: Option<real>)

  /** The row a save inserts (the owner aside); `createdAt` is the instant of
      the save. */
  datatype MemoryInsert = MemoryInsert(content: Option<string>, tags: seq<string>, people: seq<string>,
                                       places: seq<string>, events: seq<string>,
                                       sentiment: string, confidence: real, createdAt: int)

  /** `s || fallback` for a string field. */
  function OrString(v: Option<string>, fallback: string): string
  {
    if v.Some? && v.value != "" then v.value else fallback
  }

  /** `x || fallback` for a number field. */
  function OrNumber(v: Option<real>, fallback: real): real
  {
    if v.Some? && v.value != 0.0 then v.value else fallback
  }

  /** The record a save sends: every missing list becomes empty, a missing or
      empty sentiment becomes "neutral", a missing or zero confidence becomes
      0.8. */
  function InsertOf(input: MemoryInput, now: int): (r: MemoryInsert)
    ensures r.content == input.content && r.createdAt == now
    ensures input.tags.Some? ==> r.tags == input.tags.value
    ensures input.tags.None? ==> r.tags == []
    ensures input.people.Some? ==> r.people == input.people.value
    ensures input.people.None? ==> r.people == []
    ensures input.places.Some? ==> r.places == input.places.value
    ensures input.places.None? ==> r.places == []
    ensures input.events.Some? ==> r.events == input.events.value
    ensures input.events.None? ==> r.events == []
    ensures r.sentiment != ""
    ensures r.sentiment != "neutral" ==> input.sentiment == Some(r.sentiment)
    ensures input.sentiment.Some? && input.sentiment.value != "" ==> r.sentiment == input.sentiment.value
    ensures r.confidence != 0.0
    ensures r.confidence != 0.8 ==> input.confidence == Some(r.confidence)
    ensures input.confidence.Some? && input.confidence.value != 0.0 ==> r.confidence == input.confidence.value
  {
    MemoryInsert(input.content, input.tags.GetOr([]), input.people.GetOr([]),
                 input.places.GetOr([]), input.events.GetOr([]),
                 OrString(input.sentiment, "neutral"), OrNumber(input.confidence, 0.8), now)
  }

  /** The mentions a save links: the input's people, then places, then
      events, as given (a missing list contributes nothing). */
  function InputMentions(input: MemoryInput): seq<Entity>
  {
    Tagged(Person, input.people.GetOr([])) + Tagged(Place, input.places.GetOr([]))
    + Tagged(Event, input.events.GetOr([]))
  }

  /** The `addEdge` arguments of a save: from the raw new row id to the raw
      mentioned value, typed with the mention's kind, weight 1, no label. */
  function EdgeInputs(rowId: string, es: seq<Entity>): (r: seq<EdgeInput>)
    ensures |r| == |es|
    ensures forall k :: 0 <= k < |es| ==>
      r[k] == EdgeInput(rowId, es[k].value, KindName(es[k].kind), Some(1.0), None)
  {
    if es == [] then []
    else EdgeInputs(rowId, es[..|es| - 1])
         + [EdgeInput(rowId, es[|es| - 1].value, KindName(es[|es| - 1].kind), Some(1.0), None)]
  }

  /** The edges the graph store appends for the first `n` `addEdge` calls:
      one per call whose insert succeeded, in call order. */
  function AddedEdges(reply: nat -> Result<EdgeRow>, n: nat): (r: seq<Edge>)
    ensures |r| <= n
  {
    if n == 0 then []
    else AddedEdges(reply, n - 1) + (if reply(n - 1).Ok? then [EdgeOfRow(reply(n - 1).value)] else [])
  }

  /** When every insert succeeds, every call appends its edge. */
  lemma {:induction false} AddedEdgesAllOk(reply: nat -> Result<EdgeRow>, n: nat)
    requires forall k :: 0 <= k < n ==> reply(k).Ok?
    ensures |AddedEdges(reply, n)| == n
    ensures forall k :: 0 <= k < n ==> AddedEdges(reply, n)[k] == EdgeOfRow(reply(k).value)
  {
    if n > 0 {
      AddedEdgesAllOk(reply, n - 1);
    }
  }

  /** A save links its mentions one `addEdge` per person, place and event,
      each from the new row id; and since those are raw ids, no such edge
      starts at the node id a rebuild gives the memory or ends at the node id
      a rebuild gives the mention. */
  lemma SaveEdgesRaw(rowId: string, input: MemoryInput, k: nat)
    requires k < |InputMentions(input)|
    ensures |EdgeInputs(rowId, InputMentions(input))|
      == |input.people.GetOr([])| + |input.places.GetOr([])| + |input.events.GetOr([])|
    ensures var e := InputMentions(input)[k];
      var call := EdgeInputs(rowId, InputMentions(input))[k];
      call.source == rowId && call.target == e.value && call.kind == KindName(e.kind)
      && call.source != MemoryNodeId(rowId) && call.target != EntityNodeId(e)
  {
  }

  /** A delete removes graph nodes by the raw row id, so a memory node that a
      rebuild created for that row, and the `contains` edges from it, stay. */
  lemma DeleteKeepsRebuiltNode(nodes: seq<Node>, edges: seq<Edge>, id: string)
    ensures forall n :: n in nodes && n.id == MemoryNodeId(id) ==> n in WithoutNode(nodes, id)
    ensures forall e :: e in edges && e.source == MemoryNodeId(id) && e.target != id ==> e in WithoutIncident(edges, id)
  {
    assert |MemoryNodeId(id)| == |id| + 7;
  }

  /** The memories left after removing an id: all others, in order. */
  function WithoutId(ms: seq<Memory>, id: string): (r: seq<Memory>)
    ensures IsSubseq(r, ms)
    ensures forall m :: m in r <==> m in ms && m.id != id
    ensures forall m :: Count(r, m) == if m.id != id then Count(ms, m) else 0
  {
    var keep := (m: Memory) => m.id != id;
    assert forall m :: Count(Filter(ms, keep), m) == if m.id != id then Count(ms, m) else 0 by {
      forall m { FilterCount(ms, keep, m); }
    }
    Filter(ms, keep)
  }

  /** The memories left after removing every id of a list: all others, in
      order. */
  function WithoutIds(ms: seq<Memory>, ids: seq<string>): (r: seq<Memory>)
    ensures IsSubseq(r, ms)
    ensures forall m :: m in r <==> m in ms && m.id !in ids
    ensures forall m :: Count(r, m) == if m.id !in ids then Count(ms, m) else 0
  {
    var keep := (m: Memory) => m.id !in ids;
    assert forall m :: Count(Filter(ms, keep), m) == if m.id !in ids then Count(ms, m) else 0 by {
      forall m { FilterCount(ms, keep, m); }
    }
    Filter(ms, keep)
  }

  /** `memories.map(m => m.id === id ? row : m)`. */
  function ReplaceById(ms: seq<Memory>, id: string, row: Memory): (r: seq<Memory>)
    ensures |r| == |ms|
    ensures forall i :: 0 <= i < |ms| && ms[i].id != id ==> r[i] == ms[i]
    ensures forall i :: 0 <= i < |ms| && ms[i].id == id ==> r[i] == row
  {
    if ms == [] then []
    else [if ms[0].id == id then row else ms[0]] + ReplaceById(ms[1..], id, row)
  }

  /** Replacing an id that does not occur changes nothing; replacing one that
      does leaves every other row and puts the returned row in its place. */
  lemma ReplaceByIdFacts(ms: seq<Memory>, id: string, row: Memory)
    ensures (forall m :: m in ms ==> m.id != id) ==> ReplaceById(ms, id, row) == ms
    ensures (exists m :: m in ms && m.id == id) ==> row in ReplaceById(ms, id, row)
    ensures forall m :: m in ReplaceById(ms, id, row) ==> m == row || (m in ms && m.id != id)
  {
    var r := ReplaceById(ms, id, row);
    forall m | m in r
      ensures m == row || (m in ms && m.id != id)
    {
      var i :| 0 <= i < |r| && r[i] == m;
    }
    if m :| m in ms && m.id == id {
      var i :| 0 <= i < |ms| && ms[i] == m;
      assert r[i] == row;
    }
  }

  /** The nodes left after `removeNode` of each id in turn. */
  function WithoutNodes(nodes: seq<Node>, ids: seq<string>): seq<Node>
    decreases |ids|
  {
    if ids == [] then nodes else WithoutNode(WithoutNodes(nodes, ids[..|ids| - 1]), ids[|ids| - 1])
  }

  /** The edges left after `removeNode` of each id in turn. */
  function WithoutIncidents(edges: seq<Edge>, ids: seq<string>): seq<Edge>
    decreases |ids|
  {
    if ids == [] then edges else WithoutIncident(WithoutIncidents(edges, ids[..|ids| - 1]), ids[|ids| - 1])
  }

  /** Removing a list of ids one by one keeps, in order, exactly the nodes
      whose id is not listed and the edges touching none of them. */
  lemma WithoutNodesFacts(nodes: seq<Node>, edges: seq<Edge>, ids: seq<string>)
    ensures IsSubseq(WithoutNodes(nodes, ids), nodes)
    ensures forall n :: n in WithoutNodes(nodes, ids) <==> n in nodes && n.id !in ids
    ensures IsSubseq(WithoutIncidents(edges, ids), edges)
    ensures forall e :: e in WithoutIncidents(edges, ids) <==>
      e in edges && e.source !in ids && e.target !in ids
    ensures forall n :: Count(WithoutNodes(nodes, ids), n) == if n.id !in ids then Count(nodes, n) else 0
    ensures forall e :: Count(WithoutIncidents(edges, ids), e) ==
                        if e.source !in ids && e.target !in ids then Count(edges, e) else 0
  {
    RemainingNodes(nodes, ids);
    RemainingEdges(edges, ids);
  }

  lemma {:induction false} RemainingNodes(nodes: seq<Node>, ids: seq<string>)
    ensures IsSubseq(WithoutNodes(nodes, ids), nodes)
    ensures forall n :: n in WithoutNodes(nodes, ids) <==> n in nodes && n.id !in ids
    ensures forall n :: Count(WithoutNodes(nodes, ids), n) == if n.id !in ids then Count(nodes, n) else 0
    decreases |ids|
  {
    if ids == [] {
      IsSubseqRefl(nodes);
    } else {
      var init, last := ids[..|ids| - 1], ids[|ids| - 1];
      RemainingNodes(nodes, init);
      var before := WithoutNodes(nodes, init);
      assert WithoutNodes(nodes, ids) == WithoutNode(before, last);
      IsSubseqTrans(WithoutNode(before, last), before, nodes);
      assert forall x :: x in ids <==> x in init || x == last by {
        assert ids == init + [last];
      }
    }
  }

  lemma {:induction false} RemainingEdges(edges: seq<Edge>, ids: seq<string>)
    ensures IsSubseq(WithoutIncidents(edges, ids), edges)
    ensures forall e :: e in WithoutIncidents(edges, ids) <==>
      e in edges && e.source !in ids && e.target !in ids
    ensures forall e :: Count(WithoutIncidents(edges, ids), e) ==
                        if e.source !in ids && e.target !in ids then Count(edges, e) else 0
    decreases |ids|
  {
    if ids == [] {
      IsSubseqRefl(edges);
    } else {
      var init, last := ids[..|ids| - 1], ids[|ids| - 1];
      RemainingEdges(edges, init);
      var before := WithoutIncidents(edges, init);
      assert WithoutIncidents(edges, ids) == WithoutIncident(before, last);
      IsSubseqTrans(WithoutIncident(before, last), before, edges);
      assert forall x :: x in ids <==> x in init || x == last by {
        assert ids == init + [last];
      }
    }
  }

  /** The outcome a store operation reports. */
  datatype Outcome = Saved(row: Memory) | Updated(row: Memory) | Deleted
                   | Forgot(deletedCount: nat) | Failed(error: string)

  const NoUser := "No user logged in"

  /** The `TypeError` of `memoryData.content.substring(...)` when the memory
      data has no content. */
  const NoContent := "Cannot read properties of undefined (reading 'substring')"
  const NothingToForget := "No memories found matching the query"

  /** The property name `sentimentBreakdown[memory.sentiment]` uses. */
  function SentimentKey(m: Memory): string
  {
    if m.sentiment.Some? then m.sentiment.value else "null"
  }

  /** What `getMemoryStats` returns. */
  datatype MemoryStats = MemoryStats(total: nat, thisWeek: nat, thisMonth: nat,
                                     sentimentBreakdown: Breakdown, topTags: Table, topPeople: Table)

  /** The statistics after one more memory. */
  function StatsStep(s: MemoryStats, m: Memory, now: int): MemoryStats
  {
    MemoryStats(s.total,
                s.thisWeek + (if CreatedMs(m) > now - 7 * DayMs then 1 else 0),
                s.thisMonth + (if CreatedMs(m) > now - 30 * DayMs then 1 else 0),
                CountSentiment(s.sentimentBreakdown, SentimentKey(m)),
                BumpAll(s.topTags, m.tags),
                BumpAll(s.topPeople, m.people))
  }

  function Accumulate(init: MemoryStats, ms: seq<Memory>, now: int): MemoryStats
    decreases |ms|
  {
    if ms == [] then init else StatsStep(Accumulate(init, ms[..|ms| - 1], now), ms[|ms| - 1], now)
  }

  /** The statistics of a list of rows, accumulated in order. */
  function StatsOf(ms: seq<Memory>, now: int): MemoryStats
  {
    Accumulate(MemoryStats(|ms|, 0, 0, Breakdown(0, 0, 0, []), [], []), ms, now)
  }

  function SentimentKeys(ms: seq<Memory>): seq<string>
    decreases |ms|
  {
    if ms == [] then [] else SentimentKeys(ms[..|ms| - 1]) + [SentimentKey(ms[|ms| - 1])]
  }

  lemma {:induction false} AccumulateParts(init: MemoryStats, ms: seq<Memory>, now: int)
    ensures var s := Accumulate(init, ms, now);
      s.total == init.total
      && s.thisWeek == init.thisWeek + CountSince(ms, now - 7 * DayMs)
      && s.thisMonth == init.thisMonth + CountSince(ms, now - 30 * DayMs)
      && s.topTags == BumpAll(init.topTags, AllTags(ms))
      && s.topPeople == BumpAll(init.topPeople, AllPeople(ms))
    decreases |ms|
  {
    if ms != [] {
      var init' := ms[..|ms| - 1];
      AccumulateParts(init, init', now);
      BumpAllAppend(init.topTags, AllTags(init'), ms[|ms| - 1].tags);
      BumpAllAppend(init.topPeople, AllPeople(init'), ms[|ms| - 1].people);
    }
  }

  lemma {:induction false} AccumulateBreakdown(ms: seq<Memory>, now: int)
    ensures Accumulate(MemoryStats(|ms|, 0, 0, Breakdown(0, 0, 0, []), [], []), ms, now).sentimentBreakdown
      == BreakdownOf(SentimentKeys(ms))
  {
    AccumulateBreakdownFrom(MemoryStats(|ms|, 0, 0, Breakdown(0, 0, 0, []), [], []), ms, now);
  }

  lemma {:induction false} AccumulateBreakdownFrom(init: MemoryStats, ms: seq<Memory>, now: int)
    requires init.sentimentBreakdown == Breakdown(0, 0, 0, [])
    ensures Accumulate(init, ms, now).sentimentBreakdown == BreakdownOf(SentimentKeys(ms))
    decreases |ms|
  {
    if ms != [] {
      var init' := ms[..|ms| - 1];
      AccumulateBreakdownFrom(init, init', now);
      assert SentimentKeys(ms)[..|SentimentKeys(ms)| - 1] == SentimentKeys(init');
    }
  }

  /** The statistics count every row; the week and month counters count the
      rows created after the respective cutoff, so `thisWeek <= thisMonth <=
      total`; every tag and person is counted once per occurrence; and the
      sentiment breakdown counts the rows' sentiment keys. */
  lemma StatsOfFacts(ms: seq<Memory>, now: int, tag: string, person: string)
    ensures var s := StatsOf(ms, now);
      s.total == |ms|
      && s.thisWeek == CountSince(ms, now - 7 * DayMs)
      && s.thisMonth == CountSince(ms, now - 30 * DayMs)
      && s.thisWeek <= s.thisMonth <= s.total
      && s.topTags == Frequencies(AllTags(ms))
      && Lookup(s.topTags, tag) == Count(AllTags(ms), tag)
      && Lookup(s.topPeople, person) == Count(AllPeople(ms), person)
      && SumCounts(s.topTags) == |AllTags(ms)|
      && s.sentimentBreakdown == BreakdownOf(SentimentKeys(ms))
  {
    AccumulateParts(MemoryStats(|ms|, 0, 0, Breakdown(0, 0, 0, []), [], []), ms, now);
    AccumulateBreakdown(ms, now);
    CountSinceMono(ms, now - 7 * DayMs, now - 30 * DayMs);
    FrequenciesCount(AllTags(ms), tag);
    FrequenciesCount(AllPeople(ms), person);
    FrequenciesSum(AllTags(ms));
  }

  /** Adds one `addEdge` per call argument, feeding call `k` the reply
      `reply(k)`. */
  method AddMentionEdges(graph: GraphStore.Store, calls: seq<EdgeInput>, reply: nat -> Result<EdgeRow>)
    modifies graph
    ensures graph.edges == old(graph.edges) + AddedEdges(reply, |calls|)
    ensures graph.nodes == old(graph.nodes) && graph.Aside() == old(graph.Aside())
  {
    for k := 0 to |calls|
      invariant graph.edges == old(graph.edges) + AddedEdges(reply, k)
      invariant graph.nodes == old(graph.nodes) && graph.Aside() == old(graph.Aside())
    {
      var _ := graph.AddEdge(true, calls[k], reply(k));
    }
  }

  /** Calls `removeNode` for each id in turn. */
  method RemoveNodes(graph: GraphStore.Store, ids: seq<string>)
    modifies graph
    ensures graph.nodes == WithoutNodes(old(graph.nodes), ids)
    ensures graph.edges == WithoutIncidents(old(graph.edges), ids)
    ensures graph.Aside() == old(graph.Aside())
  {
    for k := 0 to |ids|
      invariant graph.nodes == WithoutNodes(old(graph.nodes), ids[..k])
      invariant graph.edges == WithoutIncidents(old(graph.edges), ids[..k])
      invariant graph.Aside() == old(graph.Aside())
    {
      assert ids[..k + 1][..k] == ids[..k];
      graph.RemoveNode(true, ids[k]);
    }
    assert ids[..|ids|] == ids;
  }

  class Store {
    var memories: seq<Memory>
    var loading: bool
    var error: Option<string>
    var filters: Filters
    var currentPage: int
    var totalPages: nat
    /** The graph store the save, delete and forget operations update. */
    const graph: GraphStore.Store

    constructor (graph: GraphStore.Store)
      ensures memories == [] && !loading && error == None
      ensures filters == DefaultFilters && currentPage == 1 && totalPages == 1
      ensures this.graph == graph
    {
      memories := [];
      loading := false;
      error := None;
      filters := DefaultFilters;
      currentPage := 1;
      totalPages := 1;
      this.graph := graph;
    }

    /** `setFilters`: the given keys replace their values, the others stay. */
    method SetFilters(patch: FilterPatch)
      modifies this
      ensures filters == Merge(old(filters), patch)
      ensures memories == old(memories) && loading == old(loading) && error == old(error)
      ensures currentPage == old(currentPage) && totalPages == old(totalPages)
    {
      filters := Merge(filters, patch);
    }

    /** `clearFilters`: the four defaults. */
    method ClearFilters()
      modifies this
      ensures filters == DefaultFilters
      ensures memories == old(memories) && loading == old(loading) && error == old(error)
      ensures currentPage == old(currentPage) && totalPages == old(totalPages)
    {
      filters := DefaultFilters;
    }

    /** `loadMemories(page)`: asks for the page under the current filters
        (returned as `query`); on an error only the message is recorded,
        otherwise the rows become the list (none when the reply has no
        rows), the page becomes current and the page count is recomputed
        from the exact count (a missing count reads as 0). */
    method LoadMemories(signedIn: bool, page: int, reply: Result<PageReply>) returns (query: Option<PageQuery>)
      modifies this
      ensures !signedIn ==> query == None && unchanged(this)
      ensures signedIn ==> query == Some(QueryFor(old(filters), page)) && !loading
      ensures filters == old(filters)
      ensures signedIn && reply.Err? ==>
        error == Some(reply.error) && memories == old(memories)
        && currentPage == old(currentPage) && totalPages == old(totalPages)
      ensures signedIn && reply.Ok? ==>
        error == None && memories == reply.value.data.GetOr([])
        && currentPage == page && totalPages == TotalPages(reply.value.count.GetOr(0))
    {
      if !signedIn {
        return None;
      }
      loading, error := true, None;
      query := Some(QueryFor(filters, page));
      if reply.Err? {
        error, loading := Some(reply.error), false;
        return;
      }
      memories, loading := reply.value.data.GetOr([]), false;
      currentPage, totalPages := page, TotalPages(reply.value.count.GetOr(0));
    }

    /** `saveMemory`: sends the defaulted record (returned as `sent`); when
        the insert succeeds, prepends the returned row, adds a memory node
        under the raw row id and then one `addEdge` per mention of the input
        (their arguments returned as `edgeCalls`, call `k` answered by
        `edgeReply(k)`). Without content, the node label throws after the
        row is prepended, so the save fails with no node and no edge. */
    method SaveMemory(signedIn: bool, input: MemoryInput, now: int, insertReply: Result<Memory>,
                      edgeReply: nat -> Result<EdgeRow>)
      returns (r: Outcome, sent: Option<MemoryInsert>, edgeCalls: seq<EdgeInput>)
      modifies this, graph
      ensures !signedIn ==>
        r == Failed(NoUser) && sent == None && edgeCalls == [] && unchanged(this) && unchanged(graph)
      ensures signedIn ==> sent == Some(InsertOf(input, now))
      ensures signedIn && insertReply.Err? ==>
        r == Failed(insertReply.error) && edgeCalls == [] && unchanged(this) && unchanged(graph)
      ensures signedIn && insertReply.Ok? && input.content.None? ==>
        && r == Failed(NoContent) && edgeCalls == []
        && memories == [insertReply.value] + old(memories) && unchanged(graph)
      ensures signedIn && insertReply.Ok? && input.content.Some? ==>
        var row := insertReply.value;
        && r == Saved(row)
        && memories == [row] + old(memories)
        && edgeCalls == EdgeInputs(row.id, InputMentions(input))
        && graph.nodes == old(graph.nodes) + [Node(row.id, "memory", MemoryLabel(input.content.value), MemoryData(row))]
        && graph.edges == old(graph.edges) + AddedEdges(edgeReply, |edgeCalls|)
        && graph.Aside() == old(graph.Aside())
      ensures loading == old(loading) && error == old(error) && filters == old(filters)
      ensures currentPage == old(currentPage) && totalPages == old(totalPages)
    {
      if !signedIn {
        return Failed(NoUser), None, [];
      }
      sent := Some(InsertOf(input, now));
      if insertReply.Err? {
        return Failed(insertReply.error), sent, [];
      }
      var row := insertReply.value;
      memories := [row] + memories;
      if input.content.None? {
        return Failed(NoContent), sent, [];
      }
      graph.AddNode(true, Node(row.id, "memory", MemoryLabel(input.content.value), MemoryData(row)));
      edgeCalls := EdgeInputs(row.id, InputMentions(input));
      AddMentionEdges(graph, edgeCalls, edgeReply);
      r := Saved(row);
    }

    /** `updateMemory`: on success every row with the id is replaced by the
        returned row; the graph is not touched. */
    method UpdateMemory(signedIn: bool, id: string, reply: Result<Memory>) returns (r: Outcome)
      modifies this
      ensures !signedIn ==> r == Failed(NoUser) && unchanged(this)
      ensures signedIn && reply.Err? ==> r == Failed(reply.error) && unchanged(this)
      ensures signedIn && reply.Ok? ==>
        r == Updated(reply.value) && memories == ReplaceById(old(memories), id, reply.value)
      ensures loading == old(loading) && error == old(error) && filters == old(filters)
      ensures currentPage == old(currentPage) && totalPages == old(totalPages)
    {
      if !signedIn {
        return Failed(NoUser);
      }
      if reply.Err? {
        return Failed(reply.error);
      }
      memories := ReplaceById(memories, id, reply.value);
      r := Updated(reply.value);
    }

    /** `deleteMemory`: on success removes the rows with the id and then
        calls `removeNode` with the same raw id. */
    method DeleteMemory(signedIn: bool, id: string, deleteError: Option<string>) returns (r: Outcome)
      modifies this, graph
      ensures !signedIn ==> r == Failed(NoUser) && unchanged(this) && unchanged(graph)
      ensures signedIn && deleteError.Some? ==>
        r == Failed(deleteError.value) && unchanged(this) && unchanged(graph)
      ensures signedIn && deleteError.None? ==>
        && r == Deleted
        && memories == WithoutId(old(memories), id)
        && graph.nodes == WithoutNode(old(graph.nodes), id)
        && graph.edges == WithoutIncident(old(graph.edges), id)
        && graph.Aside() == old(graph.Aside())
      ensures loading == old(loading) && error == old(error) && filters == old(filters)
      ensures currentPage == old(currentPage) && totalPages == old(totalPages)
    {
      if !signedIn {
        return Failed(NoUser);
      }
      if deleteError.Some? {
        return Failed(deleteError.value);
      }
      memories := WithoutId(memories, id);
      graph.RemoveNode(true, id);
      r := Deleted;
    }

    /** `searchMemories`: the matching rows, or none on any failure. */
    method SearchMemories(signedIn: bool, reply: Result<Option<seq<Memory>>>) returns (found: seq<Memory>)
      ensures found == if signedIn && reply.Ok? && reply.value.Some? then reply.value.value else []
    {
      if !signedIn || reply.Err? {
        return [];
      }
      found := reply.value.GetOr([]);
    }

    /** `forgetMemories`: finds the matching ids (`searchReply`), fails when
        there are none, deletes them (`deleteError`), then drops them from
        the list and calls `removeNode` for each; the count reported is the
        number of matches. */
    method ForgetMemories(signedIn: bool, searchReply: Result<Option<seq<string>>>, deleteError: Option<string>)
      returns (r: Outcome)
      modifies this, graph
      ensures !signedIn ==> r == Failed(NoUser) && unchanged(this) && unchanged(graph)
      ensures signedIn && searchReply.Err? ==>
        r == Failed(searchReply.error) && unchanged(this) && unchanged(graph)
      ensures signedIn && searchReply.Ok? && searchReply.value.GetOr([]) == [] ==>
        r == Failed(NothingToForget) && unchanged(this) && unchanged(graph)
      ensures signedIn && searchReply.Ok? && searchReply.value.GetOr([]) != [] && deleteError.Some? ==>
        r == Failed(deleteError.value) && unchanged(this) && unchanged(graph)
      ensures signedIn && searchReply.Ok? && searchReply.value.GetOr([]) != [] && deleteError.None? ==>
        var ids := searchReply.value.value;
        && r == Forgot(|ids|)
        && memories == WithoutIds(old(memories), ids)
        && graph.nodes == WithoutNodes(old(graph.nodes), ids)
        && graph.edges == WithoutIncidents(old(graph.edges), ids)
        && graph.Aside() == old(graph.Aside())
      ensures loading == old(loading) && error == old(error) && filters == old(filters)
      ensures currentPage == old(currentPage) && totalPages == old(totalPages)
    {
      if !signedIn {
        return Failed(NoUser);
      }
      if searchReply.Err? {
        return Failed(searchReply.error);
      }
      var ids := searchReply.value.GetOr([]);
      if ids == [] {
        return Failed(NothingToForget);
      }
      if deleteError.Some? {
        return Failed(deleteError.value);
      }
      memories := WithoutIds(memories, ids);
      RemoveNodes(graph, ids);
      r := Forgot(|ids|);
    }

    /** `getMemoryStats`: the statistics of the fetched rows, or none when no
        user is logged in or the fetch fails. */
    method GetMemoryStats(signedIn: bool, reply: Result<seq<Memory>>, now: int) returns (stats: Option<MemoryStats>)
      ensures stats == if signedIn && reply.Ok? then Some(StatsOf(reply.value, now)) else None
    {
      if !signedIn || reply.Err? {
        return None;
      }
      var data := reply.value;
      var init := MemoryStats(|data|, 0, 0, Breakdown(0, 0, 0, []), [], []);
      var s := init;
      for i := 0 to |data|
        invariant s == Accumulate(init, data[..i], now)
      {
        var m := data[i];
        var week, month := s.thisWeek, s.thisMonth;
        if CreatedMs(m) > now - 7 * DayMs {
          week := week + 1;
        }
        if CreatedMs(m) > now - 30 * DayMs {
          month := month + 1;
        }
        var tags := BumpEach(s.topTags, m.tags);
        var people := BumpEach(s.topPeople, m.people);
        s := MemoryStats(s.total, week, month, CountSentiment(s.sentimentBreakdown, SentimentKey(m)), tags, people);
        assert data[..i + 1][..i] == data[..i];
      }
      assert data[..|data|] == data;
      return Some(s);
    }
  }
}
