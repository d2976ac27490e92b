/**
 The two clients of the paginated reads: validation of pages, the merge by id, and what the merged data is
 when the server keeps its contract.
 */
module PageMerge {
  import opened Options
  import opened Pages
  import opened RevisionPages
  import opened Sorting

  // ----- validation

  function ScopeError(kind: string, key: string, page: Page, first: Option<Page>): Option<string> {
    if page.subject != Scope(kind, key) then Some("Exact scope response mismatch")
    else if first.Some? && page.totals != first.value.totals then
      Some("Exact scope totals changed within one graph revision")
    else None
  }

  function NeighborhoodError(nodeId: int, page: Page): Option<string> {
    if page.subject == Anchor(nodeId) then None
    else Some("Exact neighborhood response did not match the selected node")
  }

  /** All the pages a scope shows are about that scope and agree on its totals. */
  lemma ScopePagesAgree(cfg: Config, s: State, kind: string, key: string)
    requires Inv(cfg, s) && s.loaded.Some?
    requires forall id, page, first :: cfg.Validate(id, page, first) == ScopeError(kind, key, page, first)
    ensures forall p | p in s.loaded.value.pages ::
              p.subject == Scope(kind, key) && p.totals == s.loaded.value.pages[0].totals
              && p.graphRevision == s.loaded.value.pages[0].graphRevision
  {
    var pages := s.loaded.value.pages;
    assert cfg.Validate(s.identity, pages[0], None) == None;
    forall p | p in pages
      ensures p.subject == Scope(kind, key) && p.totals == pages[0].totals
    {
      var i :| 0 <= i < |pages| && pages[i] == p;
      if i > 0 {
        assert cfg.Validate(s.identity, pages[i], Some(pages[0])) == None;
      }
    }
  }

  /** All the pages a neighborhood shows are about the selected node. */
  lemma NeighborhoodPagesAgree(cfg: Config, s: State, nodeId: int)
    requires Inv(cfg, s) && s.loaded.Some?
    requires forall id, page, first :: cfg.Validate(id, page, first) == NeighborhoodError(nodeId, page)
    ensures forall p | p in s.loaded.value.pages :: p.subject == Anchor(nodeId)
  {
    var pages := s.loaded.value.pages;
    assert cfg.Validate(s.identity, pages[0], None) == None;
    forall p | p in pages ensures p.subject == Anchor(nodeId) {
      var i :| 0 <= i < |pages| && pages[i] == p;
      if i > 0 {
        assert cfg.Validate(s.identity, pages[i], Some(pages[0])) == None;
      }
    }
  }

  // ----- the merge

  function NodesOf(pages: seq<Page>): seq<Record> {
    if pages == [] then [] else NodesOf(pages[..|pages| - 1]) + pages[|pages| - 1].nodes
  }

  function EdgesOf(pages: seq<Page>): seq<Record> {
    if pages == [] then [] else EdgesOf(pages[..|pages| - 1]) + pages[|pages| - 1].edges
  }

  /** Records by id; a later record replaces an earlier one. */
  function Gather(records: seq<Record>): (m: map<int, Record>)
    ensures forall i :: i in m <==> exists r :: r in records && r.id == i
    ensures forall i | i in m :: m[i] in records && m[i].id == i
  {
    if records == [] then map[]
    else
      var before, last := records[..|records| - 1], records[|records| - 1];
      assert records == before + [last];
      Gather(before)[last.id := last]
  }

  predicate ById(a: Record, b: Record) { a.id <= b.id }

  /** Each record of the map once, by ascending id. */
  ghost predicate IsSortedListing(list: seq<Record>, m: map<int, Record>) {
    && (forall i, j | 0 <= i < j < |list| :: list[i].id < list[j].id)
    && (forall r :: r in list <==> r.id in m && m[r.id] == r)
  }

  method Pick<T(==)>(s: set<T>) returns (x: T)
    requires s != {}
    ensures x in s
  {
    x :| x in s;
  }

  method Values(m: map<int, Record>) returns (list: seq<Record>)
    requires forall i | i in m :: m[i].id == i
    ensures |list| == |m| && Distinct(list)
    ensures forall r :: r in list <==> r.id in m && m[r.id] == r
  {
    list := [];
    var rest := m.Keys;
    while rest != {}
      invariant rest <= m.Keys && |list| + |rest| == |m| && Distinct(list)
      invariant forall r :: r in list <==> r.id in m && r.id !in rest && m[r.id] == r
    {
      var i := Pick(rest);
      list := list + [m[i]];
      rest := rest - {i};
    }
  }

  method SortedValues(m: map<int, Record>) returns (list: seq<Record>)
    requires forall i | i in m :: m[i].id == i
    ensures |list| == |m| && IsSortedListing(list, m)
  {
    var values := Values(m);
    list := SortBy(values, ById);
    SortBySorted(values, ById);
    SameElements(list, values);
    DistinctPermutation(values, list);
    forall i, j | 0 <= i < j < |list| ensures list[i].id < list[j].id {
      assert ById(list[i], list[j]) && list[i] in list && list[j] in list;
    }
  }

  datatype Merged = Merged(nodes: seq<Record>, edges: seq<Record>, nextCursor: Option<string>)

  lemma GatherNext(before: seq<Record>, next: Record)
    ensures Gather(before + [next]) == Gather(before)[next.id := next]
  {
    assert (before + [next])[..|before|] == before;
  }

  method AddRecords(m: map<int, Record>, records: seq<Record>, ghost before: seq<Record>) returns (r: map<int, Record>)
    requires m == Gather(before)
    ensures r == Gather(before + records)
  {
    r := m;
    assert before + records[..0] == before;
    for i := 0 to |records|
      invariant r == Gather(before + records[..i])
    {
      GatherNext(before + records[..i], records[i]);
      assert before + records[..i + 1] == (before + records[..i]) + [records[i]];
      r := r[records[i].id := records[i]];
    }
    assert records[..|records|] == records;
  }

  /** The merge of a client: two maps filled page by page, sorted by id. There is nothing to show without pages. */
  method MergePages(pages: seq<Page>) returns (data: Option<Merged>)
    ensures data.None? <==> pages == []
    ensures data.Some? ==>
              && IsSortedListing(data.value.nodes, Gather(NodesOf(pages)))
              && IsSortedListing(data.value.edges, Gather(EdgesOf(pages)))
              && |data.value.nodes| == |Gather(NodesOf(pages))|
              && |data.value.edges| == |Gather(EdgesOf(pages))|
              && data.value.nextCursor == pages[|pages| - 1].nextCursor
  {
    if |pages| == 0 {
      return None;
    }
    var nodes: map<int, Record>, edges: map<int, Record> := map[], map[];
    for i := 0 to |pages|
      invariant nodes == Gather(NodesOf(pages[..i])) && edges == Gather(EdgesOf(pages[..i]))
    {
      PrefixGrows(pages, i);
      nodes := AddRecords(nodes, pages[i].nodes, NodesOf(pages[..i]));
      edges := AddRecords(edges, pages[i].edges, EdgesOf(pages[..i]));
    }
    assert pages[..|pages|] == pages;
    var nodeList := SortedValues(nodes);
    var edgeList := SortedValues(edges);
    data := Some(Merged(nodeList, edgeList, pages[|pages| - 1].nextCursor));
  }

  // ----- the server's contract

  /** One revision's page list for one identity. */
  datatype Server = Server(pagesOf: (string, string) -> seq<Page>)
  {
    function PagesOf(identity: string, revision: string): seq<Page> { pagesOf(identity, revision) }
  }

  /** Equal ids mean equal records: the pages of one revision are read from one state of the graph. */
  ghost predicate Consistent(records: seq<Record>) {
    forall a, b | a in records && b in records && a.id == b.id :: a == b
  }

  /** Every page but the last has a cursor of its own, and all are of the one revision. */
  ghost predicate IsPageList(list: seq<Page>, revision: string) {
    && (forall k | 0 <= k < |list| :: list[k].graphRevision == revision)
    && (forall k | 0 <= k < |list| :: HasMore(list[k]) <==> k < |list| - 1)
    && (forall j, k | 0 <= j < k < |list| - 1 :: list[j].nextCursor != list[k].nextCursor)
    && Consistent(NodesOf(list)) && Consistent(EdgesOf(list))
  }

  ghost predicate KeepsContract(server: Server) {
    forall identity, revision :: IsPageList(server.PagesOf(identity, revision), revision)
  }

  /** The page answers the cursor from the page list of the page's own revision. */
  ghost predicate Answers(server: Server, identity: string, cursor: Option<string>, page: Page) {
    var list := server.PagesOf(identity, page.graphRevision);
    && (cursor.None? ==> list != [] && page == list[0])
    && (cursor.Some? ==> forall k | 0 <= k < |list| - 1 && list[k].nextCursor == cursor :: page == list[k + 1])
  }

  ghost predicate EventOk(server: Server, s: State, e: Event) {
    e.PageArrives? && e.request < |s.requests| ==>
      Answers(server, s.requests[e.request].identity, s.requests[e.request].cursor, e.page)
  }

  /** Every page that arrives during the run is a true answer. */
  ghost predicate RunOk(server: Server, cfg: Config, s: State, events: seq<Event>) {
    events != [] ==>
      && RunOk(server, cfg, s, events[..|events| - 1])
      && EventOk(server, Run(cfg, s, events[..|events| - 1]), events[|events| - 1])
  }

  // ----- climbing through the page list

  /** The pages go through `list` from its start, each the same as the one before or the next one. */
  ghost predicate Climbs(pages: seq<Page>, list: seq<Page>, top: nat)
    decreases |pages|
  {
    && pages != [] && top < |list| && pages[|pages| - 1] == list[top]
    && if |pages| == 1 then top == 0
       else Climbs(pages[..|pages| - 1], list, top)
            || (top > 0 && Climbs(pages[..|pages| - 1], list, top - 1))
  }

  lemma PagesDiffer(list: seq<Page>, revision: string, j: nat, k: nat)
    requires IsPageList(list, revision) && j < |list| && k < |list| && list[j] == list[k]
    ensures j == k
  {
    assert HasMore(list[j]) <==> j < |list| - 1;
    assert HasMore(list[k]) <==> k < |list| - 1;
  }

  /** The height reached is fixed by the last page. */
  lemma TopUnique(pages: seq<Page>, list: seq<Page>, revision: string, j: nat, k: nat)
    requires IsPageList(list, revision) && Climbs(pages, list, j) && Climbs(pages, list, k)
    ensures j == k
  {
    PagesDiffer(list, revision, j, k);
  }

  lemma {:induction false} PrefixClimbs(prefix: seq<Page>, pages: seq<Page>, list: seq<Page>, top: nat) returns (k: nat)
    requires Climbs(pages, list, top) && prefix <= pages && prefix != []
    ensures Climbs(prefix, list, k) && k <= top
    decreases |pages|
  {
    if |prefix| == |pages| {
      k := top;
      assert prefix == pages;
    } else {
      var before := pages[..|pages| - 1];
      assert prefix <= before;
      if Climbs(before, list, top) {
        k := PrefixClimbs(prefix, before, list, top);
      } else {
        k := PrefixClimbs(prefix, before, list, top - 1);
      }
    }
  }

  lemma ClimbOn(pages: seq<Page>, list: seq<Page>, top: nat, next: nat)
    requires Climbs(pages, list, top) && next < |list| && (next == top || next == top + 1)
    ensures Climbs(pages + [list[next]], list, next)
  {
    var q := pages + [list[next]];
    assert q[..|q| - 1] == pages && q[|q| - 1] == list[next] && |q| > 1;
  }

  /** The list the first page comes from. */
  function ListFor(server: Server, identity: string, pages: seq<Page>): seq<Page> {
    if pages == [] then [] else server.PagesOf(identity, pages[0].graphRevision)
  }

  ghost predicate LoadedClimbs(server: Server, s: State) {
    s.loaded.Some? ==>
      exists top: nat :: Climbs(s.loaded.value.pages, ListFor(server, s.identity, s.loaded.value.pages), top)
  }

  /** What is loaded, if anything, has climbed to `k` or one page further. */
  ghost predicate LoadedNear(loaded: Option<Loaded>, list: seq<Page>, k: nat) {
    loaded.Some? ==> exists top: nat :: k <= top <= k + 1 && Climbs(loaded.value.pages, list, top)
  }

  /** The last render is at `k`, and at most one page behind what is loaded. */
  ghost predicate RenderedAt(rendered: seq<Page>, loaded: Option<Loaded>, list: seq<Page>, k: nat) {
    Climbs(rendered, list, k) && LoadedNear(loaded, list, k)
  }

  ghost predicate RenderedClimbs(server: Server, s: State) {
    s.rendered.pages != [] ==>
      exists k: nat :: RenderedAt(s.rendered.pages, s.loaded, ListFor(server, s.identity, s.rendered.pages), k)
  }

  /** The last render, of the load that is still there, is not behind `k`. */
  ghost predicate RenderedPast(rendered: seq<Page>, loaded: Option<Loaded>, list: seq<Page>, k: nat) {
    loaded.Some? && rendered != [] ==> exists j: nat :: k <= j && Climbs(rendered, list, j)
  }

  /** `More` is asked for at a page `k` of the list of its first page, and what is loaded is there or one further. */
  ghost predicate AskedAt(server: Server, s: State, r: Request, k: nat) {
    && r.first.Some?
    && var list := server.PagesOf(s.identity, r.first.value.graphRevision);
    && k + 1 < |list| && list[k].nextCursor == r.cursor && r.cursor.Some?
    && LoadedNear(s.loaded, list, k) && RenderedPast(s.rendered.pages, s.loaded, list, k)
  }

  predicate PendingMore(s: State) {
    ActiveIs(s, More) && s.requests[s.active.value].stage == Pending
  }

  ghost predicate RequestsAsk(server: Server, s: State) {
    && (forall i | 0 <= i < |s.requests| && s.requests[i].phase == Initial :: s.requests[i].cursor == None)
    && (PendingMore(s) ==> exists k: nat :: AskedAt(server, s, s.requests[s.active.value], k))
  }

  ghost predicate Tracks(server: Server, s: State) {
    LoadedClimbs(server, s) && RenderedClimbs(server, s) && RequestsAsk(server, s)
  }

  lemma MountedTracks(server: Server, identity: string, enabled: bool)
    ensures Tracks(server, Mounted(identity, enabled))
  {
  }

  lemma RerunTracks(server: Server, cfg: Config, s: State, identity: string, enabled: bool)
    requires Inv(cfg, s) && Tracks(server, s) && s.mounted
    ensures Tracks(server, Render(Body(Cleanup(s), identity, enabled)))
  {
  }

  lemma CommitTracks(server: Server, cfg: Config, s: State)
    requires Inv(cfg, s) && Tracks(server, s)
    ensures Tracks(server, Render(s))
  {
    var t := Render(s);
    if s.loaded.Some? {
      var pages := s.loaded.value.pages;
      var list := ListFor(server, s.identity, pages);
      var top: nat :| Climbs(pages, list, top);
      assert t.rendered.pages == pages;
      assert LoadedNear(t.loaded, list, top);
      assert RenderedAt(t.rendered.pages, t.loaded, list, top);
      if PendingMore(s) {
        var k: nat :| AskedAt(server, s, s.requests[s.active.value], k);
        assert AskedAt(server, t, t.requests[t.active.value], k);
      }
    } else if PendingMore(s) {
      var k: nat :| AskedAt(server, s, s.requests[s.active.value], k);
      assert AskedAt(server, t, t.requests[t.active.value], k);
    }
  }

  lemma LoadMoreTracks(server: Server, cfg: Config, s: State)
    requires KeepsContract(server) && Inv(cfg, s) && Tracks(server, s)
    ensures Tracks(server, DoLoadMore(s))
  {
    if MayLoadMore(s) {
      var t := DoLoadMore(s);
      var pages := s.rendered.pages;
      var list := ListFor(server, s.identity, pages);
      var k: nat :| RenderedAt(s.rendered.pages, s.loaded, list, k);
      assert IsPageList(list, pages[0].graphRevision);
      assert HasMore(list[k]);
      assert t.requests[t.active.value].cursor == list[k].nextCursor;
      assert AskedAt(server, t, t.requests[t.active.value], k);
    }
  }

  /** The answer to a live `More` request is the page after the one it was asked at. */
  lemma AnswerIsNext(server: Server, s: State, r: Request, page: Page, k: nat)
    requires AskedAt(server, s, r, k) && Answers(server, s.identity, r.cursor, page)
    requires KeepsContract(server) && page.graphRevision == r.first.value.graphRevision
    ensures page == server.PagesOf(s.identity, page.graphRevision)[k + 1]
  {
    var list := server.PagesOf(s.identity, page.graphRevision);
    assert IsPageList(list, page.graphRevision);
    assert HasMore(list[k]);
  }

  lemma FirstPageTracks(server: Server, cfg: Config, s: State, i: nat, page: Page)
    requires Inv(cfg, s) && Tracks(server, s)
    requires Live(s, i) && s.requests[i].stage == Pending && s.requests[i].phase == Initial
    requires Answers(server, s.requests[i].identity, s.requests[i].cursor, page)
    ensures Tracks(server, Receive(cfg, Advance(s, i, Handled), s.requests[i], page))
  {
    HandledKeeps(cfg, s, i);
    assert AwaitsFirstPage(s);
    var list := server.PagesOf(s.identity, page.graphRevision);
    assert Climbs([page], list, 0);
    var t := Receive(cfg, Advance(s, i, Handled), s.requests[i], page);
    assert t.loaded.Some? ==> t.loaded.value.pages == [page] && ListFor(server, t.identity, [page]) == list;
  }

  lemma AppendLoaded(server: Server, cfg: Config, s: State, i: nat, page: Page, k: nat)
    requires KeepsContract(server) && Inv(cfg, s) && Tracks(server, s) && s.loaded.Some?
    requires Live(s, i) && s.requests[i].stage == Pending && s.requests[i].phase == More
    requires page.graphRevision == s.requests[i].first.value.graphRevision
    requires Answers(server, s.requests[i].identity, s.requests[i].cursor, page)
    requires AskedAt(server, s, s.requests[i], k)
    ensures var list := server.PagesOf(s.identity, page.graphRevision);
            && s.loaded.value.pages[0].graphRevision == page.graphRevision
            && Climbs(s.loaded.value.pages + [page], list, k + 1)
            && Append(s.loaded, s.requests[i].identity, page) == Some(Loaded(s.identity, s.loaded.value.pages + [page]))
  {
    HandledKeeps(cfg, s, i);
    AnswerIsNext(server, s, s.requests[i], page, k);
    var pages := s.loaded.value.pages;
    var list := server.PagesOf(s.identity, page.graphRevision);
    assert pages[0].graphRevision == page.graphRevision;
    var top: nat :| k <= top <= k + 1 && Climbs(pages, list, top);
    ClimbOn(pages, list, top, k + 1);
  }

  /** The height of the render is the one its invariant speaks of. */
  lemma RenderedClose(server: Server, s: State, list: seq<Page>, j: nat)
    requires KeepsContract(server) && RenderedClimbs(server, s) && s.rendered.pages != []
    requires list == ListFor(server, s.identity, s.rendered.pages) && Climbs(s.rendered.pages, list, j)
    ensures LoadedNear(s.loaded, list, j)
  {
    var k: nat :| RenderedAt(s.rendered.pages, s.loaded, list, k);
    assert IsPageList(list, s.rendered.pages[0].graphRevision);
    TopUnique(s.rendered.pages, list, s.rendered.pages[0].graphRevision, j, k);
  }

  lemma AppendTracks(server: Server, cfg: Config, s: State, i: nat, page: Page)
    requires KeepsContract(server) && Inv(cfg, s) && Tracks(server, s)
    requires Live(s, i) && s.requests[i].stage == Pending && s.requests[i].phase == More
    requires page.graphRevision == s.requests[i].first.value.graphRevision
    requires Answers(server, s.requests[i].identity, s.requests[i].cursor, page)
    ensures Tracks(server, Advance(s, i, Handled).(loaded := Append(s.loaded, s.requests[i].identity, page)))
  {
    HandledKeeps(cfg, s, i);
    var r, t := s.requests[i], Advance(s, i, Handled).(loaded := Append(s.loaded, s.requests[i].identity, page));
    if s.loaded.Some? {
      var k: nat :| AskedAt(server, s, r, k);
      AppendLoaded(server, cfg, s, i, page, k);
      var pages := s.loaded.value.pages;
      var list := server.PagesOf(s.identity, page.graphRevision);
      assert ListFor(server, t.identity, t.loaded.value.pages) == list;
      if s.rendered.pages != [] {
        assert s.rendered.pages[0] == pages[0];
        var j: nat :| k <= j && Climbs(s.rendered.pages, list, j);
        RenderedClose(server, s, list, j);
        assert LoadedNear(s.loaded, list, j);
        assert RenderedAt(t.rendered.pages, t.loaded, list, j);
      }
    }
  }

  /** Dropping what is loaded leaves the last render where it was. */
  lemma DroppedTracks(server: Server, s: State, t: State)
    requires Tracks(server, s) && t.rendered == s.rendered && t.identity == s.identity
    requires t.loaded == None || t.loaded == s.loaded
    ensures LoadedClimbs(server, t) && RenderedClimbs(server, t)
  {
    if s.rendered.pages != [] {
      var list := ListFor(server, s.identity, s.rendered.pages);
      var k: nat :| RenderedAt(s.rendered.pages, s.loaded, list, k);
      assert RenderedAt(t.rendered.pages, t.loaded, list, k);
    }
  }

  lemma SameRequestsTracks(server: Server, s: State, t: State)
    requires Tracks(server, s)
    requires t == s.(failure := t.failure, retryRevision := t.retryRevision)
    ensures Tracks(server, t)
  {
    DroppedTracks(server, s, t);
    if PendingMore(t) {
      var k: nat :| AskedAt(server, s, s.requests[s.active.value], k);
      assert AskedAt(server, t, t.requests[t.active.value], k);
    }
  }

  lemma CleanupKeepsPages(s: State)
    ensures var t := Cleanup(s);
            && t.rendered == s.rendered && t.identity == s.identity && t.loaded == s.loaded && t.active == None
  {
  }

  lemma UnmountTracks(server: Server, s: State)
    requires Tracks(server, s)
    ensures Tracks(server, if s.mounted then Cleanup(s).(mounted := false) else s)
  {
    var t := Cleanup(s).(mounted := false);
    CleanupKeepsPages(s);
    DroppedTracks(server, s, t);
    assert !PendingMore(t);
  }

  /** A step that handles or settles a request without loading a page. */
  lemma NothingLoadedTracks(server: Server, s: State, t: State, i: nat, stage: Stage)
    requires Tracks(server, s) && t.rendered == s.rendered && t.identity == s.identity
    requires t.loaded == None || t.loaded == s.loaded
    requires i < |s.requests| && stage != Pending && t.requests == Advance(s, i, stage).requests
    requires t.active == s.active || t.active == None
    ensures Tracks(server, t)
  {
    DroppedTracks(server, s, t);
    if PendingMore(t) {
      var k: nat :| AskedAt(server, s, s.requests[s.active.value], k);
      assert AskedAt(server, t, t.requests[t.active.value], k);
    }
  }

  lemma MorePageTracks(server: Server, cfg: Config, s: State, i: nat, page: Page)
    requires KeepsContract(server) && Inv(cfg, s) && Tracks(server, s)
    requires Live(s, i) && s.requests[i].stage == Pending && s.requests[i].phase == More
    requires Answers(server, s.requests[i].identity, s.requests[i].cursor, page)
    ensures Tracks(server, Receive(cfg, Advance(s, i, Handled), s.requests[i], page))
  {
    var r, t := s.requests[i], Receive(cfg, Advance(s, i, Handled), s.requests[i], page);
    if page.graphRevision == r.first.value.graphRevision && cfg.Validate(r.identity, page, r.first) == None {
      AppendTracks(server, cfg, s, i, page);
    } else {
      NothingLoadedTracks(server, s, t, i, Handled);
    }
  }

  lemma PageTracks(server: Server, cfg: Config, s: State, i: nat, page: Page)
    requires KeepsContract(server) && Inv(cfg, s) && Tracks(server, s) && EventOk(server, s, PageArrives(i, page))
    ensures Tracks(server, Step(cfg, s, PageArrives(i, page)))
  {
    if i < |s.requests| && s.requests[i].stage == Pending {
      if !Live(s, i) {
        NothingLoadedTracks(server, s, Advance(s, i, Handled), i, Handled);
      } else if s.requests[i].phase == Initial {
        FirstPageTracks(server, cfg, s, i, page);
      } else {
        MorePageTracks(server, cfg, s, i, page);
      }
    }
  }

  lemma FailureLoadsNothing(cfg: Config, s: State, i: nat, error: FetchError)
    requires i < |s.requests| && s.requests[i].stage == Pending
    ensures var t := Step(cfg, s, FetchFails(i, error));
            && t.rendered == s.rendered && t.identity == s.identity && (t.loaded == None || t.loaded == s.loaded)
            && t.requests == Advance(s, i, Handled).requests && t.active == s.active
  {
  }

  lemma FailureTracks(server: Server, cfg: Config, s: State, i: nat, error: FetchError)
    requires Tracks(server, s)
    ensures Tracks(server, Step(cfg, s, FetchFails(i, error)))
  {
    if i < |s.requests| && s.requests[i].stage == Pending {
      FailureLoadsNothing(cfg, s, i, error);
      NothingLoadedTracks(server, s, Step(cfg, s, FetchFails(i, error)), i, Handled);
    }
  }

  lemma SettleTracks(server: Server, cfg: Config, s: State, i: nat)
    requires Tracks(server, s)
    ensures Tracks(server, Step(cfg, s, Settles(i)))
  {
    if i < |s.requests| && s.requests[i].stage == Handled {
      NothingLoadedTracks(server, s, Step(cfg, s, Settles(i)), i, Settled);
    }
  }

  lemma RetryTracks(server: Server, cfg: Config, s: State)
    requires KeepsContract(server) && Inv(cfg, s) && Tracks(server, s)
    ensures Tracks(server, DoRetry(s))
  {
    LoadMoreTracks(server, cfg, s);
    SameRequestsTracks(server, s, s.(failure := None, retryRevision := s.retryRevision + 1));
  }

  lemma StepTracks(server: Server, cfg: Config, s: State, e: Event)
    requires KeepsContract(server) && Inv(cfg, s) && Tracks(server, s) && EventOk(server, s, e)
    ensures Tracks(server, Step(cfg, s, e))
  {
    match e
    case Rerun(identity, enabled) => if s.mounted { RerunTracks(server, cfg, s, identity, enabled); }
    case Commit => CommitTracks(server, cfg, s);
    case LoadMore => LoadMoreTracks(server, cfg, s);
    case PageArrives(i, page) => PageTracks(server, cfg, s, i, page);
    case FetchFails(i, error) => FailureTracks(server, cfg, s, i, error);
    case Settles(i) => SettleTracks(server, cfg, s, i);
    case Retry => RetryTracks(server, cfg, s);
    case Unmount => UnmountTracks(server, s);
  }

  lemma {:induction false} RunTracks(server: Server, cfg: Config, identity: string, enabled: bool, events: seq<Event>)
    requires KeepsContract(server) && RunOk(server, cfg, Mounted(identity, enabled), events)
    ensures Tracks(server, Run(cfg, Mounted(identity, enabled), events))
  {
    if events == [] {
      MountedTracks(server, identity, enabled);
    } else {
      var before := events[..|events| - 1];
      RunTracks(server, cfg, identity, enabled, before);
      RunKeeps(cfg, identity, enabled, before);
      StepTracks(server, cfg, Run(cfg, Mounted(identity, enabled), before), events[|events| - 1]);
    }
  }

  // ----- what the merge shows

  lemma NodesOfLast(pages: seq<Page>, last: Page)
    ensures NodesOf(pages + [last]) == NodesOf(pages) + last.nodes
  {
    assert (pages + [last])[..|pages|] == pages;
  }

  lemma {:induction false} NodesAppend(a: seq<Page>, b: seq<Page>)
    ensures NodesOf(a + b) == NodesOf(a) + NodesOf(b)
  {
    if b == [] {
      assert a + b == a;
    } else {
      var before, last := b[..|b| - 1], b[|b| - 1];
      NodesAppend(a, before);
      NodesOfLast(a + before, last);
      NodesOfLast(before, last);
      assert b == before + [last] && a + b == a + before + [last];
    }
  }

  lemma EdgesOfLast(pages: seq<Page>, last: Page)
    ensures EdgesOf(pages + [last]) == EdgesOf(pages) + last.edges
  {
    assert (pages + [last])[..|pages|] == pages;
  }

  lemma {:induction false} EdgesAppend(a: seq<Page>, b: seq<Page>)
    ensures EdgesOf(a + b) == EdgesOf(a) + EdgesOf(b)
  {
    if b == [] {
      assert a + b == a;
    } else {
      var before, last := b[..|b| - 1], b[|b| - 1];
      EdgesAppend(a, before);
      EdgesOfLast(a + before, last);
      EdgesOfLast(before, last);
      assert b == before + [last] && a + b == a + before + [last];
    }
  }

  /** Pages that climb to `top` hold just the records of the list's first `top + 1` pages. */
  lemma {:induction false} ClimbedRecords(pages: seq<Page>, list: seq<Page>, top: nat)
    requires Climbs(pages, list, top)
    ensures forall r :: r in NodesOf(pages) <==> r in NodesOf(list[..top + 1])
    ensures forall r :: r in EdgesOf(pages) <==> r in EdgesOf(list[..top + 1])
    decreases |pages|
  {
    var before, last := pages[..|pages| - 1], list[top];
    assert list[..top + 1][..top] == list[..top];
    if |pages| == 1 {
      assert before == [] && list[..top] == [];
    } else if Climbs(before, list, top) {
      ClimbedRecords(before, list, top);
    } else {
      ClimbedRecords(before, list, top - 1);
    }
  }

  /** Of consistent records the gathered map holds every one. */
  lemma GatherConsistent(records: seq<Record>, all: seq<Record>)
    requires Consistent(all) && forall r | r in records :: r in all
    ensures forall r: Record :: r.id in Gather(records) && Gather(records)[r.id] == r <==> r in records
  {
  }

  lemma PrefixRecords(list: seq<Page>, n: nat)
    requires n <= |list|
    ensures forall r | r in NodesOf(list[..n]) :: r in NodesOf(list)
    ensures forall r | r in EdgesOf(list[..n]) :: r in EdgesOf(list)
  {
    NodesAppend(list[..n], list[n..]);
    EdgesAppend(list[..n], list[n..]);
    assert list == list[..n] + list[n..];
  }

  /** The merged list: ascending without repetition, and exactly the records of the first `n` pages. */
  ghost predicate IsUnion(list: seq<Record>, records: seq<Record>) {
    && (forall i, j | 0 <= i < j < |list| :: list[i].id < list[j].id)
    && (forall r :: r in list <==> r in records)
  }

  /** The merged data shows the first `n` pages of the list: all of it when there is no further cursor. */
  ghost predicate ShowsPrefix(data: Merged, list: seq<Page>, n: nat) {
    && 1 <= n <= |list|
    && IsUnion(data.nodes, NodesOf(list[..n])) && IsUnion(data.edges, EdgesOf(list[..n]))
    && data.nextCursor == list[n - 1].nextCursor
    && (data.nextCursor == None ==> n == |list|)
  }

  lemma ListedUnion(listing: seq<Record>, records: seq<Record>, same: seq<Record>, all: seq<Record>)
    requires IsSortedListing(listing, Gather(records)) && Consistent(all)
    requires forall r :: r in records <==> r in same
    requires forall r | r in same :: r in all
    ensures IsUnion(listing, same)
  {
    GatherConsistent(records, all);
  }

  /**
   The sorted listing of the gathered records of pages that climbed to `top` is the union of the pages up to
   there.
   */
  lemma ClimbedUnion(pages: seq<Page>, list: seq<Page>, revision: string, top: nat, data: Merged)
    requires IsPageList(list, revision) && Climbs(pages, list, top)
    requires IsSortedListing(data.nodes, Gather(NodesOf(pages))) && IsSortedListing(data.edges, Gather(EdgesOf(pages)))
    ensures IsUnion(data.nodes, NodesOf(list[..top + 1])) && IsUnion(data.edges, EdgesOf(list[..top + 1]))
    ensures HasMore(list[top]) <==> top < |list| - 1
  {
    ClimbedRecords(pages, list, top);
    PrefixRecords(list, top + 1);
    ListedUnion(data.nodes, NodesOf(pages), NodesOf(list[..top + 1]), NodesOf(list));
    ListedUnion(data.edges, EdgesOf(pages), EdgesOf(list[..top + 1]), EdgesOf(list));
  }

  /**
   In every state a run can reach the merged nodes and edges are the duplicate-free, id-ascending union of a
   prefix of one revision's page list, also when a page was appended twice, and the whole of it once there is
   no further cursor.
   */
  lemma MergedIsPrefix(server: Server, cfg: Config, s: State, data: Merged)
    requires KeepsContract(server) && Inv(cfg, s) && Tracks(server, s) && s.loaded.Some?
    requires IsSortedListing(data.nodes, Gather(NodesOf(s.loaded.value.pages)))
    requires IsSortedListing(data.edges, Gather(EdgesOf(s.loaded.value.pages)))
    requires data.nextCursor == s.loaded.value.pages[|s.loaded.value.pages| - 1].nextCursor
    ensures var list := ListFor(server, s.identity, s.loaded.value.pages);
            exists n: nat :: ShowsPrefix(data, list, n)
  {
    var pages := s.loaded.value.pages;
    var list := ListFor(server, s.identity, pages);
    assert IsPageList(list, pages[0].graphRevision);
    var top: nat :| Climbs(pages, list, top);
    ClimbedUnion(pages, list, pages[0].graphRevision, top, data);
    assert pages[|pages| - 1] == list[top];
    assert ShowsPrefix(data, list, top + 1);
  }

  /** The same for whatever the merge of the loaded pages returns after any run of true answers. */
  method MergeAfterRun(ghost server: Server, cfg: Config, identity: string, enabled: bool, ghost events: seq<Event>,
                       pages: seq<Page>) returns (data: Option<Merged>)
    requires KeepsContract(server) && RunOk(server, cfg, Mounted(identity, enabled), events)
    requires var s := Run(cfg, Mounted(identity, enabled), events); s.loaded.Some? && pages == s.loaded.value.pages
    ensures data.Some?
    ensures var s := Run(cfg, Mounted(identity, enabled), events);
            exists n: nat :: ShowsPrefix(data.value, ListFor(server, s.identity, pages), n)
  {
    RunKeeps(cfg, identity, enabled, events);
    RunTracks(server, cfg, identity, enabled, events);
    data := MergePages(pages);
    MergedIsPrefix(server, cfg, Run(cfg, Mounted(identity, enabled), events), data.value);
  }
}
