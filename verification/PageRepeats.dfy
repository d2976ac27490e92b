/** When a page is loaded twice: `loadMore` reads the last render, so it repeats itself between two renders. */
module PageRepeats {
  import opened Options
  import opened PageMerge
  import opened Pages
  import opened RevisionPages
  import opened Sorting

  // ----- climbing without a repeat

  lemma EarlierDiffers(list: seq<Page>, revision: string, i: nat, j: nat)
    requires IsPageList(list, revision) && i < j < |list|
    ensures list[i] != list[j]
  {
    assert HasMore(list[i]);
    assert HasMore(list[j]) <==> j < |list| - 1;
  }

  lemma PrefixDistinct(list: seq<Page>, revision: string, n: nat)
    requires IsPageList(list, revision) && n <= |list|
    ensures Distinct(list[..n])
  {
    forall i, j | 0 <= i < j < n ensures list[i] != list[j] {
      EarlierDiffers(list, revision, i, j);
    }
  }

  lemma RepeatsAreNotList(pages: seq<Page>, list: seq<Page>, revision: string, top: nat)
    requires IsPageList(list, revision) && top < |list| && |pages| > 1 && pages[|pages| - 2] == pages[|pages| - 1]
    ensures !Distinct(pages) && pages != list[..top + 1]
  {
    PrefixDistinct(list, revision, top + 1);
  }

  lemma DistinctPrefix(pages: seq<Page>, n: nat)
    requires Distinct(pages) && n <= |pages|
    ensures Distinct(pages[..n])
  {
  }

  /** Pages that climb a page list are without repeats exactly when they are the list's first pages. */
  lemma {:induction false} DistinctClimb(pages: seq<Page>, list: seq<Page>, revision: string, top: nat)
    requires IsPageList(list, revision) && Climbs(pages, list, top)
    ensures Distinct(pages) <==> pages == list[..top + 1]
    decreases |pages|
  {
    var before := pages[..|pages| - 1];
    assert pages == before + [list[top]];
    assert list[..top + 1] == list[..top] + [list[top]];
    if |pages| > 1 {
      if Climbs(before, list, top) {
        DistinctClimb(before, list, revision, top);
        assert before[|before| - 1] == list[top];
        assert pages[|before| - 1] == pages[|before|];
        RepeatsAreNotList(pages, list, revision, top);
      } else {
        DistinctClimb(before, list, revision, top - 1);
        PrefixDistinct(list, revision, top + 1);
        if Distinct(pages) {
          DistinctPrefix(pages, |before|);
        }
      }
    }
  }

  lemma {:induction false} ClimbedAre(pages: seq<Page>, list: seq<Page>, top: nat)
    requires Climbs(pages, list, top)
    ensures forall p | p in pages :: p in list[..top + 1]
    decreases |pages|
  {
    var before := pages[..|pages| - 1];
    assert pages == before + [list[top]] && list[..top + 1] == list[..top] + [list[top]];
    if |pages| > 1 {
      if Climbs(before, list, top) {
        ClimbedAre(before, list, top);
      } else {
        ClimbedAre(before, list, top - 1);
      }
    }
  }

  /** Pages at height `k` or `k + 1` hold the page `k + 1` exactly in the second case. */
  lemma NextIsLoaded(pages: seq<Page>, list: seq<Page>, revision: string, top: nat, k: nat)
    requires IsPageList(list, revision) && Climbs(pages, list, top) && k <= top <= k + 1 < |list|
    ensures list[k + 1] in pages <==> top == k + 1
  {
    if top == k {
      ClimbedAre(pages, list, k);
      forall i | 0 <= i < k + 1 ensures list[i] != list[k + 1] {
        EarlierDiffers(list, revision, i, k + 1);
      }
    }
  }

  // ----- one loadMore

  /** The page asked for by `loadMore` now, from the last render. */
  ghost predicate AnswersLoadMore(server: Server, s: State, page: Page)
    requires MayLoadMore(s)
  {
    var pages := s.rendered.pages;
    page.graphRevision == pages[0].graphRevision && Answers(server, s.identity, pages[|pages| - 1].nextCursor, page)
  }

  /** What `loadMore` asks for is loaded already exactly when the last page loaded is not the last page rendered. */
  lemma RepeatsLoadedPage(server: Server, cfg: Config, s: State, page: Page)
    requires KeepsContract(server) && Inv(cfg, s) && Tracks(server, s)
    requires MayLoadMore(s) && s.loaded.Some? && AnswersLoadMore(server, s, page)
    ensures var pages, seen := s.loaded.value.pages, s.rendered.pages;
            page in pages <==> pages[|pages| - 1] != seen[|seen| - 1]
  {
    var pages, seen := s.loaded.value.pages, s.rendered.pages;
    var list := ListFor(server, s.identity, seen);
    var k: nat :| RenderedAt(seen, s.loaded, list, k);
    var top: nat :| k <= top <= k + 1 && Climbs(pages, list, top);
    assert IsPageList(list, seen[0].graphRevision);
    assert HasMore(list[k]);
    assert page == list[k + 1];
    NextIsLoaded(pages, list, seen[0].graphRevision, top, k);
    if list[top] == list[k] {
      PagesDiffer(list, seen[0].graphRevision, top, k);
    }
  }

  lemma SameLastSamePrefix(a: seq<Page>, b: seq<Page>)
    requires a != [] && a <= b && Distinct(b)
    ensures a == b <==> a[|a| - 1] == b[|b| - 1]
  {
    if |a| < |b| {
      assert b[|a| - 1] != b[|b| - 1];
    }
  }

  /**
   As long as nothing has been loaded twice, it is exactly when no render has been committed since the last
   append.
   */
  lemma StaleRenderRepeats(server: Server, cfg: Config, s: State, page: Page)
    requires KeepsContract(server) && Inv(cfg, s) && Tracks(server, s)
    requires MayLoadMore(s) && s.loaded.Some? && Distinct(s.loaded.value.pages) && AnswersLoadMore(server, s, page)
    ensures page in s.loaded.value.pages <==> s.rendered.pages != s.loaded.value.pages
  {
    RepeatsLoadedPage(server, cfg, s, page);
    SameLastSamePrefix(s.rendered.pages, s.loaded.value.pages);
  }

  // ----- runs

  /** The last render shows all that is loaded. */
  predicate UpToDate(s: State) { s.loaded.Some? && s.rendered.pages == s.loaded.value.pages }

  /** For every request of a run whether it was made from an up-to-date render. */
  function AskedFresh(cfg: Config, s: State, events: seq<Event>): (r: seq<bool>)
    ensures |r| == |Run(cfg, s, events).requests|
  {
    if events == [] then seq(|s.requests|, _ => true)
    else
      var before, e := events[..|events| - 1], events[|events| - 1];
      var t := Run(cfg, s, before);
      StepKeepsSignals(cfg, t, e);
      AskedFresh(cfg, s, before) + seq(|Step(cfg, t, e).requests| - |t.requests|, _ => UpToDate(t))
  }

  /** The step appends the page that arrives to what is loaded. */
  predicate Appends(s: State, t: State, e: Event) {
    && e.PageArrives? && e.request < |s.requests| && s.loaded.Some? && t.loaded.Some?
    && |t.loaded.value.pages| > |s.loaded.value.pages|
  }

  /**
   Every `loadMore` or `retry` whose answer was appended to the pages now loaded was made from an up-to-date
   render.
   */
  predicate AllFresh(cfg: Config, s: State, events: seq<Event>) {
    events == [] ||
    (var before, e := events[..|events| - 1], events[|events| - 1];
     var t := Run(cfg, s, before);
     || Step(cfg, t, e).loaded.None?
     || t.loaded.None?
     || (AllFresh(cfg, s, before) && (Appends(t, Step(cfg, t, e), e) ==> AskedFresh(cfg, s, before)[e.request])))
  }

  /** A pending `More` request was made at the last page loaded exactly when it was made from an up-to-date render. */
  ghost predicate FreshKnown(s: State, asked: seq<bool>) {
    PendingMore(s) && s.loaded.Some? && s.active.value < |asked| && s.loaded.value.pages != []
    && Distinct(s.loaded.value.pages) ==>
      var pages := s.loaded.value.pages;
      (asked[s.active.value] <==> s.requests[s.active.value].cursor == pages[|pages| - 1].nextCursor)
  }

  lemma SameCursorSameHeight(list: seq<Page>, revision: string, k: nat, top: nat)
    requires IsPageList(list, revision) && k <= top < |list| && HasMore(list[k])
    ensures list[k].nextCursor == list[top].nextCursor <==> top == k
  {
    assert HasMore(list[top]) <==> top < |list| - 1;
    assert HasMore(list[k]) <==> k < |list| - 1;
  }

  /** The cursor of the last page rendered is that of the last page loaded just when the render is up to date. */
  lemma CursorTells(server: Server, cfg: Config, s: State)
    requires KeepsContract(server) && Inv(cfg, s) && Tracks(server, s)
    requires MayLoadMore(s) && s.loaded.Some? && Distinct(s.loaded.value.pages)
    ensures var pages, seen := s.loaded.value.pages, s.rendered.pages;
            UpToDate(s) <==> seen[|seen| - 1].nextCursor == pages[|pages| - 1].nextCursor
  {
    var pages, seen := s.loaded.value.pages, s.rendered.pages;
    var list := ListFor(server, s.identity, seen);
    var k: nat :| RenderedAt(seen, s.loaded, list, k);
    var top: nat :| k <= top <= k + 1 && Climbs(pages, list, top);
    assert IsPageList(list, seen[0].graphRevision);
    SameCursorSameHeight(list, seen[0].graphRevision, k, top);
    if top > k {
      EarlierDiffers(list, seen[0].graphRevision, k, top);
    }
    SameLastSamePrefix(seen, pages);
  }

  /** A step that neither loads a page nor asks for one. */
  lemma SameAskKnown(s: State, t: State, asked: seq<bool>)
    requires FreshKnown(s, asked) && (t.loaded == s.loaded || t.loaded == None)
    requires PendingMore(t) ==>
               PendingMore(s) && t.active == s.active
               && t.requests[t.active.value].cursor == s.requests[s.active.value].cursor
    ensures FreshKnown(t, asked)
  {
  }

  lemma LoadMoreKnown(server: Server, cfg: Config, s: State, asked: seq<bool>)
    requires KeepsContract(server) && Inv(cfg, s) && Tracks(server, s)
    requires FreshKnown(s, asked) && |asked| == |s.requests|
    ensures FreshKnown(DoLoadMore(s), asked + seq(|DoLoadMore(s).requests| - |s.requests|, _ => UpToDate(s)))
  {
    var t := DoLoadMore(s);
    var now := asked + seq(|t.requests| - |s.requests|, _ => UpToDate(s));
    if MayLoadMore(s) {
      assert t.active == Some(|asked|) && now[|asked|] == UpToDate(s);
      if s.loaded.Some? && Distinct(s.loaded.value.pages) {
        CursorTells(server, cfg, s);
      }
    } else {
      assert now == asked;
    }
  }

  /** A step that only handles or settles a request. */
  lemma AdvancedKnown(s: State, t: State, i: nat, stage: Stage, asked: seq<bool>)
    requires FreshKnown(s, asked) && (t.loaded == s.loaded || t.loaded == None)
    requires i < |s.requests| && stage != Pending && t.requests == Advance(s, i, stage).requests
    requires t.active == s.active || t.active == None
    ensures FreshKnown(t, asked)
  {
    SameAskKnown(s, t, asked);
  }

  lemma FailureKnown(cfg: Config, s: State, i: nat, error: FetchError, asked: seq<bool>)
    requires FreshKnown(s, asked)
    ensures var t := Step(cfg, s, FetchFails(i, error)); FreshKnown(t, asked) && |t.requests| == |s.requests|
    ensures Step(cfg, s, FetchFails(i, error)).loaded in {s.loaded, None}
  {
    if i < |s.requests| && s.requests[i].stage == Pending {
      AdvancedKnown(s, Step(cfg, s, FetchFails(i, error)), i, Handled, asked);
    }
  }

  lemma SettlingKnown(cfg: Config, s: State, i: nat, asked: seq<bool>)
    requires FreshKnown(s, asked)
    ensures var t := Step(cfg, s, Settles(i)); FreshKnown(t, asked) && |t.requests| == |s.requests|
    ensures Step(cfg, s, Settles(i)).loaded == s.loaded
  {
    if i < |s.requests| && s.requests[i].stage == Handled {
      AdvancedKnown(s, Step(cfg, s, Settles(i)), i, Settled, asked);
    }
  }

  /** What a live answer leaves loaded: what was there or nothing, a first page, or a page more of the same revision. */
  predicate Received(s: State, t: State, i: nat, page: Page)
    requires i < |s.requests|
  {
    var r := s.requests[i];
    || t.loaded == s.loaded || t.loaded == None
    || (r.phase == Initial && s.loaded == None && t.loaded.value.pages == [page])
    || (r.phase == More && s.loaded.Some? && t.loaded == Some(Loaded(s.identity, s.loaded.value.pages + [page]))
        && r.first.Some? && page.graphRevision == r.first.value.graphRevision)
  }

  lemma ReceivedPages(cfg: Config, s: State, i: nat, page: Page)
    requires Inv(cfg, s) && Live(s, i) && s.requests[i].stage == Pending
    ensures Received(s, Receive(cfg, Advance(s, i, Handled), s.requests[i], page), i, page)
  {
    HandledKeeps(cfg, s, i);
    if s.requests[i].phase == Initial {
      assert AwaitsFirstPage(s);
    }
  }

  /** The request answered is handled and still the active one. */
  predicate Answered(s: State, t: State, i: nat) {
    i < |s.requests| == |t.requests| && t.active == Some(i) && t.requests[i].stage == Handled
  }

  lemma ReceiveAnswers(cfg: Config, s: State, i: nat, page: Page)
    requires Inv(cfg, s) && Live(s, i) && s.requests[i].stage == Pending
    ensures Answered(s, Receive(cfg, Advance(s, i, Handled), s.requests[i], page), i)
  {
    HandledKeeps(cfg, s, i);
  }

  lemma DistinctAppend(pages: seq<Page>, page: Page)
    ensures Distinct(pages + [page]) <==> Distinct(pages) && page !in pages
  {
    var more := pages + [page];
    if Distinct(more) {
      forall i, j | 0 <= i < j < |pages| ensures pages[i] != pages[j] {
        assert more[i] != more[j];
      }
      forall i | 0 <= i < |pages| ensures pages[i] != page {
        assert more[i] != more[|pages|];
      }
    }
  }

  /** An appended answer is no repeat exactly when it was asked for from an up-to-date render. */
  lemma AppendRepeats(server: Server, cfg: Config, s: State, i: nat, page: Page, asked: seq<bool>)
    requires KeepsContract(server) && Inv(cfg, s) && Tracks(server, s) && s.loaded.Some?
    requires Live(s, i) && s.requests[i].stage == Pending && s.requests[i].phase == More
    requires page.graphRevision == s.requests[i].first.value.graphRevision
    requires Answers(server, s.requests[i].identity, s.requests[i].cursor, page)
    requires FreshKnown(s, asked) && |asked| == |s.requests|
    ensures Distinct(s.loaded.value.pages + [page]) <==> Distinct(s.loaded.value.pages) && asked[i]
  {
    HandledKeeps(cfg, s, i);
    var r, pages := s.requests[i], s.loaded.value.pages;
    var k: nat :| AskedAt(server, s, r, k);
    AnswerIsNext(server, s, r, page, k);
    var list := server.PagesOf(s.identity, page.graphRevision);
    var top: nat :| k <= top <= k + 1 && Climbs(pages, list, top);
    assert IsPageList(list, page.graphRevision);
    assert HasMore(list[k]);
    NextIsLoaded(pages, list, page.graphRevision, top, k);
    SameCursorSameHeight(list, page.graphRevision, k, top);
    DistinctAppend(pages, page);
  }

  /** What a step tells of the pages it leaves loaded, given how its requests were made. */
  ghost predicate StepTells(s: State, t: State, e: Event, asked: seq<bool>) {
    && |asked| == |s.requests| <= |t.requests|
    && FreshKnown(t, asked + seq(|t.requests| - |s.requests|, _ => UpToDate(s)))
    && (t.loaded.Some? ==>
          if s.loaded.None? then Distinct(t.loaded.value.pages)
          else if Appends(s, t, e) then
            (Distinct(t.loaded.value.pages) <==> Distinct(s.loaded.value.pages) && asked[e.request])
          else t.loaded == s.loaded)
  }

  /** A step that makes no request and loads no page. */
  lemma NothingNewTells(s: State, t: State, e: Event, asked: seq<bool>)
    requires FreshKnown(t, asked) && |asked| == |s.requests| == |t.requests|
    requires t.loaded == s.loaded || t.loaded == None
    ensures StepTells(s, t, e, asked)
  {
    assert asked + seq(|t.requests| - |s.requests|, _ => UpToDate(s)) == asked;
  }

  lemma FirstTells(s: State, t: State, e: Event, asked: seq<bool>)
    requires FreshKnown(t, asked) && |asked| == |s.requests| == |t.requests|
    requires s.loaded.None? && t.loaded.Some? && |t.loaded.value.pages| == 1
    ensures StepTells(s, t, e, asked)
  {
    assert asked + seq(|t.requests| - |s.requests|, _ => UpToDate(s)) == asked;
  }

  lemma AppendTells(s: State, t: State, i: nat, page: Page, asked: seq<bool>)
    requires FreshKnown(t, asked) && |asked| == |s.requests| == |t.requests| && i < |s.requests|
    requires s.loaded.Some? && t.loaded.Some? && t.loaded.value.pages == s.loaded.value.pages + [page]
    requires Distinct(s.loaded.value.pages + [page]) <==> Distinct(s.loaded.value.pages) && asked[i]
    ensures StepTells(s, t, PageArrives(i, page), asked)
  {
    assert asked + seq(|t.requests| - |s.requests|, _ => UpToDate(s)) == asked;
  }

  lemma AnswerTells(server: Server, cfg: Config, s: State, t: State, i: nat, page: Page, asked: seq<bool>)
    requires KeepsContract(server) && Inv(cfg, s) && Tracks(server, s) && EventOk(server, s, PageArrives(i, page))
    requires FreshKnown(s, asked) && |asked| == |s.requests|
    requires Live(s, i) && s.requests[i].stage == Pending && Answered(s, t, i) && Received(s, t, i, page)
    ensures StepTells(s, t, PageArrives(i, page), asked)
  {
    if t.loaded == s.loaded || t.loaded == None {
      NothingNewTells(s, t, PageArrives(i, page), asked);
    } else if s.loaded.None? {
      FirstTells(s, t, PageArrives(i, page), asked);
    } else {
      AppendRepeats(server, cfg, s, i, page, asked);
      AppendTells(s, t, i, page, asked);
    }
  }

  lemma LivePageTells(server: Server, cfg: Config, s: State, i: nat, page: Page, asked: seq<bool>)
    requires KeepsContract(server) && Inv(cfg, s) && Tracks(server, s) && EventOk(server, s, PageArrives(i, page))
    requires FreshKnown(s, asked) && |asked| == |s.requests|
    requires Live(s, i) && s.requests[i].stage == Pending
    ensures StepTells(s, Receive(cfg, Advance(s, i, Handled), s.requests[i], page), PageArrives(i, page), asked)
  {
    ReceiveAnswers(cfg, s, i, page);
    ReceivedPages(cfg, s, i, page);
    AnswerTells(server, cfg, s, Receive(cfg, Advance(s, i, Handled), s.requests[i], page), i, page, asked);
  }

  lemma PageTells(server: Server, cfg: Config, s: State, i: nat, page: Page, asked: seq<bool>)
    requires KeepsContract(server) && Inv(cfg, s) && Tracks(server, s) && EventOk(server, s, PageArrives(i, page))
    requires FreshKnown(s, asked) && |asked| == |s.requests|
    ensures StepTells(s, Step(cfg, s, PageArrives(i, page)), PageArrives(i, page), asked)
  {
    var e := PageArrives(i, page);
    var t := Step(cfg, s, e);
    if i < |s.requests| && s.requests[i].stage == Pending {
      if Live(s, i) {
        LivePageTells(server, cfg, s, i, page, asked);
      } else {
        AdvancedKnown(s, t, i, Handled, asked);
        NothingNewTells(s, t, e, asked);
      }
    } else {
      NothingNewTells(s, t, e, asked);
    }
  }

  lemma RerunTells(cfg: Config, s: State, identity: string, enabled: bool, asked: seq<bool>)
    requires FreshKnown(s, asked) && |asked| == |s.requests|
    ensures StepTells(s, Step(cfg, s, Rerun(identity, enabled)), Rerun(identity, enabled), asked)
  {
    var t := Step(cfg, s, Rerun(identity, enabled));
    StepKeepsSignals(cfg, s, Rerun(identity, enabled));
    if s.mounted {
      assert t.loaded == None;
    } else {
      NothingNewTells(s, t, Rerun(identity, enabled), asked);
    }
  }

  lemma RetryTells(server: Server, cfg: Config, s: State, asked: seq<bool>)
    requires KeepsContract(server) && Inv(cfg, s) && Tracks(server, s)
    requires FreshKnown(s, asked) && |asked| == |s.requests|
    ensures StepTells(s, DoRetry(s), Retry, asked)
  {
    if DoRetry(s) == DoLoadMore(s) {
      LoadMoreKnown(server, cfg, s, asked);
    } else {
      NothingNewTells(s, DoRetry(s), Retry, asked);
    }
  }

  lemma StepIsTold(server: Server, cfg: Config, s: State, e: Event, asked: seq<bool>)
    requires KeepsContract(server) && Inv(cfg, s) && Tracks(server, s) && EventOk(server, s, e)
    requires FreshKnown(s, asked) && |asked| == |s.requests|
    ensures StepTells(s, Step(cfg, s, e), e, asked)
  {
    match e
    case Rerun(identity, enabled) => RerunTells(cfg, s, identity, enabled, asked);
    case Commit => NothingNewTells(s, Step(cfg, s, e), e, asked);
    case LoadMore => LoadMoreKnown(server, cfg, s, asked);
    case PageArrives(i, page) => PageTells(server, cfg, s, i, page, asked);
    case FetchFails(i, error) =>
      FailureKnown(cfg, s, i, error, asked);
      NothingNewTells(s, Step(cfg, s, e), e, asked);
    case Settles(i) =>
      SettlingKnown(cfg, s, i, asked);
      NothingNewTells(s, Step(cfg, s, e), e, asked);
    case Retry => RetryTells(server, cfg, s, asked);
    case Unmount => NothingNewTells(s, Step(cfg, s, e), e, asked);
  }

  /**
   Over a run of true answers: the pages loaded are without repeats exactly when all appended answers were
   asked fresh.
   */
  lemma {:induction false} RunTells(server: Server, cfg: Config, identity: string, enabled: bool, events: seq<Event>)
    requires KeepsContract(server) && RunOk(server, cfg, Mounted(identity, enabled), events)
    ensures var s0 := Mounted(identity, enabled);
            var s := Run(cfg, s0, events);
            && FreshKnown(s, AskedFresh(cfg, s0, events))
            && (s.loaded.Some? ==> (Distinct(s.loaded.value.pages) <==> AllFresh(cfg, s0, events)))
  {
    var s0 := Mounted(identity, enabled);
    if events != [] {
      var before, e := events[..|events| - 1], events[|events| - 1];
      RunTells(server, cfg, identity, enabled, before);
      RunKeeps(cfg, identity, enabled, before);
      RunTracks(server, cfg, identity, enabled, before);
      StepIsTold(server, cfg, Run(cfg, s0, before), e, AskedFresh(cfg, s0, before));
    }
  }

  lemma ClimbIsPrefix(server: Server, identity: string, pages: seq<Page>)
    requires KeepsContract(server) && pages != []
    requires exists top: nat :: Climbs(pages, ListFor(server, identity, pages), top)
    ensures Distinct(pages) <==> pages <= ListFor(server, identity, pages)
  {
    var list := ListFor(server, identity, pages);
    var top: nat :| Climbs(pages, list, top);
    assert IsPageList(list, pages[0].graphRevision);
    DistinctClimb(pages, list, pages[0].graphRevision, top);
    if pages <= list {
      PrefixDistinct(list, pages[0].graphRevision, |pages|);
    }
  }

  /**
   The pages loaded are the first pages of one revision's list, each once, exactly when every `loadMore` or `retry`
   whose answer was appended to them was made from a render that showed all that was loaded.
   */
  lemma PrefixExactlyWhenFresh(server: Server, cfg: Config, identity: string, enabled: bool, events: seq<Event>)
    requires KeepsContract(server) && RunOk(server, cfg, Mounted(identity, enabled), events)
    requires Run(cfg, Mounted(identity, enabled), events).loaded.Some?
    ensures var s := Run(cfg, Mounted(identity, enabled), events);
            var pages := s.loaded.value.pages;
            && (AllFresh(cfg, Mounted(identity, enabled), events) <==> pages <= ListFor(server, s.identity, pages))
            && (AllFresh(cfg, Mounted(identity, enabled), events) <==> Distinct(pages))
  {
    RunTells(server, cfg, identity, enabled, events);
    RunTracks(server, cfg, identity, enabled, events);
    RunKeeps(cfg, identity, enabled, events);
    var s := Run(cfg, Mounted(identity, enabled), events);
    ClimbIsPrefix(server, s.identity, s.loaded.value.pages);
  }

  // ----- a page appended twice

  /** Idle, with `rendered` on screen and `pages` loaded under `identity`. */
  ghost predicate IdleWith(s: State, identity: string, rendered: seq<Page>, pages: seq<Page>) {
    && s.mounted && s.enabled && s.identity == identity && s.active == None
    && s.rendered == Snapshot(rendered, false, false, None)
    && s.loaded == Some(Loaded(identity, pages))
  }

  function Round(n: nat, page: Page): seq<Event> { [LoadMore, PageArrives(n, page), Settles(n)] }

  function After3(cfg: Config, s: State, e: seq<Event>): State
    requires |e| == 3
  {
    Step(cfg, Step(cfg, Step(cfg, s, e[0]), e[1]), e[2])
  }

  lemma RunOne(cfg: Config, s: State, before: seq<Event>, e: Event)
    ensures Run(cfg, s, before + [e]) == Step(cfg, Run(cfg, s, before), e)
  {
    assert (before + [e])[..|before|] == before;
  }

  lemma RunThree(cfg: Config, s: State, before: seq<Event>, e: seq<Event>)
    requires |e| == 3
    ensures Run(cfg, s, before + e) == After3(cfg, Run(cfg, s, before), e)
  {
    RunOne(cfg, s, before, e[0]);
    RunOne(cfg, s, before + [e[0]], e[1]);
    RunOne(cfg, s, before + [e[0]] + [e[1]], e[2]);
    assert before + [e[0]] + [e[1]] + [e[2]] == before + e;
  }

  /** One `loadMore` between two renders appends the page after the rendered ones. */
  lemma RoundAppends(cfg: Config, s: State, identity: string, rendered: seq<Page>, pages: seq<Page>, page: Page)
    requires IdleWith(s, identity, rendered, pages) && rendered != [] && HasMore(rendered[|rendered| - 1])
    requires page.graphRevision == rendered[0].graphRevision
    requires forall id, p, f :: cfg.Validate(id, p, f) == None
    ensures var t := After3(cfg, s, Round(|s.requests|, page));
            IdleWith(t, identity, rendered, pages + [page]) && |t.requests| == |s.requests| + 1
  {
    var n := |s.requests|;
    var t := Step(cfg, s, LoadMore);
    assert Live(t, n) && t.requests[n].stage == Pending && t.requests[n].first == Some(rendered[0]);
    var u := Step(cfg, t, PageArrives(n, page));
    assert u.loaded == Some(Loaded(identity, pages + [page])) && Live(u, n);
  }

  lemma StartIdles(cfg: Config, identity: string, first: Page)
    requires HasMore(first) && forall id, page, f :: cfg.Validate(id, page, f) == None
    ensures var s := After3(cfg, Mounted(identity, true), [PageArrives(0, first), Settles(0), Commit]);
            IdleWith(s, identity, [first], [first]) && |s.requests| == 1
  {
  }

  lemma TwoRounds(cfg: Config, s: State, identity: string, first: Page, second: Page)
    requires IdleWith(s, identity, [first], [first]) && |s.requests| == 1 && HasMore(first)
    requires first.graphRevision == second.graphRevision && forall id, page, f :: cfg.Validate(id, page, f) == None
    ensures After3(cfg, After3(cfg, s, Round(1, second)), Round(2, second)).loaded
         == Some(Loaded(identity, [first, second, second]))
  {
    RoundAppends(cfg, s, identity, [first], [first], second);
    RoundAppends(cfg, After3(cfg, s, Round(1, second)), identity, [first], [first] + [second], second);
    assert [first] + [second] + [second] == [first, second, second];
  }

  /** A page can indeed arrive twice: `loadMore` called again before the next render asks for the same page. */
  lemma PageAppendedTwice(cfg: Config, identity: string, first: Page, second: Page)
    requires HasMore(first) && first.graphRevision == second.graphRevision
    requires forall id, page, f :: cfg.Validate(id, page, f) == None
    ensures var start := [PageArrives(0, first), Settles(0), Commit];
            Run(cfg, Mounted(identity, true), start + Round(1, second) + Round(2, second)).loaded
            == Some(Loaded(identity, [first, second, second]))
  {
    var s0 := Mounted(identity, true);
    var start := [PageArrives(0, first), Settles(0), Commit];
    var s1 := After3(cfg, s0, start);
    assert [] + start == start;
    RunThree(cfg, s0, [], start);
    StartIdles(cfg, identity, first);
    TwoRounds(cfg, s1, identity, first, second);
    RunThree(cfg, s0, start, Round(1, second));
    RunThree(cfg, s0, start + Round(1, second), Round(2, second));
  }
}
