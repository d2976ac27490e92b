/**
 The state machine of the paginated reads: requests in flight, aborts, the request counter, restarts and
 appends. `Step` is the machine on values, one step for each thing that can happen to the hook; the class
 holds the hook's refs and states and changes them in place.
 */
module Pages {
  import opened Options

  /** A node or an edge of a page. */
  datatype Record = Record(id: int, data: string)

  /** What a page says it is about. */
  datatype Subject = Scope(kind: string, key: string) | Anchor(nodeId: int)

  datatype Totals = Totals(nodes: nat, internalEdges: nat, relations: nat)

  datatype Page = Page(
    graphRevision: string,
    nextCursor: Option<string>,
    subject: Subject,
    totals: Totals,
    nodes: seq<Record>,
    edges: seq<Record>)

  /** There is a cursor to continue with; the empty string counts as none. */
  predicate HasMore(p: Page) { p.nextCursor.Some? && p.nextCursor.value != "" }
}

module RevisionPages {
  import opened Options
  import opened Pages

  datatype Phase = Initial | More

  datatype Failure = Failure(identity: string, message: string, phase: Phase, status: Option<int>)

  datatype Loaded = Loaded(identity: string, pages: seq<Page>)

  /** Where a request stands: waiting for the server, answered but not yet settled, done. */
  datatype Stage = Pending | Handled | Settled

  /** A request with what its callbacks captured: its number, its abort signal, and the first page for `More`. */
  datatype Request = Request(
    revision: nat,
    phase: Phase,
    identity: string,
    cursor: Option<string>,
    first: Option<Page>,
    aborted: bool,
    stage: Stage)

  /** What the last render saw; `loadMore` and `retry` read this, not the latest state. */
  datatype Snapshot = Snapshot(pages: seq<Page>, loading: bool, loadingMore: bool, failure: Option<Failure>)

  datatype State = State(
    mounted: bool,
    identity: string,
    enabled: bool,
    loaded: Option<Loaded>,
    failure: Option<Failure>,
    loading: bool,
    loadingMore: bool,
    retryRevision: nat,
    effectRetry: nat,
    active: Option<nat>,
    requestRevision: nat,
    requests: seq<Request>,
    rendered: Snapshot)

  /** How a fetch can fail: the 409 that asks for a restart, an API error, or anything else. */
  datatype FetchError = RevisionMismatch | ApiError(message: string, status: int) | OtherError

  datatype Event =
    | Rerun(identity: string, enabled: bool)
    | Commit
    | LoadMore
    | PageArrives(request: nat, page: Page)
    | FetchFails(request: nat, error: FetchError)
    | Settles(request: nat)
    | Retry
    | Unmount

  /** The parameters of the hook: validation of a page for an identity, and the two default messages. */
  datatype Config = Config(
    validate: (string, Page, Option<Page>) -> Option<string>,
    initialError: string,
    moreError: string)
  {
    function Validate(identity: string, page: Page, first: Option<Page>): Option<string> {
      validate(identity, page, first)
    }
  }

  // ----- the steps

  function PagesFor(loaded: Option<Loaded>, identity: string): seq<Page> {
    if loaded.Some? && loaded.value.identity == identity then loaded.value.pages else []
  }

  function FailureFor(failure: Option<Failure>, identity: string): Option<Failure> {
    if failure.Some? && failure.value.identity == identity then failure else None
  }

  function Render(s: State): State {
    s.(rendered := Snapshot(PagesFor(s.loaded, s.identity), s.loading, s.loadingMore,
                            FailureFor(s.failure, s.identity)))
  }

  function Abort(s: State): State {
    match s.active
    case None => s
    case Some(i) =>
      if i < |s.requests| then s.(requests := s.requests[i := s.requests[i].(aborted := true)], active := None)
      else s.(active := None)
  }

  /** The cleanup of the effect. */
  function Cleanup(s: State): State {
    var t := Abort(s);
    t.(requestRevision := t.requestRevision + 1)
  }

  function Start(s: State, phase: Phase, cursor: Option<string>, first: Option<Page>): State {
    var revision := s.requestRevision + 1;
    s.(requestRevision := revision,
    requests := s.requests + [Request(revision, phase, s.identity, cursor, first, false, Pending)],
    active := Some(|s.requests|))
  }

  /** The body of the effect for the given props: everything is cleared, and the first page is asked for. */
  function Body(s: State, identity: string, enabled: bool): State {
    var cleared := Abort(s).(identity := identity, enabled := enabled, loaded := None, failure := None,
                   loading := enabled, loadingMore := false, effectRetry := s.retryRevision);
    if enabled then Start(cleared, Initial, None, None)
    else cleared.(requestRevision := cleared.requestRevision + 1)
  }

  function Mounted(identity: string, enabled: bool): State {
    var blank := State(true, identity, enabled, None, None, false, false, 0, 0, None, 0, [],
                       Snapshot([], false, false, None));
    Render(Body(blank, identity, enabled))
  }

  /** The request has not been superseded: not aborted, and still the latest number. */
  predicate Live(s: State, i: nat) {
    i < |s.requests| && !s.requests[i].aborted && s.requests[i].revision == s.requestRevision
  }

  function Advance(s: State, i: nat, stage: Stage): State
    requires i < |s.requests|
  {
    s.(requests := s.requests[i := s.requests[i].(stage := stage)])
  }

  function Fail(s: State, r: Request, message: string, status: Option<int>): State {
    s.(failure := Some(Failure(r.identity, message, r.phase, status)))
  }

  function Append(loaded: Option<Loaded>, identity: string, page: Page): Option<Loaded> {
    if loaded.Some? && loaded.value.identity == identity then Some(Loaded(identity, loaded.value.pages + [page]))
    else loaded
  }

  /** A page for a request that is still live. */
  function Receive(cfg: Config, s: State, r: Request, page: Page): State {
    match r.phase
    case Initial =>
      var error := cfg.Validate(r.identity, page, None);
      if error.Some? then Fail(s, r, error.value, None)
      else s.(loaded := Some(Loaded(r.identity, [page])))
    case More =>
      if r.first.None? || page.graphRevision != r.first.value.graphRevision then
        s.(loaded := None, retryRevision := s.retryRevision + 1)
      else
        var error := cfg.Validate(r.identity, page, r.first);
        if error.Some? then Fail(s, r, error.value, None)
        else s.(loaded := Append(s.loaded, r.identity, page))
  }

  /** A failure of a request that is still live. */
  function Reject(cfg: Config, s: State, r: Request, error: FetchError): State {
    match error
    case RevisionMismatch =>
      if r.phase == Initial then s.(retryRevision := s.retryRevision + 1)
      else s.(loaded := None, failure := None, retryRevision := s.retryRevision + 1)
    case ApiError(message, status) => Fail(s, r, message, Some(status))
    case OtherError => Fail(s, r, if r.phase == Initial then cfg.initialError else cfg.moreError, None)
  }

  /** The last `finally` of a live request. */
  function Finish(s: State, r: Request): State {
    if r.phase == Initial then s.(active := None, loading := false) else s.(active := None, loadingMore := false)
  }

  /** Whether `loadMore` does anything: it reads the last render, and the ref as it is now. */
  predicate MayLoadMore(s: State) {
    && s.mounted && s.enabled && s.rendered.pages != []
    && HasMore(s.rendered.pages[|s.rendered.pages| - 1])
    && !s.rendered.loading && !s.rendered.loadingMore && s.active == None
  }

  function DoLoadMore(s: State): State {
    if !MayLoadMore(s) then s
    else
      var pages := s.rendered.pages;
      Start(s, More, pages[|pages| - 1].nextCursor, Some(pages[0])).(loadingMore := true, failure := None)
  }

  function DoRetry(s: State): State {
    var pages := s.rendered.pages;
    if !s.mounted then s
    else if s.rendered.failure.Some? && s.rendered.failure.value.phase == More
            && pages != [] && HasMore(pages[|pages| - 1]) then DoLoadMore(s)
    else s.(failure := None, retryRevision := s.retryRevision + 1)
  }

  function Step(cfg: Config, s: State, e: Event): State {
    match e
    case Rerun(identity, enabled) => if s.mounted then Render(Body(Cleanup(s), identity, enabled)) else s
    case Commit => if s.mounted then Render(s) else s
    case LoadMore => DoLoadMore(s)
    case PageArrives(i, page) =>
      if i < |s.requests| && s.requests[i].stage == Pending then
        var t := Advance(s, i, Handled);
        if Live(s, i) then Receive(cfg, t, s.requests[i], page) else t
      else s
    case FetchFails(i, error) =>
      if i < |s.requests| && s.requests[i].stage == Pending then
        var t := Advance(s, i, Handled);
        if Live(s, i) then Reject(cfg, t, s.requests[i], error) else t
      else s
    case Settles(i) =>
      if i < |s.requests| && s.requests[i].stage == Handled then
        var t := Advance(s, i, Settled);
        if Live(s, i) then Finish(t, s.requests[i]) else t
      else s
    case Retry => DoRetry(s)
    case Unmount => if s.mounted then Cleanup(s).(mounted := false) else s
  }

  /** The state after a run, the latest event last. */
  function Run(cfg: Config, s: State, events: seq<Event>): State {
    if events == [] then s else Step(cfg, Run(cfg, s, events[..|events| - 1]), events[|events| - 1])
  }

  // ----- what every step keeps

  /** The request is the current one and not yet settled. */
  predicate InFlight(s: State, i: nat) {
    Live(s, i) && s.requests[i].stage != Settled
  }

  /** A restart has been asked for and the effect has not run since. */
  predicate RestartOwed(s: State) { s.retryRevision != s.effectRetry }

  ghost predicate OneRevision(pages: seq<Page>) {
    pages != [] && forall i | 0 <= i < |pages| :: pages[i].graphRevision == pages[0].graphRevision
  }

  /** At most one request is live, and the ref names it. */
  ghost predicate RequestsOk(s: State) {
    && (forall i | 0 <= i < |s.requests| :: s.requests[i].revision <= s.requestRevision)
    && (forall i | 0 <= i < |s.requests| :: InFlight(s, i) <==> s.active == Some(i))
    && (s.active.Some? ==> s.active.value < |s.requests| && s.requests[s.active.value].identity == s.identity)
    && (forall i | 0 <= i < |s.requests| :: s.requests[i].phase == Initial || s.requests[i].first.Some?)
  }

  predicate ActiveIs(s: State, phase: Phase) {
    s.active.Some? && s.active.value < |s.requests| && s.requests[s.active.value].phase == phase
  }

  predicate AwaitsFirstPage(s: State) {
    ActiveIs(s, Initial) && s.requests[s.active.value].stage == Pending
  }

  /** The loading flags say which request is in flight. */
  ghost predicate FlagsOk(s: State) {
    s.mounted ==> (s.loading <==> ActiveIs(s, Initial)) && (s.loadingMore <==> ActiveIs(s, More))
  }

  ghost predicate Validated(cfg: Config, identity: string, pages: seq<Page>) {
    && (pages != [] ==> cfg.Validate(identity, pages[0], None) == None)
    && forall i | 1 <= i < |pages| :: cfg.Validate(identity, pages[i], Some(pages[0])) == None
  }

  /** What is loaded belongs to the current identity and to one revision, validated against the first page. */
  ghost predicate LoadedOk(cfg: Config, s: State) {
    && (s.loaded.Some? ==>
          && s.loaded.value.identity == s.identity && OneRevision(s.loaded.value.pages)
          && Validated(cfg, s.identity, s.loaded.value.pages))
    && (s.failure.Some? ==> s.failure.value.identity == s.identity)
  }

  /**
   The last render lags what is loaded only as a prefix of the same load, or as pages that have been cleared by
   a restart that is still owed. Either way it shows pages of one revision and of the current identity.
   */
  ghost predicate SnapshotOk(cfg: Config, s: State) {
    && (s.rendered.pages != [] ==> !AwaitsFirstPage(s))
    && (s.rendered.pages != [] ==> OneRevision(s.rendered.pages) && Validated(cfg, s.identity, s.rendered.pages))
    && (s.rendered.pages != [] && s.loaded.Some? ==> s.rendered.pages <= s.loaded.value.pages)
    && (s.rendered.pages != [] && s.loaded.None? && s.mounted ==> RestartOwed(s))
    && (AwaitsFirstPage(s) ==> s.loaded.None?)
    && (ActiveIs(s, More) && s.loaded.Some? && s.loaded.value.pages != [] ==>
          s.requests[s.active.value].first == Some(s.loaded.value.pages[0]))
    && s.effectRetry <= s.retryRevision
  }

  /** The hook is never idle with nothing to show. */
  ghost predicate NoDeadEnd(s: State) {
    s.mounted && s.enabled ==> s.loaded.Some? || s.failure.Some? || AwaitsFirstPage(s) || RestartOwed(s)
  }

  ghost predicate Inv(cfg: Config, s: State) {
    RequestsOk(s) && FlagsOk(s) && LoadedOk(cfg, s) && SnapshotOk(cfg, s) && NoDeadEnd(s)
  }

  lemma MountedInv(cfg: Config, identity: string, enabled: bool)
    ensures Inv(cfg, Mounted(identity, enabled))
  {
  }

  lemma RerunRequests(s: State, identity: string, enabled: bool)
    requires RequestsOk(s) && s.mounted
    ensures var t := Render(Body(Cleanup(s), identity, enabled));
            RequestsOk(t) && FlagsOk(t) && (enabled ==> AwaitsFirstPage(t)) && (t.active.None? || AwaitsFirstPage(t))
  {
  }

  lemma RerunClears(s: State, identity: string, enabled: bool)
    ensures var t := Render(Body(Cleanup(s), identity, enabled));
            && t.loaded == None && t.failure == None && t.rendered.pages == []
            && t.enabled == enabled && t.effectRetry == t.retryRevision
  {
  }

  lemma ClearedOk(cfg: Config, t: State)
    requires RequestsOk(t) && FlagsOk(t) && (t.enabled ==> AwaitsFirstPage(t)) && (t.active.None? || AwaitsFirstPage(t))
    requires t.loaded == None && t.failure == None && t.rendered.pages == [] && t.effectRetry == t.retryRevision
    ensures Inv(cfg, t)
  {
  }

  lemma RerunKeeps(cfg: Config, s: State, identity: string, enabled: bool)
    requires Inv(cfg, s) && s.mounted
    ensures Inv(cfg, Render(Body(Cleanup(s), identity, enabled)))
  {
    RerunRequests(s, identity, enabled);
    RerunClears(s, identity, enabled);
    ClearedOk(cfg, Render(Body(Cleanup(s), identity, enabled)));
  }

  lemma CommitKeeps(cfg: Config, s: State)
    requires Inv(cfg, s)
    ensures Inv(cfg, Render(s))
  {
  }

  lemma LoadMoreKeeps(cfg: Config, s: State)
    requires Inv(cfg, s)
    ensures Inv(cfg, DoLoadMore(s))
  {
  }

  lemma HandledKeeps(cfg: Config, s: State, i: nat)
    requires Inv(cfg, s) && i < |s.requests| && s.requests[i].stage == Pending
    ensures var t := Advance(s, i, Handled);
            && RequestsOk(t) && FlagsOk(t) && LoadedOk(cfg, t)
            && (forall phase :: ActiveIs(t, phase) <==> ActiveIs(s, phase))
            && (AwaitsFirstPage(t) <==> AwaitsFirstPage(s) && s.active != Some(i))
            && (t.active.Some? ==> t.requests[t.active.value].first == s.requests[s.active.value].first)
    ensures Live(s, i) ==> s.active == Some(i) && s.requests[i].identity == s.identity
  {
    var t := Advance(s, i, Handled);
    assert Live(s, i) ==> InFlight(s, i);
    forall j | 0 <= j < |t.requests| ensures InFlight(t, j) <==> t.active == Some(j) {
      assert InFlight(t, j) <==> InFlight(s, j);
    }
  }

  lemma UnlivePendingKeeps(cfg: Config, s: State, i: nat)
    requires Inv(cfg, s) && i < |s.requests| && s.requests[i].stage == Pending && !Live(s, i)
    ensures Inv(cfg, Advance(s, i, Handled))
  {
    HandledKeeps(cfg, s, i);
    assert !InFlight(s, i);
  }

  lemma AppendKeeps(cfg: Config, identity: string, pages: seq<Page>, page: Page)
    requires OneRevision(pages) && Validated(cfg, identity, pages)
    requires page.graphRevision == pages[0].graphRevision && cfg.Validate(identity, page, Some(pages[0])) == None
    ensures OneRevision(pages + [page]) && Validated(cfg, identity, pages + [page])
  {
  }

  /** What only concerns the requests does not depend on what is loaded. */
  lemma SameRequestsOk(t: State, u: State)
    requires RequestsOk(t) && FlagsOk(t)
    requires u == t.(loaded := u.loaded, failure := u.failure, retryRevision := u.retryRevision)
    ensures RequestsOk(u) && FlagsOk(u)
    ensures forall phase :: ActiveIs(u, phase) <==> ActiveIs(t, phase)
  {
    forall j | 0 <= j < |t.requests| ensures InFlight(u, j) <==> u.active == Some(j) {
      assert InFlight(u, j) <==> InFlight(t, j);
    }
  }

  lemma InitialPageKeeps(cfg: Config, s: State, i: nat, page: Page)
    requires Inv(cfg, s) && Live(s, i) && s.requests[i].stage == Pending && s.requests[i].phase == Initial
    ensures Inv(cfg, Receive(cfg, Advance(s, i, Handled), s.requests[i], page))
  {
    HandledKeeps(cfg, s, i);
    var t := Advance(s, i, Handled);
    var u := Receive(cfg, t, s.requests[i], page);
    SameRequestsOk(t, u);
    assert AwaitsFirstPage(s);
  }

  lemma PrefixTransitive<T>(a: seq<T>, b: seq<T>, c: seq<T>)
    requires a <= b && b <= c
    ensures a <= c
  {
  }

  /** A further page of the same revision is appended to what is loaded, if anything still is. */
  lemma AppendedInv(cfg: Config, s: State, t: State, r: Request, page: Page)
    requires Inv(cfg, s) && s.active.Some? && r == s.requests[s.active.value] && r.phase == More
    requires r.first.Some? && page.graphRevision == r.first.value.graphRevision
    requires cfg.Validate(r.identity, page, r.first) == None
    requires RequestsOk(t) && FlagsOk(t) && t.active == s.active && t.mounted == s.mounted && t.enabled == s.enabled
    requires t == s.(requests := t.requests) && |t.requests| == |s.requests|
    requires forall phase :: ActiveIs(t, phase) <==> ActiveIs(s, phase)
    requires t.requests[t.active.value].first == r.first && !AwaitsFirstPage(t)
    ensures Inv(cfg, t.(loaded := Append(s.loaded, r.identity, page)))
  {
    var u := t.(loaded := Append(s.loaded, r.identity, page));
    assert RequestsOk(u) by {
      assert forall i | 0 <= i < |t.requests| :: InFlight(u, i) <==> InFlight(t, i);
    }
    if s.loaded.Some? {
      var pages := s.loaded.value.pages;
      AppendKeeps(cfg, s.identity, pages, page);
      assert u.loaded == Some(Loaded(s.identity, pages + [page]));
      assert pages <= pages + [page];
      if s.rendered.pages != [] {
        PrefixTransitive(s.rendered.pages, pages, pages + [page]);
      }
    }
  }

  lemma FailKeeps(cfg: Config, s: State, t: State, r: Request, message: string)
    requires Inv(cfg, s) && RequestsOk(t) && FlagsOk(t) && t == s.(requests := t.requests) && !AwaitsFirstPage(t)
    requires forall phase :: ActiveIs(t, phase) <==> ActiveIs(s, phase)
    requires t.active.Some? ==> t.requests[t.active.value].first == s.requests[s.active.value].first
    requires r.identity == s.identity
    ensures Inv(cfg, Fail(t, r, message, None))
  {
    var u := Fail(t, r, message, None);
    assert forall i | 0 <= i < |t.requests| :: InFlight(u, i) <==> InFlight(t, i);
  }

  /** A page of another revision drops what is loaded and asks for a restart. */
  lemma RestartKeeps(cfg: Config, s: State, t: State)
    requires Inv(cfg, s) && RequestsOk(t) && FlagsOk(t) && t == s.(requests := t.requests) && !AwaitsFirstPage(t)
    ensures Inv(cfg, t.(loaded := None, retryRevision := t.retryRevision + 1))
  {
    var u := t.(loaded := None, retryRevision := t.retryRevision + 1);
    assert forall i | 0 <= i < |t.requests| :: InFlight(u, i) <==> InFlight(t, i);
  }

  lemma MoreReceived(cfg: Config, s: State, t: State, r: Request, page: Page)
    requires Inv(cfg, s) && s.active.Some? && r == s.requests[s.active.value] && r.phase == More && r.first.Some?
    requires RequestsOk(t) && FlagsOk(t) && t == s.(requests := t.requests) && |t.requests| == |s.requests|
    requires forall phase :: ActiveIs(t, phase) <==> ActiveIs(s, phase)
    requires t.requests[t.active.value].first == r.first && !AwaitsFirstPage(t)
    ensures Inv(cfg, Receive(cfg, t, r, page))
  {
    if page.graphRevision != r.first.value.graphRevision {
      RestartKeeps(cfg, s, t);
    } else if cfg.Validate(r.identity, page, r.first).None? {
      AppendedInv(cfg, s, t, r, page);
    } else {
      FailKeeps(cfg, s, t, r, cfg.Validate(r.identity, page, r.first).value);
    }
  }

  lemma MorePageKeeps(cfg: Config, s: State, i: nat, page: Page)
    requires Inv(cfg, s) && Live(s, i) && s.requests[i].stage == Pending && s.requests[i].phase == More
    ensures Inv(cfg, Receive(cfg, Advance(s, i, Handled), s.requests[i], page))
  {
    HandledKeeps(cfg, s, i);
    MoreReceived(cfg, s, Advance(s, i, Handled), s.requests[i], page);
  }

  lemma RejectKeeps(cfg: Config, s: State, i: nat, error: FetchError)
    requires Inv(cfg, s) && Live(s, i) && s.requests[i].stage == Pending
    ensures Inv(cfg, Reject(cfg, Advance(s, i, Handled), s.requests[i], error))
  {
    HandledKeeps(cfg, s, i);
    var t := Advance(s, i, Handled);
    SameRequestsOk(t, Reject(cfg, t, s.requests[i], error));
  }

  /** The settled request was the active one: nothing is in flight now. */
  lemma FinishedRequests(s: State, i: nat)
    requires RequestsOk(s) && FlagsOk(s) && Live(s, i) && s.requests[i].stage == Handled
    ensures var t := Finish(Advance(s, i, Settled), s.requests[i]); RequestsOk(t) && FlagsOk(t) && t.active == None
  {
    var t := Finish(Advance(s, i, Settled), s.requests[i]);
    assert InFlight(s, i);
    forall j | 0 <= j < |t.requests| ensures !InFlight(t, j) {
      assert j != i ==> !InFlight(s, j);
    }
  }

  lemma LateSettledRequests(s: State, i: nat)
    requires RequestsOk(s) && FlagsOk(s) && i < |s.requests| && !Live(s, i)
    ensures var t := Advance(s, i, Settled);
            RequestsOk(t) && FlagsOk(t) && (forall phase :: ActiveIs(t, phase) <==> ActiveIs(s, phase))
  {
    var t := Advance(s, i, Settled);
    forall j | 0 <= j < |t.requests| ensures InFlight(t, j) <==> t.active == Some(j) {
      assert InFlight(t, j) <==> InFlight(s, j);
    }
  }

  /** With the same pages loaded and shown, and the same first page awaited, only the requests can matter. */
  lemma SameShown(cfg: Config, s: State, t: State)
    requires LoadedOk(cfg, s) && SnapshotOk(cfg, s) && NoDeadEnd(s)
    requires t == s.(requests := t.requests, active := t.active, loading := t.loading, loadingMore := t.loadingMore)
    requires AwaitsFirstPage(t) <==> AwaitsFirstPage(s)
    requires ActiveIs(t, More) ==>
               ActiveIs(s, More) && t.requests[t.active.value].first == s.requests[s.active.value].first
    ensures LoadedOk(cfg, t) && SnapshotOk(cfg, t) && NoDeadEnd(t)
  {
  }

  lemma SettleKeeps(cfg: Config, s: State, i: nat)
    requires Inv(cfg, s) && i < |s.requests| && s.requests[i].stage == Handled
    ensures Inv(cfg, Step(cfg, s, Settles(i)))
  {
    if Live(s, i) {
      assert InFlight(s, i) && s.active == Some(i);
      FinishedRequests(s, i);
      SameShown(cfg, s, Finish(Advance(s, i, Settled), s.requests[i]));
    } else {
      assert !InFlight(s, i);
      LateSettledRequests(s, i);
      SameShown(cfg, s, Advance(s, i, Settled));
    }
  }

  lemma UnmountKeeps(cfg: Config, s: State)
    requires Inv(cfg, s)
    ensures Inv(cfg, Step(cfg, s, Unmount))
  {
  }

  lemma RetryKeeps(cfg: Config, s: State)
    requires Inv(cfg, s)
    ensures Inv(cfg, DoRetry(s))
  {
    LoadMoreKeeps(cfg, s);
  }

  lemma StepKeeps(cfg: Config, s: State, e: Event)
    requires Inv(cfg, s)
    ensures Inv(cfg, Step(cfg, s, e))
  {
    match e
    case Rerun(identity, enabled) => if s.mounted { RerunKeeps(cfg, s, identity, enabled); }
    case Commit => CommitKeeps(cfg, s);
    case LoadMore => LoadMoreKeeps(cfg, s);
    case PageArrives(i, page) =>
      if i < |s.requests| && s.requests[i].stage == Pending {
        if !Live(s, i) { UnlivePendingKeeps(cfg, s, i); }
        else if s.requests[i].phase == Initial { InitialPageKeeps(cfg, s, i, page); }
        else { MorePageKeeps(cfg, s, i, page); }
      }
    case FetchFails(i, error) =>
      if i < |s.requests| && s.requests[i].stage == Pending {
        if Live(s, i) { RejectKeeps(cfg, s, i, error); } else { UnlivePendingKeeps(cfg, s, i); }
      }
    case Settles(i) => if i < |s.requests| && s.requests[i].stage == Handled { SettleKeeps(cfg, s, i); }
    case Retry => RetryKeeps(cfg, s);
    case Unmount => UnmountKeeps(cfg, s);
  }

  /**
   Over every interleaving of identity changes, retries, aborts, late answers and restarts: at most one request
   is live, the loading flags tell which, all loaded pages share one revision and the current identity, and the
   hook is never left idle with nothing to show.
   */
  lemma {:induction false} RunKeeps(cfg: Config, identity: string, enabled: bool, events: seq<Event>)
    ensures Inv(cfg, Run(cfg, Mounted(identity, enabled), events))
  {
    if events == [] {
      MountedInv(cfg, identity, enabled);
    } else {
      RunKeeps(cfg, identity, enabled, events[..|events| - 1]);
      StepKeeps(cfg, Run(cfg, Mounted(identity, enabled), events[..|events| - 1]), events[|events| - 1]);
    }
  }

  // ----- superseded requests

  /** Aborted, or no longer the latest number. */
  predicate Superseded(s: State, i: nat) {
    i < |s.requests| && (s.requests[i].aborted || s.requests[i].revision < s.requestRevision)
  }

  /** Only how far the request itself has got differs. */
  predicate OnlyStageDiffers(s: State, t: State, i: nat) {
    && i < |s.requests| == |t.requests|
    && t == s.(requests := s.requests[i := s.requests[i].(stage := t.requests[i].stage)])
  }

  /** In every state of a run a request is either live or superseded. */
  lemma LiveOrSuperseded(cfg: Config, s: State, i: nat)
    requires Inv(cfg, s) && i < |s.requests|
    ensures Live(s, i) <==> !Superseded(s, i)
  {
  }

  /** The counter has gone on, so every request made before is superseded. */
  predicate CounterMoved(s: State, t: State) {
    && |s.requests| <= |t.requests| && s.requestRevision < t.requestRevision
    && forall i | 0 <= i < |s.requests| :: t.requests[i].revision == s.requests[i].revision
  }

  lemma CleanupMovesCounter(s: State)
    ensures CounterMoved(s, Cleanup(s))
  {
  }

  lemma BodyMovesCounter(s: State, identity: string, enabled: bool)
    ensures CounterMoved(s, Body(s, identity, enabled))
  {
  }

  lemma RerunMovesCounter(s: State, identity: string, enabled: bool)
    ensures CounterMoved(s, Render(Body(Cleanup(s), identity, enabled)))
  {
    CleanupMovesCounter(s);
    BodyMovesCounter(Cleanup(s), identity, enabled);
  }

  lemma LoadMoreMovesCounter(s: State)
    requires MayLoadMore(s)
    ensures CounterMoved(s, DoLoadMore(s))
  {
  }

  /** A rerun of the effect, unmounting, and a newer request each supersede every request made so far. */
  lemma Supersedes(cfg: Config, s: State, e: Event, i: nat)
    requires Inv(cfg, s) && i < |s.requests| && s.mounted
    requires e.Rerun? || e.Unmount? || (e.LoadMore? && MayLoadMore(s))
    ensures Superseded(Step(cfg, s, e), i)
  {
    assert s.requests[i].revision <= s.requestRevision;
    match e
    case Rerun(identity, enabled) => RerunMovesCounter(s, identity, enabled);
    case Unmount => CleanupMovesCounter(s);
    case LoadMore => LoadMoreMovesCounter(s);
    case _ =>
  }

  /** No request loses its abort signal or changes its number, and the counter never goes back. */
  predicate SignalsKept(s: State, t: State) {
    && |s.requests| <= |t.requests| && s.requestRevision <= t.requestRevision
    && forall i | 0 <= i < |s.requests| ::
         t.requests[i].revision == s.requests[i].revision && (s.requests[i].aborted ==> t.requests[i].aborted)
  }

  lemma SignalsKeptOn(s: State, t: State, u: State)
    requires SignalsKept(s, t) && SignalsKept(t, u)
    ensures SignalsKept(s, u)
  {
  }

  lemma AbortKeepsSignals(s: State)
    ensures SignalsKept(s, Abort(s)) && SignalsKept(s, Cleanup(s))
  {
  }

  lemma StartKeepsSignals(s: State, t: State, phase: Phase, cursor: Option<string>, first: Option<Page>)
    requires SignalsKept(s, t)
    ensures SignalsKept(s, Start(t, phase, cursor, first))
  {
  }

  lemma RerunKeepsSignals(s: State, identity: string, enabled: bool)
    ensures SignalsKept(s, Render(Body(Cleanup(s), identity, enabled)))
  {
    var t := Cleanup(s);
    AbortKeepsSignals(s);
    AbortKeepsSignals(t);
    SignalsKeptOn(s, t, Abort(t));
    var cleared := Abort(t).(identity := identity, enabled := enabled, loaded := None, failure := None,
    loading := enabled, loadingMore := false, effectRetry := t.retryRevision);
    StartKeepsSignals(s, cleared, Initial, None, None);
  }

  /** Handling, settling or loading leaves the signals alone. */
  lemma AnswerKeepsSignals(s: State, i: nat, stage: Stage, t: State)
    requires i < |s.requests| && t.requests == Advance(s, i, stage).requests && t.requestRevision == s.requestRevision
    ensures SignalsKept(s, t)
  {
  }

  lemma PageKeepsSignals(cfg: Config, s: State, i: nat, page: Page)
    ensures SignalsKept(s, Step(cfg, s, PageArrives(i, page)))
  {
    if i < |s.requests| && s.requests[i].stage == Pending {
      AnswerKeepsSignals(s, i, Handled, Step(cfg, s, PageArrives(i, page)));
    }
  }

  lemma FailureKeepsSignals(cfg: Config, s: State, i: nat, error: FetchError)
    ensures SignalsKept(s, Step(cfg, s, FetchFails(i, error)))
  {
    if i < |s.requests| && s.requests[i].stage == Pending {
      AnswerKeepsSignals(s, i, Handled, Step(cfg, s, FetchFails(i, error)));
    }
  }

  lemma SettlingKeepsSignals(cfg: Config, s: State, i: nat)
    ensures SignalsKept(s, Step(cfg, s, Settles(i)))
  {
    if i < |s.requests| && s.requests[i].stage == Handled {
      AnswerKeepsSignals(s, i, Settled, Step(cfg, s, Settles(i)));
    }
  }

  lemma LoadMoreKeepsSignals(s: State)
    ensures SignalsKept(s, DoLoadMore(s)) && SignalsKept(s, DoRetry(s))
  {
    if MayLoadMore(s) {
      var pages := s.rendered.pages;
      StartKeepsSignals(s, s, More, pages[|pages| - 1].nextCursor, Some(pages[0]));
    }
  }

  lemma StepKeepsSignals(cfg: Config, s: State, e: Event)
    ensures SignalsKept(s, Step(cfg, s, e))
  {
    match e
    case Rerun(identity, enabled) => RerunKeepsSignals(s, identity, enabled);
    case Commit =>
    case LoadMore => LoadMoreKeepsSignals(s);
    case PageArrives(i, page) => PageKeepsSignals(cfg, s, i, page);
    case FetchFails(i, error) => FailureKeepsSignals(cfg, s, i, error);
    case Settles(i) => SettlingKeepsSignals(cfg, s, i);
    case Retry => LoadMoreKeepsSignals(s);
    case Unmount => AbortKeepsSignals(s);
  }

  /** A superseded request stays superseded, whatever happens. */
  lemma {:induction false} StaysSuperseded(cfg: Config, s: State, events: seq<Event>, i: nat)
    requires Superseded(s, i)
    ensures Superseded(Run(cfg, s, events), i)
  {
    if events != [] {
      StaysSuperseded(cfg, s, events[..|events| - 1], i);
      StepKeepsSignals(cfg, Run(cfg, s, events[..|events| - 1]), events[|events| - 1]);
    }
  }

  lemma AdvanceOnlyStage(s: State, i: nat, stage: Stage)
    requires i < |s.requests|
    ensures OnlyStageDiffers(s, s, i) && OnlyStageDiffers(s, Advance(s, i, stage), i)
  {
  }

  lemma SupersededSilent(cfg: Config, s: State, i: nat, page: Page, error: FetchError)
    requires Superseded(s, i)
    ensures OnlyStageDiffers(s, Step(cfg, s, PageArrives(i, page)), i)
    ensures OnlyStageDiffers(s, Step(cfg, s, FetchFails(i, error)), i)
    ensures OnlyStageDiffers(s, Step(cfg, s, Settles(i)), i)
  {
    AdvanceOnlyStage(s, i, Handled);
    AdvanceOnlyStage(s, i, Settled);
    assert !Live(s, i);
  }

  /**
   Once a request has been superseded, then after any further events its answer, its failure and its settling
   change nothing but the request's own bookkeeping.
   */
  lemma LateAnswerIgnored(cfg: Config, s: State, events: seq<Event>, i: nat, page: Page, error: FetchError)
    requires Superseded(s, i)
    ensures var t := Run(cfg, s, events);
            && OnlyStageDiffers(t, Step(cfg, t, PageArrives(i, page)), i)
            && OnlyStageDiffers(t, Step(cfg, t, FetchFails(i, error)), i)
            && OnlyStageDiffers(t, Step(cfg, t, Settles(i)), i)
  {
    StaysSuperseded(cfg, s, events, i);
    SupersededSilent(cfg, Run(cfg, s, events), i, page, error);
  }

  // ----- the hook in place

  /** The hook's states and refs. `requests` holds what the callbacks of the fetches captured. */
  class PagesHook {
    const cfg: Config
    var mounted: bool
    var identity: string
    var enabled: bool
    var loaded: Option<Loaded>
    var failure: Option<Failure>
    var loading: bool
    var loadingMore: bool
    var retryRevision: nat
    var effectRetry: nat
    var activeRequest: Option<nat>
    var requestRevision: nat
    var requests: seq<Request>
    var rendered: Snapshot

    ghost function Now(): State
      reads this
    {
      State(mounted, identity, enabled, loaded, failure, loading, loadingMore, retryRevision, effectRetry,
            activeRequest, requestRevision, requests, rendered)
    }

    constructor (cfg: Config, identity: string, enabled: bool)
      ensures this.cfg == cfg && Now() == Mounted(identity, enabled)
    {
      this.cfg := cfg;
      mounted, this.identity, this.enabled := true, identity, enabled;
      loaded, failure, loading, loadingMore := None, None, false, false;
      retryRevision, effectRetry, activeRequest, requestRevision, requests := 0, 0, None, 0, [];
      rendered := Snapshot([], false, false, None);
      new;
      EffectBody(identity, enabled);
      RenderNow();
    }

    method RenderNow()
      modifies this`rendered
      ensures Now() == Render(old(Now()))
    {
      var pages := if loaded.Some? && loaded.value.identity == identity then loaded.value.pages else [];
      var currentFailure := if failure.Some? && failure.value.identity == identity then failure else None;
      rendered := Snapshot(pages, loading, loadingMore, currentFailure);
    }

    method AbortActive()
      modifies this`requests, this`activeRequest
      ensures Now() == Abort(old(Now()))
    {
      if activeRequest.Some? {
        var i := activeRequest.value;
        if i < |requests| {
          requests := requests[i := requests[i].(aborted := true)];
        }
      }
      activeRequest := None;
    }

    method Send(phase: Phase, cursor: Option<string>, first: Option<Page>)
      modifies this`requests, this`activeRequest, this`requestRevision
      ensures Now() == Start(old(Now()), phase, cursor, first)
    {
      requestRevision := requestRevision + 1;
      activeRequest := Some(|requests|);
      requests := requests + [Request(requestRevision, phase, identity, cursor, first, false, Pending)];
    }

    method Clear(identity: string, enabled: bool)
      modifies this`identity, this`enabled, this`effectRetry, this`loaded, this`failure, this`loading, this`loadingMore
      ensures Now() == old(Now()).(identity := identity, enabled := enabled, effectRetry := old(retryRevision),
                       loaded := None, failure := None, loading := false, loadingMore := false)
    {
      this.identity, this.enabled := identity, enabled;
      effectRetry := retryRevision;
      loaded, failure, loading, loadingMore := None, None, false, false;
    }

    method EffectBody(identity: string, enabled: bool)
      modifies this
      ensures Now() == Body(old(Now()), identity, enabled)
    {
      AbortActive();
      Clear(identity, enabled);
      if !enabled {
        requestRevision := requestRevision + 1;
        return;
      }
      loading := true;
      Send(Initial, None, None);
    }

    method EffectCleanup()
      modifies this`requests, this`activeRequest, this`requestRevision
      ensures Now() == Cleanup(old(Now()))
    {
      AbortActive();
      requestRevision := requestRevision + 1;
    }

    method RunEffect(identity: string, enabled: bool)
      modifies this
      ensures Now() == Step(cfg, old(Now()), Rerun(identity, enabled))
    {
      if mounted {
        EffectCleanup();
        EffectBody(identity, enabled);
        RenderNow();
      }
    }

    method CommitRender()
      modifies this`rendered
      ensures Now() == Step(cfg, old(Now()), Commit)
    {
      if mounted {
        RenderNow();
      }
    }

    method DoMore()
      modifies this
      ensures Now() == DoLoadMore(old(Now()))
    {
      var pages := rendered.pages;
      if !mounted || !enabled || |pages| == 0 || !HasMore(pages[|pages| - 1])
         || rendered.loading || rendered.loadingMore || activeRequest.Some? {
        return;
      }
      Send(More, pages[|pages| - 1].nextCursor, Some(pages[0]));
      loadingMore := true;
      failure := None;
    }

    method OnLoadMore()
      modifies this
      ensures Now() == Step(cfg, old(Now()), LoadMore)
    {
      DoMore();
    }

    method OnRetry()
      modifies this
      ensures Now() == Step(cfg, old(Now()), Retry)
    {
      if !mounted {
        return;
      }
      var pages := rendered.pages;
      if rendered.failure.Some? && rendered.failure.value.phase == More && |pages| > 0 && HasMore(pages[|pages| - 1]) {
        DoMore();
        return;
      }
      failure := None;
      retryRevision := retryRevision + 1;
    }

    /** The check every callback begins with. */
    method IsLive(i: nat) returns (live: bool)
      ensures live == Live(Now(), i)
    {
      live := i < |requests| && !requests[i].aborted && requests[i].revision == requestRevision;
    }

    method OnPage(i: nat, page: Page)
      modifies this
      ensures Now() == Step(cfg, old(Now()), PageArrives(i, page))
    {
      if i >= |requests| || requests[i].stage != Pending {
        return;
      }
      var r := requests[i];
      var live := IsLive(i);
      requests := requests[i := r.(stage := Handled)];
      if !live {
        return;
      }
      if r.phase == Initial {
        var validationError := cfg.Validate(r.identity, page, None);
        if validationError.Some? {
          failure := Some(Failure(r.identity, validationError.value, Initial, None));
          return;
        }
        loaded := Some(Loaded(r.identity, [page]));
      } else {
        if r.first.None? || page.graphRevision != r.first.value.graphRevision {
          loaded := None;
          retryRevision := retryRevision + 1;
          return;
        }
        var validationError := cfg.Validate(r.identity, page, r.first);
        if validationError.Some? {
          failure := Some(Failure(r.identity, validationError.value, More, None));
          return;
        }
        if loaded.Some? && loaded.value.identity == r.identity {
          loaded := Some(Loaded(r.identity, loaded.value.pages + [page]));
        }
      }
    }

    method OnFailure(i: nat, error: FetchError)
      modifies this
      ensures Now() == Step(cfg, old(Now()), FetchFails(i, error))
    {
      if i >= |requests| || requests[i].stage != Pending {
        return;
      }
      var r := requests[i];
      var live := IsLive(i);
      requests := requests[i := r.(stage := Handled)];
      if !live {
        return;
      }
      match error
      case RevisionMismatch =>
        if r.phase == More {
          loaded := None;
          failure := None;
        }
        retryRevision := retryRevision + 1;
      case ApiError(message, status) =>
        failure := Some(Failure(r.identity, message, r.phase, Some(status)));
      case OtherError =>
        var message := if r.phase == Initial then cfg.initialError else cfg.moreError;
        failure := Some(Failure(r.identity, message, r.phase, None));
    }

    method OnSettled(i: nat)
      modifies this
      ensures Now() == Step(cfg, old(Now()), Settles(i))
    {
      if i >= |requests| || requests[i].stage != Handled {
        return;
      }
      var r := requests[i];
      var live := IsLive(i);
      requests := requests[i := r.(stage := Settled)];
      if !live {
        return;
      }
      activeRequest := None;
      if r.phase == Initial {
        loading := false;
      } else {
        loadingMore := false;
      }
    }

    method OnUnmount()
      modifies this
      ensures Now() == Step(cfg, old(Now()), Unmount)
    {
      if mounted {
        EffectCleanup();
        mounted := false;
      }
    }
  }
}
