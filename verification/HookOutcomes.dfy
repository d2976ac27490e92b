/**
 What the paging hook makes of every answer: a restart stays owed until the effect runs again, a failure is shown as it
 came, pages are appended in order, and whatever has happened a page or a failure can be shown in a few steps.
 */
module HookOutcomes {
  import opened Options
  import opened Pages
  import opened RevisionPages

  // ----- restarts

  /** A live request that waits for an answer. */
  predicate Waits(s: State, i: nat) { Live(s, i) && s.requests[i].stage == Pending }

  /** A live request learns that its revision is gone: by the 409, or by a further page of another revision. */
  predicate LearnsOfRestart(s: State, e: Event) {
    match e
    case FetchFails(i, error) => Waits(s, i) && error == RevisionMismatch
    case PageArrives(i, page) =>
      && Waits(s, i) && s.requests[i].phase == More
      && (s.requests[i].first.None? || page.graphRevision != s.requests[i].first.value.graphRevision)
    case _ => false
  }

  /** Nothing is loaded and nothing can be, until the effect has run again. */
  predicate Owing(s: State) {
    s.loaded == None && s.effectRetry < s.retryRevision && !AwaitsFirstPage(s)
  }

  /** While a request waits for its answer no failure is set. */
  ghost predicate PendingClean(s: State) {
    forall i | 0 <= i < |s.requests| && Waits(s, i) :: s.failure == None
  }

  lemma WaitingIsActive(cfg: Config, s: State, i: nat)
    requires Inv(cfg, s) && Waits(s, i)
    ensures s.active == Some(i) && s.requests[i].identity == s.identity
    ensures s.requests[i].phase == Initial ==> AwaitsFirstPage(s) && s.loaded == None
    ensures s.requests[i].phase == More ==> ActiveIs(s, More) && !AwaitsFirstPage(s)
  {
    assert InFlight(s, i);
  }

  /** Once handled, a request waits no more, and no other live one was waiting. */
  lemma HandledWaitsNot(cfg: Config, s: State, i: nat)
    requires Inv(cfg, s) && Waits(s, i)
    ensures forall j | 0 <= j < |s.requests| :: !Waits(Advance(s, i, Handled), j)
    ensures !AwaitsFirstPage(Advance(s, i, Handled))
  {
    var t := Advance(s, i, Handled);
    WaitingIsActive(cfg, s, i);
    forall j | 0 <= j < |s.requests| ensures !Waits(t, j) {
      if j != i && Waits(s, j) {
        WaitingIsActive(cfg, s, j);
      }
    }
  }

  lemma MismatchOwes(cfg: Config, s: State, i: nat)
    requires Inv(cfg, s) && PendingClean(s) && LearnsOfRestart(s, FetchFails(i, RevisionMismatch))
    ensures var t := Step(cfg, s, FetchFails(i, RevisionMismatch)); Owing(t) && t.failure == None
  {
    WaitingIsActive(cfg, s, i);
    HandledWaitsNot(cfg, s, i);
  }

  lemma OtherRevisionOwes(cfg: Config, s: State, i: nat, page: Page)
    requires Inv(cfg, s) && PendingClean(s) && LearnsOfRestart(s, PageArrives(i, page))
    ensures var t := Step(cfg, s, PageArrives(i, page)); Owing(t) && t.failure == None
  {
    WaitingIsActive(cfg, s, i);
    HandledWaitsNot(cfg, s, i);
  }

  // ----- what every event keeps

  lemma SameRequestsClean(s: State, t: State)
    requires PendingClean(s)
    requires |t.requests| == |s.requests| && (t.failure == s.failure || t.failure == None)
    requires forall i | 0 <= i < |s.requests| :: Waits(t, i) ==> Waits(s, i)
    ensures PendingClean(t)
  {
  }

  lemma RerunClean(s: State, identity: string, enabled: bool)
    ensures PendingClean(Render(Body(Cleanup(s), identity, enabled)))
  {
    RerunClears(s, identity, enabled);
  }

  lemma LoadMoreClean(s: State)
    requires PendingClean(s)
    ensures PendingClean(DoLoadMore(s))
  {
  }

  lemma AnswerClean(cfg: Config, s: State, i: nat, t: State, stage: Stage)
    requires Inv(cfg, s) && PendingClean(s) && i < |s.requests| && s.requests[i].stage != Settled && stage != Pending
    requires t.requests == Advance(s, i, stage).requests && t.requestRevision == s.requestRevision
    requires t.failure == s.failure || Waits(s, i)
    ensures PendingClean(t)
  {
    if Waits(s, i) {
      forall j | 0 <= j < |t.requests| ensures !Waits(t, j) {
        WaitingIsActive(cfg, s, i);
        if j != i && Waits(s, j) {
          WaitingIsActive(cfg, s, j);
        }
      }
    } else {
      assert forall j | 0 <= j < |t.requests| :: Waits(t, j) ==> Waits(s, j);
    }
  }

  lemma CleanupClean(s: State)
    requires forall i | 0 <= i < |s.requests| :: s.requests[i].revision <= s.requestRevision
    ensures PendingClean(Cleanup(s).(mounted := false))
  {
    CleanupMovesCounter(s);
  }

  lemma ReceiveShape(cfg: Config, s: State, r: Request, page: Page)
    ensures var t := Receive(cfg, s, r, page);
            && t.requests == s.requests && t.requestRevision == s.requestRevision
            && t.active == s.active && t.effectRetry == s.effectRetry && t.retryRevision >= s.retryRevision
            && (r.phase == More && s.loaded == None ==> t.loaded == None)
  {
  }

  /** What the answer of a request leaves alone in any case. */
  lemma PageShape(cfg: Config, s: State, i: nat, page: Page)
    requires i < |s.requests| && s.requests[i].stage == Pending
    ensures var t := Step(cfg, s, PageArrives(i, page));
            && t.requests == Advance(s, i, Handled).requests && t.requestRevision == s.requestRevision
            && t.active == s.active && t.effectRetry == s.effectRetry && t.retryRevision >= s.retryRevision
            && (!Live(s, i) ==> t.failure == s.failure && t.loaded == s.loaded)
            && (s.requests[i].phase == More && s.loaded == None ==> t.loaded == None)
  {
    ReceiveShape(cfg, Advance(s, i, Handled), s.requests[i], page);
  }

  lemma PageClean(cfg: Config, s: State, i: nat, page: Page)
    requires Inv(cfg, s) && PendingClean(s)
    ensures PendingClean(Step(cfg, s, PageArrives(i, page)))
  {
    if i < |s.requests| && s.requests[i].stage == Pending {
      PageShape(cfg, s, i, page);
      AnswerClean(cfg, s, i, Step(cfg, s, PageArrives(i, page)), Handled);
    }
  }

  lemma FailureClean(cfg: Config, s: State, i: nat, error: FetchError)
    requires Inv(cfg, s) && PendingClean(s)
    ensures PendingClean(Step(cfg, s, FetchFails(i, error)))
  {
    if i < |s.requests| && s.requests[i].stage == Pending {
      AnswerClean(cfg, s, i, Step(cfg, s, FetchFails(i, error)), Handled);
    }
  }

  lemma SettlingClean(cfg: Config, s: State, i: nat)
    requires Inv(cfg, s) && PendingClean(s)
    ensures PendingClean(Step(cfg, s, Settles(i)))
  {
    if i < |s.requests| && s.requests[i].stage == Handled {
      AnswerClean(cfg, s, i, Step(cfg, s, Settles(i)), Settled);
    }
  }

  lemma RetryClean(s: State)
    requires PendingClean(s)
    ensures PendingClean(DoRetry(s))
  {
    LoadMoreClean(s);
    SameRequestsClean(s, s.(failure := None, retryRevision := s.retryRevision + 1));
  }

  lemma StepClean(cfg: Config, s: State, e: Event)
    requires Inv(cfg, s) && PendingClean(s)
    ensures PendingClean(Step(cfg, s, e))
  {
    match e
    case Rerun(identity, enabled) => RerunClean(s, identity, enabled);
    case Commit => SameRequestsClean(s, Render(s));
    case LoadMore => LoadMoreClean(s);
    case PageArrives(i, page) => PageClean(cfg, s, i, page);
    case FetchFails(i, error) => FailureClean(cfg, s, i, error);
    case Settles(i) => SettlingClean(cfg, s, i);
    case Retry => RetryClean(s);
    case Unmount => CleanupClean(s);
  }

  lemma MountedClean(identity: string, enabled: bool)
    ensures PendingClean(Mounted(identity, enabled))
  {
  }

  lemma {:induction false} RunClean(cfg: Config, identity: string, enabled: bool, events: seq<Event>)
    ensures PendingClean(Run(cfg, Mounted(identity, enabled), events))
  {
    if events == [] {
      MountedClean(identity, enabled);
    } else {
      var before := events[..|events| - 1];
      RunClean(cfg, identity, enabled, before);
      RunKeeps(cfg, identity, enabled, before);
      StepClean(cfg, Run(cfg, Mounted(identity, enabled), before), events[|events| - 1]);
    }
  }

  /** Handling or settling brings back no first page that was not awaited. */
  lemma AdvanceAwaitsNot(s: State, i: nat, stage: Stage)
    requires i < |s.requests| && stage != Pending && !AwaitsFirstPage(s)
    ensures !AwaitsFirstPage(Advance(s, i, stage))
  {
  }

  lemma StaysOwing(s: State, t: State, i: nat, stage: Stage)
    requires Owing(s) && i < |s.requests| && stage != Pending
    requires t.requests == Advance(s, i, stage).requests && (t.active == s.active || t.active == None)
    requires t.loaded == None && t.effectRetry == s.effectRetry && t.retryRevision >= s.retryRevision
    ensures Owing(t)
  {
    AdvanceAwaitsNot(s, i, stage);
  }

  lemma PageKeepsOwing(cfg: Config, s: State, i: nat, page: Page)
    requires Inv(cfg, s) && Owing(s)
    ensures Owing(Step(cfg, s, PageArrives(i, page)))
  {
    if i < |s.requests| && s.requests[i].stage == Pending {
      PageShape(cfg, s, i, page);
      if Live(s, i) {
        WaitingIsActive(cfg, s, i);
        assert s.requests[i].phase == More;
      }
      StaysOwing(s, Step(cfg, s, PageArrives(i, page)), i, Handled);
    }
  }

  lemma FailureKeepsOwing(cfg: Config, s: State, i: nat, error: FetchError)
    requires Owing(s)
    ensures Owing(Step(cfg, s, FetchFails(i, error)))
  {
    if i < |s.requests| && s.requests[i].stage == Pending {
      StaysOwing(s, Step(cfg, s, FetchFails(i, error)), i, Handled);
    }
  }

  lemma SettlingKeepsOwing(cfg: Config, s: State, i: nat)
    requires Owing(s)
    ensures Owing(Step(cfg, s, Settles(i)))
  {
    if i < |s.requests| && s.requests[i].stage == Handled {
      StaysOwing(s, Step(cfg, s, Settles(i)), i, Settled);
    }
  }

  lemma LoadMoreKeepsOwing(s: State)
    requires Owing(s)
    ensures Owing(DoLoadMore(s)) && Owing(DoRetry(s))
  {
  }

  lemma StepKeepsOwing(cfg: Config, s: State, e: Event)
    requires Inv(cfg, s) && Owing(s) && !e.Rerun?
    ensures Owing(Step(cfg, s, e))
  {
    match e
    case Commit =>
    case LoadMore => LoadMoreKeepsOwing(s);
    case PageArrives(i, page) => PageKeepsOwing(cfg, s, i, page);
    case FetchFails(i, error) => FailureKeepsOwing(cfg, s, i, error);
    case Settles(i) => SettlingKeepsOwing(cfg, s, i);
    case Retry => LoadMoreKeepsOwing(s);
    case Unmount =>
  }

  lemma {:induction false} OwingLasts(cfg: Config, s: State, events: seq<Event>)
    requires Inv(cfg, s) && Owing(s) && forall e | e in events :: !e.Rerun?
    ensures Inv(cfg, Run(cfg, s, events)) && Owing(Run(cfg, s, events))
  {
    if events != [] {
      var before, e := events[..|events| - 1], events[|events| - 1];
      OwingLasts(cfg, s, before);
      assert e in events;
      StepKeepsOwing(cfg, Run(cfg, s, before), e);
      StepKeeps(cfg, Run(cfg, s, before), e);
    }
  }

  /**
   A live request that learns of another revision drops what is loaded, without a failure, and from then on nothing is
   loaded and a restart is owed through every run in which the effect does not run again.
   */
  lemma RestartStaysOwed(cfg: Config, identity: string, enabled: bool, events: seq<Event>, e: Event, more: seq<Event>)
    requires LearnsOfRestart(Run(cfg, Mounted(identity, enabled), events), e)
    requires forall f | f in more :: !f.Rerun?
    ensures var t := Step(cfg, Run(cfg, Mounted(identity, enabled), events), e);
            var u := Run(cfg, t, more);
            && t.loaded == None && t.failure == None && RestartOwed(t)
            && u.loaded == None && RestartOwed(u)
  {
    var s := Run(cfg, Mounted(identity, enabled), events);
    RunKeeps(cfg, identity, enabled, events);
    RunClean(cfg, identity, enabled, events);
    match e {
      case FetchFails(i, error) => MismatchOwes(cfg, s, i);
      case PageArrives(i, page) => OtherRevisionOwes(cfg, s, i, page);
    }
    StepKeeps(cfg, s, e);
    OwingLasts(cfg, Step(cfg, s, e), more);
  }

  predicate AsksForNothing(t: State) {
    t.active == None && t.loaded == None && t.failure == None && !t.rendered.loading && !RestartOwed(t)
  }

  /** The first page of the identity is asked for, and nothing else is shown or owed. */
  predicate AsksForFirstPage(t: State, identity: string) {
    && AwaitsFirstPage(t) && t.requests[t.active.value].identity == identity == t.identity
    && t.requests[t.active.value].cursor == None && Live(t, t.active.value)
    && t.loaded == None && t.failure == None && t.rendered.pages == [] && t.rendered.loading
    && !RestartOwed(t)
  }

  lemma RerunAsked(s: State, next: string, on: bool)
    ensures var t := Render(Body(Cleanup(s), next, on));
            && (on ==> AsksForFirstPage(t, next))
            && (!on ==> AsksForNothing(t))
            && t.identity == next && t.enabled == on
  {
  }

  /** When the effect of an enabled hook runs again, it asks for the first page; a disabled one asks for nothing. */
  lemma RerunAsks(cfg: Config, identity: string, enabled: bool, events: seq<Event>, next: string, on: bool)
    requires Run(cfg, Mounted(identity, enabled), events).mounted
    ensures var t := Step(cfg, Run(cfg, Mounted(identity, enabled), events), Rerun(next, on));
            && (on ==> AsksForFirstPage(t, next))
            && (!on ==> AsksForNothing(t))
            && t.identity == next && t.enabled == on
  {
    RunKeeps(cfg, identity, enabled, events);
    RerunAsked(Run(cfg, Mounted(identity, enabled), events), next, on);
  }

  // ----- answers

  /** What the failure of a request is to say. */
  function FailureOf(cfg: Config, identity: string, phase: Phase, error: FetchError): Failure
    requires error != RevisionMismatch
  {
    match error
    case ApiError(message, status) => Failure(identity, message, phase, Some(status))
    case OtherError => Failure(identity, if phase == Initial then cfg.initialError else cfg.moreError, phase, None)
  }

  /** Only the failure has changed, and how far the request has got. */
  predicate FailsWith(s: State, t: State, i: nat, failure: Failure)
    requires i < |s.requests|
  {
    t == Advance(s, i, Handled).(failure := Some(failure))
  }

  /** Once the request has settled, the next render shows these pages and this failure, and that nothing is loading. */
  predicate Shows(cfg: Config, t: State, i: nat, loaded: Option<Loaded>, failure: Option<Failure>) {
    var u := Step(cfg, Step(cfg, t, Settles(i)), Commit);
    && u.active == None
    && u.rendered == Snapshot(if loaded.Some? then loaded.value.pages else [], false, false, failure)
  }

  lemma SettledShows(cfg: Config, t: State, i: nat)
    requires Inv(cfg, t) && t.mounted && Live(t, i) && t.requests[i].stage == Handled
    ensures Shows(cfg, t, i, t.loaded, t.failure)
  {
    assert InFlight(t, i);
    FinishedRequests(t, i);
    SettleKeeps(cfg, t, i);
  }

  /** Any other failure of a live request shows its own message, phase and status, and keeps what is loaded. */
  lemma FailureIsShown(cfg: Config, identity: string, enabled: bool, events: seq<Event>, i: nat, error: FetchError)
    requires var s := Run(cfg, Mounted(identity, enabled), events); s.mounted && Waits(s, i)
    requires error != RevisionMismatch
    ensures var s := Run(cfg, Mounted(identity, enabled), events);
            var failure := FailureOf(cfg, s.identity, s.requests[i].phase, error);
            var t := Step(cfg, s, FetchFails(i, error));
            FailsWith(s, t, i, failure) && Shows(cfg, t, i, s.loaded, Some(failure))
  {
    var s := Run(cfg, Mounted(identity, enabled), events);
    RunKeeps(cfg, identity, enabled, events);
    WaitingIsActive(cfg, s, i);
    StepKeeps(cfg, s, FetchFails(i, error));
    SettledShows(cfg, Step(cfg, s, FetchFails(i, error)), i);
  }

  /** The first page of an answer that passes validation. */
  lemma FirstPageIsShown(cfg: Config, identity: string, enabled: bool, events: seq<Event>, i: nat, page: Page)
    requires var s := Run(cfg, Mounted(identity, enabled), events);
             s.mounted && Waits(s, i) && s.requests[i].phase == Initial
    ensures var s := Run(cfg, Mounted(identity, enabled), events);
            var t := Step(cfg, s, PageArrives(i, page));
            var problem := cfg.Validate(s.identity, page, None);
            if problem.Some? then
              var failure := Failure(s.identity, problem.value, Initial, None);
              FailsWith(s, t, i, failure) && Shows(cfg, t, i, None, Some(failure))
            else
              Shows(cfg, t, i, Some(Loaded(s.identity, [page])), None)
  {
    var s := Run(cfg, Mounted(identity, enabled), events);
    RunKeeps(cfg, identity, enabled, events);
    RunClean(cfg, identity, enabled, events);
    WaitingIsActive(cfg, s, i);
    StepKeeps(cfg, s, PageArrives(i, page));
    SettledShows(cfg, Step(cfg, s, PageArrives(i, page)), i);
  }

  /** A further page of the same revision: appended when it passes validation, and else only the problem is shown. */
  lemma FurtherPageIsShown(cfg: Config, identity: string, enabled: bool, events: seq<Event>, i: nat, page: Page)
    requires var s := Run(cfg, Mounted(identity, enabled), events);
             && s.mounted && Waits(s, i) && s.requests[i].phase == More
             && s.loaded.Some? && s.loaded.value.pages != []
             && page.graphRevision == s.loaded.value.pages[0].graphRevision
    ensures var s := Run(cfg, Mounted(identity, enabled), events);
            var t := Step(cfg, s, PageArrives(i, page));
            var problem := cfg.Validate(s.identity, page, Some(s.loaded.value.pages[0]));
            if problem.Some? then
              var failure := Failure(s.identity, problem.value, More, None);
              FailsWith(s, t, i, failure) && Shows(cfg, t, i, s.loaded, Some(failure))
            else
              Shows(cfg, t, i, Some(Loaded(s.identity, s.loaded.value.pages + [page])), None)
  {
    var s := Run(cfg, Mounted(identity, enabled), events);
    RunKeeps(cfg, identity, enabled, events);
    RunClean(cfg, identity, enabled, events);
    WaitingIsActive(cfg, s, i);
    StepKeeps(cfg, s, PageArrives(i, page));
    SettledShows(cfg, Step(cfg, s, PageArrives(i, page)), i);
  }

  // ----- what a caller can ask for

  /** The hook shows pages with a cursor behind them, and nothing is loading. */
  predicate OffersMore(s: State) {
    && s.mounted && s.enabled && s.rendered.pages != [] && HasMore(s.rendered.pages[|s.rendered.pages| - 1])
    && !s.rendered.loading && !s.rendered.loadingMore && s.active == None
  }

  /** One more request is under way: for the page behind the last one shown, against the first one shown. */
  predicate AsksForMore(s: State, t: State) {
    && |t.requests| == |s.requests| + 1 && t.requests[..|s.requests|] == s.requests
    && t.active == Some(|s.requests|) && Waits(t, |s.requests|) && t.loadingMore && t.failure == None
    && t.loaded == s.loaded && t.retryRevision == s.retryRevision
    && s.rendered.pages != []
    && var r := t.requests[|s.requests|];
    && r.phase == More && r.identity == s.identity
    && r.cursor == s.rendered.pages[|s.rendered.pages| - 1].nextCursor && r.first == Some(s.rendered.pages[0])
  }

  /** `loadMore` asks for the next page exactly when more is offered, and else does nothing. */
  lemma LoadMoreAsks(cfg: Config, s: State)
    ensures var t := Step(cfg, s, LoadMore); if OffersMore(s) then AsksForMore(s, t) else t == s
  {
  }

  /**
   `retry` of a failed `loadMore` asks for the next page again where more is offered. Any other `retry` clears the
   failure and owes a restart.
   */
  lemma RetryAsks(cfg: Config, identity: string, enabled: bool, events: seq<Event>)
    requires Run(cfg, Mounted(identity, enabled), events).mounted
    ensures var s := Run(cfg, Mounted(identity, enabled), events);
            var t := Step(cfg, s, Retry);
            var pages, failure := s.rendered.pages, s.rendered.failure;
            if failure.Some? && failure.value.phase == More && pages != [] && HasMore(pages[|pages| - 1]) then
              if OffersMore(s) then AsksForMore(s, t) else t == s
            else t.failure == None && RestartOwed(t) && t.loaded == s.loaded && t.requests == s.requests
  {
    RunKeeps(cfg, identity, enabled, events);
    LoadMoreAsks(cfg, Run(cfg, Mounted(identity, enabled), events));
  }

  // ----- the way to something to show

  lemma RunMore(cfg: Config, s: State, events: seq<Event>, e: Event)
    ensures Run(cfg, s, events + [e]) == Step(cfg, Run(cfg, s, events), e)
  {
    assert (events + [e])[..|events|] == events;
  }

  /** Events that need no click: the effect and a render of React, answers of the server, and what follows them. */
  predicate Unprompted(s: State, e: Event) {
    match e
    case Rerun(identity, enabled) => RestartOwed(s) && identity == s.identity && enabled == s.enabled
    case Commit => true
    case PageArrives(_, _) => true
    case Settles(_) => true
    case _ => false
  }

  predicate AllUnprompted(cfg: Config, s: State, events: seq<Event>) {
    forall i | 0 <= i < |events| :: Unprompted(Run(cfg, s, events[..i]), events[i])
  }

  lemma OneMoreUnprompted(cfg: Config, s: State, events: seq<Event>, e: Event)
    requires AllUnprompted(cfg, s, events) && Unprompted(Run(cfg, s, events), e)
    ensures AllUnprompted(cfg, s, events + [e])
  {
    var all := events + [e];
    forall i | 0 <= i < |all| ensures Unprompted(Run(cfg, s, all[..i]), all[i]) {
      if i < |events| {
        assert all[..i] == events[..i];
      } else {
        assert all[..i] == events;
      }
    }
  }

  predicate ShowsSomething(s: State) { s.rendered.pages != [] || s.rendered.failure.Some? }

  /** The page the first request waits for arrives, the request settles, and the hook renders. */
  lemma FirstPageComes(cfg: Config, s: State, before: seq<Event>, page: Page) returns (more: seq<Event>)
    requires var t := Run(cfg, s, before);
             && Inv(cfg, t) && PendingClean(t) && t.mounted && AwaitsFirstPage(t)
             && cfg.Validate(t.identity, page, None) == None
    requires AllUnprompted(cfg, s, before)
    ensures |more| == |before| + 3 && AllUnprompted(cfg, s, more) && Run(cfg, s, more).rendered.pages == [page]
  {
    var t := Run(cfg, s, before);
    var i := t.active.value;
    var a, b, c := PageArrives(i, page), Settles(i), Commit;
    assert Waits(t, i) by { assert InFlight(t, i); }
    WaitingIsActive(cfg, t, i);
    StepKeeps(cfg, t, a);
    SettledShows(cfg, Step(cfg, t, a), i);
    OneMoreUnprompted(cfg, s, before, a);
    RunMore(cfg, s, before, a);
    OneMoreUnprompted(cfg, s, before + [a], b);
    RunMore(cfg, s, before + [a], b);
    OneMoreUnprompted(cfg, s, before + [a] + [b], c);
    RunMore(cfg, s, before + [a] + [b], c);
    more := before + [a] + [b] + [c];
  }

  /**
   Whatever has happened, a mounted and enabled hook shows pages or a failure after at most four events that need no
   click, as long as the server has a first page that passes validation.
   */
  lemma SomethingCanBeShown(cfg: Config, identity: string, enabled: bool, events: seq<Event>, page: Page)
    returns (more: seq<Event>)
    requires var s := Run(cfg, Mounted(identity, enabled), events);
             s.mounted && s.enabled && cfg.Validate(s.identity, page, None) == None
    ensures var s := Run(cfg, Mounted(identity, enabled), events);
            |more| <= 4 && AllUnprompted(cfg, s, more) && ShowsSomething(Run(cfg, s, more))
  {
    var s := Run(cfg, Mounted(identity, enabled), events);
    RunKeeps(cfg, identity, enabled, events);
    RunClean(cfg, identity, enabled, events);
    if s.loaded.Some? || s.failure.Some? {
      OneMoreUnprompted(cfg, s, [], Commit);
      RunMore(cfg, s, [], Commit);
      more := [] + [Commit];
    } else if AwaitsFirstPage(s) {
      more := FirstPageComes(cfg, s, [], page);
    } else {
      var e := Rerun(s.identity, true);
      OneMoreUnprompted(cfg, s, [], e);
      RunMore(cfg, s, [], e);
      StepKeeps(cfg, s, e);
      StepClean(cfg, s, e);
      RerunAsked(s, s.identity, true);
      more := FirstPageComes(cfg, s, [] + [e], page);
    }
  }
}
