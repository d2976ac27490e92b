/**
 The notification socket never gives up: a mounted hook with a project always has something under way that leads to
 a new connection, and the wait before the next attempt follows from the attempts that failed.
 */
module SocketRecovery {
  import opened ConnectedFlag
  import opened Options
  import opened SocketGenerations

  predicate HasProject(s: State) { s.project.Some? && s.project.value != "" }

  /** A socket of the current generation has not closed yet. */
  predicate HasSocket(s: State) {
    exists k :: 0 <= k < |s.sockets| && s.sockets[k].gen == s.gen && s.sockets[k].status != Closed
  }

  /** A credential is asked for, a reconnect is scheduled, or a socket is there that will tell when it closes. */
  predicate UnderWay(s: State) {
    Awaiting(s) || s.timerRef.Some? || HasSocket(s)
  }

  ghost predicate Trying(s: State) {
    s.mounted && HasProject(s) ==> UnderWay(s)
  }

  // ----- what every event keeps

  lemma ConnectTries(s: State)
    requires s.mounted && HasProject(s)
    ensures Awaiting(Connect(s, s.project))
  {
    var t := Connect(s, s.project);
    assert t.bootstraps[|s.bootstraps|].gen == t.gen && !t.bootstraps[|s.bootstraps|].done;
  }

  lemma SwitchTries(s: State, project: Option<string>)
    requires Trying(s)
    ensures Trying(Step(s, SwitchProject(project)))
  {
    if s.mounted && project.Some? && project.value != "" {
      ConnectTries(Cleanup(s).(mounted := true, project := project, connected := false));
    }
  }

  lemma SamePending(s: State, t: State)
    requires t.gen == s.gen && t.bootstraps == s.bootstraps
    ensures Awaiting(t) == Awaiting(s)
  {
  }

  /** An answer for an earlier generation leaves the request of the current one. */
  lemma StillAwaiting(s: State, i: nat)
    requires i < |s.bootstraps| && s.bootstraps[i].gen != s.gen
    ensures Awaiting(FinishBootstrap(s, i)) == Awaiting(s)
  {
    var t := FinishBootstrap(s, i);
    if Awaiting(s) {
      var j :| 0 <= j < |s.bootstraps| && s.bootstraps[j].gen == s.gen && !s.bootstraps[j].done;
      assert t.bootstraps[j].gen == t.gen && !t.bootstraps[j].done;
    }
    if Awaiting(t) {
      var j :| 0 <= j < |t.bootstraps| && t.bootstraps[j].gen == t.gen && !t.bootstraps[j].done;
      assert s.bootstraps[j].gen == s.gen && !s.bootstraps[j].done;
    }
  }

  lemma BootstrapTries(s: State, i: nat, socketOk: bool)
    requires Trying(s)
    ensures Trying(Step(s, BootstrapDone(i, socketOk)))
  {
    if i < |s.bootstraps| && !s.bootstraps[i].done {
      var t := Step(s, BootstrapDone(i, socketOk));
      if s.bootstraps[i].gen != s.gen {
        StillAwaiting(s, i);
      } else if s.mounted && socketOk {
        assert t.sockets[|s.sockets|].gen == t.gen && t.sockets[|s.sockets|].status != Closed;
      }
    }
  }

  lemma RefusalTries(s: State, i: nat)
    requires Trying(s)
    ensures Trying(Step(s, BootstrapFails(i)))
  {
    if i < |s.bootstraps| && !s.bootstraps[i].done && s.bootstraps[i].gen != s.gen {
      StillAwaiting(s, i);
    }
  }

  /** A change of status that closes no socket of the current generation. */
  lemma SocketStays(s: State, k: nat, status: Status)
    requires k < |s.sockets| && (status != Closed || s.sockets[k].gen != s.gen)
    ensures HasSocket(s) ==> HasSocket(SetStatus(s, k, status))
  {
    var t := SetStatus(s, k, status);
    if HasSocket(s) {
      var j :| 0 <= j < |s.sockets| && s.sockets[j].gen == s.gen && s.sockets[j].status != Closed;
      assert t.sockets[j].gen == t.gen && t.sockets[j].status != Closed;
    }
  }

  lemma OpenTries(s: State, k: nat)
    requires Trying(s)
    ensures Trying(Step(s, Opens(k)))
  {
    var t := Step(s, Opens(k));
    SamePending(s, t);
    if k < |s.sockets| && s.sockets[k].status == Connecting {
      SocketStays(s, k, Open);
      assert t.sockets == SetStatus(s, k, Open).sockets;
    }
  }

  /** A heeded close schedules the next attempt; any other closes a socket that no longer counts. */
  lemma CloseTries(s: State, k: nat)
    requires Trying(s)
    ensures Trying(Step(s, Closes(k)))
  {
    if k < |s.sockets| && s.sockets[k].status != Closed {
      var t := SetStatus(s, k, Closed);
      SamePending(s, t);
      if s.sockets[k].gen != s.gen {
        SocketStays(s, k, Closed);
      }
    }
  }

  lemma TellToCloseTries(s: State, k: nat)
    requires Trying(s)
    ensures Trying(CloseSocket(s, k))
  {
    SamePending(s, CloseSocket(s, k));
    if k < |s.sockets| {
      SocketStays(s, k, Closing);
    }
  }

  lemma TimerTries(s: State, id: nat)
    requires Inv(s) && Trying(s)
    ensures Trying(Step(s, TimerFires(id)))
  {
    if id in s.timers && s.mounted && HasProject(s) {
      ConnectTries(s.(timers := s.timers - {id}, timerRef := None));
    }
  }

  lemma ReconnectTries(s: State, closesAtOnce: bool)
    ensures Trying(DoReconnect(s, closesAtOnce))
  {
    var closed := ClearTimer(ClosedForReconnect(ClearTimer(s.(attempt := 0)), closesAtOnce));
    ProjectStays(s, closesAtOnce);
    if closed.mounted && HasProject(closed) {
      ConnectTries(closed);
    }
  }

  lemma StepTries(s: State, e: Event)
    requires Inv(s) && Trying(s)
    ensures Trying(Step(s, e))
  {
    match e
    case SwitchProject(project) => SwitchTries(s, project);
    case Unmount =>
    case BootstrapDone(i, ok) => BootstrapTries(s, i, ok);
    case BootstrapFails(i) => RefusalTries(s, i);
    case Opens(k) => OpenTries(s, k);
    case Notification(k) => SamePending(s, Step(s, e));
    case Closes(k) => CloseTries(s, k);
    case Errors(k) => TellToCloseTries(s, k);
    case PongTimesOut(k) => TellToCloseTries(s, k);
    case TimerFires(id) => TimerTries(s, id);
    case Reconnect(closesAtOnce) => ReconnectTries(s, closesAtOnce);
  }

  /**
   In every run a mounted hook with a project has a credential request of the current generation out, a reconnect
   timer pending, or a socket of the current generation that has not closed.
   */
  lemma {:induction false} AlwaysUnderWay(project: Option<string>, events: seq<Event>)
    ensures Trying(Run(Mounted(project), events))
  {
    if events == [] {
      if project.Some? && project.value != "" {
        ConnectTries(State(project, true, 0, [], None, 0, map[], 0, None, [], false, []));
      }
    } else {
      var before := events[..|events| - 1];
      AlwaysUnderWay(project, before);
      RunKeeps(project, before);
      StepTries(Run(Mounted(project), before), events[|events| - 1]);
    }
  }

  // ----- how long the hook waits

  /** The credential request of the current generation. */
  predicate IsPending(s: State, i: nat) {
    s.mounted && i < |s.bootstraps| && s.bootstraps[i].gen == s.gen && !s.bootstraps[i].done
  }

  /** The attempt under way has failed: no credential, no socket, or a socket that closed. */
  predicate AttemptFails(s: State, e: Event) {
    match e
    case BootstrapFails(i) => IsPending(s, i)
    case BootstrapDone(i, socketOk) => IsPending(s, i) && !socketOk
    case Closes(k) => s.mounted && k < |s.sockets| && s.sockets[k].gen == s.gen && s.sockets[k].status != Closed
    case _ => false
  }

  predicate AttemptSucceeds(s: State, e: Event) {
    e.Opens? && s.mounted && e.socket < |s.sockets|
    && s.sockets[e.socket].gen == s.gen && s.sockets[e.socket].status == Connecting
  }

  function FailuresAfter(s: State, e: Event, n: nat): nat {
    if e.Reconnect? then (if e.closesAtOnce && CloseHeeded(s) then 1 else 0)
    else if AttemptSucceeds(s, e) then 0
    else n + if AttemptFails(s, e) then 1 else 0
  }

  /**
   How many attempts failed since the last one that succeeded or the last manual reconnect. A close event that a
   manual reconnect dispatches itself counts as one.
   */
  function Failures(project: Option<string>, events: seq<Event>): nat {
    if events == [] then 0
    else
      var before, e := events[..|events| - 1], events[|events| - 1];
      FailuresAfter(Run(Mounted(project), before), e, Failures(project, before))
  }

  /** The wait after `n` failed attempts before the last one. */
  function WaitAfter(n: nat): nat {
    if n == 0 then 1000 else if n == 1 then 2000 else if n == 2 then 4000 else if n == 3 then 8000 else 15000
  }

  /** The counter is `n`, and a pending timer waits as long as the failures before the last one demand. */
  ghost predicate Counted(s: State, n: nat) {
    s.attempt == n && forall t | t in s.timers :: n > 0 && s.timers[t].delay == WaitAfter(n - 1)
  }

  lemma ScheduleCounts(s: State, project: string)
    requires Inv(s) && s.mounted
    ensures Counted(ScheduleReconnect(s, project), s.attempt + 1)
  {
    ClearKeeps(s);
    assert ClearTimer(s).timers.Keys == {};
    assert Delay(s.attempt) == WaitAfter(s.attempt);
  }

  lemma ClosedCounts(s: State, closesAtOnce: bool)
    ensures ClosedForReconnect(s, closesAtOnce).attempt
         == s.attempt + if closesAtOnce && CloseHeeded(s) then 1 else 0
  {
  }

  lemma ReconnectLeavesNoTimer(s: State, closesAtOnce: bool)
    requires Inv(s)
    ensures DoReconnect(s, closesAtOnce).timers.Keys == {}
  {
    var cleared := ClearTimer(s.(attempt := 0));
    ClearedFlag(s);
    ClosedDown(cleared, closesAtOnce);
    ClearKeeps(ClosedForReconnect(cleared, closesAtOnce));
  }

  lemma ReconnectCounts(s: State, closesAtOnce: bool)
    requires Inv(s)
    ensures Counted(DoReconnect(s, closesAtOnce), if closesAtOnce && CloseHeeded(s) then 1 else 0)
  {
    ReconnectLeavesNoTimer(s, closesAtOnce);
    ClosedCounts(ClearTimer(s.(attempt := 0)), closesAtOnce);
  }

  lemma OpenCounts(s: State, k: nat, n: nat)
    requires Inv(s) && Counted(s, n)
    ensures Counted(Step(s, Opens(k)), if AttemptSucceeds(s, Opens(k)) then 0 else n)
  {
    if k < |s.sockets| && s.sockets[k].status == Connecting {
      OpenIsCurrent(s, k);
    }
  }

  lemma BootstrapCounts(s: State, i: nat, ok: bool, n: nat)
    requires Inv(s) && Counted(s, n)
    ensures Counted(Step(s, BootstrapDone(i, ok)), n + if AttemptFails(s, BootstrapDone(i, ok)) then 1 else 0)
    ensures Counted(Step(s, BootstrapFails(i)), n + if AttemptFails(s, BootstrapFails(i)) then 1 else 0)
  {
    if i < |s.bootstraps| && !s.bootstraps[i].done {
      FinishKeeps(s, i);
      if IsPending(s, i) {
        ScheduleCounts(FinishBootstrap(s, i), s.bootstraps[i].project);
      }
    }
  }

  lemma CloseCounts(s: State, k: nat, n: nat)
    requires Inv(s) && Counted(s, n)
    ensures Counted(Step(s, Closes(k)), n + if AttemptFails(s, Closes(k)) then 1 else 0)
  {
    if AttemptFails(s, Closes(k)) {
      ClosedKeeps(s, k);
      var t := SetStatus(s, k, Closed).(connected := false);
      assert Inv(t) by {
        assert AllDown(t) == AllDown(SetStatus(s, k, Closed)) && Awaiting(t) == Awaiting(SetStatus(s, k, Closed));
      }
      ScheduleCounts(t, s.sockets[k].project);
    }
  }

  lemma TimerCounts(s: State, id: nat, n: nat)
    requires Inv(s) && Counted(s, n)
    ensures Counted(Step(s, TimerFires(id)), n)
  {
  }

  lemma SwitchCounts(s: State, project: Option<string>, n: nat)
    requires Inv(s) && Counted(s, n)
    ensures Counted(Step(s, SwitchProject(project)), n) && Counted(Step(s, Unmount), n)
  {
    if s.mounted {
      CleanupKeeps(s);
      assert Cleanup(s).timers.Keys == {};
    }
  }

  lemma StepCounts(s: State, e: Event, n: nat)
    requires Inv(s) && Counted(s, n)
    ensures Counted(Step(s, e), FailuresAfter(s, e, n))
  {
    match e
    case SwitchProject(p) => SwitchCounts(s, p, n);
    case Unmount => SwitchCounts(s, None, n);
    case BootstrapDone(i, ok) => BootstrapCounts(s, i, ok, n);
    case BootstrapFails(i) => BootstrapCounts(s, i, true, n);
    case Opens(k) => OpenCounts(s, k, n);
    case Notification(k) =>
    case Closes(k) => CloseCounts(s, k, n);
    case Errors(k) =>
    case PongTimesOut(k) =>
    case TimerFires(id) => TimerCounts(s, id, n);
    case Reconnect(closesAtOnce) => ReconnectCounts(s, closesAtOnce);
  }

  /** The counter of the hook is the number of failed attempts, and it decides how long a pending timer waits. */
  lemma {:induction false} WaitsByFailures(project: Option<string>, events: seq<Event>)
    ensures Counted(Run(Mounted(project), events), Failures(project, events))
  {
    if events != [] {
      var before := events[..|events| - 1];
      WaitsByFailures(project, before);
      RunKeeps(project, before);
      StepCounts(Run(Mounted(project), before), events[|events| - 1], Failures(project, before));
    }
  }

  lemma TimerSet(s: State, e: Event)
    requires AttemptFails(s, e)
    ensures Step(s, e).timerRef.Some? && Step(s, e).project == s.project
  {
  }

  /** A failed attempt leaves one timer, for the current project, and it waits as the failures before it demand. */
  lemma FailureSchedules(project: Option<string>, events: seq<Event>, e: Event)
    requires AttemptFails(Run(Mounted(project), events), e)
    ensures var s, t := Run(Mounted(project), events), Run(Mounted(project), events + [e]);
            exists id :: t.timers.Keys == {id} && t.timerRef == Some(id)
                         && Some(t.timers[id].project) == s.project
                         && t.timers[id].delay == WaitAfter(Failures(project, events))
  {
    var s, t := Run(Mounted(project), events), Run(Mounted(project), events + [e]);
    assert (events + [e])[..|events|] == events;
    RunKeeps(project, events);
    RunKeeps(project, events + [e]);
    WaitsByFailures(project, events + [e]);
    TimerSet(s, e);
    var id := t.timerRef.value;
    assert id in t.timers.Keys;
    assert Failures(project, events + [e]) == Failures(project, events) + 1;
  }

  // ----- the way back

  lemma RunMore(s: State, events: seq<Event>, e: Event)
    ensures Run(s, events + [e]) == Step(Run(s, events), e)
  {
    assert (events + [e])[..|events|] == events;
  }

  lemma OpeningConnects(s: State, k: nat)
    requires Inv(s) && s.mounted && k < |s.sockets| && s.sockets[k].gen == s.gen && s.sockets[k].status == Connecting
    ensures var t := Step(s, Opens(k)); OpenNow(t) && t.connected
  {
    OpensFlag(s, k);
  }

  lemma CredentialCreates(s: State, i: nat)
    requires Inv(s) && IsPending(s, i)
    ensures var t := Step(s, BootstrapDone(i, true));
            && Inv(t) && t.mounted && |t.sockets| == |s.sockets| + 1
            && t.sockets[|s.sockets|].gen == t.gen && t.sockets[|s.sockets|].status == Connecting
  {
    BootstrapDoneKeeps(s, i, true);
  }

  lemma CredentialConnects(s: State, i: nat)
    requires Inv(s) && IsPending(s, i)
    ensures var t := Step(Step(s, BootstrapDone(i, true)), Opens(|s.sockets|)); OpenNow(t) && t.connected
  {
    CredentialCreates(s, i);
    OpeningConnects(Step(s, BootstrapDone(i, true)), |s.sockets|);
  }

  lemma TimerRequests(s: State)
    requires Inv(s) && s.mounted && HasProject(s) && s.timerRef.Some?
    ensures var t := Step(s, TimerFires(s.timerRef.value));
            Inv(t) && |t.bootstraps| == |s.bootstraps| + 1 && IsPending(t, |s.bootstraps|) && t.sockets == s.sockets
  {
    assert s.timerRef.value in s.timers.Keys;
    TimerKeeps(s, s.timerRef.value);
  }

  /** What the outside has to do after a failed attempt: let the timer fire, grant the credential, open the socket. */
  function FromTimer(s: State): seq<Event>
    requires s.timerRef.Some?
  {
    [TimerFires(s.timerRef.value), BootstrapDone(|s.bootstraps|, true), Opens(|s.sockets|)]
  }

  lemma RunThree(s: State, a: Event, b: Event, c: Event)
    ensures Run(s, [a, b, c]) == Step(Step(Step(s, a), b), c)
  {
    RunMore(s, [], a);
    RunMore(s, [a], b);
    RunMore(s, [a, b], c);
    assert [] + [a] == [a] && [a] + [b] == [a, b] && [a, b] + [c] == [a, b, c];
  }

  lemma TimerConnects(s: State)
    requires Inv(s) && s.mounted && HasProject(s) && s.timerRef.Some?
    ensures var t := Run(s, FromTimer(s)); OpenNow(t) && t.connected
  {
    TimerRequests(s);
    var t := Step(s, TimerFires(s.timerRef.value));
    CredentialConnects(t, |s.bootstraps|);
    RunThree(s, TimerFires(s.timerRef.value), BootstrapDone(|s.bootstraps|, true), Opens(|s.sockets|));
  }

  lemma CloseSchedules(s: State, k: nat)
    requires Inv(s) && s.mounted && k < |s.sockets| && s.sockets[k].gen == s.gen && s.sockets[k].status != Closed
    ensures var t := Step(s, Closes(k)); Inv(t) && t.mounted && t.project == s.project && t.timerRef.Some?
  {
    StepKeeps(s, Closes(k));
    TimerSet(s, Closes(k));
  }

  lemma {:induction false} RunAfter(s: State, e: Event, events: seq<Event>)
    ensures Run(s, [e] + events) == Run(Step(s, e), events)
    decreases |events|
  {
    if events == [] {
      RunMore(s, [], e);
      assert [e] + events == [] + [e];
    } else {
      var before, last := events[..|events| - 1], events[|events| - 1];
      RunAfter(s, e, before);
      assert [e] + events == ([e] + before) + [last] && events == before + [last];
      RunMore(s, [e] + before, last);
      RunMore(Step(s, e), before, last);
    }
  }

  /** Events the browser and the server cause: none is a click or a change of project. */
  predicate FromOutside(e: Event) { e.BootstrapDone? || e.Opens? || e.Closes? || e.TimerFires? }

  /** From a state with a socket of the current generation that has not closed. */
  lemma SocketRecovers(s: State, k: nat) returns (more: seq<Event>)
    requires Inv(s) && s.mounted && HasProject(s) && Noticed(s)
    requires k < |s.sockets| && s.sockets[k].gen == s.gen && s.sockets[k].status != Closed
    ensures |more| <= 4 && forall e | e in more :: FromOutside(e)
    ensures OpenNow(Run(s, more)) && Run(s, more).connected
  {
    if s.sockets[k].status == Open {
      more := [];
      OpenIsCurrent(s, k);
    } else if s.sockets[k].status == Connecting {
      more := [Opens(k)];
      OpeningConnects(s, k);
      RunMore(s, [], Opens(k));
      assert [] + [Opens(k)] == more;
    } else {
      CloseSchedules(s, k);
      var t := Step(s, Closes(k));
      TimerConnects(t);
      more := [Closes(k)] + FromTimer(t);
      RunAfter(s, Closes(k), FromTimer(t));
    }
  }

  /**
   After any run a mounted hook with a project is at most four events of the browser and the server away from an open
   socket that shows as connected.
   */
  lemma AlwaysRecovers(project: Option<string>, events: seq<Event>) returns (more: seq<Event>)
    requires var s := Run(Mounted(project), events); s.mounted && HasProject(s)
    ensures |more| <= 4 && forall e | e in more :: FromOutside(e)
    ensures var t := Run(Run(Mounted(project), events), more); OpenNow(t) && t.connected
  {
    var s := Run(Mounted(project), events);
    RunKeeps(project, events);
    OpenShows(project, events);
    AlwaysUnderWay(project, events);
    if s.timerRef.Some? {
      TimerConnects(s);
      more := FromTimer(s);
    } else if HasSocket(s) {
      var k :| 0 <= k < |s.sockets| && s.sockets[k].gen == s.gen && s.sockets[k].status != Closed;
      more := SocketRecovers(s, k);
    } else {
      var i :| 0 <= i < |s.bootstraps| && s.bootstraps[i].gen == s.gen && !s.bootstraps[i].done;
      CredentialConnects(s, i);
      more := [BootstrapDone(i, true), Opens(|s.sockets|)];
      RunAfter(s, BootstrapDone(i, true), [Opens(|s.sockets|)]);
      RunMore(Step(s, BootstrapDone(i, true)), [], Opens(|s.sockets|));
      assert [] + [Opens(|s.sockets|)] == [Opens(|s.sockets|)];
      assert more == [BootstrapDone(i, true)] + [Opens(|s.sockets|)];
    }
  }

  // ----- what reaches the caller

  /** A notification of a socket of the current generation that has not closed. */
  predicate IsHeard(s: State, e: Event) {
    e.Notification? && s.mounted && e.socket < |s.sockets|
    && s.sockets[e.socket].gen == s.gen && s.sockets[e.socket].status != Closed
  }

  /** The sockets whose notifications were heeded, one entry a notification. */
  function Heard(project: Option<string>, events: seq<Event>): seq<nat> {
    if events == [] then []
    else
      var before, e := events[..|events| - 1], events[|events| - 1];
      var s := Run(Mounted(project), before);
      Heard(project, before) + if IsHeard(s, e) then [e.socket] else []
  }

  function Senders(delivered: seq<Delivery>): (r: seq<nat>)
    ensures |r| == |delivered| && forall i | 0 <= i < |r| :: r[i] == delivered[i].socket
  {
    seq(|delivered|, i requires 0 <= i < |delivered| => delivered[i].socket)
  }

  /** Every notification of the current socket is delivered, in order, and no other is. */
  lemma {:induction false} HeardIsDelivered(project: Option<string>, events: seq<Event>)
    ensures Senders(Run(Mounted(project), events).delivered) == Heard(project, events)
  {
    if events != [] {
      var before, e := events[..|events| - 1], events[|events| - 1];
      var s := Run(Mounted(project), before);
      HeardIsDelivered(project, before);
      if e.Notification? {
        assert Senders(Step(s, e).delivered) == Senders(s.delivered) + if IsHeard(s, e) then [e.socket] else [];
      } else {
        StepQuiet(s, e);
      }
    }
  }

  lemma TellToCloseDown(s: State, k: nat)
    requires k < |s.sockets|
    ensures Down(CloseSocket(s, k).sockets[k])
  {
  }

  /** After an error or a missing pong the socket is closed or has been told to close. */
  lemma TroubleCloses(project: Option<string>, events: seq<Event>, k: nat)
    requires k < |Run(Mounted(project), events).sockets|
    ensures var s := Run(Mounted(project), events);
            Down(Step(s, Errors(k)).sockets[k]) && Down(Step(s, PongTimesOut(k)).sockets[k])
  {
    RunKeeps(project, events);
    TellToCloseDown(Run(Mounted(project), events), k);
  }

  // ----- what a caller can ask for

  /** Nothing is up, no timer is pending, and no answer or event of what was there before is heeded. */
  ghost predicate StartsOver(s: State, t: State) {
    && AllDown(t) && t.timers == map[] && s.gen < t.gen
    && (forall k | 0 <= k < |t.sockets| :: t.sockets[k].gen < t.gen)
    && |s.bootstraps| <= |t.bootstraps|
    && (forall i | 0 <= i < |s.bootstraps| :: t.bootstraps[i].gen < t.gen)
  }

  lemma CleanupStartsOver(s: State)
    requires Inv(s)
    ensures StartsOver(s, Cleanup(s)) && !Cleanup(s).mounted
  {
    CleanupKeeps(s);
    assert Cleanup(s).timers.Keys == {};
  }

  lemma BeginStartsOver(s: State, t: State, project: Option<string>)
    requires StartsOver(s, t)
    ensures var u := Begin(t, project);
            && StartsOver(s, u) && u.mounted && u.project == project
            && (project.Some? && project.value != "" ==> Awaiting(u))
  {
    if project.Some? && project.value != "" {
      ConnectTries(t.(mounted := true, project := project, connected := false));
    }
  }

  /** A change of project ends what was under way and asks for a credential for the new one; unmounting only ends it. */
  lemma SwitchStartsOver(project: Option<string>, events: seq<Event>, p: Option<string>)
    requires Run(Mounted(project), events).mounted
    ensures var s := Run(Mounted(project), events);
            var t, u := Step(s, SwitchProject(p)), Step(s, Unmount);
            && StartsOver(s, t) && t.mounted && t.project == p && (p.Some? && p.value != "" ==> Awaiting(t))
            && StartsOver(s, u) && !u.mounted
  {
    var s := Run(Mounted(project), events);
    RunKeeps(project, events);
    CleanupStartsOver(s);
    BeginStartsOver(s, Cleanup(s), p);
  }

  lemma ConnectStartsOver(s: State)
    requires Inv(s) && AllDown(s) && s.timers == map[] && s.mounted && HasProject(s)
    ensures StartsOver(s, Connect(s, s.project))
  {
    assert AllDown(Connect(s, s.project));
  }

  lemma ClosedSame(s: State, closesAtOnce: bool)
    ensures var t := ClearTimer(ClosedForReconnect(ClearTimer(s.(attempt := 0)), closesAtOnce));
            t.gen == s.gen && t.bootstraps == s.bootstraps && t.mounted == s.mounted
  {
  }

  lemma ClearedBefore(s: State, closesAtOnce: bool)
    requires Inv(s)
    ensures var t := ClearTimer(ClosedForReconnect(ClearTimer(s.(attempt := 0)), closesAtOnce));
            Inv(t) && AllDown(t) && t.timers == map[] && t.project == s.project
  {
    var cleared := ClearTimer(s.(attempt := 0));
    ClearedFlag(s);
    ClosedDown(cleared, closesAtOnce);
    var closed := ClosedForReconnect(cleared, closesAtOnce);
    ClearKeeps(closed);
    ProjectStays(s, closesAtOnce);
    assert ClearTimer(closed).timers.Keys == {};
  }

  lemma StartsOverFrom(s: State, c: State, t: State)
    requires StartsOver(c, t) && c.gen == s.gen && c.bootstraps == s.bootstraps
    ensures StartsOver(s, t)
  {
  }

  lemma ReconnectBegins(s: State, closesAtOnce: bool)
    requires Inv(s) && s.mounted && HasProject(s)
    ensures var t := DoReconnect(s, closesAtOnce); StartsOver(s, t) && t.project == s.project && Awaiting(t)
  {
    var c := ClearTimer(ClosedForReconnect(ClearTimer(s.(attempt := 0)), closesAtOnce));
    ClearedBefore(s, closesAtOnce);
    ClosedSame(s, closesAtOnce);
    ConnectStartsOver(c);
    ConnectTries(c);
    StartsOverFrom(s, c, Connect(c, c.project));
  }

  /** So does a manual reconnect, for the project it has. */
  lemma ReconnectStartsOver(project: Option<string>, events: seq<Event>, closesAtOnce: bool)
    requires var s := Run(Mounted(project), events); s.mounted && HasProject(s)
    ensures var s := Run(Mounted(project), events);
            var t := Step(s, Reconnect(closesAtOnce));
            StartsOver(s, t) && t.project == s.project && Awaiting(t)
  {
    RunKeeps(project, events);
    ReconnectBegins(Run(Mounted(project), events), closesAtOnce);
  }
}
