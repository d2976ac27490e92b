/**
 What the `connected` flag of the notification socket tells a caller. An open socket of the current generation
 always shows as connected. The other way round it fails for the events that take the socket away before a close
 event of it is heeded, and exactly for those.
 */
module ConnectedFlag {
  import opened Options
  import opened SocketGenerations

  /** The current socket is open and its callbacks are heeded. By `Inv` no other socket is open. */
  predicate OpenNow(s: State) {
    s.ws.Some? && Heeded(s, s.ws.value) && s.sockets[s.ws.value].status == Open
  }

  /** `connected` is shown at least while a socket is open. */
  predicate Noticed(s: State) {
    OpenNow(s) ==> s.connected
  }

  /** `connected` is shown only while a socket is open. */
  predicate Truthful(s: State) {
    s.connected ==> OpenNow(s)
  }

  /** An unmount, a reconnect whose close event comes later, an error on an open socket, or a pong that did not come. */
  predicate LosesSocket(s: State, e: Event) {
    match e
    case Unmount => s.mounted
    case Reconnect(closesAtOnce) => !closesAtOnce
    case Errors(k) => k < |s.sockets| && s.sockets[k].status == Open
    case PongTimesOut(k) => k < |s.sockets| && s.sockets[k].status == Open
    case _ => false
  }

  lemma OpenIsCurrent(s: State, k: nat)
    requires Inv(s) && k < |s.sockets| && !Down(s.sockets[k])
    ensures s.ws == Some(k) && s.sockets[k].gen == s.gen && !AllDown(s) && !Awaiting(s) && s.timers == map[]
  {
    assert !AllDown(s);
    assert s.timers.Keys == {};
  }

  lemma NothingOpen(s: State)
    requires AllDown(s)
    ensures !OpenNow(s)
  {
  }

  /** Nothing is open after a cleanup, so nothing is open when the new effect begins. */
  lemma SwitchFlag(s: State, project: Option<string>)
    requires Inv(s)
    ensures !OpenNow(Step(s, SwitchProject(project))) || !s.mounted
    ensures var t := Step(s, SwitchProject(project)); if s.mounted then !t.connected else t == s
  {
    if s.mounted {
      CleanupKeeps(s);
      var t := Step(s, SwitchProject(project));
      assert t.sockets == Cleanup(s).sockets;
      NothingOpen(t);
    }
  }

  lemma UnmountFlag(s: State)
    requires Inv(s)
    ensures var t := Step(s, Unmount); if s.mounted then !OpenNow(t) && t.connected == s.connected else t == s
  {
    CleanupKeeps(s);
  }

  predicate CloseHeeded(s: State) {
    s.ws.Some? && Heeded(s, s.ws.value) && s.sockets[s.ws.value].status != Closed
  }

  lemma ClosedFlag(s: State, closesAtOnce: bool)
    requires s.ws.Some? ==> s.ws.value < |s.sockets|
    ensures ClosedForReconnect(s, closesAtOnce).connected == (s.connected && !(closesAtOnce && CloseHeeded(s)))
  {
  }

  /** Cancelling the timer and asking for a credential open no socket and leave the flag alone. */
  lemma ConnectFlag(s: State, project: Option<string>)
    requires AllDown(s)
    ensures var t := Connect(ClearTimer(s), project); t.connected == s.connected && AllDown(t)
  {
    assert Connect(ClearTimer(s), project).sockets == s.sockets;
  }

  /** What a reconnect does before it closes the socket. */
  lemma ClearedFlag(s: State)
    requires Inv(s)
    ensures var t := ClearTimer(s.(attempt := 0));
            && Inv(t) && t.connected == s.connected && CloseHeeded(t) == CloseHeeded(s)
            && (t.ws.Some? ==> t.ws.value < |t.sockets|)
  {
    ResetAttemptKeeps(s);
    ClearKeeps(s.(attempt := 0));
  }

  /** A close event heeded during the call clears the flag; otherwise it stays as it was. */
  lemma ReconnectFlag(s: State, closesAtOnce: bool)
    requires Inv(s)
    ensures var t := DoReconnect(s, closesAtOnce);
            AllDown(t) && t.connected == (s.connected && !(closesAtOnce && CloseHeeded(s)))
  {
    var cleared := ClearTimer(s.(attempt := 0));
    ClearedFlag(s);
    ClosedDown(cleared, closesAtOnce);
    ClosedFlag(cleared, closesAtOnce);
    ConnectFlag(ClosedForReconnect(cleared, closesAtOnce), s.project);
  }

  /** A credential arrives for the current generation only while nothing is open. */
  lemma BootstrapFlag(s: State, i: nat, socketOk: bool)
    requires Inv(s)
    ensures var t := Step(s, BootstrapDone(i, socketOk)); OpenNow(t) == OpenNow(s) && t.connected == s.connected
    ensures var t := Step(s, BootstrapFails(i)); OpenNow(t) == OpenNow(s) && t.connected == s.connected
  {
    if i < |s.bootstraps| && !s.bootstraps[i].done {
      FinishKeeps(s, i);
      if s.bootstraps[i].gen == s.gen {
        NothingOpen(s);
      }
    }
  }

  lemma OpensFlag(s: State, k: nat)
    requires Inv(s)
    ensures var t := Step(s, Opens(k));
            if k < |s.sockets| && s.sockets[k].status == Connecting && s.mounted then OpenNow(t) && t.connected
            else OpenNow(t) == OpenNow(s) && t.connected == s.connected
  {
    if k < |s.sockets| && s.sockets[k].status == Connecting {
      OpenIsCurrent(s, k);
    }
  }

  lemma ClosesFlag(s: State, k: nat)
    requires Inv(s)
    ensures var t := Step(s, Closes(k));
            if OpenNow(s) && s.ws == Some(k) then !OpenNow(t) && !t.connected
            else
              && OpenNow(t) == OpenNow(s)
              && (s.connected && OpenNow(s) ==> t.connected) && (t.connected ==> s.connected)
  {
    if k < |s.sockets| && s.sockets[k].status != Closed && Heeded(s, k) {
      assert s.ws == Some(k);
    }
  }

  lemma LostFlag(s: State, k: nat)
    requires Inv(s)
    ensures var t := CloseSocket(s, k);
            && t.connected == s.connected
            && OpenNow(t) == (OpenNow(s) && s.ws != Some(k))
  {
  }

  lemma TimerFlag(s: State, id: nat)
    requires Inv(s)
    ensures var t := Step(s, TimerFires(id)); OpenNow(t) == OpenNow(s) && t.connected == s.connected
  {
    if id in s.timers {
      NothingOpen(s);
      NothingOpen(Step(s, TimerFires(id)));
    }
  }

  lemma OpenFirst(s: State, k: nat)
    requires Inv(s)
    ensures k < |s.sockets| && s.sockets[k].status == Open ==> s.ws == Some(k) && s.sockets[k].gen == s.gen
    ensures OpenNow(s) && s.ws == Some(k) ==> k < |s.sockets| && s.sockets[k].status == Open
  {
  }

  /**
   While the flag has told the truth so far, a step keeps it true unless it takes the open socket away unnoticed;
   and an open socket shows in any case.
   */
  lemma StepFlag(s: State, e: Event)
    requires Inv(s) && Noticed(s)
    ensures Noticed(Step(s, e))
    ensures Truthful(s) ==> (Truthful(Step(s, e)) <==> !(s.connected && LosesSocket(s, e)))
  {
    match e
    case SwitchProject(project) => SwitchFlag(s, project);
    case Unmount => UnmountFlag(s);
    case BootstrapDone(i, ok) => BootstrapFlag(s, i, ok);
    case BootstrapFails(i) => BootstrapFlag(s, i, true);
    case Opens(k) => OpensFlag(s, k);
    case Notification(k) =>
    case Closes(k) => ClosesFlag(s, k);
    case Errors(k) => LostFlag(s, k); OpenFirst(s, k);
    case PongTimesOut(k) => LostFlag(s, k); OpenFirst(s, k);
    case TimerFires(id) => TimerFlag(s, id);
    case Reconnect(closesAtOnce) => ReconnectFlag(s, closesAtOnce);
  }

  // ----- whole runs

  /** An open socket shows as connected after every run. */
  lemma {:induction false} OpenShows(project: Option<string>, events: seq<Event>)
    ensures Noticed(Run(Mounted(project), events))
  {
    if events != [] {
      var before := events[..|events| - 1];
      OpenShows(project, before);
      RunKeeps(project, before);
      StepFlag(Run(Mounted(project), before), events[|events| - 1]);
    }
  }

  /** The state after the first `i` events. */
  function After(project: Option<string>, events: seq<Event>, i: nat): State
    requires i <= |events|
  {
    Run(Mounted(project), events[..i])
  }

  ghost predicate AlwaysTruthful(project: Option<string>, events: seq<Event>) {
    forall i | 0 <= i <= |events| :: Truthful(After(project, events, i))
  }

  /** Whether event `i` takes the open socket away while the flag shows it. */
  predicate LosesAt(project: Option<string>, events: seq<Event>, i: nat)
    requires i < |events|
  {
    After(project, events, i).connected && LosesSocket(After(project, events, i), events[i])
  }

  lemma AfterNext(project: Option<string>, events: seq<Event>, i: nat)
    requires i < |events|
    ensures After(project, events, i + 1) == Step(After(project, events, i), events[i])
    ensures Inv(After(project, events, i)) && Noticed(After(project, events, i))
  {
    assert events[..i + 1][..i] == events[..i];
    RunKeeps(project, events[..i]);
    OpenShows(project, events[..i]);
  }

  lemma TruthfulNext(project: Option<string>, events: seq<Event>, i: nat)
    requires i < |events| && Truthful(After(project, events, i))
    ensures Truthful(After(project, events, i + 1)) <==> !LosesAt(project, events, i)
  {
    AfterNext(project, events, i);
    StepFlag(After(project, events, i), events[i]);
  }

  lemma StartsTruthful(project: Option<string>, events: seq<Event>)
    ensures Truthful(After(project, events, 0))
  {
    assert events[..0] == [];
  }

  lemma {:induction false} TruthfulUpTo(project: Option<string>, events: seq<Event>, n: nat)
    requires n <= |events| && forall i | 0 <= i < n :: !LosesAt(project, events, i)
    ensures Truthful(After(project, events, n))
  {
    if n == 0 {
      StartsTruthful(project, events);
    } else {
      TruthfulUpTo(project, events, n - 1);
      TruthfulNext(project, events, n - 1);
    }
  }

  /**
   At every moment of a run `connected` means that the current socket is open if and only if no event of the run
   took an open socket away without its close event being heeded.
   */
  lemma TruthfulExactlyWhen(project: Option<string>, events: seq<Event>)
    ensures AlwaysTruthful(project, events) <==> forall i | 0 <= i < |events| :: !LosesAt(project, events, i)
  {
    if forall i | 0 <= i < |events| :: !LosesAt(project, events, i) {
      forall i | 0 <= i <= |events| ensures Truthful(After(project, events, i)) {
        TruthfulUpTo(project, events, i);
      }
    }
    if AlwaysTruthful(project, events) {
      forall i | 0 <= i < |events| ensures !LosesAt(project, events, i) {
        TruthfulNext(project, events, i);
      }
    }
  }

  // ----- how long the flag can be wrong

  /** The flag shows a connection, while the hook waits for its timer and no socket is up. */
  ghost predicate FalselyConnected(s: State) {
    && Inv(s) && AllDown(s)
    && s.connected && s.mounted && s.timerRef.Some?
    && s.project.Some? && s.project.value != ""
  }

  /** The hook waits for one more credential while the flag still shows a connection. */
  ghost predicate Asking(s: State) {
    && Inv(s) && s.connected && s.mounted
    && s.project.Some? && s.project.value != ""
    && s.bootstraps != [] && var b := s.bootstraps[|s.bootstraps| - 1]; b.gen == s.gen && !b.done
  }

  lemma ReconnectConnects(s: State)
    requires Inv(s) && s.mounted && s.project.Some? && s.project.value != ""
    ensures var t := DoReconnect(s, false);
            && t.mounted && t.project == s.project && t.gen == s.gen + 1
            && t.bootstraps == s.bootstraps + [Bootstrap(t.gen, s.project.value, false)]
  {
  }

  /** A manual reconnect whose close event comes later leaves the flag and asks for one more credential. */
  lemma ReconnectAsks(s: State, k: nat)
    requires Inv(s) && s.connected && s.mounted && s.project.Some? && s.project.value != "" && k < |s.sockets|
    ensures var t := Step(s, Reconnect(false));
            Asking(t) && |t.bootstraps| == |s.bootstraps| + 1 && k < |t.sockets| && t.sockets[k].gen < t.gen
  {
    ReconnectFlag(s, false);
    ReconnectConnects(s);
    ReconnectKeeps(s, false);
    ReconnectQuiet(s, false);
  }

  /** The close event of a socket of an earlier generation changes its status alone. */
  lemma LateClose(s: State, k: nat)
    requires k < |s.sockets| && s.sockets[k].gen < s.gen
    ensures Step(s, Closes(k)) == s.(sockets := Step(s, Closes(k)).sockets)
  {
  }

  lemma LateCloseAsks(s: State, k: nat)
    requires Asking(s) && k < |s.sockets| && s.sockets[k].gen < s.gen
    ensures var t := Step(s, Closes(k)); Asking(t) && |t.bootstraps| == |s.bootstraps|
  {
    StepKeeps(s, Closes(k));
    LateClose(s, k);
  }

  lemma TimerAsks(s: State)
    requires FalselyConnected(s)
    ensures s.timerRef.value in s.timers
    ensures var t := Step(s, TimerFires(s.timerRef.value));
            && t.connected && t.mounted && t.project == s.project && t.gen == s.gen + 1
            && t.bootstraps == s.bootstraps + [Bootstrap(t.gen, s.project.value, false)]
  {
    assert s.timerRef.value in s.timers.Keys;
  }

  /** The answer that ends the wait of the latest `connect`. */
  lemma RefusalSchedules(s: State)
    requires Asking(s)
    ensures FalselyConnected(Step(s, BootstrapFails(|s.bootstraps| - 1)))
  {
    FinishKeeps(s, |s.bootstraps| - 1);
    BootstrapFailsKeeps(s, |s.bootstraps| - 1);
  }

  /** A manual reconnect from an open socket whose close event comes later, while the credential is refused. */
  lemma ReconnectMisleads(s: State)
    requires Inv(s) && Noticed(s) && OpenNow(s) && s.project.Some? && s.project.value != ""
    ensures var answer := BootstrapFails(|s.bootstraps|);
            FalselyConnected(Step(Step(Step(s, Reconnect(false)), Closes(s.ws.value)), answer))
  {
    var t := Step(s, Reconnect(false));
    ReconnectAsks(s, s.ws.value);
    LateCloseAsks(t, s.ws.value);
    RefusalSchedules(Step(t, Closes(s.ws.value)));
  }

  /** Each further refusal leaves it so: the timer fires, the credential is refused, and the flag still shows. */
  lemma StillMisleads(s: State)
    requires FalselyConnected(s)
    ensures FalselyConnected(Step(Step(s, TimerFires(s.timerRef.value)), BootstrapFails(|s.bootstraps|)))
  {
    TimerAsks(s);
    TimerKeeps(s, s.timerRef.value);
    RefusalSchedules(Step(s, TimerFires(s.timerRef.value)));
  }
}
