/**
 The reconnecting notification socket: generations, the reconnect timer, and who may deliver. `Step` is the
 machine on values, with the browser's sockets, timers and credential requests as part of the state; the class
 holds the hook's refs.
 */
module SocketGenerations {
  import opened Options

  const RECONNECT_DELAYS: seq<nat> := [1000, 2000, 4000, 8000, 15000]

  datatype Status = Connecting | Open | Closing | Closed

  /** A socket with the generation and project its callbacks captured. */
  datatype Socket = Socket(gen: nat, project: string, status: Status)

  /** A credential request a `connect` is waiting for. */
  datatype Bootstrap = Bootstrap(gen: nat, project: string, done: bool)

  /** A pending timer; firing connects for the project it was set for. */
  datatype Timer = Timer(project: string, delay: nat)

  /** A notification handed to the caller: whose socket it came from, and what was current then. */
  datatype Delivery = Delivery(socket: nat, from: string, fromGen: nat, project: Option<string>, gen: nat)

  datatype State = State(
    project: Option<string>,
    mounted: bool,
    gen: nat,
    sockets: seq<Socket>,
    ws: Option<nat>,
    attempt: nat,
    timers: map<nat, Timer>,
    nextTimer: nat,
    timerRef: Option<nat>,
    bootstraps: seq<Bootstrap>,
    connected: bool,
    delivered: seq<Delivery>)

  datatype Event =
    | SwitchProject(project: Option<string>)
    | Unmount
    | BootstrapDone(bootstrap: nat, socketOk: bool)
    | BootstrapFails(bootstrap: nat)
    | Opens(socket: nat)
    | Notification(socket: nat)
    | Closes(socket: nat)
    | Errors(socket: nat)
    | PongTimesOut(socket: nat)
    | TimerFires(timer: nat)
    | Reconnect(closesAtOnce: bool)

  // ----- the steps

  /** Reserves a generation and asks for the credential. */
  function Connect(s: State, project: Option<string>): State {
    if project.None? || project.value == "" || !s.mounted then s
    else
      s.(gen := s.gen + 1, bootstraps := s.bootstraps + [Bootstrap(s.gen + 1, project.value, false)])
  }

  function ClearTimer(s: State): State {
    match s.timerRef
    case None => s
    case Some(t) => s.(timers := s.timers - {t}, timerRef := None)
  }

  function Delay(attempt: nat): (d: nat)
    ensures d in RECONNECT_DELAYS
  {
    RECONNECT_DELAYS[if attempt < |RECONNECT_DELAYS| then attempt else |RECONNECT_DELAYS| - 1]
  }

  function ScheduleReconnect(s: State, project: string): State {
    if !s.mounted then s
    else
      var t := ClearTimer(s);
      t.(attempt := t.attempt + 1,
      timers := t.timers[t.nextTimer := Timer(project, Delay(t.attempt))],
      timerRef := Some(t.nextTimer),
      nextTimer := t.nextTimer + 1)
  }

  function SetStatus(s: State, k: nat, status: Status): State
    requires k < |s.sockets|
  {
    s.(sockets := s.sockets[k := s.sockets[k].(status := status)])
  }

  /** `ws.close()`: no effect on a socket that is closing or closed already. */
  function CloseSocket(s: State, k: nat): State {
    if k < |s.sockets| && (s.sockets[k].status == Connecting || s.sockets[k].status == Open)
    then SetStatus(s, k, Closing) else s
  }

  function CloseCurrent(s: State): State {
    if s.ws.Some? then CloseSocket(s, s.ws.value) else s
  }

  /** The callbacks of a socket do nothing unless its generation is the current one. */
  predicate Heeded(s: State, k: nat) {
    k < |s.sockets| && s.sockets[k].gen == s.gen && s.mounted
  }

  function OnClose(s: State, k: nat): State {
    if Heeded(s, k) then ScheduleReconnect(s.(connected := false), s.sockets[k].project) else s
  }

  /** The cleanup of the effect: on a project change and on unmount. */
  function Cleanup(s: State): State {
    CloseCurrent(ClearTimer(s.(mounted := false, gen := s.gen + 1)))
  }

  function Begin(s: State, project: Option<string>): State {
    Connect(s.(mounted := true, project := project, connected := false), project)
  }

  function Mounted(project: Option<string>): State {
    Begin(State(project, false, 0, [], None, 0, map[], 0, None, [], false, []), project)
  }

  function CloseAtOnce(s: State, k: nat): State {
    if k < |s.sockets| && s.sockets[k].status != Closed then OnClose(SetStatus(s, k, Closed), k) else s
  }

  /** The socket as a reconnect leaves it before it connects again. */
  function ClosedForReconnect(s: State, closesAtOnce: bool): State {
    if closesAtOnce && s.ws.Some? then CloseAtOnce(s, s.ws.value) else CloseCurrent(s)
  }

  /** A manual reconnect; the browser may dispatch `close` while `close()` is being called. */
  function DoReconnect(s: State, closesAtOnce: bool): State {
    var closed := ClosedForReconnect(ClearTimer(s.(attempt := 0)), closesAtOnce);
    Connect(ClearTimer(closed), s.project)
  }

  function FinishBootstrap(s: State, i: nat): State
    requires i < |s.bootstraps|
  {
    s.(bootstraps := s.bootstraps[i := s.bootstraps[i].(done := true)])
  }

  function Step(s: State, e: Event): State {
    match e
    case SwitchProject(project) => if s.mounted then Begin(Cleanup(s), project) else s
    case Unmount => if s.mounted then Cleanup(s) else s
    case BootstrapDone(i, socketOk) =>
      if i < |s.bootstraps| && !s.bootstraps[i].done then
        var t, b := FinishBootstrap(s, i), s.bootstraps[i];
        if b.gen != s.gen || !s.mounted then t
        else if socketOk then t.(sockets := t.sockets + [Socket(b.gen, b.project, Connecting)], ws := Some(|t.sockets|))
        else ScheduleReconnect(t, b.project)
      else s
    case BootstrapFails(i) =>
      if i < |s.bootstraps| && !s.bootstraps[i].done then
        var t, b := FinishBootstrap(s, i), s.bootstraps[i];
        if b.gen == s.gen && s.mounted then ScheduleReconnect(t, b.project) else t
      else s
    case Opens(k) =>
      if k < |s.sockets| && s.sockets[k].status == Connecting then
        var t := SetStatus(s, k, Open);
        if Heeded(s, k) then t.(attempt := 0, connected := true) else t
      else s
    case Notification(k) =>
      if k < |s.sockets| && s.sockets[k].status != Closed && Heeded(s, k) then
        s.(delivered := s.delivered + [Delivery(k, s.sockets[k].project, s.sockets[k].gen, s.project, s.gen)])
      else s
    case Closes(k) =>
      if k < |s.sockets| && s.sockets[k].status != Closed then OnClose(SetStatus(s, k, Closed), k) else s
    case Errors(k) => if k < |s.sockets| && s.sockets[k].gen == s.gen then CloseSocket(s, k) else s
    case PongTimesOut(k) => CloseSocket(s, k)
    case TimerFires(id) =>
      if id in s.timers then
        Connect(s.(timers := s.timers - {id}, timerRef := None), Some(s.timers[id].project))
      else s
    case Reconnect(closesAtOnce) => DoReconnect(s, closesAtOnce)
  }

  function Run(s: State, events: seq<Event>): State {
    if events == [] then s else Step(Run(s, events[..|events| - 1]), events[|events| - 1])
  }

  // ----- what every step keeps

  predicate Down(socket: Socket) { socket.status == Closing || socket.status == Closed }

  predicate AllDown(s: State) { forall k | 0 <= k < |s.sockets| :: Down(s.sockets[k]) }

  /** A credential request of the current generation is still out. */
  predicate Awaiting(s: State) {
    exists i :: 0 <= i < |s.bootstraps| && s.bootstraps[i].gen == s.gen && !s.bootstraps[i].done
  }

  /** At most one timer is pending, the one the ref names, and it is for the current project. */
  ghost predicate TimersOk(s: State) {
    && s.timers.Keys == (if s.timerRef.Some? then {s.timerRef.value} else {})
    && (forall t | t in s.timers :: Some(s.timers[t].project) == s.project && s.timers[t].delay in RECONNECT_DELAYS)
    && (!s.mounted ==> s.timerRef == None)
  }

  /** Only the current socket may be up, and only in the generation and for the project it was opened in. */
  ghost predicate SocketsOk(s: State) {
    && (s.ws.Some? ==> s.ws.value < |s.sockets|)
    && (forall k | 0 <= k < |s.sockets| :: s.sockets[k].gen <= s.gen)
    && (forall k | 0 <= k < |s.sockets| && s.sockets[k].gen == s.gen ::
          s.ws == Some(k) && Some(s.sockets[k].project) == s.project)
    && (forall k | 0 <= k < |s.sockets| && !Down(s.sockets[k]) :: s.ws == Some(k) && s.sockets[k].gen == s.gen)
  }

  ghost predicate BootstrapsOk(s: State) {
    && (forall i | 0 <= i < |s.bootstraps| :: s.bootstraps[i].gen <= s.gen)
    && (forall i, j | 0 <= i < j < |s.bootstraps| :: s.bootstraps[i].gen < s.bootstraps[j].gen)
    && (forall i | 0 <= i < |s.bootstraps| && s.bootstraps[i].gen == s.gen ::
          Some(s.bootstraps[i].project) == s.project)
    && (Awaiting(s) ==> AllDown(s) && forall k | 0 <= k < |s.sockets| :: s.sockets[k].gen != s.gen)
  }

  /** While a reconnect is pending nothing is up and nothing is on its way. */
  ghost predicate WaitingOk(s: State) {
    s.timerRef.Some? ==> AllDown(s) && !Awaiting(s)
  }

  ghost predicate DeliveredOk(s: State) {
    forall d | d in s.delivered :: Some(d.from) == d.project && d.fromGen == d.gen
  }

  ghost predicate Inv(s: State) {
    TimersOk(s) && SocketsOk(s) && BootstrapsOk(s) && WaitingOk(s) && DeliveredOk(s)
  }

  lemma MountedInv(project: Option<string>)
    ensures Inv(Mounted(project))
  {
  }

  /** With nothing up and no timer set, `connect` leaves one credential request of a new generation. */
  lemma ConnectKeeps(s: State, project: Option<string>)
    requires Inv(s) && AllDown(s) && s.timerRef == None && project == s.project
    ensures Inv(Connect(s, project))
  {
    var t := Connect(s, project);
    if t != s {
      assert AllDown(t);
      assert t.bootstraps[|s.bootstraps|].gen == t.gen;
    }
  }

  /** With nothing up and nothing on its way, a reconnect may be scheduled. */
  lemma ScheduleKeeps(s: State, project: string)
    requires Inv(s) && AllDown(s) && !Awaiting(s) && Some(project) == s.project
    ensures Inv(ScheduleReconnect(s, project))
  {
    var t := ScheduleReconnect(s, project);
    if s.mounted {
      var c := ClearTimer(s);
      assert c.timers.Keys == {};
      assert t.timers.Keys == {c.nextTimer};
      assert AllDown(t) && !Awaiting(t);
    }
  }

  lemma ClearKeeps(s: State)
    requires Inv(s)
    ensures Inv(ClearTimer(s)) && ClearTimer(s).timers.Keys == {}
  {
    var t := ClearTimer(s);
    assert AllDown(t) == AllDown(s) && Awaiting(t) == Awaiting(s);
  }

  lemma CloseKeeps(s: State, k: nat)
    requires Inv(s)
    ensures Inv(CloseSocket(s, k))
  {
    var t := CloseSocket(s, k);
    assert Awaiting(t) == Awaiting(s);
    assert AllDown(s) ==> AllDown(t);
  }

  /** Closing the current socket brings everything down, as no other can be up. */
  lemma CloseCurrentDown(s: State)
    requires Inv(s)
    ensures Inv(CloseCurrent(s)) && AllDown(CloseCurrent(s))
  {
    if s.ws.Some? {
      CloseKeeps(s, s.ws.value);
    }
    var t := CloseCurrent(s);
    forall k | 0 <= k < |t.sockets| ensures Down(t.sockets[k]) {
      if s.ws != Some(k) {
        assert Down(s.sockets[k]);
      }
    }
  }

  lemma CleanupDown(s: State)
    requires Inv(s)
    ensures AllDown(Cleanup(s))
  {
    var t := Cleanup(s);
    forall k | 0 <= k < |t.sockets| ensures Down(t.sockets[k]) {
      if s.ws != Some(k) {
        assert Down(s.sockets[k]);
      }
    }
  }

  /** A socket of an earlier generation is down; a new generation outdates them all. */
  lemma CleanupKeeps(s: State)
    requires Inv(s)
    ensures var t := Cleanup(s); Inv(t) && AllDown(t) && t.timerRef == None && !Awaiting(t)
    ensures var t := Cleanup(s);
            && (forall k | 0 <= k < |t.sockets| :: t.sockets[k].gen < t.gen)
            && (forall i | 0 <= i < |t.bootstraps| :: t.bootstraps[i].gen < t.gen)
  {
    var t := Cleanup(s);
    assert ClearTimer(s.(mounted := false, gen := s.gen + 1)).timers.Keys == {};
    CleanupDown(s);
    assert !Awaiting(t);
  }

  lemma SwitchKeeps(s: State, project: Option<string>)
    requires Inv(s)
    ensures Inv(Begin(Cleanup(s), project))
  {
    CleanupKeeps(s);
    var t := Cleanup(s).(mounted := true, project := project, connected := false);
    assert AllDown(t) && !Awaiting(t);
    ConnectKeeps(t, project);
  }

  lemma FinishKeeps(s: State, i: nat)
    requires Inv(s) && i < |s.bootstraps| && !s.bootstraps[i].done
    ensures Inv(FinishBootstrap(s, i))
    ensures s.bootstraps[i].gen == s.gen ==>
              && AllDown(FinishBootstrap(s, i)) && !Awaiting(FinishBootstrap(s, i)) && s.timerRef == None
              && Some(s.bootstraps[i].project) == s.project
              && forall k | 0 <= k < |s.sockets| :: s.sockets[k].gen != s.gen
  {
    var t := FinishBootstrap(s, i);
    if s.bootstraps[i].gen == s.gen {
      assert Awaiting(s);
    }
    assert Awaiting(t) ==> Awaiting(s) by {
      if Awaiting(t) {
        var j :| 0 <= j < |t.bootstraps| && t.bootstraps[j].gen == t.gen && !t.bootstraps[j].done;
        assert s.bootstraps[j].gen == s.gen && !s.bootstraps[j].done;
      }
    }
    assert AllDown(t) == AllDown(s);
  }

  lemma BootstrapDoneKeeps(s: State, i: nat, socketOk: bool)
    requires Inv(s) && i < |s.bootstraps| && !s.bootstraps[i].done
    ensures Inv(Step(s, BootstrapDone(i, socketOk)))
  {
    FinishKeeps(s, i);
    var t, b := FinishBootstrap(s, i), s.bootstraps[i];
    if b.gen == s.gen && s.mounted {
      if socketOk {
        var u := Step(s, BootstrapDone(i, socketOk));
        assert Awaiting(u) == Awaiting(t);
      } else {
        ScheduleKeeps(t, b.project);
      }
    }
  }

  lemma BootstrapFailsKeeps(s: State, i: nat)
    requires Inv(s) && i < |s.bootstraps| && !s.bootstraps[i].done
    ensures Inv(Step(s, BootstrapFails(i)))
  {
    FinishKeeps(s, i);
    if s.bootstraps[i].gen == s.gen && s.mounted {
      ScheduleKeeps(FinishBootstrap(s, i), s.bootstraps[i].project);
    }
  }

  lemma ClosedKeeps(s: State, k: nat)
    requires Inv(s) && k < |s.sockets|
    ensures Inv(SetStatus(s, k, Closed))
  {
    var t := SetStatus(s, k, Closed);
    assert Awaiting(t) == Awaiting(s);
    assert AllDown(s) ==> AllDown(t);
  }

  lemma OnCloseKeeps(s: State, k: nat)
    requires Inv(s) && k < |s.sockets| && Down(s.sockets[k])
    ensures Inv(OnClose(s, k))
    ensures AllDown(s) ==> AllDown(OnClose(s, k))
  {
    if Heeded(s, k) {
      var t := s.(connected := false);
      assert AllDown(t) by {
        forall j | 0 <= j < |t.sockets| ensures Down(t.sockets[j]) {}
      }
      assert Awaiting(t) == Awaiting(s);
      assert !Awaiting(s);
      ScheduleKeeps(t, s.sockets[k].project);
    }
  }

  lemma OpensKeeps(s: State, k: nat)
    requires Inv(s)
    ensures Inv(Step(s, Opens(k)))
  {
    var t := Step(s, Opens(k));
    assert Awaiting(t) == Awaiting(s);
    if k < |s.sockets| && s.sockets[k].status == Connecting {
      assert !Down(s.sockets[k]) && !AllDown(s);
    }
  }

  lemma TimerKeeps(s: State, id: nat)
    requires Inv(s)
    ensures Inv(Step(s, TimerFires(id)))
  {
    if id in s.timers {
      var t := s.(timers := s.timers - {id}, timerRef := None);
      assert t.timers.Keys == {};
      assert AllDown(t) && Awaiting(t) == Awaiting(s);
      ConnectKeeps(t, Some(s.timers[id].project));
    }
  }

  lemma CloseAtOnceDown(s: State, k: nat)
    requires Inv(s) && s.ws == Some(k)
    ensures Inv(CloseAtOnce(s, k)) && AllDown(CloseAtOnce(s, k))
  {
    var t := SetStatus(s, k, Closed);
    ClosedKeeps(s, k);
    forall j | 0 <= j < |t.sockets| ensures Down(t.sockets[j]) {
      if j != k { assert Down(s.sockets[j]); }
    }
    OnCloseKeeps(t, k);
    if s.sockets[k].status == Closed {
      assert t.sockets == s.sockets;
    }
  }

  lemma ResetAttemptKeeps(s: State)
    requires Inv(s)
    ensures Inv(s.(attempt := 0))
  {
    var r := s.(attempt := 0);
    assert AllDown(r) == AllDown(s) && Awaiting(r) == Awaiting(s);
  }

  lemma ClosedDown(s: State, closesAtOnce: bool)
    requires Inv(s)
    ensures var t := ClosedForReconnect(s, closesAtOnce); Inv(t) && AllDown(t) && t.project == s.project
  {
    if closesAtOnce && s.ws.Some? {
      CloseAtOnceDown(s, s.ws.value);
    } else {
      CloseCurrentDown(s);
    }
  }

  lemma ReconnectKeeps(s: State, closesAtOnce: bool)
    requires Inv(s)
    ensures Inv(DoReconnect(s, closesAtOnce))
  {
    var r := s.(attempt := 0);
    ResetAttemptKeeps(s);
    ClearKeeps(r);
    var closed := ClosedForReconnect(ClearTimer(r), closesAtOnce);
    ClosedDown(ClearTimer(r), closesAtOnce);
    ClearKeeps(closed);
    assert AllDown(ClearTimer(closed));
    ConnectKeeps(ClearTimer(closed), s.project);
  }

  lemma NotificationKeeps(s: State, k: nat)
    requires Inv(s)
    ensures Inv(Step(s, Notification(k)))
  {
    var t := Step(s, Notification(k));
    assert AllDown(t) == AllDown(s) && Awaiting(t) == Awaiting(s);
  }

  lemma StepKeeps(s: State, e: Event)
    requires Inv(s)
    ensures Inv(Step(s, e))
  {
    match e
    case SwitchProject(project) => SwitchKeeps(s, project);
    case Unmount => CleanupKeeps(s);
    case BootstrapDone(i, ok) => if i < |s.bootstraps| && !s.bootstraps[i].done { BootstrapDoneKeeps(s, i, ok); }
    case BootstrapFails(i) => if i < |s.bootstraps| && !s.bootstraps[i].done { BootstrapFailsKeeps(s, i); }
    case Opens(k) => OpensKeeps(s, k);
    case Notification(k) => NotificationKeeps(s, k);
    case Closes(k) =>
      if k < |s.sockets| && s.sockets[k].status != Closed {
        ClosedKeeps(s, k);
        OnCloseKeeps(SetStatus(s, k, Closed), k);
      }
    case Errors(k) => CloseKeeps(s, k);
    case PongTimesOut(k) => CloseKeeps(s, k);
    case TimerFires(id) => TimerKeeps(s, id);
    case Reconnect(closesAtOnce) => ReconnectKeeps(s, closesAtOnce);
  }

  /**
   Over every run of project switches, manual reconnects, credential answers and socket events: notifications
   come only from the socket opened for the current project and generation, every other socket is closed or has
   been told to close, and at most one reconnect timer is pending, for the current project.
   */
  lemma {:induction false} RunKeeps(project: Option<string>, events: seq<Event>)
    ensures Inv(Run(Mounted(project), events))
  {
    if events == [] {
      MountedInv(project);
    } else {
      RunKeeps(project, events[..|events| - 1]);
      StepKeeps(Run(Mounted(project), events[..|events| - 1]), events[|events| - 1]);
    }
  }

  /**
   What the invariant says of the outside: at most one socket is up, it is the current one, and at most one
   timer is set.
   */
  lemma AtMostOneUp(s: State, j: nat, k: nat)
    requires Inv(s) && j < |s.sockets| && k < |s.sockets|
    requires !Down(s.sockets[j]) && !Down(s.sockets[k])
    ensures j == k && Some(s.sockets[j].project) == s.project && s.timers == map[]
  {
    assert !AllDown(s);
    assert s.timers.Keys == {};
  }

  /** What was delivered stays delivered, and nothing is added to it that came from socket `k`. */
  ghost predicate NothingFrom(was: seq<Delivery>, now: seq<Delivery>, k: nat) {
    was <= now && forall i | |was| <= i < |now| :: now[i].socket != k
  }

  /** The sockets of `s` keep their generations in `t`, the counter does not go back, and nothing is delivered. */
  ghost predicate Quiet(s: State, t: State) {
    && |s.sockets| <= |t.sockets| && s.gen <= t.gen && s.delivered == t.delivered
    && forall k | 0 <= k < |s.sockets| :: t.sockets[k].gen == s.sockets[k].gen
  }

  lemma TimersQuiet(s: State, project: Option<string>, p: string)
    ensures Quiet(s, Connect(s, project)) && Quiet(s, ClearTimer(s)) && Quiet(s, ScheduleReconnect(s, p))
  {
  }

  lemma CloseQuiet(s: State, k: nat)
    ensures Quiet(s, CloseSocket(s, k)) && Quiet(s, CloseCurrent(s))
  {
  }

  lemma OnCloseQuiet(s: State, k: nat)
    requires k < |s.sockets|
    ensures Quiet(s, OnClose(SetStatus(s, k, Closed), k))
  {
    TimersQuiet(SetStatus(s, k, Closed).(connected := false), None, s.sockets[k].project);
  }

  lemma CleanupQuiet(s: State)
    ensures Quiet(s, Cleanup(s))
  {
    CloseQuiet(ClearTimer(s.(mounted := false, gen := s.gen + 1)), 0);
  }

  lemma ReconnectQuiet(s: State, closesAtOnce: bool)
    ensures Quiet(s, DoReconnect(s, closesAtOnce))
  {
    var r := ClearTimer(s.(attempt := 0));
    var closed := if closesAtOnce && r.ws.Some? then CloseAtOnce(r, r.ws.value) else CloseCurrent(r);
    CloseQuiet(r, 0);
    if closesAtOnce && r.ws.Some? && r.ws.value < |r.sockets| {
      OnCloseQuiet(r, r.ws.value);
    }
    assert Quiet(s, closed);
    TimersQuiet(closed, None, "");
    TimersQuiet(ClearTimer(closed), s.project, "");
  }

  lemma BootstrapQuiet(s: State, i: nat, ok: bool)
    ensures Quiet(s, Step(s, BootstrapDone(i, ok))) && Quiet(s, Step(s, BootstrapFails(i)))
  {
    if i < |s.bootstraps| {
      TimersQuiet(FinishBootstrap(s, i), None, s.bootstraps[i].project);
    }
  }

  lemma SwitchQuiet(s: State, project: Option<string>)
    ensures Quiet(s, Step(s, SwitchProject(project)))
  {
    CleanupQuiet(s);
    TimersQuiet(Cleanup(s).(mounted := true, project := project, connected := false), project, "");
  }

  lemma StepQuiet(s: State, e: Event)
    requires !e.Notification?
    ensures Quiet(s, Step(s, e))
  {
    match e
    case SwitchProject(project) => SwitchQuiet(s, project);
    case Unmount => CleanupQuiet(s);
    case BootstrapDone(i, ok) => BootstrapQuiet(s, i, ok);
    case BootstrapFails(i) => BootstrapQuiet(s, i, true);
    case Opens(k) =>
    case Closes(k) => if k < |s.sockets| { OnCloseQuiet(s, k); }
    case Errors(k) => CloseQuiet(s, k);
    case PongTimesOut(k) => CloseQuiet(s, k);
    case TimerFires(id) =>
      if id in s.timers {
        TimersQuiet(s.(timers := s.timers - {id}, timerRef := None), Some(s.timers[id].project), "");
      }
    case Reconnect(closesAtOnce) => ReconnectQuiet(s, closesAtOnce);
  }

  lemma StillOld(s: State, e: Event, k: nat)
    requires k < |s.sockets| && s.sockets[k].gen < s.gen
    ensures var t := Step(s, e);
            k < |t.sockets| && t.sockets[k].gen < t.gen && NothingFrom(s.delivered, t.delivered, k)
  {
    if !e.Notification? {
      StepQuiet(s, e);
    }
  }

  /** After a project switch the sockets of before are never heeded again. */
  lemma {:induction false} OldSocketsSilent(s: State, events: seq<Event>, k: nat)
    requires k < |s.sockets| && s.sockets[k].gen < s.gen
    ensures var t := Run(s, events);
            k < |t.sockets| && t.sockets[k].gen < t.gen && NothingFrom(s.delivered, t.delivered, k)
  {
    if events != [] {
      var before := events[..|events| - 1];
      OldSocketsSilent(s, before, k);
      StillOld(Run(s, before), events[|events| - 1], k);
    }
  }

  // ----- the hook in place

  lemma ProjectStays(s: State, closesAtOnce: bool)
    ensures ClearTimer(ClosedForReconnect(ClearTimer(s.(attempt := 0)), closesAtOnce)).project == s.project
  {
  }

  /** The hook's refs and states, with the browser objects it holds on to. */
  class SocketHook {
    var project: Option<string>
    var mounted: bool
    var gen: nat
    var sockets: seq<Socket>
    var ws: Option<nat>
    var reconnectAttempt: nat
    var timers: map<nat, Timer>
    var nextTimer: nat
    var reconnectTimer: Option<nat>
    var bootstraps: seq<Bootstrap>
    var connected: bool
    var delivered: seq<Delivery>

    ghost function Now(): State
      reads this
    {
      State(project, mounted, gen, sockets, ws, reconnectAttempt, timers, nextTimer, reconnectTimer, bootstraps,
            connected, delivered)
    }

    constructor (project: Option<string>)
      ensures Now() == Mounted(project)
    {
      this.project, mounted, gen, sockets, ws := project, true, 0, [], None;
      reconnectAttempt, timers, nextTimer, reconnectTimer, bootstraps := 0, map[], 0, None, [];
      connected, delivered := false, [];
      new;
      StartConnect(project);
    }

    /** `connect` up to the point where it waits for the credential. */
    method StartConnect(p: Option<string>)
      modifies this`gen, this`bootstraps
      ensures Now() == Connect(old(Now()), p)
    {
      if p.None? || p.value == "" || !mounted {
        return;
      }
      gen := gen + 1;
      bootstraps := bootstraps + [Bootstrap(gen, p.value, false)];
    }

    method CancelTimer()
      modifies this`timers, this`reconnectTimer
      ensures Now() == ClearTimer(old(Now()))
    {
      if reconnectTimer.Some? {
        timers := timers - {reconnectTimer.value};
        reconnectTimer := None;
      }
    }

    method Schedule(p: string)
      modifies this`timers, this`reconnectTimer, this`nextTimer, this`reconnectAttempt
      ensures Now() == ScheduleReconnect(old(Now()), p)
    {
      if !mounted {
        return;
      }
      CancelTimer();
      var delay := Delay(reconnectAttempt);
      reconnectAttempt := reconnectAttempt + 1;
      timers := timers[nextTimer := Timer(p, delay)];
      reconnectTimer := Some(nextTimer);
      nextTimer := nextTimer + 1;
    }

    method TellToClose(k: nat)
      modifies this`sockets
      ensures Now() == CloseSocket(old(Now()), k)
    {
      if k < |sockets| && (sockets[k].status == Connecting || sockets[k].status == Open) {
        sockets := sockets[k := sockets[k].(status := Closing)];
      }
    }

    method HandleClose(k: nat)
      modifies this
      ensures Now() == OnClose(old(Now()), k)
    {
      if k >= |sockets| || sockets[k].gen != gen || !mounted {
        return;
      }
      connected := false;
      Schedule(sockets[k].project);
    }

    /** A `close()` whose close event is dispatched before it returns. */
    method CloseNow(k: nat)
      modifies this
      ensures Now() == CloseAtOnce(old(Now()), k)
    {
      if k < |sockets| && sockets[k].status != Closed {
        sockets := sockets[k := sockets[k].(status := Closed)];
        HandleClose(k);
      }
    }

    method EffectCleanup()
      modifies this
      ensures Now() == Cleanup(old(Now()))
    {
      mounted := false;
      gen := gen + 1;
      CancelTimer();
      if ws.Some? {
        TellToClose(ws.value);
      }
    }

    method OnSwitch(p: Option<string>)
      modifies this
      ensures Now() == Step(old(Now()), SwitchProject(p))
    {
      if mounted {
        EffectCleanup();
        mounted := true;
        project := p;
        connected := false;
        StartConnect(p);
      }
    }

    method OnUnmount()
      modifies this
      ensures Now() == Step(old(Now()), Unmount)
    {
      if mounted {
        EffectCleanup();
      }
    }

    method OnBootstrap(i: nat, socketOk: bool)
      modifies this
      ensures Now() == Step(old(Now()), BootstrapDone(i, socketOk))
    {
      if i >= |bootstraps| || bootstraps[i].done {
        return;
      }
      var b := bootstraps[i];
      bootstraps := bootstraps[i := b.(done := true)];
      if b.gen != gen || !mounted {
        return;
      }
      if !socketOk {
        Schedule(b.project);
        return;
      }
      ws := Some(|sockets|);
      sockets := sockets + [Socket(b.gen, b.project, Connecting)];
    }

    method OnBootstrapFailure(i: nat)
      modifies this
      ensures Now() == Step(old(Now()), BootstrapFails(i))
    {
      if i >= |bootstraps| || bootstraps[i].done {
        return;
      }
      var b := bootstraps[i];
      bootstraps := bootstraps[i := b.(done := true)];
      if b.gen == gen && mounted {
        Schedule(b.project);
      }
    }

    method OnOpen(k: nat)
      modifies this
      ensures Now() == Step(old(Now()), Opens(k))
    {
      if k >= |sockets| || sockets[k].status != Connecting {
        return;
      }
      sockets := sockets[k := sockets[k].(status := Open)];
      if sockets[k].gen != gen || !mounted {
        return;
      }
      reconnectAttempt := 0;
      connected := true;
    }

    method OnNotification(k: nat)
      modifies this
      ensures Now() == Step(old(Now()), Notification(k))
    {
      if k >= |sockets| || sockets[k].status == Closed || sockets[k].gen != gen || !mounted {
        return;
      }
      delivered := delivered + [Delivery(k, sockets[k].project, sockets[k].gen, project, gen)];
    }

    method OnClosed(k: nat)
      modifies this
      ensures Now() == Step(old(Now()), Closes(k))
    {
      if k < |sockets| && sockets[k].status != Closed {
        sockets := sockets[k := sockets[k].(status := Closed)];
        HandleClose(k);
      }
    }

    method OnError(k: nat)
      modifies this
      ensures Now() == Step(old(Now()), Errors(k))
    {
      if k < |sockets| && sockets[k].gen == gen {
        TellToClose(k);
      }
    }

    method OnPongTimeout(k: nat)
      modifies this
      ensures Now() == Step(old(Now()), PongTimesOut(k))
    {
      TellToClose(k);
    }

    method OnTimer(id: nat)
      modifies this
      ensures Now() == Step(old(Now()), TimerFires(id))
    {
      if id in timers {
        var p := timers[id].project;
        timers := timers - {id};
        reconnectTimer := None;
        StartConnect(Some(p));
      }
    }

    method CloseForReconnect(closesAtOnce: bool)
      modifies this
      ensures Now() == ClosedForReconnect(old(Now()), closesAtOnce)
    {
      if ws.Some? {
        var k := ws.value;
        if closesAtOnce {
          CloseNow(k);
        } else {
          TellToClose(k);
        }
      }
    }

    method OnReconnect(closesAtOnce: bool)
      modifies this
      ensures Now() == Step(old(Now()), Reconnect(closesAtOnce))
    {
      ghost var start := Now();
      reconnectAttempt := 0;
      CancelTimer();
      ghost var cleared := Now();
      assert cleared == ClearTimer(start.(attempt := 0));
      CloseForReconnect(closesAtOnce);
      ghost var closed := Now();
      assert closed == ClosedForReconnect(cleared, closesAtOnce);
      CancelTimer();
      ProjectStays(start, closesAtOnce);
      assert Now() == ClearTimer(closed) && project == start.project;
      StartConnect(project);
    }
  }
}
