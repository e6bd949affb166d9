/**
 * The tunnel supervisor: it owns at most one cloudflared child, respawns it when it
 * dies, and stops respawning when that happens too often.
 */
module Tunnel {
  import opened Common

  const RESTART_WINDOW_MS := 5 * 60 * 1000
  const MAX_RESTARTS_IN_WINDOW := 5

  datatype Status = Up | Degraded | Down

  /** Which call spawned the child, hence where its failure to come up is reported. */
  datatype Origin = ByStart | ByRestart | ByRespawn

  /** `told` says that the manager has called `stop` on the child. */
  datatype Child = Child(
    origin: Origin, running: bool, told: bool, exitSeen: bool, urlReceived: bool, timerArmed: bool, rejected: bool)

  /**
   * `restarting` are the children whose exit a suspended `restart` awaits; `failing`
   * and `stopping` count resumptions of `restart` and `stop` that are still due.
   */
  datatype Manager = Manager(
    children: map<nat, Child>,
    next: nat,
    current: Option<nat>,
    status: Status,
    restarts: seq<int>,
    suspended: bool,
    stopped: bool,
    restarting: multiset<nat>,
    failing: nat,
    stopping: nat,
    clock: int)

  // ---------------------------------------------------------------- specification

  predicate IsRunning(m: Manager, p: nat) {
    p in m.children && m.children[p].running
  }

  /** `proc.stop()`: a signal for a child that is still there. */
  function Told(m: Manager, p: nat): Manager {
    if IsRunning(m, p) then m.(children := m.children[p := m.children[p].(told := true)]) else m
  }

  /** A signal touches nothing but the child. */
  lemma ToldKeepsFields(m: Manager, p: nat)
    ensures Told(m.(current := None), p) == Told(m, p).(current := None)
    ensures Told(m, p).restarting == m.restarting
  {
  }

  function NewChild(origin: Origin): Child {
    Child(origin, true, false, false, false, true, false)
  }

  /** A new child becomes the current one; a current child that still runs is stopped first. */
  function Spawned(m: Manager, origin: Origin): Manager {
    var m' := if m.current.Some? then Told(m, m.current.value) else m;
    m'.(children := m'.children[m.next := NewChild(origin)], next := m.next + 1, current := Some(m.next))
  }

  function InWindow(now: int): int -> bool {
    (t: int) => now - t < RESTART_WINDOW_MS
  }

  function Degrade(m: Manager): Manager {
    m.(suspended := true, status := Degraded)
  }

  predicate WillRespawn(m: Manager) {
    && !m.suspended && !m.stopped
    && |Filter(m.restarts, InWindow(m.clock))| < MAX_RESTARTS_IN_WINDOW
  }

  function Respawn(m: Manager): Manager {
    if m.suspended || m.stopped then m
    else
      var m' := m.(restarts := Filter(m.restarts, InWindow(m.clock)) + [m.clock]);
      if WillRespawn(m) then Spawned(m', ByRespawn) else Degrade(m')
  }

  function Dropped(m: Manager, p: nat): Manager {
    if m.current == Some(p) then m.(current := None) else m
  }

  /** The promise of the call that spawned `p` rejects; a `restart` will resume on it. */
  function Rejected(m: Manager, p: nat): Manager
    requires p in m.children
  {
    if m.children[p].rejected then m
    else m.(children := m.children[p := m.children[p].(rejected := true)],
            failing := if m.children[p].origin == ByRestart then m.failing + 1 else m.failing)
  }

  /** Where a child that never produced a URL is reported. */
  function FailedToStart(m: Manager, p: nat): Manager
    requires p in m.children
  {
    if m.children[p].origin == ByRespawn then Respawn(m) else Rejected(m, p)
  }

  function UrlSeen(m: Manager, p: nat): Manager
    requires p in m.children
  {
    if m.children[p].urlReceived then m
    else m.(children := m.children[p := m.children[p].(urlReceived := true, timerArmed := false)], status := Up)
  }

  /** The child is gone: its timer is cleared and it is no longer the current one. */
  function Gone(m: Manager, p: nat): Manager
    requires p in m.children
  {
    Dropped(m.(children := m.children[p := m.children[p].(running := false, exitSeen := true, timerArmed := false)]), p)
  }

  function Exited(m: Manager, p: nat): Manager
    requires p in m.children
  {
    if m.stopped then Gone(m, p)
    else if m.children[p].urlReceived then Respawn(Gone(m, p)) else FailedToStart(Gone(m, p), p)
  }

  function TimerOff(m: Manager, p: nat): Manager
    requires p in m.children
  {
    m.(children := m.children[p := m.children[p].(timerArmed := false)])
  }

  /** The child produced no URL in time: it is given up and told to stop. */
  function GivenUp(m: Manager, p: nat): Manager
    requires p in m.children
  {
    Told(Dropped(TimerOff(m, p), p), p)
  }

  function TimedOut(m: Manager, p: nat): Manager
    requires p in m.children
  {
    if m.children[p].urlReceived then TimerOff(m, p) else FailedToStart(GivenUp(m, p), p)
  }

  function Started(m: Manager): Manager {
    if m.current.Some? then m else Spawned(m.(stopped := false), ByStart)
  }

  /** With no child to wait for, `stop` ends without yielding. */
  function StopCalled(m: Manager): Manager {
    if m.stopped && m.current.None? then m
    else if m.current.None? then m.(stopped := true, status := Down)
    else Told(m.(stopped := true, stopping := m.stopping + 1), m.current.value).(current := None)
  }

  /** With no child to wait for, `restart` spawns without yielding. */
  function RestartCalled(m: Manager): Manager {
    var m' := m.(suspended := false, restarts := [], stopped := false);
    if m.current.Some?
    then Told(m', m.current.value).(current := None, restarting := m.restarting + multiset{m.current.value})
    else Spawned(m', ByRestart)
  }

  datatype Event =
    | Start
    | Url(p: nat)
    | Exit(p: nat)
    | ChildError(p: nat)
    | Timeout(p: nat)
    | StopCall
    | StopResumes
    | RestartCall
    | RestartResumes(p: nat)
    | RestartFails
    | Tick(dt: nat)

  /** A child exits once, a timer fires only while armed, and an awaited `stop` ends with its child. */
  predicate Allowed(m: Manager, e: Event) {
    match e
    case Url(p) => p in m.children
    case Exit(p) => p in m.children && !m.children[p].exitSeen
    case ChildError(p) => p in m.children
    case Timeout(p) => p in m.children && m.children[p].timerArmed
    case StopResumes => m.stopping > 0
    case RestartResumes(p) => p in m.restarting && !IsRunning(m, p)
    case RestartFails => m.failing > 0
    case _ => true
  }

  function Step(m: Manager, e: Event): Manager
    requires Allowed(m, e)
  {
    match e
    case Start => Started(m)
    case Url(p) => UrlSeen(m, p)
    case Exit(p) => Exited(m, p)
    case ChildError(p) => m.(children := m.children[p := m.children[p].(running := false)])
    case Timeout(p) => TimedOut(m, p)
    case StopCall => StopCalled(m)
    case StopResumes => m.(stopping := m.stopping - 1, status := Down)
    case RestartCall => RestartCalled(m)
    case RestartResumes(p) => Spawned(m.(restarting := m.restarting - multiset{p}), ByRestart)
    case RestartFails => Degrade(m.(failing := m.failing - 1))
    case Tick(dt) => m.(clock := m.clock + dt)
  }

  predicate Initial(m: Manager) {
    && m.children == map[] && m.next == 0 && m.current.None? && m.status == Down && m.restarts == []
    && !m.suspended && !m.stopped && m.restarting == multiset{} && m.failing == 0 && m.stopping == 0
  }

  ghost predicate IsRun(ms: seq<Manager>, es: seq<Event>) {
    && |ms| == |es| + 1
    && Initial(ms[0])
    && forall i :: 0 <= i < |es| ==> Allowed(ms[i], es[i]) && ms[i + 1] == Step(ms[i], es[i])
  }

  // ------------------------------------------------------- one child at a time

  /** Children that run and have not been told to stop. */
  function Live(m: Manager): (r: set<nat>)
    ensures forall p :: p in r <==> p in m.children && m.children[p].running && !m.children[p].told
  {
    set p | p in m.children && m.children[p].running && !m.children[p].told
  }

  function CurrentSet(m: Manager): set<nat> {
    if m.current.Some? then {m.current.value} else {}
  }

  ghost predicate Inv(m: Manager) {
    && Live(m) <= CurrentSet(m)
    && (forall p :: p in m.children ==> p < m.next)
    && |m.restarts| <= MAX_RESTARTS_IN_WINDOW + 1
    && (|m.restarts| > MAX_RESTARTS_IN_WINDOW ==> m.suspended)
  }

  lemma SpawnKeepsInv(m: Manager, origin: Origin)
    requires Inv(m)
    ensures Inv(Spawned(m, origin))
  {
  }

  lemma RespawnKeepsInv(m: Manager)
    requires Inv(m)
    ensures Inv(Respawn(m))
  {
  }

  lemma FailureKeepsInv(m: Manager, p: nat)
    requires Inv(m) && p in m.children
    ensures Inv(FailedToStart(m, p))
  {
  }

  lemma ExitKeepsInv(m: Manager, p: nat)
    requires Inv(m) && p in m.children
    ensures Inv(Exited(m, p))
  {
    assert Inv(Gone(m, p)) && p in Gone(m, p).children;
    hide Gone, Respawn, FailedToStart, Inv;
    RespawnKeepsInv(Gone(m, p));
    FailureKeepsInv(Gone(m, p), p);
  }

  lemma TimeoutKeepsInv(m: Manager, p: nat)
    requires Inv(m) && p in m.children
    ensures Inv(TimedOut(m, p))
  {
    assert Inv(GivenUp(m, p));
    FailureKeepsInv(GivenUp(m, p), p);
  }

  lemma CallKeepsInv(m: Manager, e: Event)
    requires Inv(m) && Allowed(m, e)
    requires e == Start || e == StopCall || e == RestartCall || e.RestartResumes?
    ensures Inv(Step(m, e))
  {
    match e
    case Start => SpawnKeepsInv(m.(stopped := false), ByStart);
    case StopCall =>
    case RestartCall => SpawnKeepsInv(m.(suspended := false, restarts := [], stopped := false), ByRestart);
    case RestartResumes(p) => SpawnKeepsInv(m.(restarting := m.restarting - multiset{p}), ByRestart);
  }

  lemma StepKeepsInv(m: Manager, e: Event)
    requires Inv(m) && Allowed(m, e)
    ensures Inv(Step(m, e))
  {
    match e
    case Exit(p) => ExitKeepsInv(m, p);
    case Timeout(p) => TimeoutKeepsInv(m, p);
    case Start => CallKeepsInv(m, e);
    case StopCall => CallKeepsInv(m, e);
    case RestartCall => CallKeepsInv(m, e);
    case RestartResumes(p) => CallKeepsInv(m, e);
    case _ =>
  }

  lemma {:induction false} InvAt(ms: seq<Manager>, es: seq<Event>, n: nat)
    requires IsRun(ms, es) && n <= |es|
    ensures Inv(ms[n])
  {
    if n > 0 {
      InvAt(ms, es, n - 1);
      StepKeepsInv(ms[n - 1], es[n - 1]);
    }
  }

  /** In every interleaving at most one child runs without having been told to stop: the current one. */
  lemma AtMostOneLiveChild(ms: seq<Manager>, es: seq<Event>, n: nat)
    requires IsRun(ms, es) && n <= |es|
    ensures Live(ms[n]) <= CurrentSet(ms[n])
    ensures |Live(ms[n])| <= 1
  {
    InvAt(ms, es, n);
    assert |CurrentSet(ms[n])| <= 1;
    SubsetIsSmaller(Live(ms[n]), CurrentSet(ms[n]));
  }

  lemma SubsetIsSmaller(a: set<nat>, b: set<nat>)
    requires a <= b
    ensures |a| <= |b|
  {
    assert b == a + (b - a);
  }

  // ------------------------------------------------------------ the rate limiter

  /** Does this event respawn a child automatically? */
  predicate Respawns(m: Manager, e: Event)
    requires Allowed(m, e)
  {
    var m' := Step(m, e);
    m'.next > m.next && m.next in m'.children && m'.children[m.next].origin == ByRespawn
  }

  /** The automatic respawns among events `i..j`. */
  ghost function RespawnCount(ms: seq<Manager>, es: seq<Event>, i: nat, j: nat): nat
    requires IsRun(ms, es) && i <= j <= |es|
  {
    if i == j then 0
    else RespawnCount(ms, es, i, j - 1) + (if Respawns(ms[j - 1], es[j - 1]) then 1 else 0)
  }

  function Since(start: int): int -> bool {
    (t: int) => t >= start
  }

  /** The state in which an event calls `attemptRespawn`, if it does. */
  function RespawnPoint(m: Manager, e: Event): Option<Manager>
    requires Allowed(m, e)
  {
    match e
    case Exit(p) =>
      if m.stopped || (!m.children[p].urlReceived && m.children[p].origin != ByRespawn) then None else Some(Gone(m, p))
    case Timeout(p) =>
      if m.children[p].urlReceived || m.children[p].origin != ByRespawn then None else Some(GivenUp(m, p))
    case _ => None
  }

  lemma RespawnPointStep(m: Manager, e: Event)
    requires Allowed(m, e) && RespawnPoint(m, e).Some?
    ensures var at := RespawnPoint(m, e).value;
            && Step(m, e) == Respawn(at)
            && at.(children := m.children, current := m.current) == m
  {
  }

  lemma SpawnEffect(m: Manager, origin: Origin)
    ensures m.next in Spawned(m, origin).children && Spawned(m, origin).children[m.next] == NewChild(origin)
    ensures Spawned(m, origin).restarts == m.restarts && Spawned(m, origin).suspended == m.suspended
  {
  }

  lemma ExitRejects(m: Manager, p: nat)
    requires p in m.children && !m.children[p].exitSeen && RespawnPoint(m, Exit(p)).None?
    ensures Exited(m, p).next == m.next && Exited(m, p).restarts == m.restarts && Exited(m, p).suspended == m.suspended
  {
  }

  lemma TimeoutRejects(m: Manager, p: nat)
    requires p in m.children && m.children[p].timerArmed && RespawnPoint(m, Timeout(p)).None?
    ensures TimedOut(m, p).next == m.next && TimedOut(m, p).restarts == m.restarts
    ensures TimedOut(m, p).suspended == m.suspended
  {
    hide Respawn;
  }

  lemma OtherStep(m: Manager, e: Event)
    requires Inv(m) && Allowed(m, e) && RespawnPoint(m, e).None?
    ensures !Respawns(m, e)
    ensures e != RestartCall ==> Step(m, e).restarts == m.restarts && (m.suspended ==> Step(m, e).suspended)
  {
    hide Exited, TimedOut, Spawned;
    match e
    case Exit(p) => ExitRejects(m, p);
    case Timeout(p) => TimeoutRejects(m, p);
    case Start => SpawnEffect(m.(stopped := false), ByStart);
    case RestartCall => SpawnEffect(m.(suspended := false, restarts := [], stopped := false), ByRestart);
    case RestartResumes(p) => SpawnEffect(m.(restarting := m.restarting - multiset{p}), ByRestart);
    case _ =>
  }

  lemma RespawnEffect(m: Manager)
    ensures Respawn(m).next > m.next <==> WillRespawn(m)
    ensures WillRespawn(m) ==> m.next in Respawn(m).children && Respawn(m).children[m.next].origin == ByRespawn
    ensures !m.suspended && !m.stopped ==> Respawn(m).restarts == Filter(m.restarts, InWindow(m.clock)) + [m.clock]
    ensures m.suspended || m.stopped ==> Respawn(m) == m
    ensures Respawn(m).clock == m.clock
  {
  }

  /** An event respawns exactly when it reaches `attemptRespawn` and the limiter lets it through. */
  lemma RespawnsOnlyThere(m: Manager, e: Event)
    requires Inv(m) && Allowed(m, e)
    ensures Respawns(m, e) <==> RespawnPoint(m, e).Some? && WillRespawn(RespawnPoint(m, e).value)
  {
    hide Step, Respawn, Inv;
    if RespawnPoint(m, e).Some? {
      RespawnPointStep(m, e);
      RespawnEffect(RespawnPoint(m, e).value);
    } else {
      OtherStep(m, e);
    }
  }

  /** Within one window the list of timestamps remembers every respawn. */
  lemma LimiterStep(m: Manager, e: Event, start: int)
    requires Inv(m) && Allowed(m, e) && e != RestartCall
    requires start <= m.clock < start + RESTART_WINDOW_MS
    ensures |Filter(Step(m, e).restarts, Since(start))|
         >= |Filter(m.restarts, Since(start))| + (if Respawns(m, e) then 1 else 0)
    ensures Respawns(m, e) ==> |Step(m, e).restarts| <= MAX_RESTARTS_IN_WINDOW
  {
    RespawnsOnlyThere(m, e);
    hide Step, Respawn, Respawns;
    if RespawnPoint(m, e).None? {
      OtherStep(m, e);
      return;
    }
    RespawnPointStep(m, e);
    RespawnEffect(RespawnPoint(m, e).value);
    if !m.suspended && !m.stopped {
      var kept := Filter(m.restarts, InWindow(m.clock));
      FilterFilter(m.restarts, InWindow(m.clock), Since(start), Since(start));
      FilterSnoc(kept, m.clock, Since(start));
    }
  }

  lemma {:induction false} ClockMonotone(ms: seq<Manager>, es: seq<Event>, i: nat, j: nat)
    requires IsRun(ms, es) && i <= j <= |es|
    ensures ms[i].clock <= ms[j].clock
    decreases j
  {
    hide Step;
    if i < j {
      ClockMonotone(ms, es, i, j - 1);
      ClockStep(ms[j - 1], es[j - 1]);
    }
  }

  lemma ClockStep(m: Manager, e: Event)
    requires Allowed(m, e)
    ensures Step(m, e).clock >= m.clock
  {
    hide Respawn;
    if RespawnPoint(m, e).Some? {
      RespawnPointStep(m, e);
      RespawnEffect(RespawnPoint(m, e).value);
    }
  }

  lemma {:induction false} RespawnsRemembered(ms: seq<Manager>, es: seq<Event>, i: nat, j: nat)
    requires IsRun(ms, es) && i <= j <= |es|
    requires ms[j].clock < ms[i].clock + RESTART_WINDOW_MS
    requires forall m :: i <= m < j ==> es[m] != RestartCall
    ensures RespawnCount(ms, es, i, j) <= |Filter(ms[j].restarts, Since(ms[i].clock))|
    ensures RespawnCount(ms, es, i, j) <= MAX_RESTARTS_IN_WINDOW
    decreases j
  {
    hide Step, Respawns, Inv;
    if i < j {
      ClockMonotone(ms, es, i, j - 1);
      ClockMonotone(ms, es, j - 1, j);
      InvAt(ms, es, j - 1);
      RespawnsRemembered(ms, es, i, j - 1);
      LimiterStep(ms[j - 1], es[j - 1], ms[i].clock);
    }
  }

  /** Without a manual restart in between, six automatic respawns take at least five minutes. */
  lemma SixRespawnsSpanAWindow(ms: seq<Manager>, es: seq<Event>, i: nat, j: nat)
    requires IsRun(ms, es) && i <= j <= |es|
    requires forall m :: i <= m < j ==> es[m] != RestartCall
    requires RespawnCount(ms, es, i, j) >= 6
    ensures ms[j].clock - ms[i].clock >= RESTART_WINDOW_MS
  {
    if ms[j].clock < ms[i].clock + RESTART_WINDOW_MS {
      RespawnsRemembered(ms, es, i, j);
    }
  }

  lemma SuspendedStep(m: Manager, e: Event)
    requires Inv(m) && Allowed(m, e) && m.suspended && e != RestartCall
    ensures Step(m, e).suspended && !Respawns(m, e)
  {
    hide Step, Respawn, Respawns;
    RespawnsOnlyThere(m, e);
    if RespawnPoint(m, e).Some? {
      RespawnPointStep(m, e);
      RespawnEffect(RespawnPoint(m, e).value);
    } else {
      OtherStep(m, e);
    }
  }

  /** Once suspended, nothing respawns until `restart()`. */
  lemma {:induction false} SuspendedUntilRestart(ms: seq<Manager>, es: seq<Event>, i: nat, j: nat)
    requires IsRun(ms, es) && i <= j <= |es| && ms[i].suspended
    requires forall m :: i <= m < j ==> es[m] != RestartCall
    ensures ms[j].suspended && RespawnCount(ms, es, i, j) == 0
    decreases j
  {
    hide Step, Respawns, Inv;
    if i < j {
      SuspendedUntilRestart(ms, es, i, j - 1);
      InvAt(ms, es, j - 1);
      SuspendedStep(ms[j - 1], es[j - 1]);
    }
  }

  // ------------------------------------------------- when it does let one through

  /** An exit or a timeout that asks for a replacement, in a manager that may make one. */
  predicate Attempts(m: Manager, e: Event)
    requires Allowed(m, e)
  {
    && !m.stopped && !m.suspended
    && match e
       case Exit(p) => m.children[p].urlReceived || m.children[p].origin == ByRespawn
       case Timeout(p) => !m.children[p].urlReceived && m.children[p].origin == ByRespawn
       case _ => false
  }

  /** The times of the attempts among the first `n` events, since the last manual restart. */
  ghost function AttemptTimes(ms: seq<Manager>, es: seq<Event>, n: nat): seq<int>
    requires IsRun(ms, es) && n <= |es|
  {
    if n == 0 || es[n - 1] == RestartCall then []
    else if Attempts(ms[n - 1], es[n - 1]) then AttemptTimes(ms, es, n - 1) + [ms[n - 1].clock]
    else AttemptTimes(ms, es, n - 1)
  }

  function LessThanFiveMinutesBefore(now: int): int -> bool {
    (t: int) => now - t < 300000
  }

  lemma AttemptsIffRespawnPoint(m: Manager, e: Event)
    requires Allowed(m, e)
    ensures Attempts(m, e) <==> RespawnPoint(m, e).Some? && !m.stopped && !m.suspended
  {
  }

  /** What an attempt, and anything else, does to the recorded times. */
  lemma RecordedStep(m: Manager, e: Event, start: int)
    requires Inv(m) && Allowed(m, e) && m.clock < start + 300000
    ensures Filter(Step(m, e).restarts, Since(start)) ==
              if e == RestartCall then []
              else Filter(m.restarts, Since(start)) + (if Attempts(m, e) && m.clock >= start then [m.clock] else [])
  {
    AttemptsIffRespawnPoint(m, e);
    if RespawnPoint(m, e).None? {
      OtherStep(m, e);
    } else {
      RespawnPointStep(m, e);
      RespawnEffect(RespawnPoint(m, e).value);
      hide Step, Respawn, RespawnPoint;
      var kept := Filter(m.restarts, InWindow(m.clock));
      FilterFilter(m.restarts, InWindow(m.clock), Since(start), Since(start));
      FilterSnoc(kept, m.clock, Since(start));
    }
  }

  /** The recorded times of the last five minutes are those of the attempts. */
  lemma {:induction false} RecordedAreAttempts(ms: seq<Manager>, es: seq<Event>, n: nat, start: int)
    requires IsRun(ms, es) && n <= |es| && ms[n].clock < start + 300000
    ensures Filter(ms[n].restarts, Since(start)) == Filter(AttemptTimes(ms, es, n), Since(start))
    decreases n
  {
    hide Step, Inv, Attempts;
    if n > 0 {
      var m, e := ms[n - 1], es[n - 1];
      InvAt(ms, es, n - 1);
      ClockMonotone(ms, es, n - 1, n);
      RecordedAreAttempts(ms, es, n - 1, start);
      RecordedStep(m, e, start);
      FilterSnoc(AttemptTimes(ms, es, n - 1), m.clock, Since(start));
    }
  }

  lemma RecentCount(ms: seq<Manager>, es: seq<Event>, n: nat)
    requires IsRun(ms, es) && n <= |es|
    ensures |Filter(ms[n].restarts, InWindow(ms[n].clock))|
         == |Filter(AttemptTimes(ms, es, n), LessThanFiveMinutesBefore(ms[n].clock))|
  {
    var now := ms[n].clock;
    var start := now - 299999;
    RecordedAreAttempts(ms, es, n, start);
    FilterExt(ms[n].restarts, InWindow(now), Since(start));
    FilterExt(AttemptTimes(ms, es, n), LessThanFiveMinutesBefore(now), Since(start));
  }

  /**
   * Both halves of the limit: an attempt spawns a replacement exactly when fewer than
   * five attempts since the last manual restart are less than five minutes old, and a
   * manager becomes suspended exactly by an attempt with five such before it, or by a
   * manual restart that fails.
   */
  lemma RespawnsIffBelowLimit(ms: seq<Manager>, es: seq<Event>, n: nat)
    requires IsRun(ms, es) && n < |es|
    ensures var recent := |Filter(AttemptTimes(ms, es, n), LessThanFiveMinutesBefore(ms[n].clock))|;
            && (Respawns(ms[n], es[n]) <==> Attempts(ms[n], es[n]) && recent < 5)
            && (!ms[n].suspended ==>
                  (ms[n + 1].suspended <==> es[n] == RestartFails || (Attempts(ms[n], es[n]) && recent >= 5)))
  {
    var m, e := ms[n], es[n];
    InvAt(ms, es, n);
    RecentCount(ms, es, n);
    AttemptsIffRespawnPoint(m, e);
    RespawnsOnlyThere(m, e);
    if RespawnPoint(m, e).Some? {
      RespawnPointStep(m, e);
      RespawnSuspends(RespawnPoint(m, e).value);
    } else if !m.suspended {
      SuspendsOtherwise(m, e);
    }
  }

  lemma RespawnSuspends(m: Manager)
    ensures !m.suspended && !m.stopped ==> (Respawn(m).suspended <==> !WillRespawn(m))
    ensures m.suspended || m.stopped ==> Respawn(m) == m
    ensures Respawn(m).status == if !m.suspended && !m.stopped && !WillRespawn(m) then Degraded else m.status
  {
  }

  lemma SuspendsOtherwise(m: Manager, e: Event)
    requires Allowed(m, e) && RespawnPoint(m, e).None? && !m.suspended
    ensures Step(m, e).suspended <==> e == RestartFails
  {
  }

  /** The exit of a child that had its URL is replaced within the limit: the common case, spelt out. */
  lemma DeadChildIsReplaced(ms: seq<Manager>, es: seq<Event>, n: nat, p: nat)
    requires IsRun(ms, es) && n < |es| && es[n] == Exit(p) && ms[n].children[p].urlReceived
    ensures && !ms[n].stopped && !ms[n].suspended
            && |Filter(AttemptTimes(ms, es, n), LessThanFiveMinutesBefore(ms[n].clock))| < 5 ==>
              && ms[n + 1].current == Some(ms[n].next) && ms[n].next in ms[n + 1].children
              && ms[n + 1].children[ms[n].next] == Child(ByRespawn, true, false, false, false, true, false)
  {
    RespawnsIffBelowLimit(ms, es, n);
    InvAt(ms, es, n);
    RespawnsOnlyThere(ms[n], es[n]);
    if !ms[n].stopped {
      RespawnPointStep(ms[n], es[n]);
    }
  }

  // ------------------------------------------------- the life of a child

  /** Who brings up a child, if anybody does. */
  ghost function Spawner(ms: seq<Manager>, es: seq<Event>, n: nat): Option<Origin>
    requires IsRun(ms, es) && n < |es|
  {
    match es[n]
    case Start => if ms[n].current.None? then Some(ByStart) else None
    case RestartCall => if ms[n].current.None? then Some(ByRestart) else None
    case RestartResumes(_) => Some(ByRestart)
    case _ =>
      if Attempts(ms[n], es[n]) && |Filter(AttemptTimes(ms, es, n), LessThanFiveMinutesBefore(ms[n].clock))| < 5
      then Some(ByRespawn) else None
  }

  lemma SpawnedChild(m: Manager, origin: Origin)
    ensures var m' := Spawned(m, origin);
            && m'.current == Some(m.next) && m'.next == m.next + 1 && m.next in m'.children
            && m'.children[m.next] == Child(origin, true, false, false, false, true, false)
            && forall p :: p in m.children && p != m.next ==>
                 && p in m'.children
                 && m'.children[p] == if m.current == Some(p) && m.children[p].running
                                      then m.children[p].(told := true) else m.children[p]
  {
  }

  /** A new child runs, with its timer armed, and is the current one; nothing else takes a new number. */
  lemma SpawnsIff(ms: seq<Manager>, es: seq<Event>, n: nat)
    requires IsRun(ms, es) && n < |es|
    ensures match Spawner(ms, es, n)
            case None => ms[n + 1].next == ms[n].next
            case Some(origin) =>
              && ms[n + 1].current == Some(ms[n].next) && ms[n + 1].next == ms[n].next + 1
              && ms[n].next in ms[n + 1].children
              && ms[n + 1].children[ms[n].next] == Child(origin, true, false, false, false, true, false)
  {
    var m, e := ms[n], es[n];
    InvAt(ms, es, n);
    RespawnsIffBelowLimit(ms, es, n);
    if RespawnPoint(m, e).Some? {
      RespawnPointStep(m, e);
      RespawnNext(RespawnPoint(m, e).value);
    } else {
      hide Exited, TimedOut, Spawned, Attempts, AttemptTimes, Filter;
      match e
      case Exit(p) => ExitRejects(m, p);
      case Timeout(p) => TimeoutRejects(m, p);
      case Start => SpawnedChild(m.(stopped := false), ByStart);
      case RestartCall => SpawnedChild(m.(suspended := false, restarts := [], stopped := false), ByRestart);
      case RestartResumes(p) => SpawnedChild(m.(restarting := m.restarting - multiset{p}), ByRestart);
      case _ =>
    }
  }

  lemma RespawnNext(m: Manager)
    ensures !(!m.suspended && !m.stopped && WillRespawn(m)) ==> Respawn(m).next == m.next
    ensures WillRespawn(m) ==>
              && Respawn(m).current == Some(m.next) && Respawn(m).next == m.next + 1
              && m.next in Respawn(m).children
              && Respawn(m).children[m.next] == Child(ByRespawn, true, false, false, false, true, false)
  {
  }

  /** The call that spawned `p` has to be told that it did not come up. */
  predicate Fails(m: Manager, e: Event, p: nat)
    requires p in m.children
  {
    && !m.children[p].urlReceived && m.children[p].origin != ByRespawn
    && (e == Timeout(p) || (e == Exit(p) && !m.stopped))
  }

  /** A child without what it has been told and whether its call has rejected. */
  function Life(c: Child): Child {
    c.(told := false, rejected := false)
  }

  function NextLife(c: Child, e: Event, p: nat): Child {
    Life(c).(
      running := c.running && e != Exit(p) && e != ChildError(p),
      exitSeen := c.exitSeen || e == Exit(p),
      urlReceived := c.urlReceived || e == Url(p),
      timerArmed := c.timerArmed && e != Exit(p) && e != Timeout(p) && !(e == Url(p) && !c.urlReceived))
  }

  lemma SpawnKeepsLife(m: Manager, origin: Origin, p: nat)
    requires p in m.children && p != m.next
    ensures p in Spawned(m, origin).children && Life(Spawned(m, origin).children[p]) == Life(m.children[p])
    ensures Spawned(m, origin).children[p].rejected == m.children[p].rejected
  {
  }

  lemma RespawnKeepsLife(m: Manager, p: nat)
    requires p in m.children && p != m.next
    ensures p in Respawn(m).children && Life(Respawn(m).children[p]) == Life(m.children[p])
    ensures Respawn(m).children[p].rejected == m.children[p].rejected
  {
    hide Spawned, Life, Filter;
    SpawnKeepsLife(m.(restarts := Filter(m.restarts, InWindow(m.clock)) + [m.clock]), ByRespawn, p);
  }

  lemma FailureKeepsLife(m: Manager, q: nat, p: nat)
    requires p in m.children && p != m.next && q in m.children
    ensures p in FailedToStart(m, q).children && Life(FailedToStart(m, q).children[p]) == Life(m.children[p])
    ensures FailedToStart(m, q).children[p].rejected ==
              (m.children[p].rejected || (p == q && m.children[p].origin != ByRespawn))
  {
    hide Respawn;
    RespawnKeepsLife(m, p);
  }

  lemma GoneLife(m: Manager, q: nat, p: nat)
    requires p in m.children && q in m.children
    ensures var g := Gone(m, q);
            && p in g.children && q in g.children && g.next == m.next
            && g.children[p].rejected == m.children[p].rejected
            && Life(g.children[p]) == NextLife(m.children[p], Exit(q), p)
            && g.children[q].urlReceived == m.children[q].urlReceived && g.children[q].origin == m.children[q].origin
  {
  }

  lemma GivenUpLife(m: Manager, q: nat, p: nat)
    requires p in m.children && q in m.children
    ensures var g := GivenUp(m, q);
            && p in g.children && q in g.children && g.next == m.next
            && g.children[p].rejected == m.children[p].rejected
            && Life(g.children[p]) == NextLife(m.children[p], Timeout(q), p)
            && g.children[q].origin == m.children[q].origin
  {
  }

  lemma ExitLife(m: Manager, q: nat, p: nat)
    requires p in m.children && q in m.children && p < m.next
    ensures p in Exited(m, q).children && Life(Exited(m, q).children[p]) == NextLife(m.children[p], Exit(q), p)
    ensures Exited(m, q).children[p].rejected == (m.children[p].rejected || Fails(m, Exit(q), p))
  {
    GoneLife(m, q, p);
    hide Gone, Respawn, FailedToStart, NextLife, Life;
    if !m.stopped {
      RespawnKeepsLife(Gone(m, q), p);
      FailureKeepsLife(Gone(m, q), q, p);
      GoneLife(m, q, q);
    }
  }

  lemma TimeoutLife(m: Manager, q: nat, p: nat)
    requires p in m.children && q in m.children && p < m.next
    ensures p in TimedOut(m, q).children && Life(TimedOut(m, q).children[p]) == NextLife(m.children[p], Timeout(q), p)
    ensures TimedOut(m, q).children[p].rejected == (m.children[p].rejected || Fails(m, Timeout(q), p))
  {
    if !m.children[q].urlReceived {
      GivenUpLife(m, q, p);
      GivenUpLife(m, q, q);
      hide GivenUp, Respawn, FailedToStart, NextLife, Life;
      FailureKeepsLife(GivenUp(m, q), q, p);
    }
  }

  lemma ToldKeepsLife(m: Manager, q: nat, p: nat)
    requires p in m.children
    ensures p in Told(m, q).children && Life(Told(m, q).children[p]) == Life(m.children[p])
    ensures Told(m, q).children[p].rejected == m.children[p].rejected
  {
  }

  lemma UneventfulLife(c: Child, e: Event, p: nat)
    requires e != Exit(p) && e != ChildError(p) && e != Url(p) && e != Timeout(p)
    ensures NextLife(c, e, p) == Life(c)
  {
  }

  lemma SpawningLife(m: Manager, e: Event, p: nat)
    requires Allowed(m, e) && p in m.children && p < m.next && (e == Start || e == RestartCall || e.RestartResumes?)
    ensures p in Step(m, e).children && Life(Step(m, e).children[p]) == Life(m.children[p])
    ensures Step(m, e).children[p].rejected == m.children[p].rejected
  {
    hide Spawned, Told, Life;
    match e
    case Start => SpawnKeepsLife(m.(stopped := false), ByStart, p);
    case RestartCall =>
      var m' := m.(suspended := false, restarts := [], stopped := false);
      if m.current.None? {
        SpawnKeepsLife(m', ByRestart, p);
      } else {
        ToldKeepsLife(m', m.current.value, p);
      }
    case RestartResumes(q) => SpawnKeepsLife(m.(restarting := m.restarting - multiset{q}), ByRestart, p);
  }

  lemma SignalLife(m: Manager, e: Event, p: nat)
    requires Allowed(m, e) && p in m.children && (e.Url? || e.ChildError?)
    ensures p in Step(m, e).children && Life(Step(m, e).children[p]) == NextLife(m.children[p], e, p)
    ensures Step(m, e).children[p].rejected == m.children[p].rejected
  {
  }

  lemma CallLife(m: Manager, e: Event, p: nat)
    requires Allowed(m, e) && p in m.children && p < m.next && !e.Exit? && !e.Timeout?
    ensures p in Step(m, e).children && Life(Step(m, e).children[p]) == NextLife(m.children[p], e, p)
    ensures Step(m, e).children[p].rejected == m.children[p].rejected
  {
    hide Spawned, Told, Life, NextLife, Started, RestartCalled, UrlSeen;
    if e.Url? || e.ChildError? {
      SignalLife(m, e, p);
    } else {
      UneventfulLife(m.children[p], e, p);
      if e == Start || e == RestartCall || e.RestartResumes? {
        SpawningLife(m, e, p);
      } else if e == StopCall && m.current.Some? {
        ToldKeepsLife(m.(stopped := true, stopping := m.stopping + 1), m.current.value, p);
      }
    }
  }

  /** What every event does to a child, but for its being told to stop. */
  lemma ChildStep(ms: seq<Manager>, es: seq<Event>, n: nat, p: nat)
    requires IsRun(ms, es) && n < |es| && p in ms[n].children
    ensures p in ms[n + 1].children && Life(ms[n + 1].children[p]) == NextLife(ms[n].children[p], es[n], p)
    ensures ms[n + 1].children[p].rejected == (ms[n].children[p].rejected || Fails(ms[n], es[n], p))
  {
    InvAt(ms, es, n);
    hide NextLife, Life, Exited, TimedOut;
    match es[n]
    case Exit(q) => ExitLife(ms[n], q, p);
    case Timeout(q) => TimeoutLife(ms[n], q, p);
    case _ => CallLife(ms[n], es[n], p);
  }

  lemma RespawnTells(m: Manager, p: nat)
    requires p in m.children && p != m.next
    ensures p in Respawn(m).children
    ensures Respawn(m).children[p] == if WillRespawn(m) && m.current == Some(p) && m.children[p].running
                                      then m.children[p].(told := true) else m.children[p]
    ensures Respawn(m).next == if WillRespawn(m) then m.next + 1 else m.next
  {
  }

  /** A child is only ever told to stop by these. */
  predicate IsTold(m: Manager, e: Event, p: nat, spawns: bool)
    requires p in m.children
  {
    || (m.current == Some(p) && (e == StopCall || e == RestartCall || spawns))
    || (e == Timeout(p) && !m.children[p].urlReceived)
  }

  lemma FailureTells(m: Manager, q: nat, p: nat)
    requires p in m.children && p != m.next && q in m.children
    ensures p in FailedToStart(m, q).children
    ensures FailedToStart(m, q).children[p].told ==>
              m.children[p].told || (m.current == Some(p) && FailedToStart(m, q).next > m.next)
  {
    hide Respawn;
    RespawnTells(m, p);
  }

  lemma ExitTells(m: Manager, q: nat, p: nat)
    requires p in m.children && q in m.children && p < m.next
    ensures p in Exited(m, q).children
    ensures Exited(m, q).children[p].told ==> m.children[p].told || IsTold(m, Exit(q), p, Exited(m, q).next > m.next)
  {
    GoneLife(m, q, p);
    GoneTells(m, q, p);
    hide Gone, Respawn, FailedToStart, Life, NextLife;
    if !m.stopped {
      RespawnTells(Gone(m, q), p);
      FailureTells(Gone(m, q), q, p);
    }
  }

  lemma GoneTells(m: Manager, q: nat, p: nat)
    requires p in m.children && q in m.children
    ensures p in Gone(m, q).children && Gone(m, q).children[p].told == m.children[p].told
    ensures Gone(m, q).current == if m.current == Some(q) then None else m.current
  {
  }

  lemma GivenUpTells(m: Manager, q: nat, p: nat)
    requires p in m.children && q in m.children
    ensures p in GivenUp(m, q).children && (GivenUp(m, q).children[p].told ==> m.children[p].told || p == q)
    ensures GivenUp(m, q).current == if m.current == Some(q) then None else m.current
  {
  }

  lemma TimeoutTells(m: Manager, q: nat, p: nat)
    requires p in m.children && q in m.children && p < m.next
    ensures p in TimedOut(m, q).children
    ensures TimedOut(m, q).children[p].told ==>
              m.children[p].told || IsTold(m, Timeout(q), p, TimedOut(m, q).next > m.next)
  {
    if !m.children[q].urlReceived {
      GivenUpLife(m, q, p);
      GivenUpTells(m, q, p);
      hide GivenUp, Respawn, FailedToStart, Life, NextLife;
      FailureTells(GivenUp(m, q), q, p);
    }
  }

  lemma CallTells(m: Manager, e: Event, p: nat)
    requires Allowed(m, e) && p in m.children && p < m.next && !e.Exit? && !e.Timeout?
    ensures p in Step(m, e).children
    ensures Step(m, e).children[p].told ==> m.children[p].told || IsTold(m, e, p, Step(m, e).next > m.next)
  {
    hide Spawned;
    match e
    case Start => SpawnedChild(m.(stopped := false), ByStart);
    case RestartCall =>
      if m.current.None? {
        SpawnedChild(m.(suspended := false, restarts := [], stopped := false), ByRestart);
      }
    case RestartResumes(q) => SpawnedChild(m.(restarting := m.restarting - multiset{q}), ByRestart);
    case _ =>
  }

  /** A child is told to stop only when it gives way, is stopped or restarted, or brings up no URL in time. */
  lemma ToldOnlyIf(ms: seq<Manager>, es: seq<Event>, n: nat, p: nat)
    requires IsRun(ms, es) && n < |es| && p in ms[n].children
    ensures p in ms[n + 1].children
    ensures ms[n + 1].children[p].told ==>
              ms[n].children[p].told || IsTold(ms[n], es[n], p, ms[n + 1].next > ms[n].next)
  {
    InvAt(ms, es, n);
    hide IsTold, Exited, TimedOut;
    match es[n]
    case Exit(q) => ExitTells(ms[n], q, p);
    case Timeout(q) => TimeoutTells(ms[n], q, p);
    case _ => CallTells(ms[n], es[n], p);
  }

  // ------------------------------------------------- what else the manager keeps

  /** The children that the manager follows and the calls that wait, field by field. */
  ghost predicate Kept(m: Manager, e: Event, m': Manager, spawns: bool) {
    && m'.stopped == (match e
                      case StopCall => true
                      case Start => m.stopped && m.current.Some?
                      case RestartCall => false
                      case _ => m.stopped)
    && m'.restarting == (match e
                         case RestartCall =>
                           if m.current.Some? then m.restarting + multiset{m.current.value} else m.restarting
                         case RestartResumes(p) => m.restarting - multiset{p}
                         case _ => m.restarting)
    && m'.stopping == (match e
                       case StopCall => if m.current.Some? then m.stopping + 1 else m.stopping
                       case StopResumes => if m.stopping > 0 then m.stopping - 1 else 0
                       case _ => m.stopping)
    && m'.clock == (match e case Tick(dt) => m.clock + dt case _ => m.clock)
    && (!spawns ==>
          m'.current == match e
                        case StopCall => None
                        case RestartCall => None
                        case Exit(p) => if m.current == Some(p) then None else m.current
                        case Timeout(p) =>
                          if m.current == Some(p) && p in m.children && !m.children[p].urlReceived then None
                          else m.current
                        case _ => m.current)
  }

  lemma RespawnKeepsFields(m: Manager)
    ensures var m' := Respawn(m);
            && m'.stopped == m.stopped && m'.restarting == m.restarting && m'.stopping == m.stopping
            && m'.clock == m.clock && m'.failing == m.failing && (m'.next == m.next ==> m'.current == m.current)
  {
  }

  /** One waiting `restart` more for each replacement that did not come up. */
  function Failing(m: Manager, e: Event): nat
    requires Allowed(m, e)
  {
    match e
    case Exit(p) =>
      m.failing + if Fails(m, e, p) && m.children[p].origin == ByRestart && !m.children[p].rejected then 1 else 0
    case Timeout(p) =>
      m.failing + if Fails(m, e, p) && m.children[p].origin == ByRestart && !m.children[p].rejected then 1 else 0
    case RestartFails => m.failing - 1
    case _ => m.failing
  }

  lemma FieldsStep(ms: seq<Manager>, es: seq<Event>, n: nat)
    requires IsRun(ms, es) && n < |es|
    ensures Kept(ms[n], es[n], ms[n + 1], ms[n + 1].next > ms[n].next)
    ensures ms[n + 1].failing == Failing(ms[n], es[n])
  {
    var m, e := ms[n], es[n];
    if RespawnPoint(m, e).Some? {
      RespawnPointStep(m, e);
      RespawnKeepsFields(RespawnPoint(m, e).value);
    } else {
      OtherFields(m, e);
    }
  }

  lemma ExitFields(m: Manager, p: nat)
    requires Allowed(m, Exit(p)) && RespawnPoint(m, Exit(p)).None?
    ensures Kept(m, Exit(p), Exited(m, p), Exited(m, p).next > m.next)
    ensures Exited(m, p).failing == Failing(m, Exit(p))
  {
    hide Respawn;
  }

  lemma GivenUpFields(m: Manager, p: nat)
    requires p in m.children
    ensures var m' := GivenUp(m, p);
            && m'.stopped == m.stopped && m'.restarting == m.restarting && m'.stopping == m.stopping
            && m'.clock == m.clock && m'.failing == m.failing && m'.next == m.next
            && m'.current == (if m.current == Some(p) then None else m.current)
  {
  }

  lemma RejectedFields(m: Manager, p: nat)
    requires p in m.children
    ensures var m' := Rejected(m, p);
            && m'.stopped == m.stopped && m'.restarting == m.restarting && m'.stopping == m.stopping
            && m'.clock == m.clock && m'.next == m.next && m'.current == m.current
            && m'.failing == m.failing + if m.children[p].origin == ByRestart && !m.children[p].rejected then 1 else 0
  {
  }

  lemma TimeoutFields(m: Manager, p: nat)
    requires Allowed(m, Timeout(p)) && RespawnPoint(m, Timeout(p)).None?
    ensures Kept(m, Timeout(p), TimedOut(m, p), TimedOut(m, p).next > m.next)
    ensures TimedOut(m, p).failing == Failing(m, Timeout(p))
  {
    if !m.children[p].urlReceived {
      GivenUpFields(m, p);
      GivenUpLife(m, p, p);
      assert m.children[p].origin != ByRespawn;
      hide Respawn, GivenUp, Rejected, Life, NextLife, RespawnPoint;
      RejectedFields(GivenUp(m, p), p);
    }
  }

  lemma CallFields(m: Manager, e: Event)
    requires Allowed(m, e) && !e.Exit? && !e.Timeout?
    ensures Kept(m, e, Step(m, e), Step(m, e).next > m.next)
    ensures Step(m, e).failing == Failing(m, e)
  {
  }

  lemma OtherFields(m: Manager, e: Event)
    requires Allowed(m, e) && RespawnPoint(m, e).None?
    ensures Kept(m, e, Step(m, e), Step(m, e).next > m.next)
    ensures Step(m, e).failing == Failing(m, e)
  {
    hide Kept, Failing, Exited, TimedOut;
    match e
    case Exit(p) => ExitFields(m, p);
    case Timeout(p) => TimeoutFields(m, p);
    case _ => CallFields(m, e);
  }

  // ------------------------------------------------------------------- the status

  /** Up with a URL, down when a stop has ended, degraded with a suspension, and otherwise as it was. */
  lemma StatusStep(ms: seq<Manager>, es: seq<Event>, n: nat)
    requires IsRun(ms, es) && n < |es|
    ensures ms[n + 1].status ==
              match es[n]
              case Url(p) => if ms[n].children[p].urlReceived then ms[n].status else Up
              case StopResumes => Down
              case StopCall => if ms[n].current.None? && !ms[n].stopped then Down else ms[n].status
              case RestartFails => Degraded
              case _ => if !ms[n].suspended && ms[n + 1].suspended then Degraded else ms[n].status
  {
    var m, e := ms[n], es[n];
    InvAt(ms, es, n);
    if RespawnPoint(m, e).Some? {
      RespawnPointStep(m, e);
      RespawnSuspends(RespawnPoint(m, e).value);
    } else {
      StatusOtherwise(m, e);
    }
  }

  lemma StatusOfExit(m: Manager, p: nat)
    requires p in m.children && !m.children[p].exitSeen && RespawnPoint(m, Exit(p)).None?
    ensures Exited(m, p).status == m.status && Exited(m, p).suspended == m.suspended
  {
    hide Respawn;
  }

  lemma StatusOfTimeout(m: Manager, p: nat)
    requires p in m.children && m.children[p].timerArmed && RespawnPoint(m, Timeout(p)).None?
    ensures TimedOut(m, p).status == m.status && TimedOut(m, p).suspended == m.suspended
  {
    hide Respawn;
  }

  lemma StatusOtherwise(m: Manager, e: Event)
    requires Allowed(m, e) && RespawnPoint(m, e).None?
    ensures Step(m, e).status ==
              match e
              case Url(p) => if m.children[p].urlReceived then m.status else Up
              case StopResumes => Down
              case StopCall => if m.current.None? && !m.stopped then Down else m.status
              case RestartFails => Degraded
              case _ => m.status
    ensures Step(m, e).suspended ==> m.suspended || e == RestartFails
  {
    hide Exited, TimedOut, RespawnPoint;
    match e
    case Exit(p) => StatusOfExit(m, p);
    case Timeout(p) => StatusOfTimeout(m, p);
    case _ =>
  }

  // ------------------------------------------------------------------- stopping

  predicate Revives(e: Event) {
    e == Start || e == RestartCall || e.RestartResumes?
  }

  lemma StoppedStep(m: Manager, e: Event)
    requires Inv(m) && Allowed(m, e) && m.stopped && m.current.None?
    ensures Step(m, e).current.Some? <==> Revives(e)
    ensures !Revives(e) ==> Step(m, e).stopped
  {
  }

  lemma RevivedStep(m: Manager, e: Event)
    requires Inv(m) && Allowed(m, e) && m.stopped && m.current.None? && Revives(e)
    ensures Live(Step(m, e)) == {m.next}
  {
  }

  lemma StopStep(m: Manager)
    ensures Step(m, StopCall).stopped && Step(m, StopCall).current.None?
    ensures Step(m, StopCall).restarting == m.restarting
  {
  }

  /** After `stop` no child is live, until `start`, `restart`, or a `restart` that was under way resumes. */
  lemma {:induction false} NoChildAfterStop(ms: seq<Manager>, es: seq<Event>, i: nat, j: nat)
    requires IsRun(ms, es) && i < j <= |es| && es[i] == StopCall
    requires forall m :: i < m < j ==> !Revives(es[m])
    ensures ms[j].stopped && ms[j].current.None? && Live(ms[j]) == {}
    decreases j
  {
    hide Step, Revives;
    InvAt(ms, es, j);
    if i + 1 == j {
      StopStep(ms[i]);
    } else {
      NoChildAfterStop(ms, es, i, j - 1);
      InvAt(ms, es, j - 1);
      StoppedStep(ms[j - 1], es[j - 1]);
    }
  }

  /** A call that is asked to bring a child up. */
  predicate AsksForChild(e: Event) {
    e == Start || e == RestartCall
  }

  lemma RestartingStep(m: Manager, e: Event)
    requires Allowed(m, e) && e != RestartCall && m.restarting == multiset{}
    ensures Step(m, e).restarting == multiset{}
  {
    hide Respawn;
    if RespawnPoint(m, e).Some? {
      RespawnPointStep(m, e);
      RespawnKeepsRestarting(RespawnPoint(m, e).value);
    }
  }

  lemma RespawnKeepsRestarting(m: Manager)
    ensures Respawn(m).restarting == m.restarting
  {
  }

  lemma {:induction false} NoRestartPending(ms: seq<Manager>, es: seq<Event>, i: nat, j: nat)
    requires IsRun(ms, es) && i <= j <= |es| && ms[i].restarting == multiset{}
    requires forall m :: i <= m < j ==> es[m] != RestartCall
    ensures ms[j].restarting == multiset{}
    decreases j
  {
    hide Step;
    if i < j {
      NoRestartPending(ms, es, i, j - 1);
      RestartingStep(ms[j - 1], es[j - 1]);
    }
  }

  /** A `stop` called while no `restart` awaits its child is final until somebody asks for a child. */
  lemma StopWithoutRestartIsFinal(ms: seq<Manager>, es: seq<Event>, i: nat, j: nat)
    requires IsRun(ms, es) && i < j <= |es| && es[i] == StopCall && ms[i].restarting == multiset{}
    requires forall m :: i < m < j ==> !AsksForChild(es[m])
    ensures Live(ms[j]) == {}
  {
    hide Step;
    forall m | i < m < j
      ensures !Revives(es[m])
    {
      NoRestartPending(ms, es, i, m);
    }
    NoChildAfterStop(ms, es, i, j);
  }

  /** A child that runs has not been seen to exit. */
  ghost predicate ExitsOk(m: Manager) {
    forall p :: p in m.children && m.children[p].running ==> !m.children[p].exitSeen
  }

  lemma SpawnKeepsExits(m: Manager, origin: Origin)
    requires ExitsOk(m)
    ensures ExitsOk(Spawned(m, origin))
  {
  }

  lemma RespawnKeepsExits(m: Manager)
    requires ExitsOk(m)
    ensures ExitsOk(Respawn(m))
  {
    hide Spawned;
    SpawnKeepsExits(m.(restarts := Filter(m.restarts, InWindow(m.clock)) + [m.clock]), ByRespawn);
  }

  lemma FailureKeepsExits(m: Manager, p: nat)
    requires ExitsOk(m) && p in m.children
    ensures ExitsOk(FailedToStart(m, p))
  {
    hide Respawn;
    RespawnKeepsExits(m);
  }

  lemma ExitKeepsExits(m: Manager, p: nat)
    requires ExitsOk(m) && p in m.children
    ensures ExitsOk(Exited(m, p))
  {
    assert ExitsOk(Gone(m, p)) && p in Gone(m, p).children;
    hide Gone, Respawn, FailedToStart, ExitsOk;
    RespawnKeepsExits(Gone(m, p));
    FailureKeepsExits(Gone(m, p), p);
  }

  lemma TimeoutKeepsExits(m: Manager, p: nat)
    requires ExitsOk(m) && p in m.children
    ensures ExitsOk(TimedOut(m, p))
  {
    assert ExitsOk(TimerOff(m, p)) && ExitsOk(GivenUp(m, p)) && p in GivenUp(m, p).children;
    hide GivenUp, TimerOff, FailedToStart, ExitsOk;
    FailureKeepsExits(GivenUp(m, p), p);
  }

  lemma StepKeepsExits(m: Manager, e: Event)
    requires ExitsOk(m) && Allowed(m, e)
    ensures ExitsOk(Step(m, e))
  {
    hide Spawned, Exited, TimedOut;
    match e
    case Exit(p) => ExitKeepsExits(m, p);
    case Timeout(p) => TimeoutKeepsExits(m, p);
    case Start => SpawnKeepsExits(m.(stopped := false), ByStart);
    case RestartCall => SpawnKeepsExits(m.(suspended := false, restarts := [], stopped := false), ByRestart);
    case RestartResumes(p) => SpawnKeepsExits(m.(restarting := m.restarting - multiset{p}), ByRestart);
    case _ =>
  }

  lemma {:induction false} ExitsAt(ms: seq<Manager>, es: seq<Event>, n: nat)
    requires IsRun(ms, es) && n <= |es|
    ensures ExitsOk(ms[n])
  {
    hide Step, ExitsOk;
    if n > 0 {
      ExitsAt(ms, es, n - 1);
      StepKeepsExits(ms[n - 1], es[n - 1]);
    } else {
      NoExits(ms[0]);
    }
  }

  lemma NoExits(m: Manager)
    requires Initial(m)
    ensures ExitsOk(m)
  {
  }

  /** In a stopped manager the awaited child exits, if it has not done so, and the `restart` resumes. */
  lemma PendingRestartResumes(m: Manager, p: nat) returns (es: seq<Event>, ms: seq<Manager>)
    requires Inv(m) && ExitsOk(m) && m.stopped && m.current.None? && p in m.restarting
    ensures 0 < |es| <= 2 && |ms| == |es| + 1 && ms[0] == m
    ensures forall k :: 0 <= k < |es| ==> !AsksForChild(es[k])
    ensures forall k :: 0 <= k < |es| ==> Allowed(ms[k], es[k]) && ms[k + 1] == Step(ms[k], es[k])
    ensures Live(ms[|es|]) != {}
  {
    if IsRunning(m, p) {
      var gone := Step(m, Exit(p));
      ExitKeepsInv(m, p);
      RevivedStep(gone, RestartResumes(p));
      es, ms := [Exit(p), RestartResumes(p)], [m, gone, Step(gone, RestartResumes(p))];
    } else {
      RevivedStep(m, RestartResumes(p));
      es, ms := [RestartResumes(p)], [m, Step(m, RestartResumes(p))];
    }
  }

  /** A run that goes on from event `i` of another without anybody asking for a child. */
  ghost predicate GoesOn(ms: seq<Manager>, es: seq<Event>, i: nat, ms': seq<Manager>, es': seq<Event>)
    requires i < |es| < |ms|
  {
    && IsRun(ms', es') && i < |es'|
    && es'[..i + 1] == es[..i + 1] && ms'[..i + 2] == ms[..i + 2]
    && forall m :: i < m < |es'| ==> !AsksForChild(es'[m])
  }

  /**
   * Whether a `stop` is final is decided when it is called: no child is ever live
   * afterwards, unless somebody asks for one, exactly when no `restart` is then
   * awaiting the exit of its child.
   */
  lemma StopIsFinalIffNoRestartPending(ms: seq<Manager>, es: seq<Event>, i: nat)
    requires IsRun(ms, es) && i < |es| && es[i] == StopCall
    ensures ms[i].restarting == multiset{} <==>
              forall ms', es' :: GoesOn(ms, es, i, ms', es') ==> Live(ms'[|es'|]) == {}
  {
    if ms[i].restarting == multiset{} {
      forall ms', es' | GoesOn(ms, es, i, ms', es')
        ensures Live(ms'[|es'|]) == {}
      {
        assert es'[i] == es'[..i + 1][i] && ms'[i] == ms'[..i + 2][i];
        StopWithoutRestartIsFinal(ms', es', i, |es'|);
      }
    } else {
      var ms', es' := RevivingRun(ms, es, i);
      assert GoesOn(ms, es, i, ms', es') && Live(ms'[|es'|]) != {};
    }
  }

  lemma RevivingRun(ms: seq<Manager>, es: seq<Event>, i: nat) returns (ms': seq<Manager>, es': seq<Event>)
    requires IsRun(ms, es) && i < |es| && es[i] == StopCall && ms[i].restarting != multiset{}
    ensures GoesOn(ms, es, i, ms', es') && Live(ms'[|es'|]) != {}
  {
    hide Step, Inv, ExitsOk, Live;
    var p :| p in ms[i].restarting;
    StopStep(ms[i]);
    InvAt(ms, es, i + 1);
    ExitsAt(ms, es, i + 1);
    var more, states := PendingRestartResumes(ms[i + 1], p);
    es', ms' := es[..i + 1] + more, ms[..i + 1] + states;
    assert ms'[..i + 2] == ms[..i + 2];
    forall k | 0 <= k < |es'|
      ensures Allowed(ms'[k], es'[k]) && ms'[k + 1] == Step(ms'[k], es'[k])
    {
      if k <= i {
        assert ms'[k] == ms[k] && ms'[k + 1] == ms[k + 1] && es'[k] == es[k];
      } else {
        assert ms'[k] == states[k - i - 1] && ms'[k + 1] == states[k - i] && es'[k] == more[k - i - 1];
      }
    }
  }

  /** Of the events after a `stop`, exactly the first of these three kinds brings a child back. */
  lemma ChildReturnsIffRevived(ms: seq<Manager>, es: seq<Event>, i: nat, j: nat)
    requires IsRun(ms, es) && i < j < |es| && es[i] == StopCall
    requires forall m :: i < m < j ==> !Revives(es[m])
    ensures Live(ms[j + 1]) != {} <==> Revives(es[j])
  {
    hide Step, Revives, Live;
    NoChildAfterStop(ms, es, i, j);
    InvAt(ms, es, j);
    if Revives(es[j]) {
      RevivedStep(ms[j], es[j]);
    } else {
      NoChildAfterStop(ms, es, i, j + 1);
    }
  }

  const FRESH := Manager(map[], 0, None, Down, [], false, false, multiset{}, 0, 0, 0)

  /** Child 0 was told to stop by a `restart` that still awaits its exit, and then `stop` was called. */
  const OVERTAKEN := FRESH.(children := map[0 := NewChild(ByStart).(told := true)], next := 1,
                            restarting := multiset{0}, stopped := true)

  lemma ReachOvertaken() returns (m1: Manager, m2: Manager)
    ensures m1 == Step(FRESH, Start) && m2 == Step(m1, RestartCall) && OVERTAKEN == Step(m2, StopCall)
  {
    m1 := FRESH.(children := map[0 := NewChild(ByStart)], next := 1, current := Some(0));
    m2 := m1.(children := map[0 := NewChild(ByStart).(told := true)], current := None, restarting := multiset{0});
  }

  lemma ResumeOvertaken() returns (m4: Manager, m5: Manager)
    ensures Allowed(OVERTAKEN, Exit(0)) && m4 == Step(OVERTAKEN, Exit(0))
    ensures Allowed(m4, RestartResumes(0)) && m5 == Step(m4, RestartResumes(0))
    ensures m5.stopped && Live(m5) == {1}
  {
    m4 := Step(OVERTAKEN, Exit(0));
    m5 := Step(m4, RestartResumes(0));
  }

  /** The exception is real: a `restart` overtaken by a `stop` still brings a child up. */
  lemma StopDuringRestartLeavesChild() returns (ms: seq<Manager>, es: seq<Event>)
    ensures IsRun(ms, es)
    ensures es == [Start, RestartCall, StopCall, Exit(0), RestartResumes(0)]
    ensures ms[5].stopped && Live(ms[5]) == {1}
  {
    hide Step, Live;
    es := [Start, RestartCall, StopCall, Exit(0), RestartResumes(0)];
    var m1, m2 := ReachOvertaken();
    var m4, m5 := ResumeOvertaken();
    ms := [FRESH, m1, m2, OVERTAKEN, m4, m5];
  }

  // --------------------------------------------------------------- implementation

  class TunnelManager {
    var children: map<nat, Child>
    var next: nat
    var currentProcess: Option<nat>
    var status: Status
    var restartTimestamps: seq<int>
    var respawnSuspended: bool
    var intentionallyStopped: bool
    var restarting: multiset<nat>
    var failing: nat
    var stopping: nat

    ghost function View(now: int): Manager
      reads this
    {
      Manager(children, next, currentProcess, status, restartTimestamps, respawnSuspended, intentionallyStopped,
              restarting, failing, stopping, now)
    }

    constructor ()
      ensures Initial(View(0))
    {
      children, next, currentProcess, status := map[], 0, None, Down;
      restartTimestamps, respawnSuspended, intentionallyStopped := [], false, false;
      restarting, failing, stopping := multiset{}, 0, 0;
    }

    /** `stop` of the process wrapper: nothing happens to a child that has exited. */
    method SignalChild(p: nat, ghost now: int)
      modifies this
      ensures View(now) == Told(old(View(now)), p)
    {
      if p in children && children[p].running {
        children := children[p := children[p].(told := true)];
      }
    }

    method SpawnProcess(origin: Origin, ghost now: int)
      modifies this
      ensures View(now) == Spawned(old(View(now)), origin)
    {
      if currentProcess.Some? && currentProcess.value in children && children[currentProcess.value].running {
        var stale := currentProcess.value;
        currentProcess := None;
        SignalChild(stale, now);
      }
      children := children[next := NewChild(origin)];
      currentProcess := Some(next);
      next := next + 1;
    }

    method AttemptRespawn(now: int)
      modifies this
      ensures View(now) == Respawn(old(View(now)))
    {
      if respawnSuspended || intentionallyStopped {
        return;
      }
      restartTimestamps := Filter(restartTimestamps, InWindow(now));
      restartTimestamps := restartTimestamps + [now];
      if |restartTimestamps| > MAX_RESTARTS_IN_WINDOW {
        respawnSuspended := true;
        if status != Degraded {
          status := Degraded;
        }
        return;
      }
      SpawnProcess(ByRespawn, now);
    }

    method RejectStart(p: nat, ghost now: int)
      requires p in children
      modifies this
      ensures View(now) == Rejected(old(View(now)), p)
    {
      if children[p].rejected {
        return;
      }
      if children[p].origin == ByRestart {
        failing := failing + 1;
      }
      children := children[p := children[p].(rejected := true)];
    }

    method OnUrl(p: nat, ghost now: int)
      requires p in children
      modifies this
      ensures View(now) == UrlSeen(old(View(now)), p)
    {
      if children[p].urlReceived {
        return;
      }
      children := children[p := children[p].(urlReceived := true, timerArmed := false)];
      if status != Up {
        status := Up;
      }
    }

    method OnExit(p: nat, now: int)
      requires p in children
      modifies this
      ensures View(now) == Exited(old(View(now)), p)
    {
      children := children[p := children[p].(running := false, exitSeen := true, timerArmed := false)];
      if currentProcess == Some(p) {
        currentProcess := None;
      }
      if intentionallyStopped {
        return;
      }
      if !children[p].urlReceived {
        if children[p].origin != ByRespawn {
          RejectStart(p, now);
          return;
        }
        AttemptRespawn(now);
        return;
      }
      AttemptRespawn(now);
    }

    method OnStartTimeout(p: nat, now: int)
      requires p in children
      modifies this
      ensures View(now) == TimedOut(old(View(now)), p)
    {
      children := children[p := children[p].(timerArmed := false)];
      if children[p].urlReceived {
        return;
      }
      if currentProcess == Some(p) {
        currentProcess := None;
      }
      SignalChild(p, now);
      if children[p].origin != ByRespawn {
        RejectStart(p, now);
        return;
      }
      AttemptRespawn(now);
    }

    method StartTunnel(ghost now: int) returns (accepted: bool)
      modifies this
      ensures View(now) == Started(old(View(now)))
      ensures accepted <==> old(currentProcess).None?
    {
      if currentProcess.Some? {
        return false;
      }
      intentionallyStopped := false;
      SpawnProcess(ByStart, now);
      return true;
    }

    /** `stop` up to its await, or to its end when there is no child to wait for. */
    method Stop(ghost now: int)
      modifies this
      ensures View(now) == StopCalled(old(View(now)))
    {
      if intentionallyStopped && currentProcess.None? {
        return;
      }
      intentionallyStopped := true;
      if currentProcess.Some? {
        var proc := currentProcess.value;
        currentProcess := None;
        SignalChild(proc, now);
        stopping := stopping + 1;
      } else if status != Down {
        status := Down;
      }
    }

    method StopResumed(ghost now: int)
      requires stopping > 0
      modifies this
      ensures View(now) == Step(old(View(now)), StopResumes)
    {
      stopping := stopping - 1;
      if status != Down {
        status := Down;
      }
    }

    /** `restart` up to its first await. */
    method Restart(ghost now: int)
      modifies this
      ensures View(now) == RestartCalled(old(View(now)))
    {
      hide Spawned, Told;
      respawnSuspended := false;
      restartTimestamps := [];
      intentionallyStopped := false;
      if currentProcess.Some? {
        var proc := currentProcess.value;
        ToldKeepsFields(View(now), proc);
        currentProcess := None;
        SignalChild(proc, now);
        restarting := restarting + multiset{proc};
      } else {
        SpawnProcess(ByRestart, now);
      }
    }

    /** The awaited child `p` is gone: the replacement is spawned. */
    method RestartResumed(p: nat, ghost now: int)
      requires p in restarting && !IsRunning(View(now), p)
      modifies this
      ensures View(now) == Step(old(View(now)), RestartResumes(p))
    {
      restarting := restarting - multiset{p};
      SpawnProcess(ByRestart, now);
    }

    /** The replacement did not come up. */
    method RestartFailed(ghost now: int)
      requires failing > 0
      modifies this
      ensures View(now) == Step(old(View(now)), RestartFails)
    {
      failing := failing - 1;
      respawnSuspended := true;
      if status != Degraded {
        status := Degraded;
      }
    }
  }
}
