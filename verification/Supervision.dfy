/** Restarting shell components: the throttle as functions over an explicit clock
    (miriway_child_control.cpp). Times are seconds; std::time sees whole ones. */
module Supervision {
  import opened Wrappers

  type Pid = nat

  const MIN_SECONDS_BETWEEN_RUNS := 3
  const WAIT_SECONDS_FOR_EACH_RUN := 3
  const MAX_SHORT_RERUNS := 3

  function Whole(t: real): int {
    t.Floor
  }

  /** waitpid's status */
  datatype Status = Exited(code: int) | Signaled(signal: int) | Other

  predicate Abnormal(status: Status) {
    (status.Exited? && status.code != 0) || (status.Signaled? && status.signal != 0)
  }

  /** One run of a component: when it began, the counter it ran with, and how it was reaped. */
  datatype Life = Life(start: real, count: nat, end: Option<Reaping>)
  datatype Reaping = Reaping(at: real, abnormal: bool)

  /** ShellComponentRunInfo. `timer` is the expiry of an armed handle; `lives` is the record of
      runs that the source does not keep. */
  datatype Component = Component(lastRun: int, runs: nat, timer: Option<real>, lives: seq<Life>)

  datatype Supervisor = Supervisor(
    clock: real,
    pids: map<Pid, Option<nat>>,   // whom to restart, if anyone, when a registered child fails
    components: seq<Component>)

  datatype Exit = Exit(later: real, pid: Pid, status: Status, permitted: bool, newPid: Pid, timerOk: bool)

  datatype Step =
    | Launch(newPid: Pid, timerOk: bool)                // launch_shell
    | Reap(exit: Exit)                                  // one round of the reaping loop
    | Fire(i: nat, permitted: bool, newPid: Pid)        // a timer's handler
    | Wait(later: real)
    | RunShell(newPid: Pid)
    | Shutdown

  function Began(c: Component, at: real, count: nat): Component {
    c.(lastRun := Whole(at), runs := count, lives := c.lives + [Life(at, count, None)])
  }

  /** Another component value in place of the i-th. */
  function With(s: Supervisor, i: nat, c: Component): Supervisor
    requires i < |s.components|
  {
    s.(components := s.components[i := c])
  }

  function Insert(s: Supervisor, pid: Pid, who: Option<nat>): Supervisor {
    if pid in s.pids then s else s.(pids := s.pids[pid := who])
  }

  /** shell_launch */
  function ShellLaunch(s: Supervisor, i: nat, newPid: Pid, timerOk: bool): Supervisor
    requires i < |s.components|
  {
    var c := s.components[i];
    if Whole(s.clock) - c.lastRun <= MIN_SECONDS_BETWEEN_RUNS then
      if c.runs >= MAX_SHORT_RERUNS || !timerOk then s
      else With(s, i, c.(timer := Some(s.clock + (WAIT_SECONDS_FOR_EACH_RUN * (c.runs + 1)) as real)))
    else Insert(With(s, i, Began(c, s.clock, 0)), newPid, Some(i))
  }

  function EndOfLife(c: Component, at: real, abnormal: bool): Component {
    if c.lives == [] then c
    else c.(lives := c.lives[|c.lives| - 1 := c.lives[|c.lives| - 1].(end := Some(Reaping(at, abnormal)))])
  }

  ghost predicate Enabled(s: Supervisor, step: Step) {
    match step
    case Launch(newPid, _) => newPid !in s.pids
    case Reap(e) => e.later >= 0.0 && e.newPid !in s.pids - {e.pid}
    case Fire(i, _, newPid) =>
      i < |s.components| && s.components[i].timer.Some? && s.clock >= s.components[i].timer.value && newPid !in s.pids
    case Wait(later) => later >= 0.0
    case RunShell(newPid) => newPid !in s.pids
    case Shutdown => true
  }

  ghost predicate KnownPids(s: Supervisor) {
    forall p :: p in s.pids && s.pids[p].Some? ==> s.pids[p].value < |s.components|
  }

  /** A registered child is gone, its component's life over. */
  function Buried(s: Supervisor, pid: Pid, abnormal: bool): Supervisor
    requires KnownPids(s) && pid in s.pids
  {
    var s' := s.(pids := s.pids - {pid});
    match s.pids[pid]
    case None => s'
    case Some(i) => With(s', i, EndOfLife(s.components[i], s.clock, abnormal))
  }

  function Reaped(s: Supervisor, e: Exit): Supervisor
    requires KnownPids(s)
  {
    var later := s.(clock := s.clock + e.later);
    if e.pid !in s.pids then later
    else
      var buried := Buried(later, e.pid, Abnormal(e.status));
      if Abnormal(e.status) && e.permitted && s.pids[e.pid].Some?
      then ShellLaunch(buried, s.pids[e.pid].value, e.newPid, e.timerOk) else buried
  }

  function Fired(s: Supervisor, i: nat, permitted: bool, newPid: Pid): Supervisor
    requires i < |s.components|
  {
    var c := s.components[i];
    if !permitted then s   // the handle stays armed
    else Insert(With(s, i, Began(c.(timer := None), s.clock, c.runs + 1)), newPid, Some(i))
  }

  function Next(s: Supervisor, step: Step): Supervisor
    requires Enabled(s, step) && KnownPids(s)
  {
    match step
    case Launch(newPid, timerOk) =>
      ShellLaunch(s.(components := s.components + [Component(0, 0, None, [])]), |s.components|, newPid, timerOk)
    case Reap(e) => Reaped(s, e)
    case Fire(i, permitted, newPid) => Fired(s, i, permitted, newPid)
    case Wait(later) => s.(clock := s.clock + later)
    case RunShell(newPid) => Insert(s, newPid, None)
    case Shutdown => s.(pids := map[])
  }

  // ---------- the invariant ----------

  ghost predicate RunningAs(s: Supervisor, p: Pid, i: nat) {
    p in s.pids && s.pids[p] == Some(i)
  }

  ghost predicate Running(s: Supervisor, i: nat) {
    exists p: Pid :: RunningAs(s, p, i)
  }

  predicate Waiting(s: Supervisor, i: nat) {
    i < |s.components| && s.components[i].timer.Some?
  }

  ghost predicate Stopped(s: Supervisor, i: nat) {
    i < |s.components| && !Running(s, i) && !Waiting(s, i)
  }

  /** How long a life was, by the whole-second clock. */
  function Lasted(a: Life): int
    requires a.end.Some?
  {
    Whole(a.end.value.at) - Whole(a.start)
  }

  /** A life ends abnormally before the next begins; after a long one the counter restarts at
      once, after a short one it goes up by one, to three at most, and the restart waits three
      seconds for each count. */
  ghost predicate Follows(a: Life, b: Life) {
    && a.end.Some? && a.end.value.abnormal && a.start <= a.end.value.at <= b.start
    && (if Lasted(a) > MIN_SECONDS_BETWEEN_RUNS then b.count == 0
        else
          && a.count < MAX_SHORT_RERUNS && b.count == a.count + 1
          && b.start >= a.end.value.at + (WAIT_SECONDS_FOR_EACH_RUN * (a.count + 1)) as real)
  }

  /** The counter and clock of a component are those of its last life, and a timer is armed only
      after a short life or, before any, by an early first attempt. */
  ghost predicate ComponentOk(c: Component, clock: real) {
    && (forall k :: 0 <= k < |c.lives| - 1 ==> Follows(c.lives[k], c.lives[k + 1]))
    && (forall k :: 0 <= k < |c.lives| ==> c.lives[k].count <= MAX_SHORT_RERUNS)
    && (c.lives == [] ==> c.lastRun == 0 && c.runs == 0)
    && (c.lives != [] ==>
          var last := c.lives[|c.lives| - 1];
          && c.lastRun == Whole(last.start) && c.runs == last.count && last.start <= clock
          && (last.end.Some? ==> last.start <= last.end.value.at <= clock)
          && (c.timer.Some? ==>
                && last.end.Some? && last.end.value.abnormal && Lasted(last) <= MIN_SECONDS_BETWEEN_RUNS
                && c.timer.value == last.end.value.at + (WAIT_SECONDS_FOR_EACH_RUN * (last.count + 1)) as real))
    && (c.timer.Some? ==> c.runs < MAX_SHORT_RERUNS)
  }

  /** A registered component is alive, registered once, and has no timer. */
  ghost predicate PidsOk(s: Supervisor) {
    && KnownPids(s)
    && (forall p: Pid, i: nat :: RunningAs(s, p, i) ==>
          var c := s.components[i];
          c.timer.None? && c.lives != [] && c.lives[|c.lives| - 1].end.None?)
    && (forall p: Pid, q: Pid, i: nat :: RunningAs(s, p, i) && RunningAs(s, q, i) ==> p == q)
  }

  ghost predicate Ok(s: Supervisor) {
    && PidsOk(s)
    && (forall i :: 0 <= i < |s.components| ==> ComponentOk(s.components[i], s.clock))
  }

  // ---------- every step keeps it ----------

  /** Component i is registered nowhere. */
  ghost predicate Unregistered(s: Supervisor, i: nat) {
    forall p: Pid :: !RunningAs(s, p, i)
  }

  /** A component may be launched if nothing is under way for it, and its last life, if any,
      has just ended abnormally. */
  ghost predicate Launchable(s: Supervisor, i: nat) {
    && i < |s.components| && Unregistered(s, i)
    && var c := s.components[i];
       && c.timer.None?
       && (c.lives != [] ==> c.lives[|c.lives| - 1].end == Some(Reaping(s.clock, true)))
  }

  lemma BeganOk(c: Component, clock: real, count: nat)
    requires ComponentOk(c, clock) && c.timer.None? && count <= MAX_SHORT_RERUNS
    requires c.lives != [] ==> Follows(c.lives[|c.lives| - 1], Life(clock, count, None))
    ensures ComponentOk(Began(c, clock, count), clock)
  {
    var c' := Began(c, clock, count);
    forall k | 0 <= k < |c'.lives| - 1
      ensures Follows(c'.lives[k], c'.lives[k + 1])
    {
      if k < |c.lives| - 1 {
        assert c'.lives[k] == c.lives[k] && c'.lives[k + 1] == c.lives[k + 1];
      }
    }
  }

  /** A registered run of component i under a new pid. */
  lemma RegisteredOk(s: Supervisor, i: nat, c: Component, newPid: Pid)
    requires Ok(s) && i < |s.components| && Unregistered(s, i) && newPid !in s.pids
    requires ComponentOk(c, s.clock) && c.timer.None? && c.lives != [] && c.lives[|c.lives| - 1].end.None?
    ensures Ok(Insert(With(s, i, c), newPid, Some(i)))
  {
    var s' := Insert(With(s, i, c), newPid, Some(i));
    forall p: Pid, j: nat | RunningAs(s', p, j)
      ensures j < |s'.components| && s'.components[j].timer.None? && s'.components[j].lives != []
              && s'.components[j].lives[|s'.components[j].lives| - 1].end.None?
      ensures forall q: Pid :: RunningAs(s', q, j) ==> p == q
    {
      if p != newPid {
        assert RunningAs(s, p, j);
      }
      forall q: Pid | RunningAs(s', q, j) ensures p == q {
        if p != newPid { assert RunningAs(s, p, j); }
        if q != newPid { assert RunningAs(s, q, j); }
      }
    }
  }

  lemma ShellLaunchKeepsOk(s: Supervisor, i: nat, newPid: Pid, timerOk: bool)
    requires Ok(s) && Launchable(s, i) && newPid !in s.pids
    ensures Ok(ShellLaunch(s, i, newPid, timerOk))
  {
    var c := s.components[i];
    if Whole(s.clock) - c.lastRun > MIN_SECONDS_BETWEEN_RUNS {
      BeganOk(c, s.clock, 0);
      RegisteredOk(s, i, Began(c, s.clock, 0), newPid);
    } else if c.runs < MAX_SHORT_RERUNS && timerOk {
      var s' := ShellLaunch(s, i, newPid, timerOk);
      forall p: Pid, j: nat | RunningAs(s', p, j)
        ensures RunningAs(s, p, j) && j != i
      {
        assert RunningAs(s, p, j);
      }
    }
  }

  /** A timer that has expired has waited long enough. */
  lemma TimerFollows(c: Component, clock: real)
    requires ComponentOk(c, clock) && c.timer.Some? && clock >= c.timer.value && c.lives != []
    ensures Follows(c.lives[|c.lives| - 1], Life(clock, c.runs + 1, None))
  {
  }

  lemma TimerDropped(c: Component, clock: real)
    requires ComponentOk(c, clock)
    ensures ComponentOk(c.(timer := None), clock)
  {
  }

  lemma TimerMeansUnregistered(s: Supervisor, i: nat)
    requires PidsOk(s) && i < |s.components| && s.components[i].timer.Some?
    ensures Unregistered(s, i)
  {
  }

  lemma BegunByTimerOk(c: Component, clock: real)
    requires ComponentOk(c, clock) && c.timer.Some? && clock >= c.timer.value
    ensures ComponentOk(Began(c.(timer := None), clock, c.runs + 1), clock)
  {
    if c.lives != [] { TimerFollows(c, clock); }
    TimerDropped(c, clock);
    BeganOk(c.(timer := None), clock, c.runs + 1);
  }

  lemma FiredKeepsOk(s: Supervisor, i: nat, permitted: bool, newPid: Pid)
    requires Ok(s) && Enabled(s, Fire(i, permitted, newPid))
    ensures Ok(Fired(s, i, permitted, newPid))
  {
    if permitted {
      TimerMeansUnregistered(s, i);
      BegunByTimerOk(s.components[i], s.clock);
      RegisteredOk(s, i, Began(s.components[i].(timer := None), s.clock, s.components[i].runs + 1), newPid);
    }
  }

  lemma LaterKeepsOk(s: Supervisor, later: real)
    requires Ok(s) && later >= 0.0
    ensures Ok(s.(clock := s.clock + later))
  {
    var s' := s.(clock := s.clock + later);
    forall p: Pid, j: nat | RunningAs(s', p, j) ensures RunningAs(s, p, j) {
    }
    forall i | 0 <= i < |s.components| ensures ComponentOk(s'.components[i], s'.clock) {
      assert ComponentOk(s.components[i], s.clock);
    }
  }

  lemma EndedOk(c: Component, clock: real, abnormal: bool)
    requires ComponentOk(c, clock) && c.timer.None? && c.lives != [] && c.lives[|c.lives| - 1].end.None?
    ensures ComponentOk(EndOfLife(c, clock, abnormal), clock)
  {
    var c' := EndOfLife(c, clock, abnormal);
    forall k | 0 <= k < |c'.lives| - 1
      ensures Follows(c'.lives[k], c'.lives[k + 1])
    {
      assert Follows(c.lives[k], c.lives[k + 1]);
    }
  }

  lemma BuriedKeepsOk(s: Supervisor, pid: Pid, abnormal: bool)
    requires Ok(s) && pid in s.pids
    ensures Ok(Buried(s, pid, abnormal))
    ensures s.pids[pid].Some? ==> Unregistered(Buried(s, pid, abnormal), s.pids[pid].value)
    ensures s.pids[pid].Some? && abnormal ==> Launchable(Buried(s, pid, abnormal), s.pids[pid].value)
  {
    var s' := Buried(s, pid, abnormal);
    forall p: Pid, j: nat | RunningAs(s', p, j)
      ensures RunningAs(s, p, j) && p != pid && Some(j) != s.pids[pid]
    {
      assert RunningAs(s, p, j);
      if s.pids[pid] == Some(j) {
        assert RunningAs(s, pid, j);
      }
    }
    if s.pids[pid].Some? {
      assert RunningAs(s, pid, s.pids[pid].value);
      EndedOk(s.components[s.pids[pid].value], s.clock, abnormal);
    }
  }

  lemma ReapedKeepsOk(s: Supervisor, e: Exit)
    requires Ok(s) && Enabled(s, Reap(e))
    ensures Ok(Reaped(s, e))
  {
    var s1 := s.(clock := s.clock + e.later);
    LaterKeepsOk(s, e.later);
    if e.pid in s.pids {
      var s3 := Buried(s1, e.pid, Abnormal(e.status));
      BuriedKeepsOk(s1, e.pid, Abnormal(e.status));
      if s.pids[e.pid].Some? && Abnormal(e.status) && e.permitted {
        ShellLaunchKeepsOk(s3, s.pids[e.pid].value, e.newPid, e.timerOk);
      }
    }
  }

  lemma LaunchKeepsOk(s: Supervisor, newPid: Pid, timerOk: bool)
    requires Ok(s) && newPid !in s.pids
    ensures Ok(Next(s, Launch(newPid, timerOk)))
  {
    var s1 := s.(components := s.components + [Component(0, 0, None, [])]);
    forall p: Pid, j: nat | RunningAs(s1, p, j) ensures RunningAs(s, p, j) {
    }
    assert Ok(s1);
    ShellLaunchKeepsOk(s1, |s.components|, newPid, timerOk);
  }

  lemma StepKeepsOk(s: Supervisor, step: Step)
    requires Ok(s) && Enabled(s, step)
    ensures Ok(Next(s, step))
  {
    match step
    case Launch(newPid, timerOk) => LaunchKeepsOk(s, newPid, timerOk);
    case Reap(e) => ReapedKeepsOk(s, e);
    case Fire(i, permitted, newPid) => FiredKeepsOk(s, i, permitted, newPid);
    case Wait(later) => LaterKeepsOk(s, later);
    case RunShell(newPid) =>
      forall p: Pid, j: nat | RunningAs(Next(s, step), p, j) ensures RunningAs(s, p, j) {
      }
    case Shutdown =>
  }

  ghost predicate RunEnabled(s: Supervisor, run: seq<Step>)
    decreases |run|
  {
    run == [] || (KnownPids(s) && Enabled(s, run[0]) && RunEnabled(Next(s, run[0]), run[1..]))
  }

  ghost function After(s: Supervisor, run: seq<Step>): Supervisor
    requires RunEnabled(s, run)
    decreases |run|
  {
    if run == [] then s else After(Next(s, run[0]), run[1..])
  }

  lemma {:induction false} RunKeepsOk(s: Supervisor, run: seq<Step>)
    requires Ok(s) && RunEnabled(s, run)
    ensures Ok(After(s, run))
    decreases |run|
  {
    if run != [] {
      StepKeepsOk(s, run[0]);
      RunKeepsOk(Next(s, run[0]), run[1..]);
    }
  }
}
