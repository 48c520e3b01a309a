/** What the supervisor promises over whole runs. */
module SupervisionTheorems {
  import opened Wrappers
  import opened Supervision

  /** A supervisor that has launched nothing yet, at any time of the clock. */
  function Boot(clock: real): Supervisor {
    Supervisor(clock, map[], [])
  }

  /** How a shell component fails: by an exit code or a signal other than zero. */
  predicate Fails(status: Status) {
    match status
    case Exited(code) => code != 0
    case Signaled(signal) => signal != 0
    case Other => false
  }

  /** On every run, each component is in exactly one of three conditions: running, waiting or
      stopped; and one that runs is registered under one pid. */
  lemma OneThingAtATime(clock: real, run: seq<Step>, i: nat)
    requires RunEnabled(Boot(clock), run) && i < |After(Boot(clock), run).components|
    ensures var s := After(Boot(clock), run);
            && (Running(s, i) || Waiting(s, i) || Stopped(s, i))
            && !(Running(s, i) && Waiting(s, i)) && !(Running(s, i) && Stopped(s, i)) && !(Waiting(s, i) && Stopped(s, i))
            && (forall p: Pid, q: Pid :: RunningAs(s, p, i) && RunningAs(s, q, i) ==> p == q)
  {
    RunKeepsOk(Boot(clock), run);
  }

  // ---------- spacing ----------

  lemma Spaced(a: Life, b: Life)
    requires Follows(a, b)
    ensures b.start >= a.start + 3.0
  {
    if Lasted(a) <= 3 {
      assert (3 * (a.count + 1)) as real >= 3.0;
    }
  }

  /** Consecutive launches are at least three seconds apart; the counter stays within 0..3; a
      restart after a short life waits three seconds for each count so far plus one. */
  lemma LaunchesAreSpaced(clock: real, run: seq<Step>, i: nat, k: nat)
    requires RunEnabled(Boot(clock), run) && i < |After(Boot(clock), run).components|
    requires k + 1 < |After(Boot(clock), run).components[i].lives|
    ensures var lives := After(Boot(clock), run).components[i].lives;
            var a, b := lives[k], lives[k + 1];
            && b.start >= a.start + 3.0
            && a.count <= 3 && b.count <= 3
            && a.end.Some? && a.end.value.abnormal
            && (Lasted(a) <= 3 ==> b.start - a.end.value.at >= (3 * (a.count + 1)) as real)
  {
    RunKeepsOk(Boot(clock), run);
    var c := After(Boot(clock), run).components[i];
    assert ComponentOk(c, After(Boot(clock), run).clock);
    Spaced(c.lives[k], c.lives[k + 1]);
  }

  lemma LongAmongFour(lives: seq<Life>, k: nat)
    requires k + 4 < |lives|
    requires forall j :: 0 <= j < |lives| - 1 ==> Follows(lives[j], lives[j + 1])
    ensures exists j :: k <= j < k + 4 && lives[j].end.Some? && Lasted(lives[j]) > 3
  {
    assert Follows(lives[k], lives[k + 1]) && Follows(lives[k + 1], lives[k + 2]);
    assert Follows(lives[k + 2], lives[k + 3]) && Follows(lives[k + 3], lives[k + 4]);
    if Lasted(lives[k]) <= 3 && Lasted(lives[k + 1]) <= 3 && Lasted(lives[k + 2]) <= 3 {
      assert lives[k + 3].count >= 3;
      assert Lasted(lives[k + 3]) > 3;
    }
  }

  /** Short lives count up, so at most three of them are followed by another launch: of any
      five consecutive launches one of the first four lives lasted more than three seconds by
      the whole-second clock. */
  lemma NoFiveShortLives(clock: real, run: seq<Step>, i: nat, k: nat)
    requires RunEnabled(Boot(clock), run) && i < |After(Boot(clock), run).components|
    requires k + 4 < |After(Boot(clock), run).components[i].lives|
    ensures var lives := After(Boot(clock), run).components[i].lives;
            exists j :: k <= j < k + 4 && lives[j].end.Some? && Lasted(lives[j]) > 3
  {
    RunKeepsOk(Boot(clock), run);
    var c := After(Boot(clock), run).components[i];
    assert ComponentOk(c, After(Boot(clock), run).clock);
    LongAmongFour(c.lives, k);
  }

  // ---------- causes ----------

  /** A component gains a life only through the abnormal exit of its registered child or through
      its timer, and only if the restart predicate held then. */
  lemma LifeHasACause(s: Supervisor, step: Step, i: nat)
    requires Ok(s) && Enabled(s, step) && i < |s.components|
    ensures i < |Next(s, step).components|
    ensures |Next(s, step).components[i].lives| > |s.components[i].lives| ==>
              || (step.Reap? && RunningAs(s, step.exit.pid, i) && Abnormal(step.exit.status) && step.exit.permitted)
              || (step.Fire? && step.i == i && step.permitted)
  {
  }

  /** The supervisor after the first n steps. */
  ghost function At(s: Supervisor, run: seq<Step>, n: nat): Supervisor
    requires RunEnabled(s, run) && n <= |run|
    decreases n
  {
    if n == 0 then s else At(Next(s, run[0]), run[1..], n - 1)
  }

  lemma {:induction false} AtNext(s: Supervisor, run: seq<Step>, n: nat)
    requires Ok(s) && RunEnabled(s, run) && n < |run|
    ensures Ok(At(s, run, n)) && Enabled(At(s, run, n), run[n])
    ensures At(s, run, n + 1) == Next(At(s, run, n), run[n])
    decreases n
  {
    if n > 0 {
      StepKeepsOk(s, run[0]);
      AtNext(Next(s, run[0]), run[1..], n - 1);
    }
  }

  lemma {:induction false} AtEnd(s: Supervisor, run: seq<Step>)
    requires RunEnabled(s, run)
    ensures At(s, run, |run|) == After(s, run)
    decreases |run|
  {
    if run != [] {
      AtEnd(Next(s, run[0]), run[1..]);
    }
  }

  /** How often the component has been launched. */
  function Launches(s: Supervisor, i: nat): nat {
    if i < |s.components| then |s.components[i].lives| else 0
  }

  /** A wait that is not for a first launch. */
  predicate AwaitsRestart(s: Supervisor, i: nat) {
    Waiting(s, i) && Launches(s, i) > 0
  }

  /** Step r reaps a failure of component i, and the predicate asks for a restart. */
  ghost predicate Failed(s: Supervisor, run: seq<Step>, r: nat, i: nat)
    requires RunEnabled(s, run) && r < |run|
  {
    run[r].Reap? && RunningAs(At(s, run, r), run[r].exit.pid, i)
    && Fails(run[r].exit.status) && run[r].exit.permitted
  }

  lemma LaunchesNext(s: Supervisor, step: Step, i: nat)
    requires Ok(s) && Enabled(s, step)
    ensures Launches(s, i) <= Launches(Next(s, step), i) <= Launches(s, i) + 1
  {
  }

  /** A wait for a restart begins with a failure, and leaves the count of launches alone. */
  lemma AwaitsNext(s: Supervisor, step: Step, i: nat)
    requires Ok(s) && Enabled(s, step) && AwaitsRestart(Next(s, step), i)
    ensures Launches(s, i) == Launches(Next(s, step), i)
    ensures AwaitsRestart(s, i) ||
            (step.Reap? && RunningAs(s, step.exit.pid, i) && Abnormal(step.exit.status) && step.exit.permitted)
  {
    if step.Reap? && step.exit.pid in s.pids && s.pids[step.exit.pid].Some? {
      assert RunningAs(s, step.exit.pid, s.pids[step.exit.pid].value);
    }
  }

  ghost predicate FailedBefore(s: Supervisor, run: seq<Step>, n: nat, i: nat)
    requires RunEnabled(s, run) && n <= |run|
  {
    exists r :: 0 <= r < n && Failed(s, run, r, i) && Launches(At(s, run, r), i) == Launches(At(s, run, n), i)
  }

  lemma {:induction false} WaitHasACause(clock: real, run: seq<Step>, n: nat, i: nat)
    requires RunEnabled(Boot(clock), run) && n <= |run| && AwaitsRestart(At(Boot(clock), run, n), i)
    ensures FailedBefore(Boot(clock), run, n, i)
    decreases n
  {
    if n > 0 {
      var s := At(Boot(clock), run, n - 1);
      AtNext(Boot(clock), run, n - 1);
      AwaitsNext(s, run[n - 1], i);
      if AwaitsRestart(s, i) {
        WaitHasACause(clock, run, n - 1, i);
        var r :| 0 <= r < n - 1 && Failed(Boot(clock), run, r, i) && Launches(At(Boot(clock), run, r), i) == Launches(s, i);
        assert Failed(Boot(clock), run, r, i);
      } else {
        assert Failed(Boot(clock), run, n - 1, i);
      }
    }
  }

  /** Step f launches component i for the (k+1)-st time, because it failed at step r: at once, or
      by its timer if the predicate still holds when that expires. */
  ghost predicate Restarted(s: Supervisor, run: seq<Step>, i: nat, k: nat, r: nat, f: nat)
    requires RunEnabled(s, run) && r <= f < |run|
  {
    && Failed(s, run, r, i) && Launches(At(s, run, r), i) == k
    && Launches(At(s, run, f), i) == k && Launches(At(s, run, f + 1), i) == k + 1
    && (r == f || (run[f].Fire? && run[f].i == i && run[f].permitted))
  }

  lemma {:induction false} LaunchStep(clock: real, run: seq<Step>, i: nat, k: nat, n: nat) returns (f: nat)
    requires RunEnabled(Boot(clock), run) && n <= |run| && k < Launches(At(Boot(clock), run, n), i)
    ensures f < n && Launches(At(Boot(clock), run, f), i) == k && Launches(At(Boot(clock), run, f + 1), i) == k + 1
    decreases n
  {
    AtNext(Boot(clock), run, n - 1);
    LaunchesNext(At(Boot(clock), run, n - 1), run[n - 1], i);
    if k < Launches(At(Boot(clock), run, n - 1), i) {
      f := LaunchStep(clock, run, i, k, n - 1);
    } else {
      f := n - 1;
    }
  }

  /** On every run each launch of a component but the first is such a restart: it follows an
      abnormal exit, and the predicate held at the exit and, after a wait, when the timer expired. */
  lemma RestartsHaveCauses(clock: real, run: seq<Step>, i: nat, k: nat)
    requires RunEnabled(Boot(clock), run)
    requires 1 <= k < Launches(After(Boot(clock), run), i)
    ensures exists r: nat, f: nat :: r <= f < |run| && Restarted(Boot(clock), run, i, k, r, f)
  {
    AtEnd(Boot(clock), run);
    var f := LaunchStep(clock, run, i, k, |run|);
    var s := At(Boot(clock), run, f);
    AtNext(Boot(clock), run, f);
    LifeHasACause(s, run[f], i);
    if run[f].Reap? {
      assert Restarted(Boot(clock), run, i, k, f, f);
    } else {
      WaitHasACause(clock, run, f, i);
      var r :| 0 <= r < f && Failed(Boot(clock), run, r, i) && Launches(At(Boot(clock), run, r), i) == Launches(s, i);
      assert Restarted(Boot(clock), run, i, k, r, f);
    }
  }

  // ---------- what an exit, a timer and a launch lead to ----------

  /** Component i runs as `pid`, for the time being with this counter, since `at`, after what
      lives it had before. */
  ghost predicate LaunchedAs(s: Supervisor, i: nat, pid: Pid, before: Component, count: nat, at: real) {
    && i < |s.components| && RunningAs(s, pid, i) && !Waiting(s, i)
    && var c := s.components[i];
       && c.runs == count && c.lastRun == at.Floor
       && |c.lives| == |before.lives| + 1 && c.lives[|before.lives|] == Life(at, count, None)
       && (forall k :: 0 <= k < |before.lives| ==> c.lives[k].start == before.lives[k].start)
  }

  /** Component i waits until `until`, and has not been launched again. */
  ghost predicate WaitsUntil(s: Supervisor, i: nat, before: Component, until: real) {
    && i < |s.components| && !Running(s, i) && s.components[i].timer == Some(until)
    && s.components[i].runs == before.runs && |s.components[i].lives| == |before.lives|
  }

  lemma FollowedFrom(s: Supervisor, i: nat, newPid: Pid, timerOk: bool)
    requires i < |s.components| && Unregistered(s, i) && s.components[i].timer.None? && newPid !in s.pids
    ensures var s', c := ShellLaunch(s, i, newPid, timerOk), s.components[i];
            && s'.clock == s.clock
            && if s.clock.Floor - c.lastRun > 3 then LaunchedAs(s', i, newPid, c, 0, s.clock)
               else if c.runs < 3 && timerOk then WaitsUntil(s', i, c, s.clock + (3 * (c.runs + 1)) as real)
               else Stopped(s', i)
  {
    var s' := ShellLaunch(s, i, newPid, timerOk);
    forall p: Pid | p != newPid
      ensures !RunningAs(s', p, i)
    {
      assert !RunningAs(s, p, i);
    }
  }

  /** A component that fails, and is to be restarted, is launched again at once after a life of
      more than three seconds by the whole-second clock; after a shorter one it waits three
      seconds for each such life in a row, three times at most; then, or if there is no timer to
      be had, it stops. */
  lemma FailureIsFollowed(s: Supervisor, e: Exit, i: nat)
    requires Ok(s) && Enabled(s, Reap(e)) && RunningAs(s, e.pid, i) && Fails(e.status) && e.permitted
    ensures var s', c, now := Next(s, Reap(e)), s.components[i], s.clock + e.later;
            && c.lives != [] && s'.clock == now
            && var lasted := now.Floor - c.lives[|c.lives| - 1].start.Floor;
               if lasted > 3 then LaunchedAs(s', i, e.newPid, c, 0, now)
               else if c.runs < 3 && e.timerOk then WaitsUntil(s', i, c, now + (3 * (c.runs + 1)) as real)
               else Stopped(s', i)
  {
    var s1 := s.(clock := s.clock + e.later);
    LaterKeepsOk(s, e.later);
    BuriedKeepsOk(s1, e.pid, true);
    assert ComponentOk(s.components[i], s.clock);
    FollowedFrom(Buried(s1, e.pid, true), i, e.newPid, e.timerOk);
  }

  /** An armed timer that expires launches the component with its counter one up, if the
      predicate still holds, and otherwise changes nothing: the component goes on waiting. */
  lemma TimerIsFollowed(s: Supervisor, i: nat, permitted: bool, newPid: Pid)
    requires Ok(s) && Enabled(s, Fire(i, permitted, newPid))
    ensures var s', c := Next(s, Fire(i, permitted, newPid)), s.components[i];
            if permitted then LaunchedAs(s', i, newPid, c, c.runs + 1, s.clock) && s'.clock == s.clock else s' == s
  {
  }

  /** A first launch succeeds at once, except in the first seconds of the clock, when it waits. */
  lemma FirstLaunchIsFollowed(s: Supervisor, newPid: Pid, timerOk: bool)
    requires Ok(s) && Enabled(s, Launch(newPid, timerOk))
    ensures var s', i := Next(s, Launch(newPid, timerOk)), |s.components|;
            var none := Component(0, 0, None, []);
            if s.clock.Floor > 3 then LaunchedAs(s', i, newPid, none, 0, s.clock)
            else if timerOk then WaitsUntil(s', i, none, s.clock + 3.0)
            else Stopped(s', i)
  {
    FollowedFrom(s.(components := s.components + [Component(0, 0, None, [])]), |s.components|, newPid, timerOk);
  }

  /** What happens to one component leaves the others alone. */
  lemma OthersUntouched(s: Supervisor, step: Step, i: nat, j: nat)
    requires Ok(s) && Enabled(s, step) && j < |s.components| && j != i
    requires match step
             case Launch(_, _) => true
             case Reap(e) => RunningAs(s, e.pid, i)
             case Fire(k, _, _) => k == i
             case Wait(_) => true
             case RunShell(_) => true
             case Shutdown => false
    ensures var s' := Next(s, step);
            s'.components[j] == s.components[j] && forall p: Pid :: RunningAs(s', p, j) <==> RunningAs(s, p, j)
  {
    if step.Reap? {
      assert !RunningAs(s, step.exit.pid, j);
    }
  }

  /** A helper without supervision is registered, and its end concerns nobody; nor does that of
      a child that is not registered. */
  lemma HelpersAreOnTheirOwn(s: Supervisor, newPid: Pid, e: Exit)
    requires Ok(s) && Enabled(s, RunShell(newPid)) && Enabled(s, Reap(e))
    ensures var s' := Next(s, RunShell(newPid)); newPid in s'.pids && s'.pids[newPid] == None && s'.components == s.components
    ensures var s' := Next(s, Reap(e));
            (e.pid !in s.pids || s.pids[e.pid].None?) ==>
              s'.components == s.components && s'.pids == s.pids - {e.pid} && s'.clock == s.clock + e.later
  {
  }

  /** After shutdown no child is registered, so that no exit is followed; components, and their
      timers, are as they were. */
  lemma ShutdownForgets(s: Supervisor)
    requires Ok(s)
    ensures var s' := Next(s, Shutdown);
            s'.pids == map[] && s'.components == s.components && s'.clock == s.clock
            && forall i: nat :: !Running(s', i)
  {
  }

  /** A clean exit is final, and so is an exit the predicate does not follow up. */
  lemma FinalExit(s: Supervisor, e: Exit, i: nat)
    requires Ok(s) && Enabled(s, Reap(e)) && RunningAs(s, e.pid, i)
    requires !Fails(e.status) || !e.permitted
    ensures Stopped(Next(s, Reap(e)), i)
  {
    var s1 := s.(clock := s.clock + e.later);
    LaterKeepsOk(s, e.later);
    BuriedKeepsOk(s1, e.pid, Abnormal(e.status));
    var s' := Next(s, Reap(e));
    assert s' == Buried(s1, e.pid, Abnormal(e.status));
  }

  /** A short fourth run in a row is the last. */
  lemma GivesUp(s: Supervisor, e: Exit, i: nat)
    requires Ok(s) && Enabled(s, Reap(e)) && RunningAs(s, e.pid, i)
    requires s.components[i].runs == 3 && Whole(s.clock + e.later) - s.components[i].lastRun <= 3
    ensures Stopped(Next(s, Reap(e)), i)
  {
    var s1 := s.(clock := s.clock + e.later);
    LaterKeepsOk(s, e.later);
    BuriedKeepsOk(s1, e.pid, Abnormal(e.status));
    var s' := Next(s, Reap(e));
    assert s' == Buried(s1, e.pid, Abnormal(e.status));
  }

  /** Stopping is for good. */
  lemma StoppedStays(s: Supervisor, step: Step, i: nat)
    requires Ok(s) && Enabled(s, step) && Stopped(s, i)
    ensures Stopped(Next(s, step), i)
    ensures Next(s, step).components[i] == s.components[i]
  {
    var s' := Next(s, step);
    if step.Reap? && step.exit.pid in s.pids && s.pids[step.exit.pid] == Some(i) {
      assert RunningAs(s, step.exit.pid, i);
    }
    forall p: Pid | RunningAs(s', p, i)
      ensures RunningAs(s, p, i)
    {
    }
  }

  lemma {:induction false} StoppedForGood(s: Supervisor, run: seq<Step>, i: nat)
    requires Ok(s) && RunEnabled(s, run) && Stopped(s, i)
    ensures Stopped(After(s, run), i) && After(s, run).components[i] == s.components[i]
    decreases |run|
  {
    if run != [] {
      StepKeepsOk(s, run[0]);
      StoppedStays(s, run[0], i);
      StoppedForGood(Next(s, run[0]), run[1..], i);
    }
  }
}
