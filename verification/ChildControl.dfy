/** ChildControl as it works: run records updated in place, a table of pids, a reaping loop. */
module ChildControl {
  import opened Wrappers
  import opened Sequences
  import opened Supervision

  class ShellComponentRunInfo {
    var lastRunTime: int
    var runsInQuickSuccession: nat
    var handle: Option<real>        // the armed timer's expiry
    ghost var lives: seq<Life>

    ghost function State(): Component
      reads this
    {
      Component(lastRunTime, runsInQuickSuccession, handle, lives)
    }

    constructor ()
      ensures State() == Component(0, 0, None, [])
    {
      lastRunTime, runsInQuickSuccession, handle, lives := 0, 0, None, [];
    }

    ghost method RecordEnd(at: real, abnormal: bool)
      modifies this`lives
      ensures State() == EndOfLife(old(State()), at, abnormal)
    {
      if lives != [] {
        lives := lives[|lives| - 1 := lives[|lives| - 1].(end := Some(Reaping(at, abnormal)))];
      }
    }
  }

  function Reaps(exits: seq<Exit>): seq<Step> {
    if exits == [] then [] else [Reap(exits[0])] + Reaps(exits[1..])
  }

  lemma ReapsHead(s: Supervisor, exits: seq<Exit>)
    requires Ok(s) && exits != [] && RunEnabled(s, Reaps(exits))
    ensures Enabled(s, Reap(exits[0])) && Ok(Next(s, Reap(exits[0])))
    ensures RunEnabled(Next(s, Reap(exits[0])), Reaps(exits[1..]))
    ensures After(s, Reaps(exits)) == After(Next(s, Reap(exits[0])), Reaps(exits[1..]))
  {
    assert Reaps(exits)[0] == Reap(exits[0]) && Reaps(exits)[1..] == Reaps(exits[1..]);
    StepKeepsOk(s, Reap(exits[0]));
  }

  class ChildControl {
    var clock: real
    var shellPids: map<Pid, Option<nat>>
    var infos: seq<ShellComponentRunInfo>

    ghost predicate Valid()
      reads this
    {
      forall i, j :: 0 <= i < j < |infos| ==> infos[i] != infos[j]
    }

    ghost function State(): Supervisor
      reads this, infos
    {
      Supervisor(clock, shellPids,
                 seq(|infos|, i requires 0 <= i < |infos| reads this, infos => infos[i].State()))
    }

    constructor (clock: real)
      ensures Valid() && infos == [] && State() == Supervisor(clock, map[], [])
    {
      this.clock, shellPids, infos := clock, map[], [];
    }

    method Insert(pid: Pid, who: Option<nat>)
      requires Valid()
      modifies this`shellPids
      ensures Valid() && State() == Supervision.Insert(old(State()), pid, who)
    {
      if pid !in shellPids {
        shellPids := shellPids[pid := who];
      }
    }

    method ShellLaunch(i: nat, newPid: Pid, timerOk: bool)
      requires Valid() && i < |infos|
      modifies this`shellPids, infos[i]
      ensures Valid() && State() == Supervision.ShellLaunch(old(State()), i, newPid, timerOk)
    {
      var info := infos[i];
      var now := clock.Floor;
      var timeElapsedSinceLastRun := now - info.lastRunTime;
      if timeElapsedSinceLastRun <= MIN_SECONDS_BETWEEN_RUNS {
        if info.runsInQuickSuccession >= MAX_SHORT_RERUNS { return; }
        var timeToWait := WAIT_SECONDS_FOR_EACH_RUN * (info.runsInQuickSuccession + 1);
        if !timerOk { return; }
        info.handle := Some(clock + timeToWait as real);
      } else {
        info.runsInQuickSuccession := 0;
        info.lastRunTime := now;
        info.lives := info.lives + [Life(clock, 0, None)];
        Insert(newPid, Some(i));
      }
    }

    /** The timer's handler; a predicate that no longer holds leaves the handle armed. */
    method FireTimer(i: nat, permitted: bool, newPid: Pid)
      requires Valid() && i < |infos|
      modifies this`shellPids, infos[i]
      ensures Valid() && State() == Fired(old(State()), i, permitted, newPid)
    {
      if !permitted { return; }
      var info := infos[i];
      info.handle := None;
      info.runsInQuickSuccession := info.runsInQuickSuccession + 1;
      info.lastRunTime := clock.Floor;
      info.lives := info.lives + [Life(clock, info.runsInQuickSuccession, None)];
      Insert(newPid, Some(i));
    }

    method AddInfo()
      requires Valid()
      modifies this`infos
      ensures Valid() && |infos| == |old(infos)| + 1 && fresh(infos[|infos| - 1])
      ensures State() == old(State()).(components := old(State()).components + [Component(0, 0, None, [])])
    {
      var info := new ShellComponentRunInfo();
      infos := infos + [info];
    }

    method LaunchShell(newPid: Pid, timerOk: bool)
      requires Valid() && Ok(State()) && Enabled(State(), Launch(newPid, timerOk))
      modifies this
      ensures Valid() && Ok(State()) && State() == Next(old(State()), Launch(newPid, timerOk))
    {
      ghost var s := State();
      LaunchKeepsOk(s, newPid, timerOk);
      AddInfo();
      ShellLaunch(|infos| - 1, newPid, timerOk);
    }

    /** Takes a child off the table, and says whom its failure concerns. */
    method TakeOff(pid: Pid, abnormal: bool) returns (onReap: Option<nat>)
      requires Valid() && KnownPids(State()) && pid in shellPids
      modifies this`shellPids, infos
      ensures Valid() && State() == Buried(old(State()), pid, abnormal)
      ensures onReap == if abnormal then old(shellPids)[pid] else None
    {
      onReap := if abnormal then shellPids[pid] else None;
      if shellPids[pid].Some? {
        infos[shellPids[pid].value].RecordEnd(clock, abnormal);
      }
      shellPids := shellPids - {pid};
    }

    method Elapse(later: real)
      modifies this`clock
      ensures State() == old(State()).(clock := old(clock) + later)
    {
      clock := clock + later;
    }

    /** One child that waitpid reports. */
    method ReapOne(e: Exit)
      requires Valid() && KnownPids(State())
      modifies this, infos
      ensures Valid() && infos == old(infos) && State() == Reaped(old(State()), e)
    {
      Elapse(e.later);
      if e.pid in shellPids {
        var onReap := TakeOff(e.pid, Abnormal(e.status));
        if onReap.Some? && e.permitted {
          ShellLaunch(onReap.value, e.newPid, e.timerOk);
        }
      }
    }

    /** The SIGCHLD handler: takes every exit there is to report, launching as it goes. */
    method ReapAll(exits: seq<Exit>)
      requires Valid() && Ok(State()) && RunEnabled(State(), Reaps(exits))
      modifies this, infos
      ensures Valid() && Ok(State()) && State() == After(old(State()), Reaps(exits))
    {
      ghost var s := State();
      for k := 0 to |exits|
        invariant Valid() && infos == old(infos) && Ok(State())
        invariant RunEnabled(State(), Reaps(exits[k..]))
        invariant After(State(), Reaps(exits[k..])) == After(s, Reaps(exits))
      {
        ReapsHead(State(), exits[k..]);
        OneMore(exits, k);
        ReapOne(exits[k]);
      }
      WholeSlice(exits);
    }

    method Shutdown()
      requires Valid() && Ok(State())
      modifies this`shellPids
      ensures Valid() && Ok(State()) && State() == Next(old(State()), Step.Shutdown)
    {
      ghost var s := State();
      StepKeepsOk(s, Step.Shutdown);
      shellPids := map[];
      assert State() == Next(s, Step.Shutdown);
    }

    method RunShell(newPid: Pid)
      requires Valid() && Ok(State()) && Enabled(State(), Step.RunShell(newPid))
      modifies this`shellPids
      ensures Valid() && Ok(State()) && State() == Next(old(State()), Step.RunShell(newPid))
    {
      StepKeepsOk(State(), Step.RunShell(newPid));
      Insert(newPid, None);
    }
  }
}
