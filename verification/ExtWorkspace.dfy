/** The ext-workspace-v1 server, working in place: one object per bound client, and one that
    holds the shared map and the queue. Methods are proved against Replica.dfy and Protocol.dfy. */
module ExtWorkspace {
  import opened Wrappers
  import opened Sequences
  import opened Hooks
  import opened Wire
  import opened Replicas
  import opened Protocol

  // ---------- sequence bookkeeping for the erase-and-renumber loop ----------

  lemma ErasedAt(kept: seq<Entry>, rest: seq<Entry>)
    requires rest != []
    ensures (kept + rest)[..|kept|] + (kept + rest)[|kept| + 1..] == kept + rest[1..]
  {
  }

  lemma DropStep(kept: seq<Entry>, rest: seq<Entry>, ws: WorkspaceId)
    requires rest != []
    ensures kept + Drop(rest, ws) ==
              (if rest[0].ws == ws then kept else kept + [rest[0]]) + Drop(rest[1..], ws)
  {
    Assoc(kept, [rest[0]], Drop(rest[1..], ws));
  }

  lemma SaidStep(said: seq<Event>, rest: seq<Entry>, ws: WorkspaceId, searching: bool, i: nat)
    requires rest != []
    ensures var gone := [LeaveGroup(rest[0].h), Removed(rest[0].h)];
            said + DropEvents(rest, ws, searching, i) ==
              if rest[0].ws == ws then (said + gone) + DropEvents(rest[1..], ws, false, i)
              else if searching then said + DropEvents(rest[1..], ws, searching, i + 1)
              else (said + Info(rest[0].h, i + 1)) + DropEvents(rest[1..], ws, searching, i + 1)
  {
    if rest[0].ws == ws {
      Assoc(said, [LeaveGroup(rest[0].h), Removed(rest[0].h)], DropEvents(rest[1..], ws, false, i));
    } else if searching {
      assert DropEvents(rest, ws, searching, i) == DropEvents(rest[1..], ws, searching, i + 1);
    } else {
      Assoc(said, Info(rest[0].h, i + 1), DropEvents(rest[1..], ws, searching, i + 1));
    }
  }

  /** `kept` of the list has been passed, `rest` is ahead, `said` has been sent. */
  ghost predicate Midway(list: seq<Entry>, ws: WorkspaceId, kept: seq<Entry>, rest: seq<Entry>,
                         said: seq<Event>, searching: bool, i: nat)
  {
    && kept + Drop(rest, ws) == Drop(list, ws)
    && said + DropEvents(rest, ws, searching, i) == DropEvents(list, ws, true, 0)
  }

  lemma MidwayStep(list: seq<Entry>, ws: WorkspaceId, kept: seq<Entry>, rest: seq<Entry>,
                   said: seq<Event>, searching: bool, i: nat)
    requires Midway(list, ws, kept, rest, said, searching, i) && rest != []
    ensures rest[0].ws == ws ==>
              Midway(list, ws, kept, rest[1..], said + [LeaveGroup(rest[0].h), Removed(rest[0].h)], false, i)
    ensures rest[0].ws != ws ==>
              Midway(list, ws, kept + [rest[0]], rest[1..],
                     if searching then said else said + Info(rest[0].h, i + 1), searching, i + 1)
  {
    DropStep(kept, rest, ws);
    SaidStep(said, rest, ws, searching, i);
  }

  lemma MidwayEnd(list: seq<Entry>, ws: WorkspaceId, kept: seq<Entry>, rest: seq<Entry>,
                  said: seq<Event>, searching: bool, i: nat)
    requires Midway(list, ws, kept, rest, said, searching, i) && rest == []
    ensures kept + rest == Drop(list, ws) && said == DropEvents(list, ws, true, 0)
  {
  }

  ghost predicate FirstWith(list: seq<Entry>, h: HandleId, k: nat) {
    k < |list| && list[k].h == h && NotIn(h, list[..k])
  }

  lemma NotBefore(list: seq<Entry>, h: HandleId, n: nat)
    requires n <= |list| && NotIn(h, list[..n])
    ensures forall k :: 0 <= k < n ==> list[k].h != h
  {
    forall k | 0 <= k < n
      ensures list[k].h != h
    {
      assert list[..n][k] == list[k];
    }
  }

  lemma OneFirst(list: seq<Entry>, h: HandleId, i: nat)
    requires i < |list| && list[i].h == h && NotIn(h, list[..i])
    ensures FirstWith(list, h, i) && !NotIn(h, list)
    ensures forall k: nat :: FirstWith(list, h, k) ==> k == i
  {
    NotBefore(list, h, i);
    forall k: nat | FirstWith(list, h, k)
      ensures k == i
    {
      NotBefore(list, h, k);
    }
  }

  class ExtWorkspaceManagerV1 {
    var workspaces: seq<Entry>
    var trace: seq<Event>
    var nextHandle: nat

    function State(): Replica
      reads this
    {
      Replica(workspaces, trace, nextHandle)
    }

    constructor ()
      ensures State() == Greeting()
    {
      workspaces, nextHandle := [], 0;
      trace := [Group, GroupCapabilities(NOTHING)];
    }

    method Send(e: Event)
      modifies this`trace
      ensures trace == old(trace) + [e]
    {
      trace := trace + [e];
    }

    method UpdateWorkspaceInfo(h: HandleId, i: nat)
      modifies this`trace
      ensures trace == old(trace) + Info(h, i)
    {
      Send(Name(h, i));
      Send(Coordinates(h, i, 0));
    }

    method WorkspaceCreated(ws: WorkspaceId)
      modifies this
      ensures State() == Created(old(State()), ws)
    {
      var h := nextHandle;
      nextHandle := nextHandle + 1;
      workspaces := workspaces + [Entry(ws, h)];
      Send(NewHandle(h));
      Send(Capabilities(h, CAN_ACTIVATE));
      UpdateWorkspaceInfo(h, |workspaces|);
      Send(EnterGroup(h));
    }

    /** workspace_activated and workspace_deactivated: the first matching handle is told. */
    method WorkspaceMarked(ws: WorkspaceId, active: bool)
      modifies this`trace
      ensures State() == Marked(old(State()), ws, active)
    {
      for i := 0 to |workspaces|
        invariant State() == old(State())
        invariant First(workspaces[i..], ws) == First(workspaces, ws)
      {
        assert workspaces[i..][1..] == workspaces[i + 1..];
        if workspaces[i].ws == ws {
          Send(StateIs(workspaces[i].h, active));
          return;
        }
      }
    }

    method EraseEntry(it: nat)
      requires it < |workspaces|
      modifies this`workspaces, this`trace
      ensures workspaces == old(workspaces[..it] + workspaces[it + 1..])
      ensures trace == old(trace) + [LeaveGroup(old(workspaces)[it].h), Removed(old(workspaces)[it].h)]
    {
      var h := workspaces[it].h;
      Send(LeaveGroup(h));
      Send(Removed(h));
      workspaces := workspaces[..it] + workspaces[it + 1..];
    }

    /** Erases every entry of the workspace and renumbers those behind the first erased. */
    method WorkspaceDestroyed(ws: WorkspaceId)
      modifies this`workspaces, this`trace
      ensures State() == Destroyed(old(State()), ws)
    {
      var searching := true;
      var i, it := 0, 0;
      ghost var before, all := State(), DropEvents(workspaces, ws, true, 0);
      ghost var kept, rest, said := [], workspaces, [];
      while it < |workspaces|
        invariant it == i == |kept| && workspaces == kept + rest && nextHandle == before.nextHandle
        invariant trace == before.trace + said
        invariant Midway(before.list, ws, kept, rest, said, searching, i)
        decreases |rest|
      {
        MidwayStep(before.list, ws, kept, rest, said, searching, i);
        if workspaces[it].ws == ws {
          ErasedAt(kept, rest);
          Assoc(before.trace, said, [LeaveGroup(rest[0].h), Removed(rest[0].h)]);
          said := said + [LeaveGroup(rest[0].h), Removed(rest[0].h)];
          EraseEntry(it);
          searching := false;
        } else {
          i := i + 1;
          if !searching {
            Assoc(before.trace, said, Info(rest[0].h, i));
            UpdateWorkspaceInfo(workspaces[it].h, i);
            said := said + Info(rest[0].h, i);
          }
          it := it + 1;
          HeadMoves(kept, rest);
          kept := kept + [rest[0]];
        }
        rest := rest[1..];
      }
      MidwayEnd(before.list, ws, kept, rest, said, searching, i);
    }

    method SendSnapshot(shared: map<WorkspaceId, bool>, order: seq<WorkspaceId>)
      requires forall ws :: ws in order ==> ws in shared
      modifies this
      ensures State() == Snapshot(old(State()), shared, order)
    {
      for i := 0 to |order|
        invariant Snapshot(State(), shared, order[i..]) == Snapshot(old(State()), shared, order)
      {
        assert order[i..][1..] == order[i + 1..];
        WorkspaceCreated(order[i]);
        WorkspaceMarked(order[i], shared[order[i]]);
      }
    }

    method SendDone()
      modifies this`trace
      ensures State() == Finished(old(State()))
    {
      Send(Done);
    }

    method Handle(e: HookEvent)
      modifies this
      ensures State() == Replicas.Handle(old(State()), e)
    {
      match e {
        case Create(ws) => WorkspaceCreated(ws);
        case Activate(ws) => WorkspaceMarked(ws, true);
        case Deactivate(ws) => WorkspaceMarked(ws, false);
        case Destroy(ws) => WorkspaceDestroyed(ws);
      }
      SendDone();
    }

    /** The client destroys a handle. */
    method OnDestroy(h: HandleId)
      modifies this`workspaces
      ensures workspaces == Forget(old(workspaces), h)
    {
      ghost var list, kept, rest := workspaces, [], workspaces;
      for i := 0 to |workspaces|
        invariant workspaces == list == kept + rest && |kept| == i
        invariant kept + Forget(rest, h) == Forget(list, h)
      {
        assert workspaces[i] == rest[0];
        if workspaces[i].h == h {
          ErasedAt(kept, rest);
          workspaces := workspaces[..i] + workspaces[i + 1..];
          return;
        }
        Assoc(kept, [rest[0]], Forget(rest[1..], h));
        HeadMoves(kept, rest);
        kept, rest := kept + [rest[0]], rest[1..];
      }
    }

    /** The workspace that a client's activate request is about: that of the first entry with
        the handle, provided it is among those that still exist. */
    method OnActivate(h: HandleId, existing: set<WorkspaceId>) returns (ws: Option<WorkspaceId>)
      ensures ws.Some? ==> Entry(ws.value, h) in workspaces && ws.value in existing
      ensures ws.None? <==> NotIn(h, workspaces) ||
                            exists k: nat :: FirstWith(workspaces, h, k) && workspaces[k].ws !in existing
    {
      for i := 0 to |workspaces|
        invariant NotIn(h, workspaces[..i])
      {
        if workspaces[i].h == h {
          OneFirst(workspaces, h, i);
          return if workspaces[i].ws in existing then Some(workspaces[i].ws) else None;
        }
      }
      ws := None;
    }
  }

  class ExtWorkspaceV1 {
    var allTheWorkspaces: map<WorkspaceId, bool>
    var pending: Option<HookEvent>
    var queue: seq<HookEvent>
    var managers: seq<ExtWorkspaceManagerV1>
    ghost var history: seq<HookEvent>

    ghost predicate Valid()
      reads this
    {
      forall i, j :: 0 <= i < j < |managers| ==> managers[i] != managers[j]
    }

    ghost function State(): Server
      reads this, managers
    {
      Server(allTheWorkspaces, pending, queue,
             seq(|managers|, i requires 0 <= i < |managers| reads this, managers => managers[i].State()),
             history)
    }

    constructor ()
      ensures Valid() && State() == IDLE && managers == []
    {
      allTheWorkspaces, pending, queue, managers, history := map[], None, [], [], [];
    }

    method OnWorkspaceCreate(ws: WorkspaceId)
      requires Valid() && StepEnabled(State(), Update(Create(ws)))
      modifies this
      ensures Valid() && managers == old(managers) && State() == Next(old(State()), Update(Create(ws)))
    {
      if ws !in allTheWorkspaces {
        allTheWorkspaces := allTheWorkspaces[ws := false];
      }
      pending := Some(Create(ws));
      history := history + [Create(ws)];
    }

    method OnWorkspaceActivate(ws: WorkspaceId)
      requires Valid() && StepEnabled(State(), Update(Activate(ws)))
      modifies this
      ensures Valid() && managers == old(managers) && State() == Next(old(State()), Update(Activate(ws)))
    {
      if ws in allTheWorkspaces {
        allTheWorkspaces := allTheWorkspaces[ws := true];
        pending := Some(Activate(ws));
      }
      history := history + [Activate(ws)];
    }

    method OnWorkspaceDeactivate(ws: WorkspaceId)
      requires Valid() && StepEnabled(State(), Update(Deactivate(ws)))
      modifies this
      ensures Valid() && managers == old(managers) && State() == Next(old(State()), Update(Deactivate(ws)))
    {
      if ws in allTheWorkspaces {
        allTheWorkspaces := allTheWorkspaces[ws := false];
        pending := Some(Deactivate(ws));
      }
      history := history + [Deactivate(ws)];
    }

    method OnWorkspaceDestroy(ws: WorkspaceId)
      requires Valid() && StepEnabled(State(), Update(Destroy(ws)))
      modifies this
      ensures Valid() && managers == old(managers) && State() == Next(old(State()), Update(Destroy(ws)))
    {
      allTheWorkspaces := allTheWorkspaces - {ws};
      pending := Some(Destroy(ws));
      history := history + [Destroy(ws)];
    }

    /** With the map's lock released, the notification goes to the Wayland main loop. */
    method RunOnWaylandMainloop()
      requires Valid() && StepEnabled(State(), Enqueue)
      modifies this
      ensures Valid() && managers == old(managers) && State() == Next(old(State()), Enqueue)
    {
      queue := queue + [pending.value];
      pending := None;
    }

    /** The main loop runs the oldest notification for every bound client. */
    method RunQueueHead()
      requires Valid() && StepEnabled(State(), RunHead)
      modifies this`queue, managers
      ensures Valid() && State() == Next(old(State()), RunHead)
    {
      var e := queue[0];
      queue := queue[1..];
      for i := 0 to |managers|
        invariant forall j :: 0 <= j < |managers| ==>
          managers[j].State() == if j < i then Handle(old(managers[j].State()), e) else old(managers[j].State())
        invariant queue == old(queue)[1..]
      {
        managers[i].Handle(e);
      }
    }

    /** A client binds and is given the map as it stands, in the map's order. */
    method Bind(order: seq<WorkspaceId>)
      requires Valid() && StepEnabled(State(), ServerStep.Bind(order))
      modifies this`managers
      ensures Valid() && State() == Next(old(State()), ServerStep.Bind(order))
    {
      var manager := new ExtWorkspaceManagerV1();
      manager.SendSnapshot(allTheWorkspaces, order);
      manager.SendDone();
      managers := managers + [manager];
    }
  }
}
