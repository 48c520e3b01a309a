/** The workspace machine and the replication protocol together: what the window manager shows
    is what clients end up listing. */
module Composition {
  import opened Wrappers
  import opened Hooks
  import opened Desktops
  import opened DeskInvariant
  import opened DeskTheorems
  import opened Replicas
  import opened Protocol
  import opened StateEvents

  /** The steps that carry one notification to the queue. */
  function Serve(h: seq<HookEvent>): seq<ServerStep>
    decreases |h|
  {
    if h == [] then [] else [Update(h[0]), Enqueue] + Serve(h[1..])
  }

  function Taken(s: Server, e: HookEvent): Server {
    s.(shared := ApplyToMap(s.shared, e), queue := s.queue + [e], history := s.history + [e])
  }

  lemma ServeOne(s: Server, e: HookEvent, rest: seq<ServerStep>)
    requires s.pending.None? && PassedOn(s.shared, e) && (e.Create? ==> LawfulNext(s.history, e))
    requires ServerRunEnabled(Taken(s, e), rest)
    ensures ServerRunEnabled(s, [Update(e), Enqueue] + rest)
    ensures ServerAfter(s, [Update(e), Enqueue] + rest) == ServerAfter(Taken(s, e), rest)
  {
    var run := [Update(e), Enqueue] + rest;
    var s1 := Next(s, Update(e));
    assert Next(s1, Enqueue) == Taken(s, e);
    assert run[1..] == [Enqueue] + rest && run[1..][1..] == rest;
    assert ServerRunEnabled(s1, run[1..]);
  }

  lemma QueueGrows(q: seq<HookEvent>, h: seq<HookEvent>, k: nat)
    requires k < |h|
    ensures h[k..] == [h[k]] + h[k + 1..] && h[..k + 1] == h[..k] + [h[k]]
    ensures (q + [h[k]]) + h[k + 1..] == q + h[k..]
  {
  }

  lemma ServeHead(h: seq<HookEvent>, k: nat)
    requires k < |h|
    ensures Serve(h[k..]) == [Update(h[k]), Enqueue] + Serve(h[k + 1..])
  {
    assert h[k..][1..] == h[k + 1..];
  }

  lemma {:induction false} ServeIsEnabled(s: Server, h: seq<HookEvent>, k: nat)
    requires Lawful(h) && k <= |h|
    requires s.pending.None? && s.shared == MapAfter(h[..k]) && s.history == h[..k]
    ensures ServerRunEnabled(s, Serve(h[k..]))
    ensures ServerAfter(s, Serve(h[k..])) == Server(MapAfter(h), None, s.queue + h[k..], s.clients, h)
    decreases |h| - k
  {
    if k == |h| {
      assert h[..k] == h && h[k..] == [];
      assert s.queue + [] == s.queue;
    } else {
      QueueGrows(s.queue, h, k);
      ServeHead(h, k);
      Extend(h[..k], h[k]);
      assert LawfulNext(h[..k], h[k]);
      ServeIsEnabled(Taken(s, h[k]), h, k + 1);
      ServeOne(s, h[k], Serve(h[k + 1..]));
    }
  }

  /** Whatever commands are given, their notifications can be served. */
  lemma EveryDeskCanBeServed(run: seq<Action>)
    requires RunEnabled(Start(), run)
    ensures var h := After(Start(), run).hooks;
            ServerRunEnabled(IDLE, Serve(h)) && ServerAfter(IDLE, Serve(h)).history == h
  {
    StartInv();
    RunKeepsInv(Start(), run);
    var h := After(Start(), run).hooks;
    assert h[..0] == [] && h[0..] == h;
    ServeIsEnabled(IDLE, h, 0);
  }

  /** End to end: after any commands, and any interleaving of updates, queueing, queue runs and
      binds that has taken in their notifications, every bound client ends with handles for
      exactly the listed workspaces, the active workspace's first handle active and every
      other one's not. */
  lemma ClientsFollowTheDesk(run: seq<Action>, srun: seq<ServerStep>, i: nat, ws: WorkspaceId)
    requires RunEnabled(Start(), run) && ServerRunEnabled(IDLE, srun)
    requires ServerAfter(IDLE, srun).history == After(Start(), run).hooks
    requires i < |ServerAfter(IDLE, srun).clients|
    ensures var d, s := After(Start(), run), ServerAfter(IDLE, srun);
            var c := Drained(s.clients[i], Flow(s));
            && (Lists(c, ws) <==> ws in d.workspaces)
            && (ws in d.workspaces ==> Standing(c, ws) == Some(ws == d.active))
  {
    StartInv();
    RunKeepsInv(Start(), run);
    ClientsConverge(srun, i, ws);
  }

  /** What is on the desk once its map is `shared`. */
  lemma NewsOfDesk(run: seq<Action>, ws: WorkspaceId)
    requires RunEnabled(Start(), run)
    ensures var d := After(Start(), run);
            && News(MapAfter(d.hooks), ws) == (if ws in d.workspaces then Told(ws == d.active) else NoHandle)
            && (ws in d.workspaces ==> !Unmarked(d.hooks, ws))
  {
    MirrorOnEveryRun(run);
    if ws in After(Start(), run).workspaces {
      ListedWereActivated(run, ws);
    }
  }

  /** At a command boundary the missing state has been made up for: a drained client has been
      sent the state of every listed workspace, on the first of its handles and on no other. */
  lemma DrainedClientsAreTold(run: seq<Action>, srun: seq<ServerStep>, i: nat, ws: WorkspaceId)
    requires RunEnabled(Start(), run) && ServerRunEnabled(IDLE, srun)
    requires ServerAfter(IDLE, srun).history == After(Start(), run).hooks
    requires i < |ServerAfter(IDLE, srun).clients|
    ensures var d, s := After(Start(), run), ServerAfter(IDLE, srun);
            var c := Drained(s.clients[i], Flow(s));
            && StatusOf(c, ws) == (if ws in d.workspaces then Told(ws == d.active) else NoHandle)
            && (forall k :: 0 <= k < |c.list| && c.list[k].ws == ws ==>
                  (c.list[k].h in Seen(c).states <==> First(c.list, ws) == Some(c.list[k].h)))
  {
    NewsOfDesk(run, ws);
    MarkedAreTold(srun, i, ws);
    ClientsConverge(srun, i, ws);
    var s := ServerAfter(IDLE, srun);
    var c := Drained(s.clients[i], Flow(s));
    ListsIff(c, ws);
    TheFirstIsTold(c, ws);
  }

  /** A client that was in order at some point of the service lists, once drained, the
      workspaces in the order the shortcuts walk them. */
  lemma ClientsFollowTheOrder(run: seq<Action>, s: Server, srun: seq<ServerStep>, i: nat)
    requires RunEnabled(Start(), run) && ServerRunEnabled(s, srun)
    requires i < |s.clients| && InOrder(s, s.clients[i])
    requires Seat(i, srun).Some?
    requires ServerAfter(s, srun).history == After(Start(), run).hooks
    ensures var s', j := ServerAfter(s, srun), Seat(i, srun).value;
            j < |s'.clients| && NamesOf(Drained(s'.clients[j], Flow(s')).list) == After(Start(), run).workspaces
  {
    StartInv();
    RunKeepsInv(Start(), run);
    OrderSurvives(s, srun, i);
  }

  /** With nothing under way, every handle a client lists names a workspace it may activate. */
  lemma QuietActivationIsSafe(run: seq<Action>, s: Server, i: nat, ws: WorkspaceId)
    requires RunEnabled(Start(), run) && ServerOk(s) && s.history == After(Start(), run).hooks
    requires i < |s.clients| && Lists(s.clients[i], ws)
    ensures ws in After(Start(), run).workspaces <==> Destroy(ws) !in Flow(s)
  {
    StartInv();
    RunKeepsInv(Start(), run);
    ListedUnlessDoomed(s, i, ws);
  }
}
