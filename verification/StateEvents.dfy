/** Which handles have been sent a state. The protocol wants one as soon as a handle is created
    (wayland-protocols/ext-workspace-v1.xml:326-336); a bind does that, a queued creation does not. */
module StateEvents {
  import opened Wrappers
  import opened Hooks
  import opened Replicas
  import opened Protocol

  // ---------- one client ----------

  /** Whom a queued notification gives its first handle of a workspace is left without a state
      at the `done` that follows, and only a creation gives one. */
  lemma QueuedCreationIsUntold(c: Replica, e: HookEvent, ws: WorkspaceId)
    requires ReplicaOk(c) && StatusOf(c, ws) == NoHandle
    ensures StatusOf(Handle(c, e), ws) == if e == Create(ws) then Untold else NoHandle
  {
    StatusHandled(c, e, ws);
  }

  lemma {:induction false} UntoldAfter(x: Status, es: seq<HookEvent>, ws: WorkspaceId)
    requires x != NoHandle && Destroy(ws) !in es
    ensures TellAll(x, es, ws) == Untold <==> x == Untold && Activate(ws) !in es && Deactivate(ws) !in es
    decreases |es|
  {
    if es != [] {
      assert es == [es[0]] + es[1..];
      UntoldAfter(Tell(x, es[0], ws), es[1..], ws);
    }
  }

  /** A handle that stays listed remains without a state exactly until the workspace is first
      activated or deactivated. */
  lemma UntoldIff(c: Replica, es: seq<HookEvent>, ws: WorkspaceId)
    requires ReplicaOk(c) && StatusOf(c, ws) != NoHandle && Destroy(ws) !in es
    ensures StatusOf(Drained(c, es), ws) == Untold <==>
              StatusOf(c, ws) == Untold && Activate(ws) !in es && Deactivate(ws) !in es
  {
    StatusDrained(c, es, ws);
    UntoldAfter(StatusOf(c, ws), es, ws);
  }

  lemma RunOne(s: Server, step: ServerStep, rest: seq<ServerStep>)
    requires StepEnabled(s, step) && ServerRunEnabled(Next(s, step), rest)
    ensures ServerRunEnabled(s, [step] + rest) && ServerAfter(s, [step] + rest) == ServerAfter(Next(s, step), rest)
  {
    assert ([step] + rest)[1..] == rest;
  }

  /** A client that has bound before there was any workspace. */
  function Early(): Replica {
    Bound(map[], [])
  }

  function LateCreation(ws: WorkspaceId): seq<ServerStep> {
    [Bind([])] + ([Update(Create(ws))] + ([Enqueue] + ([RunHead] + [])))
  }

  lemma LateCreationRun(ws: WorkspaceId)
    ensures ServerRunEnabled(IDLE, LateCreation(ws))
    ensures ServerAfter(IDLE, LateCreation(ws)) == Server(map[ws := false], None, [], [Handle(Early(), Create(ws))], [Create(ws)])
  {
    var h := [Create(ws)];
    var s1 := Server(map[], None, [], [Early()], []);
    var s2 := Server(map[ws := false], Some(Create(ws)), [], [Early()], h);
    var s3 := Server(map[ws := false], None, h, [Early()], h);
    assert HandleAll([Early()], Create(ws)) == [Handle(Early(), Create(ws))];
    assert Next(s3, RunHead) == Server(map[ws := false], None, [], [Handle(Early(), Create(ws))], h);
    assert Next(s2, Enqueue) == s3 && Next(IDLE, Bind([])) == s1;
    assert Next(s1, Update(Create(ws))) == s2;
    RunOne(s3, RunHead, []);
    RunOne(s2, Enqueue, [RunHead] + []);
    RunOne(s1, Update(Create(ws)), [Enqueue] + ([RunHead] + []));
    RunOne(IDLE, Bind([]), [Update(Create(ws))] + ([Enqueue] + ([RunHead] + [])));
  }

  /** A run on which a handle stays without a state: a client binds, then a workspace is created,
      and when everything queued has been carried out, its handle has been sent none. */
  lemma CreationWithoutState(ws: WorkspaceId)
    ensures ServerRunEnabled(IDLE, LateCreation(ws))
    ensures var s := ServerAfter(IDLE, LateCreation(ws));
            && |s.clients| == 1 && Flow(s) == [] && Closed(s.clients[0]) && ws in s.shared
            && StatusOf(s.clients[0], ws) == Untold
  {
    LateCreationRun(ws);
    StatusBound(map[], [], ws);
    HandleOk(Early(), Create(ws));
    QueuedCreationIsUntold(Early(), Create(ws), ws);
  }

  // ---------- one client over a run ----------

  /** What a client will have been told once the flow has been carried out for it. */
  function Outlook(s: Server, c: Replica, ws: WorkspaceId): Status {
    TellAll(StatusOf(c, ws), Flow(s), ws)
  }

  ghost predicate Unmarked(h: seq<HookEvent>, ws: WorkspaceId) {
    Activate(ws) !in h && Deactivate(ws) !in h
  }

  ghost predicate Named(h: seq<HookEvent>, ws: WorkspaceId) {
    exists i :: 0 <= i < |h| && h[i].ws == ws
  }

  /** Only an update that is passed on changes the outlook of a client that stays. */
  lemma OutlookNext(s: Server, step: ServerStep, i: nat, ws: WorkspaceId)
    requires ServerOk(s) && StepEnabled(s, step) && i < |s.clients| && SeatNext(i, step).Some?
    ensures var s', j := Next(s, step), SeatNext(i, step).value;
            && j < |s'.clients|
            && Outlook(s', s'.clients[j], ws) ==
                 if step.Update? && PassedOn(s.shared, step.e) then Tell(Outlook(s, s.clients[i], ws), step.e, ws)
                 else Outlook(s, s.clients[i], ws)
  {
    var s' := Next(s, step);
    match step
    case Update(e) =>
      if PassedOn(s.shared, e) {
        assert Flow(s') == Flow(s) + [e];
        TellExtend(StatusOf(s.clients[i], ws), Flow(s), e, ws);
      } else {
        assert Flow(s') == Flow(s);
      }
    case Enqueue => assert Flow(s') == Flow(s);
    case RunHead =>
      assert Flow(s') == Flow(s)[1..] && Flow(s)[0] == s.queue[0];
      StatusHandled(s.clients[i], s.queue[0], ws);
    case Bind(order) => assert Flow(s') == Flow(s);
    case Disconnect(_) => SeatKept(s, step, i);
  }

  /** What the client makes of its outlook is the map. */
  lemma OutlookReads(s: Server, i: nat, ws: WorkspaceId)
    requires ServerOk(s) && i < |s.clients|
    ensures Reads(Outlook(s, s.clients[i], ws)) == Due(s.shared, ws)
  {
    assert Converges(s.shared, Flow(s), s.clients[i], ws);
  }

  /** `late`: the workspace was not there when the client bound. */
  ghost predicate UntoldIfLate(s: Server, c: Replica, ws: WorkspaceId, late: bool) {
    && (Outlook(s, c, ws) == Untold <==> late && ws in s.shared && Unmarked(s.history, ws))
    && (!late ==> Named(s.history, ws))
  }

  lemma NamedOnce(h: seq<HookEvent>, e: HookEvent, ws: WorkspaceId)
    ensures Named(h + [e], ws) <==> Named(h, ws) || e.ws == ws
    ensures Unmarked(h + [e], ws) <==> Unmarked(h, ws) && e != Activate(ws) && e != Deactivate(ws)
    ensures LawfulNext(h, e) && e.Create? ==> !Named(h, e.ws) && Unmarked(h, e.ws)
  {
    var g := h + [e];
    assert g[|h|] == e;
    if Named(h, ws) {
      var i :| 0 <= i < |h| && h[i].ws == ws;
      assert g[i].ws == ws;
    }
  }

  lemma StepKeepsUntold(s: Server, step: ServerStep, i: nat, ws: WorkspaceId, late: bool)
    requires ServerOk(s) && StepEnabled(s, step) && i < |s.clients| && SeatNext(i, step).Some?
    requires UntoldIfLate(s, s.clients[i], ws, late)
    ensures var s', j := Next(s, step), SeatNext(i, step).value;
            j < |s'.clients| && UntoldIfLate(s', s'.clients[j], ws, late)
  {
    OutlookNext(s, step, i, ws);
    OutlookReads(s, i, ws);
    if step.Update? {
      NamedOnce(s.history, step.e, ws);
      FreshToAll(s, step.e);
    }
  }

  lemma {:induction false} RunKeepsUntold(s: Server, run: seq<ServerStep>, i: nat, ws: WorkspaceId, late: bool)
    requires ServerOk(s) && ServerRunEnabled(s, run) && i < |s.clients| && Seat(i, run).Some?
    requires UntoldIfLate(s, s.clients[i], ws, late)
    ensures var s', j := ServerAfter(s, run), Seat(i, run).value;
            j < |s'.clients| && ServerOk(s') && UntoldIfLate(s', s'.clients[j], ws, late)
    decreases |run|
  {
    if run != [] {
      StepKeepsOk(s, run[0]);
      StepKeepsUntold(s, run[0], i, ws, late);
      RunKeepsUntold(Next(s, run[0]), run[1..], SeatNext(i, run[0]).value, ws, late);
    }
  }

  lemma BoundIsTold(s: Server, order: seq<WorkspaceId>, ws: WorkspaceId)
    requires ServerOk(s) && StepEnabled(s, Bind(order))
    ensures var s' := Next(s, Bind(order));
            Outlook(s', s'.clients[|s.clients|], ws) == News(s.shared, ws)
  {
    StatusBound(s.shared, order, ws);
    assert Absorbs(s.shared, Flow(s), ws);
    assert Flow(s)[0..] == Flow(s) == Flow(Next(s, Bind(order)));
  }

  /** However a run goes on after a client has bound: once drained, its first handle of a
      workspace is without a state exactly if the workspace was created after the bind and has
      been neither activated nor deactivated since. */
  lemma UntoldExactlyIf(s: Server, order: seq<WorkspaceId>, run: seq<ServerStep>, ws: WorkspaceId)
    requires ServerOk(s) && StepEnabled(s, Bind(order))
    requires ServerRunEnabled(Next(s, Bind(order)), run) && Seat(|s.clients|, run).Some?
    ensures var s', j := ServerAfter(Next(s, Bind(order)), run), Seat(|s.clients|, run).value;
            && j < |s'.clients|
            && (StatusOf(Drained(s'.clients[j], Flow(s')), ws) == Untold <==>
                  ws in s'.shared && ws !in s.shared && Unmarked(s'.history, ws))
  {
    BoundIsTold(s, order, ws);
    StepKeepsOk(s, Bind(order));
    if ws in s.shared {
      MirroredWasNamed(s.history, ws);
    }
    RunKeepsUntold(Next(s, Bind(order)), run, |s.clients|, ws, ws !in s.shared);
    var s', j := ServerAfter(Next(s, Bind(order)), run), Seat(|s.clients|, run).value;
    StatusDrained(s'.clients[j], Flow(s'), ws);
  }

  // ---------- every client ----------

  /** No handle but the first of its workspace is ever sent a state. A bind that falls between
      a creation and its notification gives a client two. */
  ghost predicate FirstsOnly(c: Replica) {
    forall k :: 0 <= k < |c.list| && c.list[k].h in Seen(c).states ==>
      First(c.list, c.list[k].ws) == Some(c.list[k].h)
  }

  lemma FirstsCreated(c: Replica, ws: WorkspaceId)
    requires ReplicaOk(c) && FirstsOnly(c)
    ensures ReplicaOk(Created(c, ws)) && FirstsOnly(Created(c, ws))
  {
    var c' := Created(c, ws);
    CreatedOk(c, ws);
    forall k | 0 <= k < |c'.list| && c'.list[k].h in Seen(c').states
      ensures First(c'.list, c'.list[k].ws) == Some(c'.list[k].h)
    {
      assert c'.list[k] == c.list[k];
      FirstOfAppended(c.list, Entry(ws, c.nextHandle), c.list[k].ws);
    }
  }

  lemma FirstsMarked(c: Replica, ws: WorkspaceId, active: bool)
    requires ReplicaOk(c) && FirstsOnly(c)
    ensures ReplicaOk(Marked(c, ws, active)) && FirstsOnly(Marked(c, ws, active))
  {
    var c' := Marked(c, ws, active);
    MarkedOk(c, ws, active);
    FirstIs(c.list, ws);
    forall k | 0 <= k < |c'.list| && c'.list[k].h in Seen(c').states
      ensures First(c'.list, c'.list[k].ws) == Some(c'.list[k].h)
    {
      if c.list[k].h !in Seen(c).states {
        assert Some(c.list[k].h) == First(c.list, ws);
        var j :| 0 <= j < |c.list| && c.list[j] == Entry(ws, c.list[k].h);
        assert j == k;
      }
    }
  }

  lemma FirstsDestroyed(c: Replica, ws: WorkspaceId)
    requires ReplicaOk(c) && FirstsOnly(c)
    ensures ReplicaOk(Destroyed(c, ws)) && FirstsOnly(Destroyed(c, ws))
  {
    var c' := Destroyed(c, ws);
    DestroyedOk(c, ws);
    forall k | 0 <= k < |c'.list| && c'.list[k].h in Seen(c').states
      ensures First(c'.list, c'.list[k].ws) == Some(c'.list[k].h)
    {
      assert c'.list[k] in c'.list && c'.list[k] in c.list;
      var j :| 0 <= j < |c.list| && c.list[j] == c'.list[k];
      FirstOfDropped(c.list, ws, c.list[j].ws);
    }
  }

  lemma FirstsFinished(c: Replica)
    requires ReplicaOk(c) && FirstsOnly(c)
    ensures FirstsOnly(Finished(c))
  {
    FinishedOk(c);
  }

  lemma FirstsHandled(c: Replica, e: HookEvent)
    requires ReplicaOk(c) && FirstsOnly(c)
    ensures FirstsOnly(Handle(c, e))
  {
    match e
    case Create(ws) => FirstsCreated(c, ws); FirstsFinished(Created(c, ws));
    case Activate(ws) => FirstsMarked(c, ws, true); FirstsFinished(Marked(c, ws, true));
    case Deactivate(ws) => FirstsMarked(c, ws, false); FirstsFinished(Marked(c, ws, false));
    case Destroy(ws) => FirstsDestroyed(c, ws); FirstsFinished(Destroyed(c, ws));
  }

  lemma {:induction false} FirstsSnapshot(c: Replica, shared: map<WorkspaceId, bool>, order: seq<WorkspaceId>)
    requires ReplicaOk(c) && FirstsOnly(c) && forall ws :: ws in order ==> ws in shared
    ensures ReplicaOk(Snapshot(c, shared, order)) && FirstsOnly(Snapshot(c, shared, order))
    decreases |order|
  {
    if order != [] {
      var ws := order[0];
      FirstsCreated(c, ws);
      FirstsMarked(Created(c, ws), ws, shared[ws]);
      FirstsSnapshot(Marked(Created(c, ws), ws, shared[ws]), shared, order[1..]);
    }
  }

  lemma FirstsBound(shared: map<WorkspaceId, bool>, order: seq<WorkspaceId>)
    requires forall ws :: ws in order ==> ws in shared
    ensures FirstsOnly(Bound(shared, order))
  {
    GreetingOk();
    FirstsSnapshot(Greeting(), shared, order);
    FirstsFinished(Snapshot(Greeting(), shared, order));
  }

  lemma {:induction false} FirstsDrained(c: Replica, es: seq<HookEvent>)
    requires ReplicaOk(c) && FirstsOnly(c)
    ensures FirstsOnly(Drained(c, es))
    decreases |es|
  {
    if es != [] {
      HandleOk(c, es[0]);
      FirstsHandled(c, es[0]);
      FirstsDrained(Handle(c, es[0]), es[1..]);
    }
  }

  /** Whoever will be without a state of a workspace is so because it was never marked. */
  ghost predicate Heard(s: Server, c: Replica) {
    && FirstsOnly(c)
    && (forall ws :: Outlook(s, c, ws) == Untold ==> Unmarked(s.history, ws))
  }

  ghost predicate AllHeard(s: Server) {
    forall i :: 0 <= i < |s.clients| ==> Heard(s, s.clients[i])
  }

  lemma FirstsNext(s: Server, step: ServerStep, i: nat)
    requires ServerOk(s) && StepEnabled(s, step) && i < |s.clients| && SeatNext(i, step).Some? && FirstsOnly(s.clients[i])
    ensures var s', j := Next(s, step), SeatNext(i, step).value; j < |s'.clients| && FirstsOnly(s'.clients[j])
  {
    match step
    case RunHead => FirstsHandled(s.clients[i], s.queue[0]);
    case Disconnect(_) => SeatKept(s, step, i);
    case _ =>
  }

  lemma UntoldNext(s: Server, step: ServerStep, i: nat, ws: WorkspaceId)
    requires ServerOk(s) && StepEnabled(s, step) && i < |s.clients| && SeatNext(i, step).Some?
    requires Outlook(s, s.clients[i], ws) == Untold ==> Unmarked(s.history, ws)
    ensures var s', j := Next(s, step), SeatNext(i, step).value;
            j < |s'.clients| && (Outlook(s', s'.clients[j], ws) == Untold ==> Unmarked(s'.history, ws))
  {
    OutlookNext(s, step, i, ws);
    OutlookReads(s, i, ws);
    if step.Update? {
      NamedOnce(s.history, step.e, ws);
    }
  }

  lemma StepKeepsHeard(s: Server, step: ServerStep, i: nat)
    requires ServerOk(s) && StepEnabled(s, step) && i < |s.clients| && SeatNext(i, step).Some?
    requires Heard(s, s.clients[i])
    ensures var s', j := Next(s, step), SeatNext(i, step).value;
            j < |s'.clients| && Heard(s', s'.clients[j])
  {
    var s', j := Next(s, step), SeatNext(i, step).value;
    FirstsNext(s, step, i);
    forall ws
      ensures Outlook(s', s'.clients[j], ws) == Untold ==> Unmarked(s'.history, ws)
    {
      UntoldNext(s, step, i, ws);
    }
  }

  lemma BindKeepsHeard(s: Server, order: seq<WorkspaceId>)
    requires ServerOk(s) && StepEnabled(s, Bind(order))
    ensures var s' := Next(s, Bind(order)); Heard(s', s'.clients[|s.clients|])
  {
    FirstsBound(s.shared, order);
    var s' := Next(s, Bind(order));
    forall ws
      ensures Outlook(s', s'.clients[|s.clients|], ws) == News(s.shared, ws)
    {
      BoundIsTold(s, order, ws);
    }
  }

  lemma StepKeepsAllHeard(s: Server, step: ServerStep)
    requires ServerOk(s) && StepEnabled(s, step) && AllHeard(s)
    ensures AllHeard(Next(s, step))
  {
    var s' := Next(s, step);
    forall j | 0 <= j < |s'.clients|
      ensures Heard(s', s'.clients[j])
    {
      if step.Bind? && j == |s.clients| {
        BindKeepsHeard(s, step.order);
      } else {
        var i := if step.Disconnect? && j >= step.i then j + 1 else j;
        StepKeepsHeard(s, step, i);
      }
    }
  }

  lemma {:induction false} RunKeepsAllHeard(s: Server, run: seq<ServerStep>)
    requires ServerOk(s) && ServerRunEnabled(s, run) && AllHeard(s)
    ensures AllHeard(ServerAfter(s, run))
    decreases |run|
  {
    if run != [] {
      StepKeepsOk(s, run[0]);
      StepKeepsAllHeard(s, run[0]);
      RunKeepsAllHeard(Next(s, run[0]), run[1..]);
    }
  }

  /** In any reachable state, a drained client has been sent a state for the first handle of
      every workspace that was ever activated or deactivated, and for no other handle but firsts. */
  lemma MarkedAreTold(run: seq<ServerStep>, i: nat, ws: WorkspaceId)
    requires ServerRunEnabled(IDLE, run) && i < |ServerAfter(IDLE, run).clients|
    ensures var s := ServerAfter(IDLE, run); var c := Drained(s.clients[i], Flow(s));
            && FirstsOnly(c)
            && (!Unmarked(s.history, ws) ==> StatusOf(c, ws) == News(s.shared, ws))
  {
    IdleOk();
    RunKeepsOk(IDLE, run);
    RunKeepsAllHeard(IDLE, run);
    var s := ServerAfter(IDLE, run);
    assert Heard(s, s.clients[i]);
    OutlookReads(s, i, ws);
    StatusDrained(s.clients[i], Flow(s), ws);
    FirstsDrained(s.clients[i], Flow(s));
  }

  lemma TheFirstIsTold(c: Replica, ws: WorkspaceId)
    requires FirstsOnly(c) && StatusOf(c, ws) != Untold
    ensures forall k :: 0 <= k < |c.list| && c.list[k].ws == ws ==>
              (c.list[k].h in Seen(c).states <==> First(c.list, ws) == Some(c.list[k].h))
  {
    FirstIs(c.list, ws);
  }
}
