/** What a client sees at each `done`. Every notification closes a batch of its own, so the
    halves of a switch are not seen as one change (wayland-protocols/ext-workspace-v1.xml:91-104). */
module Batches {
  import opened Wrappers
  import opened Hooks
  import opened Windows
  import opened Desktops
  import opened DeskInvariant
  import opened DeskTheorems
  import opened Replicas
  import opened Protocol

  // ---------- how many workspaces a history leaves active ----------

  ghost predicate OnlyActive(m: map<WorkspaceId, bool>, a: WorkspaceId) {
    a in m && m[a] && forall b :: b in m && m[b] ==> b == a
  }

  ghost predicate OneActive(m: map<WorkspaceId, bool>) {
    exists a :: OnlyActive(m, a)
  }

  /** `h` ends with a workspace created and activated, as append_new_workspace does. */
  predicate EndsAppended(h: seq<HookEvent>) {
    |h| >= 2 && h[|h| - 1].Activate? && h[|h| - 2] == Create(h[|h| - 1].ws)
  }

  /** The last notifications leave the switch at hand complete, or not begun: nothing has just
      been deactivated but after an append, and nothing activated by an append but the very
      first workspace. */
  predicate Settled(h: seq<HookEvent>) {
    h != [] &&
    match h[|h| - 1]
    case Create(_) => |h| > 1
    case Activate(_) => !EndsAppended(h) || |h| == 2
    case Deactivate(_) => EndsAppended(h[..|h| - 1])
    case Destroy(_) => true
  }

  ghost predicate ExactAt(h: seq<HookEvent>) {
    OneActive(MapAfter(h)) <==> Settled(h)
  }

  ghost predicate Exact(h: seq<HookEvent>) {
    forall m :: 0 <= m <= |h| ==> ExactAt(h[..m])
  }

  lemma ExactExtend(h: seq<HookEvent>, e: HookEvent)
    requires Exact(h) && ExactAt(h + [e])
    ensures Exact(h + [e])
  {
    var g := h + [e];
    forall m | 0 <= m <= |g|
      ensures ExactAt(g[..m])
    {
      if m <= |h| {
        assert g[..m] == h[..m];
      } else {
        assert g[..m] == g;
      }
    }
  }

  /** The map in which `act` alone is marked. */
  ghost predicate MarksOnly(h: seq<HookEvent>, act: WorkspaceId) {
    OnlyActive(MapAfter(h), act)
  }

  lemma ExactDeactivated(h: seq<HookEvent>, source: WorkspaceId)
    requires MarksOnly(h, source) && !EndsAppended(h)
    ensures ExactAt(h + [Deactivate(source)])
    ensures forall b :: b in MapAfter(h + [Deactivate(source)]) ==> !MapAfter(h + [Deactivate(source)])[b]
  {
    Extend(h, Deactivate(source));
    assert (h + [Deactivate(source)])[..|h|] == h;
  }

  lemma ExactActivated(h: seq<HookEvent>, target: WorkspaceId, source: WorkspaceId)
    requires target in MapAfter(h) && forall b :: b in MapAfter(h) && MapAfter(h)[b] ==> b == target
    requires h != [] && h[|h| - 1] == Deactivate(source)
    ensures ExactAt(h + [Activate(target)]) && MarksOnly(h + [Activate(target)], target)
    ensures !EndsAppended(h + [Activate(target)])
  {
    Extend(h, Activate(target));
    assert OnlyActive(MapAfter(h + [Activate(target)]), target);
  }

  /** A switch between two listed workspaces. */
  lemma ExactSwitch(h: seq<HookEvent>, target: WorkspaceId, source: WorkspaceId)
    requires Exact(h) && MarksOnly(h, source) && !EndsAppended(h) && target in MapAfter(h) && target != source
    ensures var g := h + [Deactivate(source)] + [Activate(target)];
            Exact(g) && MarksOnly(g, target) && !EndsAppended(g)
  {
    Extend(h, Deactivate(source));
    ExactDeactivated(h, source);
    ExactExtend(h, Deactivate(source));
    ExactActivated(h + [Deactivate(source)], target, source);
    ExactExtend(h + [Deactivate(source)], Activate(target));
  }

  lemma ExactCreated(h: seq<HookEvent>, ws: WorkspaceId, act: WorkspaceId)
    requires h != [] && MarksOnly(h, act) && ws !in MapAfter(h)
    ensures ExactAt(h + [Create(ws)]) && MarksOnly(h + [Create(ws)], act)
  {
    Extend(h, Create(ws));
    assert OnlyActive(MapAfter(h + [Create(ws)]), act);
  }

  lemma ExactAppended(h: seq<HookEvent>, ws: WorkspaceId, act: WorkspaceId)
    requires |h| > 1 && MarksOnly(h, act) && ws in MapAfter(h) && ws != act && h[|h| - 1] == Create(ws)
    ensures var g := h + [Activate(ws)];
            && ExactAt(g) && EndsAppended(g)
            && forall b :: b in MapAfter(g) ==> (MapAfter(g)[b] <==> b == ws || b == act)
  {
    Extend(h, Activate(ws));
    var m := MapAfter(h + [Activate(ws)]);
    assert m[ws] && m[act];
  }

  lemma ExactHandedOver(h: seq<HookEvent>, ws: WorkspaceId, source: WorkspaceId)
    requires EndsAppended(h) && ws != source && ws in MapAfter(h) && source in MapAfter(h)
    requires forall b :: b in MapAfter(h) ==> (MapAfter(h)[b] <==> b == ws || b == source)
    ensures ExactAt(h + [Deactivate(source)]) && MarksOnly(h + [Deactivate(source)], ws)
  {
    Extend(h, Deactivate(source));
    assert (h + [Deactivate(source)])[..|h|] == h;
    assert OnlyActive(MapAfter(h + [Deactivate(source)]), ws);
  }

  /** A switch to a workspace appended for the purpose. */
  lemma ExactFresh(h: seq<HookEvent>, ws: WorkspaceId, source: WorkspaceId)
    requires Exact(h) && h != [] && MarksOnly(h, source) && ws !in MapAfter(h)
    ensures var g := h + [Create(ws)] + [Activate(ws)] + [Deactivate(source)] + [Activate(ws)];
            Exact(g) && MarksOnly(g, ws) && !EndsAppended(g)
  {
    var h1 := h + [Create(ws)];
    var h2 := h1 + [Activate(ws)];
    var h3 := h2 + [Deactivate(source)];
    Extend(h, Create(ws));
    ExactCreated(h, ws, source);
    ExactExtend(h, Create(ws));
    Extend(h1, Activate(ws));
    ExactAppended(h1, ws, source);
    ExactExtend(h1, Activate(ws));
    ExactHandedOver(h2, ws, source);
    ExactExtend(h2, Deactivate(source));
    ExactActivated(h3, ws, source);
    ExactExtend(h3, Activate(ws));
  }

  lemma ExactErased(h: seq<HookEvent>, gone: WorkspaceId, act: WorkspaceId)
    requires Exact(h) && MarksOnly(h, act) && gone != act
    ensures Exact(h + [Destroy(gone)]) && MarksOnly(h + [Destroy(gone)], act) && !EndsAppended(h + [Destroy(gone)])
  {
    Extend(h, Destroy(gone));
    assert OnlyActive(MapAfter(h + [Destroy(gone)]), act);
    ExactExtend(h, Destroy(gone));
  }

  // ---------- the notifications of a run ----------

  /** Until something else happens, only the first workspace has just been appended. */
  ghost predicate Paced(d: Desk) {
    && d.hooks != [] && Exact(d.hooks)
    && (EndsAppended(d.hooks) ==> d.workspaces == [d.active])
  }

  lemma InvMarks(d: Desk)
    requires Inv(d)
    ensures MarksOnly(d.hooks, d.active) && forall ws :: ws in MapAfter(d.hooks) <==> ws in d.workspaces
  {
    assert OnlyActive(MapAfter(d.hooks), d.active);
  }

  lemma SwitchPaced(d: Desk, target: WorkspaceId, take: bool, focus: Option<WindowId>)
    requires Inv(d) && Paced(d) && target in d.workspaces
    ensures var d' := Switch(d.(active := target), target, d.active, take, focus);
            && Paced(d') && MarksOnly(d'.hooks, target)
            && (target != d.active ==> !EndsAppended(d'.hooks))
  {
    InvMarks(d);
    if target != d.active {
      ExactSwitch(d.hooks, target, d.active);
    }
  }

  lemma ErasePaced(d: Desk, source: WorkspaceId)
    requires d.hooks != [] && Exact(d.hooks) && !EndsAppended(d.hooks)
    requires MarksOnly(d.hooks, d.active) && source != d.active
    ensures Paced(EraseIfEmpty(d, source))
  {
    ExactErased(d.hooks, source, d.active);
  }

  lemma GoPaced(d: Desk, q: Request, take: bool, focus: Option<WindowId>)
    requires GoEnabled(d, q, take, focus) && Paced(d)
    ensures Paced(Go(d, q, take, focus))
  {
    LeadsElsewhere(d, q);
    match Lead(d, q)
    case Stay =>
    case Listed(ws) =>
      SwitchPaced(d, ws, take, focus);
      ErasePaced(Switch(d.(active := ws), ws, d.active, take, focus), d.active);
    case FreshOne =>
      InvMarks(d);
      ExactFresh(d.hooks, d.nextWorkspace, d.active);
      ErasePaced(Switch(AppendNew(d), d.nextWorkspace, d.active, take, focus), d.active);
  }

  lemma {:induction false} VisitPaced(d: Desk, visits: seq<(WorkspaceId, Option<WindowId>)>)
    requires Inv(d) && Paced(d) && forall i :: 0 <= i < |visits| ==> visits[i].0 in d.workspaces
    ensures Paced(Visit(d, visits))
    decreases |visits|
  {
    if visits != [] {
      var (ws, focus) := visits[0];
      SwitchPaced(d, ws, false, focus);
      SwitchKeepsInv(d, ws, false, focus);
      VisitPaced(Switch(d.(active := ws), ws, d.active, false, focus), visits[1..]);
    }
  }

  lemma StepPaced(d: Desk, c: Command, focus: Option<WindowId>)
    requires Inv(d) && Enabled(d, c, focus) && Paced(d)
    ensures Paced(Step(d, c, focus))
  {
    match c
    case CmdGo(q, take) => GoPaced(d, q, take, focus);
    case CmdRaise(w, visits) =>
      if d.windows[w].inHidden {
        HiddenIsListed(d, w);
        VisitPaced(d, visits);
      }
    case _ =>
  }

  lemma {:induction false} RunPaced(d: Desk, run: seq<Action>)
    requires Inv(d) && Paced(d) && RunEnabled(d, run)
    ensures Paced(After(d, run))
    decreases |run|
  {
    if run != [] {
      StepKeepsInv(d, run[0].0, run[0].1);
      StepPaced(d, run[0].0, run[0].1);
      RunPaced(Step(d, run[0].0, run[0].1), run[1..]);
    }
  }

  lemma ExactNothing(h: seq<HookEvent>)
    requires h == []
    ensures Exact(h)
  {
    assert ExactAt(h) && h[..0] == h;
  }

  lemma FirstIsInactive(h: seq<HookEvent>, ws: WorkspaceId)
    requires h == []
    ensures MapAfter(h + [Create(ws)]) == map[ws := false] && ExactAt(h + [Create(ws)])
  {
    Extend(h, Create(ws));
  }

  lemma ExactFirst(h: seq<HookEvent>, ws: WorkspaceId)
    requires h == []
    ensures Exact(h + [Create(ws)]) && MapAfter(h + [Create(ws)]) == map[ws := false]
  {
    ExactNothing(h);
    FirstIsInactive(h, ws);
    ExactExtend(h, Create(ws));
  }

  lemma ExactSecond(h: seq<HookEvent>, ws: WorkspaceId)
    requires h == [Create(ws)] && Exact(h) && MapAfter(h) == map[ws := false]
    ensures Exact(h + [Activate(ws)])
  {
    Extend(h, Activate(ws));
    assert OnlyActive(MapAfter(h + [Activate(ws)]), ws);
    ExactExtend(h, Activate(ws));
  }

  lemma StartPaced()
    ensures Paced(Start())
  {
    ExactFirst([], 0);
    assert [] + [Create(0)] == [Create(0)];
    ExactSecond([Create(0)], 0);
    assert Start().hooks == [Create(0)] + [Activate(0)];
  }

  /** At any point of the notifications of any run exactly one workspace is active exactly if
      they are settled there. */
  lemma OneActiveIffSettled(run: seq<Action>, m: nat)
    requires RunEnabled(Start(), run) && m <= |After(Start(), run).hooks|
    ensures var h := After(Start(), run).hooks[..m]; OneActive(MapAfter(h)) <==> Settled(h)
  {
    StartInv();
    StartPaced();
    RunPaced(Start(), run);
    assert ExactAt(After(Start(), run).hooks[..m]);
  }

  // ---------- notifications of single switches without Shift ----------

  function Farewell(d: Desk): seq<HookEvent> {
    if HoldsApp(d.windows, d.active) then [] else [Destroy(d.active)]
  }

  lemma HooksOfFresh(d: Desk, focus: Option<WindowId>)
    requires d.active != d.nextWorkspace
    ensures var ws := d.nextWorkspace;
            GoToFresh(d, false, focus).hooks ==
              d.hooks + [Create(ws)] + [Activate(ws)] + [Deactivate(d.active)] + [Activate(ws)] + Farewell(d)
  {
    SameHeld(d.windows, {}, d.nextWorkspace, d.active, d.active);
  }

  lemma HooksOfListed(d: Desk, ws: WorkspaceId, focus: Option<WindowId>)
    requires ws != d.active
    ensures GoTo(d, ws, false, focus).hooks == d.hooks + [Deactivate(d.active)] + [Activate(ws)] + Farewell(d)
  {
    SameHeld(d.windows, {}, ws, d.active, d.active);
  }

  lemma OneLeftBehindHooks()
    ensures OneLeftBehind().hooks == [Create(0), Activate(0), Create(1), Activate(1), Deactivate(0), Activate(1)]
    ensures var d := OneLeftBehind(); d.active == 1 && d.workspaces == [0, 1] && d.nextWorkspace == 2 && Lead(d, ToUp) == Listed(0)
  {
    OneLeftBehindIs();
    var d := Open(Start(), None, Application, WindowState.Restored);
    assert d.workspaces == [0] && Lead(d, ToDown) == FreshOne && d.windows[0].places == {0};
    assert HoldsApp(d.windows, 0);
    HooksOfFresh(d, None);
  }

  lemma OneFurther(a: seq<HookEvent>, e: HookEvent, f: HookEvent, b: seq<HookEvent>)
    ensures var h := a + [e] + [f] + b;
            |h| > |a| + 1 && h[..|a| + 1] == a + [e] && h[..|a| + 1][..|a|] == a && h[|a|] == e
  {
  }

  /** A point at which it is not so: open a window, go down, and up again; when the seventh
      notification has been sent, no workspace is active. */
  lemma NoneActiveOnRun()
    ensures var run := ThreeSteps(CmdGo(ToUp, false));
            && RunEnabled(Start(), run)
            && var h := After(Start(), run).hooks;
               |h| > 7 && h[6] == Deactivate(1) && !OneActive(MapAfter(h[..7]))
  {
    OneLeftBehindHooks();
    OneLeftBehindOnRun(CmdGo(ToUp, false));
    var d := OneLeftBehind();
    HooksOfListed(d, 0, None);
    OneFurther(d.hooks, Deactivate(1), Activate(0), Farewell(d));
    OneActiveIffSettled(ThreeSteps(CmdGo(ToUp, false)), 7);
  }

  // ---------- what has been carried out ----------

  /** What has been carried out of the notifications received. */
  function CarriedOut(s: Server): seq<HookEvent>
    requires |Flow(s)| <= |s.history|
  {
    s.history[..|s.history| - |Flow(s)|]
  }

  /** Every notification received has been carried out or is under way. */
  ghost predicate Accounted(s: Server) {
    |Flow(s)| <= |s.history| && s.history == CarriedOut(s) + Flow(s)
  }

  lemma SuffixKept(a: seq<HookEvent>, b: seq<HookEvent>)
    ensures (a + b)[..|a + b| - |b|] == a
  {
  }

  lemma UpdateAccounted(s: Server, e: HookEvent)
    requires ServerOk(s) && StepEnabled(s, Update(e)) && LawfulNext(s.history, e) && Accounted(s)
    ensures var s' := Next(s, Update(e)); Accounted(s') && CarriedOut(s') == CarriedOut(s)
  {
    var s' := Next(s, Update(e));
    assert PassedOn(s.shared, e);
    assert Flow(s') == Flow(s) + [e];
    assert s'.history == CarriedOut(s) + Flow(s');
    SuffixKept(CarriedOut(s), Flow(s'));
  }

  lemma HeadAccounted(s: Server)
    requires s.queue != [] && Accounted(s)
    ensures var s' := Next(s, RunHead); Accounted(s') && CarriedOut(s') == CarriedOut(s) + [s.queue[0]]
  {
    var s', e := Next(s, RunHead), s.queue[0];
    assert Flow(s) == [e] + Flow(s');
    assert s.history == (CarriedOut(s) + [e]) + Flow(s');
    SuffixKept(CarriedOut(s) + [e], Flow(s'));
  }

  lemma StepAccounted(s: Server, step: ServerStep)
    requires ServerOk(s) && StepEnabled(s, step) && Accounted(s) && (step.Update? ==> LawfulNext(s.history, step.e))
    ensures var s' := Next(s, step);
            Accounted(s') && CarriedOut(s') == (if step.RunHead? then CarriedOut(s) + [s.queue[0]] else CarriedOut(s))
  {
    match step
    case Update(e) => UpdateAccounted(s, e);
    case RunHead => HeadAccounted(s);
    case Enqueue => assert Flow(Next(s, step)) == Flow(s);
    case Bind(_) => assert Flow(Next(s, step)) == Flow(s);
    case Disconnect(_) => assert Flow(Next(s, step)) == Flow(s);
  }

  lemma {:induction false} HistoryGrows(s: Server, run: seq<ServerStep>)
    requires ServerRunEnabled(s, run)
    ensures s.history <= ServerAfter(s, run).history
    decreases |run|
  {
    if run != [] {
      HistoryGrows(Next(s, run[0]), run[1..]);
    }
  }

  lemma UpdateWasLawful(s: Server, e: HookEvent, h: seq<HookEvent>)
    requires Lawful(h) && s.history + [e] <= h
    ensures LawfulNext(s.history, e)
  {
    assert h[..|s.history|] == s.history && h[|s.history|] == e;
  }

  /** So it is in every state that the service comes to with a lawful history. */
  lemma {:induction false} RunAccounted(s: Server, run: seq<ServerStep>)
    requires ServerOk(s) && Accounted(s) && ServerRunEnabled(s, run) && Lawful(ServerAfter(s, run).history)
    ensures ServerOk(ServerAfter(s, run)) && Accounted(ServerAfter(s, run))
    decreases |run|
  {
    if run != [] {
      if run[0].Update? {
        HistoryGrows(Next(s, run[0]), run[1..]);
        UpdateWasLawful(s, run[0].e, ServerAfter(s, run).history);
      }
      StepKeepsOk(s, run[0]);
      StepAccounted(s, run[0]);
      RunAccounted(Next(s, run[0]), run[1..]);
    }
  }

  lemma EveryRunIsAccounted(run: seq<ServerStep>)
    requires ServerRunEnabled(IDLE, run) && Lawful(ServerAfter(IDLE, run).history)
    ensures ServerOk(ServerAfter(IDLE, run)) && Accounted(ServerAfter(IDLE, run))
  {
    IdleOk();
    RunAccounted(IDLE, run);
  }

  // ---------- what a client has been told since it bound ----------

  /** A client that was told the map `m` when `k` notifications had been carried out, and has
      been told those carried out since. */
  ghost predicate ToldSince(s: Server, c: Replica, m: map<WorkspaceId, bool>, k: nat) {
    && Accounted(s) && k <= |CarriedOut(s)|
    && (forall ws :: StatusOf(c, ws) == TellAll(News(m, ws), CarriedOut(s)[k..], ws))
  }

  lemma HeadTold(s: Server, c: Replica, m: map<WorkspaceId, bool>, k: nat)
    requires ReplicaOk(c) && s.queue != [] && ToldSince(s, c, m, k)
    ensures ToldSince(Next(s, RunHead), Handle(c, s.queue[0]), m, k)
  {
    var e, done := s.queue[0], CarriedOut(s);
    HeadAccounted(s);
    assert (done + [e])[k..] == done[k..] + [e];
    forall ws
      ensures StatusOf(Handle(c, e), ws) == TellAll(News(m, ws), (done + [e])[k..], ws)
    {
      StatusHandled(c, e, ws);
      TellExtend(News(m, ws), done[k..], e, ws);
    }
  }

  lemma StepTold(s: Server, step: ServerStep, i: nat, m: map<WorkspaceId, bool>, k: nat)
    requires ServerOk(s) && StepEnabled(s, step) && i < |s.clients| && SeatNext(i, step).Some?
    requires ToldSince(s, s.clients[i], m, k) && (step.Update? ==> LawfulNext(s.history, step.e))
    ensures var s', j := Next(s, step), SeatNext(i, step).value; j < |s'.clients| && ToldSince(s', s'.clients[j], m, k)
  {
    StepAccounted(s, step);
    match step
    case RunHead => HeadTold(s, s.clients[i], m, k);
    case Disconnect(_) => SeatKept(s, step, i);
    case _ =>
  }

  lemma {:induction false} RunTold(s: Server, run: seq<ServerStep>, i: nat, m: map<WorkspaceId, bool>, k: nat)
    requires ServerOk(s) && ServerRunEnabled(s, run) && Lawful(ServerAfter(s, run).history)
    requires i < |s.clients| && ToldSince(s, s.clients[i], m, k) && Seat(i, run).Some?
    ensures var s', j := ServerAfter(s, run), Seat(i, run).value;
            ServerOk(s') && j < |s'.clients| && ToldSince(s', s'.clients[j], m, k)
    decreases |run|
  {
    if run != [] {
      if run[0].Update? {
        HistoryGrows(Next(s, run[0]), run[1..]);
        UpdateWasLawful(s, run[0].e, ServerAfter(s, run).history);
      }
      StepKeepsOk(s, run[0]);
      StepTold(s, run[0], i, m, k);
      RunTold(Next(s, run[0]), run[1..], SeatNext(i, run[0]).value, m, k);
    }
  }

  lemma BoundTold(s: Server, order: seq<WorkspaceId>)
    requires ServerOk(s) && Accounted(s) && StepEnabled(s, Bind(order))
    ensures var s' := Next(s, Bind(order)); ToldSince(s', s'.clients[|s.clients|], s.shared, |CarriedOut(s)|)
  {
    var s' := Next(s, Bind(order));
    StepAccounted(s, Bind(order));
    forall ws
      ensures StatusOf(s'.clients[|s.clients|], ws) == News(s.shared, ws)
    {
      StatusBound(s.shared, order, ws);
    }
  }

  /** The situation of the results below: a client binds in `s`, whatever is under way, the
      service goes on, and the client stays. */
  ghost predicate Served(s: Server, order: seq<WorkspaceId>, run: seq<ServerStep>) {
    && ServerOk(s) && Accounted(s) && StepEnabled(s, Bind(order))
    && ServerRunEnabled(Next(s, Bind(order)), run) && Seat(|s.clients|, run).Some?
    && Lawful(ServerAfter(Next(s, Bind(order)), run).history)
  }

  /** Whatever was under way when it bound, a client has at all times been told the map as it
      was at the bind and, after that, what has been carried out since. */
  lemma ClientsAreToldSince(s: Server, order: seq<WorkspaceId>, run: seq<ServerStep>)
    requires Served(s, order, run)
    ensures var s', j := ServerAfter(Next(s, Bind(order)), run), Seat(|s.clients|, run).value;
            && ServerOk(s') && j < |s'.clients| && Closed(s'.clients[j])
            && ToldSince(s', s'.clients[j], s.shared, |CarriedOut(s)|)
            && s.history <= s'.history
  {
    StepKeepsOk(s, Bind(order));
    BoundTold(s, order);
    RunTold(Next(s, Bind(order)), run, |s.clients|, s.shared, |CarriedOut(s)|);
    HistoryGrows(Next(s, Bind(order)), run);
  }

  // ---------- once it has caught up, a client shows a past of the map ----------

  lemma {:induction false} TellAppend(x: Status, a: seq<HookEvent>, b: seq<HookEvent>, ws: WorkspaceId)
    ensures TellAll(x, a + b, ws) == TellAll(TellAll(x, a, ws), b, ws)
    decreases |a|
  {
    if a == [] {
      assert a + b == b;
    } else {
      assert (a + b)[1..] == a[1..] + b;
      TellAppend(Tell(x, a[0], ws), a[1..], b, ws);
    }
  }

  /** One notification does to what a client makes of a workspace what it does to the map. */
  lemma ReadsLikeTheMap(x: Status, m: map<WorkspaceId, bool>, e: HookEvent, ws: WorkspaceId)
    requires Reads(x) == Due(m, ws)
    ensures Reads(Tell(x, e, ws)) == Due(ApplyToMap(m, e), ws)
  {
  }

  lemma {:induction false} ReadsOn(x: Status, h: seq<HookEvent>, es: seq<HookEvent>, ws: WorkspaceId)
    requires Reads(x) == Due(MapAfter(h), ws)
    ensures Reads(TellAll(x, es, ws)) == Due(MapAfter(h + es), ws)
    decreases |es|
  {
    if es == [] {
      assert h + es == h;
    } else {
      Extend(h, es[0]);
      ReadsLikeTheMap(x, MapAfter(h), es[0], ws);
      ReadsOn(Tell(x, es[0], ws), h + [es[0]], es[1..], ws);
      assert h + es == h + [es[0]] + es[1..];
    }
  }

  lemma CaughtUpReads(s: Server, carried: seq<HookEvent>, ws: WorkspaceId)
    requires ServerOk(s) && Accounted(s) && s.history <= carried
    ensures Reads(TellAll(News(s.shared, ws), carried[|CarriedOut(s)|..], ws)) == Due(MapAfter(carried), ws)
  {
    var later := carried[|s.history|..];
    assert carried == s.history + later;
    assert carried[|CarriedOut(s)|..] == Flow(s) + later;
    TellAppend(News(s.shared, ws), Flow(s), later, ws);
    assert Absorbs(s.shared, Flow(s), ws);
    assert Flow(s)[0..] == Flow(s);
    ReadsOn(News(s.shared, ws), s.history, later, ws);
  }

  /** Everything that was under way at the bind has been carried out. */
  ghost predicate CaughtUp(s: Server, s': Server) {
    Accounted(s') && |CarriedOut(s')| >= |s.history|
  }

  /** Once it has caught up, a client shows the map as it was when the notifications carried out
      so far had been received: never a state the map was not in. */
  lemma ClientsShowThePast(s: Server, order: seq<WorkspaceId>, run: seq<ServerStep>, ws: WorkspaceId)
    requires Served(s, order, run)
    ensures var s', j := ServerAfter(Next(s, Bind(order)), run), Seat(|s.clients|, run).value;
            && j < |s'.clients| && Closed(s'.clients[j]) && Accounted(s')
            && (CaughtUp(s, s') ==> Standing(s'.clients[j], ws) == Due(MapAfter(CarriedOut(s')), ws))
  {
    ClientsAreToldSince(s, order, run);
    var s' := ServerAfter(Next(s, Bind(order)), run);
    if CaughtUp(s, s') {
      assert s.history <= CarriedOut(s');
      CaughtUpReads(s, CarriedOut(s'), ws);
    }
  }

  /** A client that binds with nothing under way has caught up from the start. */
  lemma QuietBindHasCaughtUp(s: Server, order: seq<WorkspaceId>, run: seq<ServerStep>)
    requires Served(s, order, run) && Flow(s) == []
    ensures CaughtUp(s, ServerAfter(Next(s, Bind(order)), run))
  {
    ClientsAreToldSince(s, order, run);
  }

  // ---------- exactly one active workspace at a `done` ----------

  ghost predicate SeesOnly(c: Replica, a: WorkspaceId) {
    Standing(c, a) == Some(true) && forall b :: Standing(c, b) == Some(true) ==> b == a
  }

  /** Of all workspaces exactly one has its first handle active. */
  ghost predicate SeesOneActive(c: Replica) {
    exists a :: SeesOnly(c, a)
  }

  lemma SeesLikeTheMap(c: Replica, m: map<WorkspaceId, bool>)
    requires forall ws :: Standing(c, ws) == Due(m, ws)
    ensures SeesOneActive(c) <==> OneActive(m)
  {
    forall a
      ensures SeesOnly(c, a) <==> OnlyActive(m, a)
    {
      assert Standing(c, a) == Due(m, a);
      if OnlyActive(m, a) {
        assert forall b :: Standing(c, b) == Some(true) ==> b in m && m[b];
      }
      if SeesOnly(c, a) {
        assert forall b :: b in m && m[b] ==> Standing(c, b) == Some(true);
      }
    }
  }

  lemma PrefixOfLawful(h: seq<HookEvent>, g: seq<HookEvent>)
    requires Lawful(h) && g <= h
    ensures Lawful(g)
  {
    forall i | 0 <= i < |g|
      ensures LawfulNext(g[..i], g[i])
    {
      assert g[..i] == h[..i] && g[i] == h[i];
    }
  }

  lemma ClientSeesOneIff(s: Server, order: seq<WorkspaceId>, run: seq<ServerStep>)
    requires Served(s, order, run)
    ensures var s', j := ServerAfter(Next(s, Bind(order)), run), Seat(|s.clients|, run).value;
            && j < |s'.clients| && Closed(s'.clients[j]) && Accounted(s')
            && (CaughtUp(s, s') ==> (SeesOneActive(s'.clients[j]) <==> OneActive(MapAfter(CarriedOut(s')))))
  {
    ClientsShowThePast(s, order, run, 0);
    var s', j := ServerAfter(Next(s, Bind(order)), run), Seat(|s.clients|, run).value;
    if CaughtUp(s, s') {
      forall ws
        ensures Standing(s'.clients[j], ws) == Due(MapAfter(CarriedOut(s')), ws)
      {
        ClientsShowThePast(s, order, run, ws);
      }
      SeesLikeTheMap(s'.clients[j], MapAfter(CarriedOut(s')));
    }
  }

  lemma SettledBefore(run: seq<Action>, h: seq<HookEvent>, n: nat)
    requires RunEnabled(Start(), run) && h <= After(Start(), run).hooks && n <= |h|
    ensures Lawful(h) && (OneActive(MapAfter(h[..n])) <==> Settled(h[..n]))
  {
    MirrorOnEveryRun(run);
    PrefixOfLawful(After(Start(), run).hooks, h);
    assert h[..n] == After(Start(), run).hooks[..n];
    OneActiveIffSettled(run, n);
  }

  /** While the notifications of a run of commands are being served, a client that has caught up
      sees exactly one workspace active at a `done` exactly if the ones carried out so far are
      settled: not between the two halves of a switch, nor while an append has marked two. */
  lemma OneActiveAtDoneIff(run: seq<Action>, s: Server, order: seq<WorkspaceId>, srun: seq<ServerStep>)
    requires RunEnabled(Start(), run)
    requires ServerOk(s) && Accounted(s) && StepEnabled(s, Bind(order))
    requires ServerRunEnabled(Next(s, Bind(order)), srun) && Seat(|s.clients|, srun).Some?
    requires ServerAfter(Next(s, Bind(order)), srun).history <= After(Start(), run).hooks
    ensures var s', j := ServerAfter(Next(s, Bind(order)), srun), Seat(|s.clients|, srun).value;
            && j < |s'.clients| && Closed(s'.clients[j]) && Accounted(s')
            && (CaughtUp(s, s') ==> (SeesOneActive(s'.clients[j]) <==> Settled(CarriedOut(s'))))
  {
    var s' := ServerAfter(Next(s, Bind(order)), srun);
    SettledBefore(run, s'.history, 0);
    ClientSeesOneIff(s, order, srun);
    SettledBefore(run, s'.history, |s'.history| - |Flow(s')|);
  }
}
