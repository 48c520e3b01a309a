/** What users of dynamic workspaces rely on, over every command and every run. */
module DeskTheorems {
  import opened Wrappers
  import opened Hooks
  import opened Windows
  import opened Desktops
  import opened DeskInvariant

  // ---------- visibility and mirroring over runs ----------

  /** In every reachable desk an application window is hidden exactly when the workspace that
      holds it is not the active one, and no second workspace holds it. */
  lemma VisibilityOnEveryRun(run: seq<Action>, w: WindowId)
    requires RunEnabled(Start(), run)
    requires w in After(Start(), run).windows && IsApp(After(Start(), run).windows[w])
    ensures var d := After(Start(), run); var r := d.windows[w];
            && (r.inHidden <==> exists p :: p in r.places && p != d.active)
            && (forall p, q :: p in r.places && q in r.places ==> p == q)
            && (forall p :: p in r.places ==> p in d.workspaces)
  {
    StartInv();
    RunKeepsInv(Start(), run);
    var d := After(Start(), run);
    assert Placed(d.windows[w], d.workspaces, d.active);
    if d.windows[w].places != {} {
      var p :| p in d.windows[w].places;
    }
  }

  /** A shell window is never hidden, wherever it may still be filed. */
  lemma ShellNeverHidden(run: seq<Action>, w: WindowId)
    requires RunEnabled(Start(), run)
    requires w in After(Start(), run).windows && !IsApp(After(Start(), run).windows[w])
    ensures !After(Start(), run).windows[w].inHidden
  {
    StartInv();
    RunKeepsInv(Start(), run);
  }

  /** At every command boundary the mirrored map holds exactly the listed workspaces, only the
      active one marked, and the notifications so far were lawful. */
  lemma MirrorOnEveryRun(run: seq<Action>)
    requires RunEnabled(Start(), run)
    ensures var d := After(Start(), run);
            && (forall ws :: ws in MapAfter(d.hooks) <==> ws in d.workspaces)
            && (forall ws :: ws in MapAfter(d.hooks) ==> (MapAfter(d.hooks)[ws] <==> ws == d.active))
            && ListAfter(d.hooks) == d.workspaces
            && Lawful(d.hooks)
  {
    StartInv();
    RunKeepsInv(Start(), run);
  }

  /** A workspace is destroyed only while it is mirrored and not marked active ... */
  lemma DestroyedWhileInactive(run: seq<Action>, i: nat)
    requires RunEnabled(Start(), run)
    requires i < |After(Start(), run).hooks| && After(Start(), run).hooks[i].Destroy?
    ensures var h := After(Start(), run).hooks;
            h[i].ws in MapAfter(h[..i]) && !MapAfter(h[..i])[h[i].ws]
  {
    StartInv();
    RunKeepsInv(Start(), run);
    var h := After(Start(), run).hooks;
    assert LawfulNext(h[..i], h[i]);
  }

  /** ... and nothing is notified of it after. */
  lemma DestroyedForGood(run: seq<Action>, i: nat, j: nat)
    requires RunEnabled(Start(), run)
    requires i < j < |After(Start(), run).hooks| && After(Start(), run).hooks[i].Destroy?
    ensures var h := After(Start(), run).hooks;
            && h[i].ws in MapAfter(h[..i]) && !MapAfter(h[..i])[h[i].ws]
            && h[j].ws != h[i].ws
  {
    DestroyedWhileInactive(run, i);
    StartInv();
    RunKeepsInv(Start(), run);
    NoEventAfterDestruction(After(Start(), run).hooks, i, j);
  }

  /** In between, append_new_workspace leaves two workspaces marked active. */
  lemma AppendingMarksTwo(d: Desk)
    requires Inv(d)
    ensures var m := MapAfter(AppendNew(d).hooks);
            forall ws :: ws in m && m[ws] <==> ws == d.active || ws == d.nextWorkspace
    ensures d.active != d.nextWorkspace
  {
    HooksAppend(d);
  }

  // ---------- every workspace is activated as it is made ----------

  ghost predicate Announced(d: Desk) {
    forall ws :: ws in d.workspaces ==> Activate(ws) in d.hooks
  }

  lemma SwitchAnnounced(d: Desk, target: WorkspaceId, source: WorkspaceId, take: bool, focus: Option<WindowId>)
    requires Announced(d)
    ensures Announced(Switch(d, target, source, take, focus))
  {
  }

  lemma EraseAnnounced(d: Desk, source: WorkspaceId)
    requires Announced(d)
    ensures Announced(EraseIfEmpty(d, source))
  {
  }

  lemma AppendAnnounced(d: Desk)
    requires Announced(d)
    ensures Announced(AppendNew(d))
  {
  }

  lemma GoAnnounced(d: Desk, q: Request, take: bool, focus: Option<WindowId>)
    requires Announced(d) && d.active in d.workspaces
    ensures Announced(Go(d, q, take, focus))
  {
    match Lead(d, q)
    case Stay =>
    case Listed(ws) =>
      SwitchAnnounced(d.(active := ws), ws, d.active, take, focus);
      EraseAnnounced(Switch(d.(active := ws), ws, d.active, take, focus), d.active);
    case FreshOne =>
      AppendAnnounced(d);
      SwitchAnnounced(AppendNew(d), d.nextWorkspace, d.active, take, focus);
      EraseAnnounced(Switch(AppendNew(d), d.nextWorkspace, d.active, take, focus), d.active);
  }

  lemma {:induction false} VisitAnnounced(d: Desk, visits: seq<(WorkspaceId, Option<WindowId>)>)
    requires Announced(d)
    ensures Announced(Visit(d, visits))
    decreases |visits|
  {
    if visits != [] {
      var (ws, focus) := visits[0];
      SwitchAnnounced(d.(active := ws), ws, d.active, false, focus);
      VisitAnnounced(Switch(d.(active := ws), ws, d.active, false, focus), visits[1..]);
    }
  }

  lemma {:induction false} RunAnnounced(d: Desk, run: seq<Action>)
    requires RunEnabled(d, run) && Announced(d)
    ensures Announced(After(d, run))
    decreases |run|
  {
    if run != [] {
      match run[0].0 {
        case CmdGo(q, take) => GoAnnounced(d, q, take, run[0].1);
        case CmdRaise(_, visits) => VisitAnnounced(d, visits);
        case _ =>
      }
      RunAnnounced(Step(d, run[0].0, run[0].1), run[1..]);
    }
  }

  /** Unlike the protocol's map by itself, a desk never lists a workspace that it has not
      announced as active at some time. */
  lemma ListedWereActivated(run: seq<Action>, ws: WorkspaceId)
    requires RunEnabled(Start(), run) && ws in After(Start(), run).workspaces
    ensures Activate(ws) in After(Start(), run).hooks
  {
    AppendAnnounced(Desk(map[], [], 0, map[], [], 0, 0));
    RunAnnounced(Start(), run);
  }

  // ---------- the switch commands in one relation ----------

  ghost predicate GoEnabled(d: Desk, q: Request, take: bool, focus: Option<WindowId>) {
    Inv(d) && FocusOk(d.windows, focus) && (q.To? ==> q.ws in d.workspaces && !take)
  }

  /** The list a switch starts from, with the fresh workspace it may append. */
  function Grown(d: Desk, d': Desk): seq<WorkspaceId> {
    if d'.nextWorkspace == d.nextWorkspace then d.workspaces else d.workspaces + [d.nextWorkspace]
  }

  ghost predicate OnlyTheOpenMoves(d: Desk, moved: set<WindowId>) {
    forall w :: w in moved ==> w in d.windows && (IsApp(d.windows[w]) ==> d.windows[w].places <= {d.active})
  }

  /** From `d` to `d'` the active workspace changed: windows passed from the one to the other,
      and the one left is gone if it holds no application window. */
  ghost predicate Switched(d: Desk, d': Desk, moved: set<WindowId>) {
    && d'.active != d.active
    && d'.windows == TransitAll(d.windows, moved, d'.active, d.active)
    && (d'.nextWorkspace == d.nextWorkspace || d'.nextWorkspace == d.nextWorkspace + 1)
    && d'.active in Grown(d, d')
    && (d'.nextWorkspace != d.nextWorkspace ==> d'.active == d.nextWorkspace)
    && d'.workspaces == (if HoldsApp(d'.windows, d.active) then Grown(d, d') else Without(Grown(d, d'), d.active))
    && OnlyTheOpenMoves(d, moved)
  }

  lemma GoToSwitches(d: Desk, target: WorkspaceId, take: bool, focus: Option<WindowId>)
    requires target in d.workspaces && target != d.active
    requires OnlyTheOpenMoves(d, Moved(d.windows, take, focus))
    ensures Switched(d, GoTo(d, target, take, focus), Moved(d.windows, take, focus))
  {
  }

  lemma GoToFreshSwitches(d: Desk, take: bool, focus: Option<WindowId>)
    requires d.active != d.nextWorkspace
    requires OnlyTheOpenMoves(d, Moved(d.windows, take, focus))
    ensures Switched(d, GoToFresh(d, take, focus), Moved(d.windows, take, focus))
  {
  }

  lemma LeadsElsewhere(d: Desk, q: Request)
    requires ListOk(d) && (q.To? ==> q.ws in d.workspaces)
    ensures Lead(d, q).Listed? ==> Lead(d, q).ws in d.workspaces && Lead(d, q).ws != d.active
  {
    var i := IndexOf(d.workspaces, d.active);
    assert i > 0 ==> d.workspaces[0] != d.active && d.workspaces[i - 1] != d.active;
  }

  /** Every switch command stays put or is such a passage. */
  lemma GoSwitches(d: Desk, q: Request, take: bool, focus: Option<WindowId>)
    requires GoEnabled(d, q, take, focus)
    ensures var d' := Go(d, q, take, focus); d' == d || Switched(d, d', Moved(d.windows, take, focus))
  {
    LeadsElsewhere(d, q);
    MovedIsInTheOpen(d.windows, d.workspaces, d.active, true, focus);
    assert OnlyTheOpenMoves(d, Moved(d.windows, take, focus));
    match Lead(d, q)
    case Stay =>
    case Listed(ws) => GoToSwitches(d, ws, take, focus);
    case FreshOne => GoToFreshSwitches(d, take, focus);
  }

  // ---------- effective state ----------

  /** No client asks a window the manager shows for another state. */
  ghost predicate LeavesStates(d: Desk, c: Command) {
    c.CmdModify? && c.w in d.windows ==> c.changes.state.None? || d.windows[c.w].inHidden
  }

  lemma {:induction false} VisitKeepsEffective(d: Desk, visits: seq<(WorkspaceId, Option<WindowId>)>)
    ensures Visit(d, visits).windows.Keys == d.windows.Keys
    ensures forall w :: w in d.windows ==> Effective(Visit(d, visits).windows[w]) == Effective(d.windows[w])
    decreases |visits|
  {
    if visits != [] {
      var (ws, focus) := visits[0];
      VisitKeepsEffective(Switch(d.(active := ws), ws, d.active, false, focus), visits[1..]);
    }
  }

  /** Same window, same state of its own. */
  ghost predicate EffectiveKept(ws: Windows, ws': Windows, w: WindowId)
    requires w in ws
  {
    w in ws' && Effective(ws'[w]) == Effective(ws[w])
  }

  lemma GoneWindows(d: Desk, d1: Desk, target: WorkspaceId, take: bool, focus: Option<WindowId>)
    requires d1.windows == d.windows
    ensures EraseIfEmpty(Switch(d1, target, d.active, take, focus), d.active).windows ==
              if target == d.active then d.windows
              else TransitAll(d.windows, Moved(d.windows, take, focus), target, d.active)
  {
  }

  lemma TransitKeepsEffective(r: Window, moves: bool, target: WorkspaceId, source: WorkspaceId)
    ensures Effective(Transit(r, moves, target, source)) == Effective(r)
  {
  }

  lemma TransitAllKeepsEffective(ws: Windows, moved: set<WindowId>, target: WorkspaceId, source: WorkspaceId, w: WindowId)
    requires w in ws
    ensures EffectiveKept(ws, TransitAll(ws, moved, target, source), w)
  {
    TransitKeepsEffective(ws[w], w in moved, target, source);
  }

  lemma GoKeepsEffective(d: Desk, q: Request, take: bool, focus: Option<WindowId>, w: WindowId)
    requires d.active in d.workspaces && w in d.windows
    ensures EffectiveKept(d.windows, Go(d, q, take, focus).windows, w)
  {
    var moved := Moved(d.windows, take, focus);
    match Lead(d, q)
    case Stay =>
    case Listed(ws) =>
      GoneWindows(d, d.(active := ws), ws, take, focus);
      TransitAllKeepsEffective(d.windows, moved, ws, d.active, w);
    case FreshOne =>
      GoneWindows(d, AppendNew(d), d.nextWorkspace, take, focus);
      TransitAllKeepsEffective(d.windows, moved, d.nextWorkspace, d.active, w);
  }

  lemma ToggleKeepsEffective(d: Desk, focus: Option<WindowId>, w: WindowId)
    requires w in d.windows
    ensures EffectiveKept(d.windows, ToggleOnTop(d, focus).windows, w)
  {
  }

  lemma OpenKeepsEffective(d: Desk, parent: Option<WindowId>, layer: Layer, state: WindowState, w: WindowId)
    requires w in d.windows && IdsOk(d) && (parent.Some? ==> parent.value in d.windows)
    ensures EffectiveKept(d.windows, Open(d, parent, layer, state).windows, w)
  {
  }

  lemma StepKeepsEffective(d: Desk, c: Command, focus: Option<WindowId>, w: WindowId)
    requires ListOk(d) && IdsOk(d) && Enabled(d, c, focus) && LeavesStates(d, c)
    requires w in d.windows && w in Step(d, c, focus).windows
    ensures EffectiveKept(d.windows, Step(d, c, focus).windows, w)
  {
    match c
    case CmdRaise(_, visits) => VisitKeepsEffective(d, visits);
    case CmdGo(q, take) => GoKeepsEffective(d, q, take, focus, w);
    case CmdToggleOnTop => ToggleKeepsEffective(d, focus, w);
    case CmdOpen(parent, layer, state) => OpenKeepsEffective(d, parent, layer, state, w);
    case _ =>
  }

  ghost predicate RunLeavesStates(d: Desk, run: seq<Action>)
    requires RunEnabled(d, run)
    decreases |run|
  {
    run == [] || (LeavesStates(d, run[0].0) && RunLeavesStates(Step(d, run[0].0, run[0].1), run[1..]))
  }

  lemma {:induction false} VisitKeepsIds(d: Desk, visits: seq<(WorkspaceId, Option<WindowId>)>)
    ensures Visit(d, visits).windows.Keys == d.windows.Keys && Visit(d, visits).nextWindow == d.nextWindow
    decreases |visits|
  {
    if visits != [] {
      var (ws, focus) := visits[0];
      VisitKeepsIds(Switch(d.(active := ws), ws, d.active, false, focus), visits[1..]);
    }
  }

  lemma StepKeepsIds(d: Desk, c: Command, focus: Option<WindowId>)
    requires Enabled(d, c, focus)
    ensures Step(d, c, focus).nextWindow >= d.nextWindow
    ensures forall w :: w in Step(d, c, focus).windows && w < d.nextWindow ==> w in d.windows
  {
    if c.CmdRaise? {
      VisitKeepsIds(d, c.visits);
    }
  }

  /** Identities of closed windows never return. */
  lemma {:induction false} ClosedStaysClosed(d: Desk, run: seq<Action>, w: WindowId)
    requires RunEnabled(d, run) && w < d.nextWindow && w !in d.windows
    ensures w !in After(d, run).windows
    decreases |run|
  {
    if run != [] {
      StepKeepsIds(d, run[0].0, run[0].1);
      ClosedStaysClosed(Step(d, run[0].0, run[0].1), run[1..], w);
    }
  }

  /** However often a window is hidden, shown and moved between workspaces, the state it had
      comes back: only a request made while it is shown changes it. */
  lemma {:induction false} EffectiveStateSurvives(d: Desk, run: seq<Action>, w: WindowId)
    requires Inv(d) && RunEnabled(d, run) && RunLeavesStates(d, run)
    requires w in d.windows && w in After(d, run).windows
    ensures Effective(After(d, run).windows[w]) == Effective(d.windows[w])
    decreases |run|
  {
    if run != [] {
      var d1 := Step(d, run[0].0, run[0].1);
      StepKeepsInv(d, run[0].0, run[0].1);
      StepKeepsIds(d, run[0].0, run[0].1);
      if w !in d1.windows {
        ClosedStaysClosed(d1, run[1..], w);
      } else {
        StepKeepsEffective(d, run[0].0, run[0].1, w);
        EffectiveStateSurvives(d1, run[1..], w);
      }
    }
  }

  // ---------- conservation ----------

  ghost predicate Precedes(list: seq<WorkspaceId>, a: WorkspaceId, b: WorkspaceId) {
    exists i, j :: 0 <= i < j < |list| && list[i] == a && list[j] == b
  }

  lemma PrecedesHeadTail(list: seq<WorkspaceId>, a: WorkspaceId, b: WorkspaceId)
    requires list != []
    ensures Precedes(list, a, b) <==> (list[0] == a && b in list[1..]) || Precedes(list[1..], a, b)
  {
    var rest := list[1..];
    if list[0] == a && b in rest {
      var j :| 0 <= j < |rest| && rest[j] == b;
      assert list[0] == a && list[j + 1] == b;
    }
    if Precedes(rest, a, b) {
      var i, j :| 0 <= i < j < |rest| && rest[i] == a && rest[j] == b;
      assert list[i + 1] == a && list[j + 1] == b;
    }
    if Precedes(list, a, b) {
      var i, j :| 0 <= i < j < |list| && list[i] == a && list[j] == b;
      assert rest[j - 1] == b;
      if i > 0 {
        assert rest[i - 1] == a;
      }
    }
  }

  lemma {:induction false} WithoutKeepsPrecedence(list: seq<WorkspaceId>, ws: WorkspaceId, a: WorkspaceId, b: WorkspaceId)
    requires a != ws && b != ws
    ensures Precedes(Without(list, ws), a, b) <==> Precedes(list, a, b)
  {
    if list != [] {
      var rest := list[1..];
      WithoutKeepsPrecedence(rest, ws, a, b);
      PrecedesHeadTail(list, a, b);
      if list[0] != ws {
        var r := Without(list, ws);
        assert r[1..] == Without(rest, ws);
        PrecedesHeadTail(r, a, b);
      }
    }
  }

  /** Workspaces that survive keep their relative order; a newcomer is fresh and comes last;
      a casualty is the workspace left, and holds no application window. */
  ghost predicate OrderKept(d: Desk, d': Desk, a: WorkspaceId, b: WorkspaceId) {
    && (a in d.workspaces && b in d.workspaces && a in d'.workspaces && b in d'.workspaces ==>
          (Precedes(d.workspaces, a, b) <==> Precedes(d'.workspaces, a, b)))
    && (a in d'.workspaces && a !in d.workspaces ==>
          a == d.nextWorkspace && d'.workspaces[|d'.workspaces| - 1] == a)
    && (a in d.workspaces && a !in d'.workspaces ==> a == d.active && !HoldsApp(d'.windows, a))
  }

  lemma AppendKeepsPrecedence(list: seq<WorkspaceId>, ws: WorkspaceId, a: WorkspaceId, b: WorkspaceId)
    requires a != ws && b != ws
    ensures Precedes(list + [ws], a, b) <==> Precedes(list, a, b)
  {
    var g := list + [ws];
    if Precedes(list, a, b) {
      var i, j :| 0 <= i < j < |list| && list[i] == a && list[j] == b;
      assert g[i] == a && g[j] == b;
    }
    if Precedes(g, a, b) {
      var i, j :| 0 <= i < j < |g| && g[i] == a && g[j] == b;
      assert list[i] == a && list[j] == b;
    }
  }

  lemma {:induction false} WithoutKeepsLast(list: seq<WorkspaceId>, ws: WorkspaceId)
    requires list != [] && list[|list| - 1] != ws
    ensures var r := Without(list, ws); r != [] && r[|r| - 1] == list[|list| - 1]
  {
    if |list| > 1 {
      WithoutKeepsLast(list[1..], ws);
    }
  }

  lemma OrderAcross(d: Desk, d': Desk, moved: set<WindowId>, a: WorkspaceId, b: WorkspaceId)
    requires ListOk(d) && Switched(d, d', moved)
    ensures OrderKept(d, d', a, b)
  {
    var grown := Grown(d, d');
    if a in d.workspaces && b in d.workspaces && a in d'.workspaces && b in d'.workspaces {
      if d'.workspaces != grown {
        WithoutKeepsPrecedence(grown, d.active, a, b);
      }
      AppendKeepsPrecedence(d.workspaces, d.nextWorkspace, a, b);
    }
    if a in d'.workspaces && a !in d.workspaces {
      WithoutKeepsLast(grown, d.active);
    }
  }

  /** Order is kept by every switch command. */
  lemma SwitchConservesOrder(d: Desk, q: Request, take: bool, focus: Option<WindowId>, a: WorkspaceId, b: WorkspaceId)
    requires GoEnabled(d, q, take, focus)
    ensures OrderKept(d, Go(d, q, take, focus), a, b)
  {
    GoSwitches(d, q, take, focus);
    var d' := Go(d, q, take, focus);
    if d' != d {
      OrderAcross(d, d', Moved(d.windows, take, focus), a, b);
    }
  }

  /** Only the tree that Shift brings along changes its filing, and it ends in the new active
      workspace alone; no application window loses its workspace. */
  ghost predicate FilingKept(d: Desk, d': Desk, moved: set<WindowId>, w: WindowId)
    requires w in d.windows
  {
    && w in d'.windows
    && d'.windows[w].places ==
         (if d'.active != d.active && w in moved then {d'.active} else d.windows[w].places)
    && (forall p :: p in d'.windows[w].places ==> p in d'.workspaces)
  }

  lemma FilingAcross(d: Desk, d': Desk, moved: set<WindowId>, w: WindowId)
    requires Switched(d, d', moved) && WindowsOk(d'.windows, d'.workspaces, d'.active)
    requires w in d.windows && IsApp(d.windows[w])
    ensures FilingKept(d, d', moved, w)
  {
    assert Placed(d'.windows[w], d'.workspaces, d'.active);
  }

  /** So is filing, of application windows. */
  lemma SwitchConservesFiling(d: Desk, q: Request, take: bool, focus: Option<WindowId>, w: WindowId)
    requires GoEnabled(d, q, take, focus)
    requires w in d.windows && IsApp(d.windows[w])
    ensures FilingKept(d, Go(d, q, take, focus), Moved(d.windows, take, focus), w)
  {
    GoSwitches(d, q, take, focus);
    GoKeepsInv(d, q, take, focus);
    var d' := Go(d, q, take, focus);
    if d' != d {
      FilingAcross(d, d', Moved(d.windows, take, focus), w);
    } else {
      assert Placed(d.windows[w], d.workspaces, d.active);
    }
  }

  /** A switch brings out only windows of the workspace it leads to, whatever stale entries
      the remembered-focus table may hold. */
  ghost predicate ShownIfItsOwn(d: Desk, d': Desk, w: WindowId)
    requires w in d.windows
  {
    && w in d'.windows
    && (d.windows[w].inHidden && !d'.windows[w].inHidden ==> d'.active in d'.windows[w].places)
  }

  lemma ShownAcross(d: Desk, d': Desk, moved: set<WindowId>, w: WindowId)
    requires Switched(d, d', moved) && w in d.windows
    ensures ShownIfItsOwn(d, d', w)
  {
  }

  lemma SwitchShowsOnlyItsOwn(d: Desk, q: Request, take: bool, focus: Option<WindowId>, w: WindowId)
    requires GoEnabled(d, q, take, focus) && w in d.windows
    ensures ShownIfItsOwn(d, Go(d, q, take, focus), w)
  {
    GoSwitches(d, q, take, focus);
    var d' := Go(d, q, take, focus);
    if d' != d {
      ShownAcross(d, d', Moved(d.windows, take, focus), w);
    }
  }

  /** So does a raise, which is a switch as well. */
  lemma RaiseShowsOnlyItsOwn(d: Desk, w: WindowId, visits: seq<(WorkspaceId, Option<WindowId>)>, x: WindowId)
    requires Inv(d) && w in d.windows && (d.windows[w].inHidden ==> VisitsPlacesOf(d, w, visits)) && x in d.windows
    ensures ShownIfItsOwn(d, Raise(d, w, visits), x)
  {
    if d.windows[w].inHidden {
      HiddenVisit(d, w, visits);
      var (p, focus) := visits[0];
      var d' := Switch(d.(active := p), p, d.active, false, focus);
      assert Visit(d, visits) == Visit(d', visits[1..]) == d';
    }
  }

  // ---------- remembered focus ----------

  /** The focused window of `d` waits, hidden, in the workspace left, and is remembered for it. */
  ghost predicate FocusKept(d: Desk, d': Desk, focus: Option<WindowId>)
    requires focus.Some?
  {
    && d.active in d'.workspaces
    && d.active in d'.remembered && d'.remembered[d.active] == focus
    && focus.value in d'.windows && d'.windows[focus.value].inHidden && d.active in d'.windows[focus.value].places
  }

  lemma LeavingRemembers(d: Desk, target: WorkspaceId, d1: Desk, take: bool, focus: Option<WindowId>)
    requires FocusOnApp(d.windows, focus) && d.active in d.windows[focus.value].places
    requires target != d.active && target !in d.windows[focus.value].places
    requires focus.value !in Moved(d.windows, take, focus) && d.active in d1.workspaces
    requires d1.windows == d.windows && d1.remembered == d.remembered
    ensures FocusKept(d, EraseIfEmpty(Switch(d1, target, d.active, take, focus), d.active), focus)
  {
    var moved := Moved(d.windows, take, focus);
    var ws' := TransitAll(d.windows, moved, target, d.active);
    assert d.active in ws'[focus.value].places && IsApp(ws'[focus.value]);
    assert HoldsApp(ws', d.active);
  }

  /** Leaving a workspace with focus on one of its application windows, without taking that
      window along, keeps the workspace and remembers the window for the way back. */
  lemma SwitchRemembersFocus(d: Desk, q: Request, focus: Option<WindowId>)
    requires GoEnabled(d, q, false, focus)
    requires FocusOnApp(d.windows, focus) && d.active in d.windows[focus.value].places
    requires Lead(d, q) != Stay
    ensures FocusKept(d, Go(d, q, false, focus), focus)
  {
    var i := IndexOf(d.workspaces, d.active);
    assert i > 0 ==> d.workspaces[0] != d.active && d.workspaces[i - 1] != d.active;
    assert Placed(d.windows[focus.value], d.workspaces, d.active);
    match Lead(d, q)
    case Listed(ws) => LeavingRemembers(d, ws, d.(active := ws), false, focus);
    case FreshOne =>
      assert d.active in AppendNew(d).workspaces;
      LeavingRemembers(d, d.nextWorkspace, AppendNew(d), false, focus);
  }

  // ---------- empty workspaces ----------

  /** Inactive workspaces without an application window. */
  ghost function EmptyInactive(d: Desk): set<WorkspaceId> {
    set ws | ws in d.workspaces && ws != d.active && !HoldsApp(d.windows, ws)
  }

  /** A workspace that is neither left nor reached keeps its application windows. */
  lemma OthersStayHeld(d: Desk, d': Desk, moved: set<WindowId>, ws: WorkspaceId)
    requires Switched(d, d', moved) && ws != d.active && HoldsApp(d.windows, ws)
    ensures HoldsApp(d'.windows, ws)
  {
    var w :| w in d.windows && ws in d.windows[w].places && IsApp(d.windows[w]);
    assert ws in d'.windows[w].places;
  }

  lemma NoEmptyAcross(d: Desk, d': Desk, moved: set<WindowId>)
    requires Switched(d, d', moved) && d.active in d.workspaces
    ensures EmptyInactive(d') <= EmptyInactive(d)
  {
    forall ws | ws in EmptyInactive(d')
      ensures ws in EmptyInactive(d)
    {
      if ws != d.active && HoldsApp(d.windows, ws) {
        OthersStayHeld(d, d', moved, ws);
      }
    }
  }

  /** No switch adds an inactive workspace without application windows ... */
  lemma SwitchAddsNoEmpty(d: Desk, q: Request, take: bool, focus: Option<WindowId>)
    requires GoEnabled(d, q, take, focus)
    ensures EmptyInactive(Go(d, q, take, focus)) <= EmptyInactive(d)
  {
    GoSwitches(d, q, take, focus);
    var d' := Go(d, q, take, focus);
    if d' != d {
      NoEmptyAcross(d, d', Moved(d.windows, take, focus));
    }
  }

  lemma OpenAddsNoEmpty(d: Desk, parent: Option<WindowId>, layer: Layer, state: WindowState)
    requires IdsOk(d) && (parent.Some? ==> parent.value in d.windows)
    ensures EmptyInactive(Open(d, parent, layer, state)) <= EmptyInactive(d)
  {
    var d' := Open(d, parent, layer, state);
    forall ws | HoldsApp(d.windows, ws)
      ensures HoldsApp(d'.windows, ws)
    {
      var w :| w in d.windows && ws in d.windows[w].places && IsApp(d.windows[w]);
      assert d'.windows[w] == d.windows[w];
    }
  }

  lemma ModifyAddsNoEmpty(d: Desk, w: WindowId, q: Changes)
    requires w in d.windows
    ensures EmptyInactive(Modify(d, w, q)) <= EmptyInactive(d)
  {
    var d' := Modify(d, w, q);
    forall ws | HoldsApp(d.windows, ws)
      ensures HoldsApp(d'.windows, ws)
    {
      var x :| x in d.windows && ws in d.windows[x].places && IsApp(d.windows[x]);
      assert ws in d'.windows[x].places && IsApp(d'.windows[x]);
    }
  }

  /** A workspace still holds an application window if all of its own stay. */
  lemma StillHeld(ws: Windows, ws': Windows, p: WorkspaceId)
    requires ws'.Keys == ws.Keys && HoldsApp(ws, p)
    requires forall w :: w in ws && p in ws[w].places && IsApp(ws[w]) ==> p in ws'[w].places && IsApp(ws'[w])
    ensures HoldsApp(ws', p)
  {
    var w :| w in ws && p in ws[w].places && IsApp(ws[w]);
    assert w in ws';
  }

  lemma ToggleAddsNoEmpty(d: Desk, focus: Option<WindowId>)
    ensures EmptyInactive(ToggleOnTop(d, focus)) <= EmptyInactive(d)
  {
    if focus.Some? && focus.value in d.windows && IsApp(d.windows[focus.value]) {
      var f := focus.value;
      var ws' := if d.windows[f].layer == Application then PutOnTop(d.windows, f, d.active)
                 else TakeDown(d.windows, f, d.active);
      forall p | p != d.active && HoldsApp(d.windows, p)
        ensures HoldsApp(ws', p)
      {
        StillHeld(d.windows, ws', p);
      }
    }
  }

  /** ... and neither do the other commands, raises and closures apart. */
  lemma StepAddsNoEmpty(d: Desk, c: Command, focus: Option<WindowId>)
    requires Inv(d) && Enabled(d, c, focus) && !c.CmdRaise? && !c.CmdClose?
    ensures EmptyInactive(Step(d, c, focus)) <= EmptyInactive(d)
  {
    match c
    case CmdGo(q, take) => SwitchAddsNoEmpty(d, q, take, focus);
    case CmdOpen(parent, layer, state) => OpenAddsNoEmpty(d, parent, layer, state);
    case CmdModify(w, q) => ModifyAddsNoEmpty(d, w, q);
    case CmdToggleOnTop => ToggleAddsNoEmpty(d, focus);
  }

  /** Application windows filed in some workspace. */
  ghost function FiledApps(d: Desk): set<WindowId> {
    set w | w in d.windows && IsApp(d.windows[w]) && d.windows[w].places != {}
  }

  /** Distinct workspaces, each holding a window of `apps`, are no more than those windows. */
  lemma {:induction false} OneWindowEach(ws: Windows, list: seq<WorkspaceId>, apps: set<WindowId>)
    requires Distinct(list)
    requires forall p :: p in list ==> exists w :: w in apps && w in ws && p in ws[w].places
    requires forall w, p, q :: w in apps && w in ws && p in ws[w].places && q in ws[w].places ==> p == q
    ensures |list| <= |apps|
    decreases |list|
  {
    if list != [] {
      var p := list[0];
      assert p in list;
      var w :| w in apps && w in ws && p in ws[w].places;
      var rest := list[1..];
      forall q | q in rest
        ensures exists x :: x in apps - {w} && x in ws && q in ws[x].places
      {
        assert q in list;
        var x :| x in apps && x in ws && q in ws[x].places;
        assert x in apps - {w};
      }
      OneWindowEach(ws, rest, apps - {w});
    }
  }

  lemma {:induction false} AbsentNothingDropped(list: seq<WorkspaceId>, ws: WorkspaceId)
    requires ws !in list
    ensures Without(list, ws) == list
  {
    if list != [] {
      AbsentNothingDropped(list[1..], ws);
    }
  }

  lemma {:induction false} WithoutDropsOne(list: seq<WorkspaceId>, ws: WorkspaceId)
    requires Distinct(list)
    ensures |Without(list, ws)| >= |list| - 1
  {
    if list != [] {
      WithoutDropsOne(list[1..], ws);
      if list[0] == ws {
        AbsentNothingDropped(list[1..], ws);
      }
    }
  }

  /** With none of those, workspaces exceed the filed application windows by one at most. */
  lemma WorkspacesBounded(d: Desk)
    requires Inv(d) && EmptyInactive(d) == {}
    ensures |d.workspaces| <= |FiledApps(d)| + 1
  {
    var others := Without(d.workspaces, d.active);
    WithoutKeepsDistinct(d.workspaces, d.active);
    WithoutDropsOne(d.workspaces, d.active);
    forall p | p in others
      ensures exists w :: w in FiledApps(d) && w in d.windows && p in d.windows[w].places
    {
      assert p !in EmptyInactive(d);
      var w :| w in d.windows && p in d.windows[w].places && IsApp(d.windows[w]);
      assert w in FiledApps(d);
    }
    forall w, p, q | w in FiledApps(d) && w in d.windows && p in d.windows[w].places && q in d.windows[w].places
      ensures p == q
    {
      assert Placed(d.windows[w], d.workspaces, d.active);
    }
    OneWindowEach(d.windows, others, FiledApps(d));
  }

  // ---------- raises and closures ----------

  /** A raise does leave empty workspaces behind: raising a hidden application window leaves
      the workspace it came from listed, hence inactive and empty exactly if it held no
      application window. */
  lemma RaiseMayLeaveEmpty(d: Desk, w: WindowId, p: WorkspaceId, focus: Option<WindowId>)
    requires Inv(d) && w in d.windows && IsApp(d.windows[w]) && d.windows[w].inHidden
    requires p in d.windows[w].places
    ensures VisitsPlacesOf(d, w, [(p, focus)])
    ensures var d' := Raise(d, w, [(p, focus)]);
            && d'.active == p && d'.workspaces == d.workspaces
            && (d.active in EmptyInactive(d') <==> !HoldsApp(d.windows, d.active))
            && EmptyInactive(d') - {d.active} <= EmptyInactive(d)
  {
    var visits := [(p, focus)];
    assert Placed(d.windows[w], d.workspaces, d.active);
    assert d.windows[w].places == {p};
    assert visits[0].0 == p;
    var d' := Switch(d.(active := p), p, d.active, false, focus);
    assert Visit(d, visits) == Visit(d', visits[1..]) == d';
    assert d'.windows == TransitAll(d.windows, {}, p, d.active);
    forall q | HoldsApp(d.windows, q)
      ensures HoldsApp(d'.windows, q)
    {
      StillHeld(d.windows, d'.windows, q);
    }
  }

  /** A raise adds no empty workspace exactly if the window was not hidden or an application
      window stays in the workspace left. */
  lemma RaiseAddsNoEmptyIff(d: Desk, w: WindowId, visits: seq<(WorkspaceId, Option<WindowId>)>)
    requires Inv(d) && w in d.windows && (d.windows[w].inHidden ==> VisitsPlacesOf(d, w, visits))
    ensures EmptyInactive(Raise(d, w, visits)) <= EmptyInactive(d) <==>
              !d.windows[w].inHidden || HoldsApp(d.windows, d.active)
  {
    if d.windows[w].inHidden {
      HiddenIsListed(d, w);
      HiddenVisit(d, w, visits);
      RaiseMayLeaveEmpty(d, w, visits[0].0, visits[0].1);
      assert d.active !in EmptyInactive(d);
    }
  }

  /** A hidden application window that shares its workspace with no other one. */
  ghost predicate AloneAway(d: Desk, w: WindowId)
    requires w in d.windows
  {
    && IsApp(d.windows[w]) && d.windows[w].inHidden
    && (forall x :: x in d.windows && x != w && IsApp(d.windows[x]) ==> d.windows[x].places !! d.windows[w].places)
  }

  lemma CloseEmpties(d: Desk, w: WindowId)
    requires Inv(d) && w in d.windows && AloneAway(d, w)
    ensures !(EmptyInactive(Close(d, w)) <= EmptyInactive(d))
  {
    assert Placed(d.windows[w], d.workspaces, d.active);
    var p :| p in d.windows[w].places;
    assert HoldsApp(d.windows, p) && p !in EmptyInactive(d);
    forall x | x in Close(d, w).windows && IsApp(d.windows[x])
      ensures p !in d.windows[x].places
    {
      assert d.windows[x].places !! d.windows[w].places;
    }
    assert p in EmptyInactive(Close(d, w));
  }

  lemma NotHeldByOthers(ws: Windows, w: WindowId, p: WorkspaceId)
    requires !HoldsApp(ws - {w}, p)
    ensures forall x :: x in ws && x != w && IsApp(ws[x]) ==> p !in ws[x].places
  {
    forall x | x in ws && x != w && IsApp(ws[x])
      ensures p !in ws[x].places
    {
      assert (ws - {w})[x] == ws[x];
    }
  }

  /** If a closure takes the last application window from a workspace, that window was alone there. */
  lemma OnlyHolder(d: Desk, w: WindowId, p: WorkspaceId)
    requires Inv(d) && w in d.windows && p in EmptyInactive(Close(d, w)) && HoldsApp(d.windows, p)
    ensures AloneAway(d, w)
  {
    NotHeldByOthers(d.windows, w, p);
    assert p in d.windows[w].places && IsApp(d.windows[w]);
    assert Placed(d.windows[w], d.workspaces, d.active);
  }

  /** Closing a window empties a workspace exactly if it is alone in one that is not active. */
  lemma CloseAddsNoEmptyIff(d: Desk, w: WindowId)
    requires Inv(d) && w in d.windows
    ensures EmptyInactive(Close(d, w)) <= EmptyInactive(d) <==> !AloneAway(d, w)
  {
    var d' := Close(d, w);
    if AloneAway(d, w) {
      CloseEmpties(d, w);
    } else {
      forall p | p in EmptyInactive(d') && HoldsApp(d.windows, p)
        ensures false
      {
        OnlyHolder(d, w, p);
      }
    }
  }

  // ---------- the bound on runs ----------

  /** A raise that leaves an application window behind, a closure of one that is not alone
      away, or any other command. */
  ghost predicate Spares(d: Desk, c: Command) {
    match c
    case CmdRaise(w, _) => w in d.windows && d.windows[w].inHidden ==> HoldsApp(d.windows, d.active)
    case CmdClose(w) => w in d.windows ==> !AloneAway(d, w)
    case _ => true
  }

  /** Exactly those leave no further inactive workspace empty. */
  lemma StepAddsNoEmptyIff(d: Desk, c: Command, focus: Option<WindowId>)
    requires Inv(d) && Enabled(d, c, focus)
    ensures EmptyInactive(Step(d, c, focus)) <= EmptyInactive(d) <==> Spares(d, c)
  {
    match c
    case CmdRaise(w, visits) => RaiseAddsNoEmptyIff(d, w, visits);
    case CmdClose(w) =>
      if w in d.windows { CloseAddsNoEmptyIff(d, w); } else { assert Close(d, w) == d; }
    case _ => StepAddsNoEmpty(d, c, focus);
  }

  ghost predicate RunSpares(d: Desk, run: seq<Action>)
    requires RunEnabled(d, run)
    decreases |run|
  {
    run == [] || (Spares(d, run[0].0) && RunSpares(Step(d, run[0].0, run[0].1), run[1..]))
  }

  lemma {:induction false} NoEmptyOnRun(d: Desk, run: seq<Action>)
    requires Inv(d) && RunEnabled(d, run) && EmptyInactive(d) == {} && RunSpares(d, run)
    ensures Inv(After(d, run)) && EmptyInactive(After(d, run)) == {}
    decreases |run|
  {
    if run != [] {
      StepKeepsInv(d, run[0].0, run[0].1);
      StepAddsNoEmptyIff(d, run[0].0, run[0].1);
      NoEmptyOnRun(Step(d, run[0].0, run[0].1), run[1..]);
    }
  }

  lemma {:induction false} TameRunSpares(d: Desk, run: seq<Action>)
    requires RunEnabled(d, run)
    requires forall i :: 0 <= i < |run| ==> !run[i].0.CmdRaise? && !run[i].0.CmdClose?
    ensures RunSpares(d, run)
    decreases |run|
  {
    if run != [] {
      TameRunSpares(Step(d, run[0].0, run[0].1), run[1..]);
    }
  }

  /** On runs whose raises and closures empty no workspace the list never has more than one
      workspace beyond the number of filed application windows ... */
  lemma WorkspacesBoundedIfSpared(run: seq<Action>)
    requires RunEnabled(Start(), run) && RunSpares(Start(), run)
    ensures var d := After(Start(), run); |d.workspaces| <= |FiledApps(d)| + 1
  {
    StartInv();
    NoEmptyOnRun(Start(), run);
    WorkspacesBounded(After(Start(), run));
  }

  /** ... in particular on runs without any. */
  lemma {:induction false} WorkspacesBoundedOnRun(run: seq<Action>)
    requires RunEnabled(Start(), run)
    requires forall i :: 0 <= i < |run| ==> !run[i].0.CmdRaise? && !run[i].0.CmdClose?
    ensures var d := After(Start(), run); |d.workspaces| <= |FiledApps(d)| + 1
  {
    TameRunSpares(Start(), run);
    WorkspacesBoundedIfSpared(run);
  }

  // ---------- runs that leave an empty workspace behind ----------

  /** One application window, left behind in the first of two workspaces. */
  function OneLeftBehind(): Desk {
    Go(Open(Start(), None, Application, WindowState.Restored), ToDown, false, None)
  }

  lemma SameHeld(ws: Windows, moved: set<WindowId>, target: WorkspaceId, source: WorkspaceId, p: WorkspaceId)
    requires moved == {}
    ensures HoldsApp(TransitAll(ws, moved, target, source), p) <==> HoldsApp(ws, p)
  {
    var ws' := TransitAll(ws, moved, target, source);
    if HoldsApp(ws, p) {
      StillHeld(ws, ws', p);
    }
    if HoldsApp(ws', p) {
      StillHeld(ws', ws, p);
    }
  }

  lemma GoToLeads(d: Desk, target: WorkspaceId, d1: Desk, focus: Option<WindowId>)
    requires target != d.active && d1.windows == d.windows
    ensures var d' := EraseIfEmpty(Switch(d1, target, d.active, false, focus), d.active);
            && d'.active == d1.active
            && d'.windows == TransitAll(d.windows, {}, target, d.active)
            && d'.workspaces == (if HoldsApp(d.windows, d.active) then d1.workspaces else Without(d1.workspaces, d.active))
  {
    SameHeld(d.windows, {}, target, d.active, d.active);
  }

  lemma OneLeftBehindIs()
    ensures var d := OneLeftBehind();
            && d.workspaces == [0, 1] && d.active == 1 && d.windows.Keys == {0}
            && d.windows[0].parent == None && IsApp(d.windows[0]) && d.windows[0].inHidden && d.windows[0].places == {0}
  {
    var d := Open(Start(), None, Application, WindowState.Restored);
    assert d.windows[0].places == {0} && d.windows.Keys == {0};
    assert d.workspaces == [0] && Lead(d, ToDown) == FreshOne;
    assert HoldsApp(d.windows, 0);
    GoToLeads(d, 1, AppendNew(d), None);
  }

  lemma OneLeftBehindInv()
    ensures Inv(OneLeftBehind())
    ensures var d := OneLeftBehind();
            && d.active == 1 && d.active in d.workspaces && !HoldsApp(d.windows, 1)
            && 0 in d.windows && IsApp(d.windows[0]) && d.windows[0].inHidden && d.windows[0].places == {0}
            && 0 in d.workspaces
  {
    StartInv();
    OpenKeepsInv(Start(), None, Application, WindowState.Restored);
    GoKeepsInv(Open(Start(), None, Application, WindowState.Restored), ToDown, false, None);
    OneLeftBehindIs();
  }

  lemma AfterOne(d: Desk, a: Action, more: seq<Action>)
    requires Enabled(d, a.0, a.1) && RunEnabled(Step(d, a.0, a.1), more)
    ensures RunEnabled(d, [a] + more) && After(d, [a] + more) == After(Step(d, a.0, a.1), more)
  {
    assert ([a] + more)[1..] == more;
  }

  function ThreeSteps(c: Command): seq<Action> {
    [(CmdOpen(None, Application, WindowState.Restored), None)] + ([(CmdGo(ToDown, false), None)] + ([(c, None)] + []))
  }

  lemma OneLeftBehindOnRun(c: Command)
    requires Enabled(OneLeftBehind(), c, None)
    ensures RunEnabled(Start(), ThreeSteps(c)) && After(Start(), ThreeSteps(c)) == Step(OneLeftBehind(), c, None)
  {
    AfterOne(OneLeftBehind(), (c, None), []);
    AfterOne(Open(Start(), None, Application, WindowState.Restored), (CmdGo(ToDown, false), None), [(c, None)] + []);
    AfterOne(Start(), (CmdOpen(None, Application, WindowState.Restored), None),
             [(CmdGo(ToDown, false), None)] + ([(c, None)] + []));
  }

  /** A run whose raise leaves an empty workspace behind: open a window, go down, raise it. */
  lemma RaiseLeavesEmptyOnRun()
    ensures var run := ThreeSteps(CmdRaise(0, [(0, None)]));
            RunEnabled(Start(), run) && 1 in EmptyInactive(After(Start(), run))
  {
    OneLeftBehindInv();
    RaiseMayLeaveEmpty(OneLeftBehind(), 0, 0, None);
    OneLeftBehindOnRun(CmdRaise(0, [(0, None)]));
  }

  /** A run whose closure does: open a window, go down, close it. */
  lemma CloseLeavesEmptyOnRun()
    ensures var run := ThreeSteps(CmdClose(0));
            RunEnabled(Start(), run) && 0 in EmptyInactive(After(Start(), run))
  {
    OneLeftBehindIs();
    OneLeftBehindOnRun(CmdClose(0));
  }

  // ---------- down and up again ----------

  ghost predicate SameLook(r: Window, s: Window) {
    s.(oldState := r.oldState) == r
  }

  /** Same list, same active workspace, and every window filed, hidden and displayed as before. */
  ghost predicate Restored(d: Desk, d': Desk) {
    && d'.workspaces == d.workspaces && d'.active == d.active
    && d'.windows.Keys == d.windows.Keys
    && (forall w :: w in d.windows ==> SameLook(d.windows[w], d'.windows[w]))
  }

  lemma TransitBack(r: Window, list: seq<WorkspaceId>, here: WorkspaceId, there: WorkspaceId)
    requires here != there && (IsApp(r) ==> Placed(r, list, here))
    ensures SameLook(r, Transit(Transit(r, false, there, here), false, here, there))
  {
  }

  ghost predicate NextHoldsApp(d: Desk)
    requires d.active in d.workspaces
  {
    var i := IndexOf(d.workspaces, d.active);
    i + 1 < |d.workspaces| ==> HoldsApp(d.windows, d.workspaces[i + 1])
  }

  /** Going down, step by step: the list may grow by one and may lose the workspace left. */
  lemma DownLeads(d: Desk, focus: Option<WindowId>)
    requires Inv(d)
    ensures var d' := Go(d, ToDown, false, focus);
            var i := IndexOf(d.workspaces, d.active);
            var grown := if i + 1 == |d.workspaces| then d.workspaces + [d.nextWorkspace] else d.workspaces;
            && d'.active == grown[i + 1] && d'.active != d.active
            && d'.windows == TransitAll(d.windows, {}, d'.active, d.active)
            && d'.workspaces == (if HoldsApp(d.windows, d.active) then grown else Without(grown, d.active))
  {
    var i := IndexOf(d.workspaces, d.active);
    assert Lead(d, ToDown) == if i + 1 == |d.workspaces| then FreshOne else Listed(d.workspaces[i + 1]);
    if i + 1 == |d.workspaces| {
      GoToLeads(d, d.nextWorkspace, AppendNew(d), focus);
    } else {
      GoToLeads(d, d.workspaces[i + 1], d.(active := d.workspaces[i + 1]), focus);
    }
  }

  lemma UpLeads(d: Desk, focus: Option<WindowId>)
    requires Inv(d)
    ensures var d' := Go(d, ToUp, false, focus);
            var i := IndexOf(d.workspaces, d.active);
            if i == 0 then d' == d
            else
              && d'.active == d.workspaces[i - 1] && d'.active != d.active
              && d'.windows == TransitAll(d.windows, {}, d'.active, d.active)
              && d'.workspaces == (if HoldsApp(d.windows, d.active) then d.workspaces else Without(d.workspaces, d.active))
  {
    var i := IndexOf(d.workspaces, d.active);
    assert Lead(d, ToUp) == if i == 0 then Stay else Listed(d.workspaces[i - 1]);
    if i > 0 {
      GoToLeads(d, d.workspaces[i - 1], d.(active := d.workspaces[i - 1]), focus);
    }
  }

  lemma {:induction false} WithoutLast(list: seq<WorkspaceId>, ws: WorkspaceId)
    requires ws !in list
    ensures Without(list + [ws], ws) == list
  {
    if list == [] {
      assert (list + [ws])[1..] == [];
    } else {
      assert (list + [ws])[1..] == list[1..] + [ws];
      WithoutLast(list[1..], ws);
    }
  }

  lemma BackAgain(d: Desk, d1: Desk, d2: Desk)
    requires Inv(d) && ListOk(d1)
    requires var i := IndexOf(d.workspaces, d.active);
             var grown := if i + 1 == |d.workspaces| then d.workspaces + [d.nextWorkspace] else d.workspaces;
             && d1.active == grown[i + 1] && d1.active != d.active
             && d1.windows == TransitAll(d.windows, {}, d1.active, d.active)
             && d1.workspaces == (if HoldsApp(d.windows, d.active) then grown else Without(grown, d.active))
    requires var i := IndexOf(d1.workspaces, d1.active);
             if i == 0 then d2 == d1
             else
               && d2.active == d1.workspaces[i - 1] && d2.active != d1.active
               && d2.windows == TransitAll(d1.windows, {}, d2.active, d1.active)
               && d2.workspaces ==
                    (if HoldsApp(d1.windows, d1.active) then d1.workspaces else Without(d1.workspaces, d1.active))
    ensures Restored(d, d2) <==> HoldsApp(d.windows, d.active) && NextHoldsApp(d)
  {
    var i := IndexOf(d.workspaces, d.active);
    if !HoldsApp(d.windows, d.active) {
      assert d.active !in d2.workspaces;
    } else {
      assert d1.workspaces[i + 1] == d1.active;
      assert d2.active == d.active;
      SameHeld(d.windows, {}, d1.active, d.active, d1.active);
      if i + 1 == |d.workspaces| {
        assert !HoldsApp(d.windows, d.nextWorkspace);
        WithoutLast(d.workspaces, d.nextWorkspace);
        assert d2.workspaces == d.workspaces;
      } else if !HoldsApp(d.windows, d1.active) {
        assert d1.active !in d2.workspaces;
      }
      forall w | w in d.windows
        ensures SameLook(d.windows[w], d2.windows[w])
      {
        assert IsApp(d.windows[w]) ==> Placed(d.windows[w], d.workspaces, d.active);
        TransitBack(d.windows[w], d.workspaces, d.active, d1.active);
      }
    }
  }

  /** Down and then up, without Shift, restores the desk exactly when neither end is left
      empty: the active workspace holds an application window, and so does the next one if
      there is a next one. Focus may have settled anywhere in between. */
  lemma DownThenUp(d: Desk, focus: Option<WindowId>, focus': Option<WindowId>)
    requires GoEnabled(d, ToDown, false, focus)
    ensures Inv(Go(d, ToDown, false, focus))
    ensures var d' := Go(Go(d, ToDown, false, focus), ToUp, false, focus');
            Restored(d, d') <==> HoldsApp(d.windows, d.active) && NextHoldsApp(d)
  {
    GoKeepsInv(d, ToDown, false, focus);
    var d1 := Go(d, ToDown, false, focus);
    var d2 := Go(d1, ToUp, false, focus');
    DownLeads(d, focus);
    UpLeads(d1, focus');
    BackAgain(d, d1, d2);
  }

  // ---------- always on top ----------

  lemma FocusedTreeIsAlike(d: Desk, f: WindowId, w: WindowId)
    requires Inv(d) && FocusOk(d.windows, Some(f)) && IsApp(d.windows[f]) && w in Tree(d.windows, f)
    ensures d.windows[w].places == d.windows[f].places && d.windows[w].places <= {d.active} && !d.windows[w].inHidden
  {
    MovedIsInTheOpen(d.windows, d.workspaces, d.active, true, Some(f));
    assert w in Moved(d.windows, true, Some(f));
    assert WithTop(d.windows, w) && WithTop(d.windows, f);
  }

  /** Put on top, a window's whole tree is in no workspace; taken down it is in the active
      workspace alone. Either way it is shown. */
  lemma OnTopIsNowhere(d: Desk, f: WindowId, w: WindowId)
    requires Inv(d) && FocusOk(d.windows, Some(f)) && IsApp(d.windows[f]) && w in Tree(d.windows, f)
    ensures var d' := ToggleOnTop(d, Some(f));
            && w in d'.windows && !d'.windows[w].inHidden
            && d'.windows[w].places == (if d.windows[f].layer == Application then {} else {d.active})
  {
    FocusedTreeIsAlike(d, f, w);
  }

  lemma ToppedAndLowered(r: Window, inTree: bool, isF: bool, act: WorkspaceId)
    requires isF ==> r.layer == Application
    requires inTree ==> r.places == {act} && !r.inHidden
    ensures Lowered(Topped(r, inTree, isF, act), inTree, isF, act) == r
  {
  }

  lemma LoweredAndTopped(r: Window, inTree: bool, isF: bool, act: WorkspaceId)
    requires isF ==> r.layer == AlwaysOnTop
    requires inTree ==> r.places == {} && !r.inHidden
    ensures Topped(Lowered(r, inTree, isF, act), inTree, isF, act) == r
  {
  }

  lemma SameTree(ws: Windows, ws': Windows, f: WindowId)
    requires SameShape(ws, ws') && f in ws
    ensures Tree(ws', f) == Tree(ws, f)
  {
    RootsOfSameShape(ws, ws');
  }

  lemma UpAndDown(ws: Windows, f: WindowId, act: WorkspaceId)
    requires f in ws && ws[f].layer == Application
    requires forall w :: w in Tree(ws, f) ==> ws[w].places == {act} && !ws[w].inHidden
    ensures TakeDown(PutOnTop(ws, f, act), f, act) == ws
  {
    var ws1 := PutOnTop(ws, f, act);
    SameTree(ws, ws1, f);
    forall w | w in ws
      ensures TakeDown(ws1, f, act)[w] == ws[w]
    {
      ToppedAndLowered(ws[w], w in Tree(ws, f), w == f, act);
    }
  }

  lemma DownAndUp(ws: Windows, f: WindowId, act: WorkspaceId)
    requires f in ws && ws[f].layer == AlwaysOnTop
    requires forall w :: w in Tree(ws, f) ==> ws[w].places == {} && !ws[w].inHidden
    ensures PutOnTop(TakeDown(ws, f, act), f, act) == ws
  {
    var ws1 := TakeDown(ws, f, act);
    SameTree(ws, ws1, f);
    forall w | w in ws
      ensures PutOnTop(ws1, f, act)[w] == ws[w]
    {
      LoweredAndTopped(ws[w], w in Tree(ws, f), w == f, act);
    }
  }

  lemma UpThenDown(d: Desk, f: WindowId)
    requires f in d.windows && d.windows[f].layer == Application
    ensures ToggleOnTop(ToggleOnTop(d, Some(f)), Some(f)).windows
              == TakeDown(PutOnTop(d.windows, f, d.active), f, d.active)
  {
    assert ToggleOnTop(d, Some(f)) == d.(windows := PutOnTop(d.windows, f, d.active));
  }

  lemma DownThenTop(d: Desk, f: WindowId)
    requires f in d.windows && d.windows[f].layer == AlwaysOnTop
    ensures ToggleOnTop(ToggleOnTop(d, Some(f)), Some(f)).windows
              == PutOnTop(TakeDown(d.windows, f, d.active), f, d.active)
  {
    assert ToggleOnTop(d, Some(f)) == d.(windows := TakeDown(d.windows, f, d.active));
  }

  lemma UpThenDownJoins(ws: Windows, f: WindowId, act: WorkspaceId)
    requires f in ws
    ensures act in TakeDown(PutOnTop(ws, f, act), f, act)[f].places
  {
    assert f in Tree(PutOnTop(ws, f, act), f);
  }

  lemma DownThenTopLeaves(ws: Windows, f: WindowId, act: WorkspaceId)
    requires f in ws
    ensures act !in PutOnTop(TakeDown(ws, f, act), f, act)[f].places
  {
    assert f in Tree(TakeDown(ws, f, act), f);
  }

  /** The filing of a focused window is that of its whole tree. */
  lemma FiledAlike(d: Desk, f: WindowId)
    requires Inv(d) && FocusOk(d.windows, Some(f)) && IsApp(d.windows[f])
    ensures forall w :: w in Tree(d.windows, f) ==> d.windows[w].places == d.windows[f].places && !d.windows[w].inHidden
    ensures d.windows[f].places == {} || d.windows[f].places == {d.active}
  {
    forall w | w in Tree(d.windows, f)
      ensures d.windows[w].places == d.windows[f].places && !d.windows[w].inHidden && d.windows[f].places <= {d.active}
    {
      FocusedTreeIsAlike(d, f, w);
    }
    assert f in Tree(d.windows, f);
  }

  /** What two toggles in a row restore: an ordinary window that was filed in the active
      workspace, a window on top that was filed nowhere, and whatever is not toggled at all. */
  ghost predicate TogglesBack(d: Desk, f: WindowId)
    requires f in d.windows
  {
    match d.windows[f].layer
    case Application => d.active in d.windows[f].places
    case AlwaysOnTop => d.windows[f].places == {}
    case _ => true
  }

  lemma ToggleUpFirst(d: Desk, f: WindowId)
    requires Inv(d) && FocusOk(d.windows, Some(f)) && d.windows[f].layer == Application
    ensures ToggleOnTop(ToggleOnTop(d, Some(f)), Some(f)).windows == d.windows <==> d.active in d.windows[f].places
  {
    UpThenDown(d, f);
    UpThenDownJoins(d.windows, f, d.active);
    if d.active in d.windows[f].places {
      FiledAlike(d, f);
      UpAndDown(d.windows, f, d.active);
    }
  }

  lemma ToggleDownFirst(d: Desk, f: WindowId)
    requires Inv(d) && FocusOk(d.windows, Some(f)) && d.windows[f].layer == AlwaysOnTop
    ensures ToggleOnTop(ToggleOnTop(d, Some(f)), Some(f)).windows == d.windows <==> d.windows[f].places == {}
  {
    DownThenTop(d, f);
    DownThenTopLeaves(d.windows, f, d.active);
    FiledAlike(d, f);
    if d.windows[f].places == {} {
      DownAndUp(d.windows, f, d.active);
    }
  }

  /** Toggling twice restores every window exactly in those cases. */
  lemma ToggleTwiceRestoresIff(d: Desk, f: WindowId)
    requires Inv(d) && FocusOk(d.windows, Some(f))
    ensures ToggleOnTop(ToggleOnTop(d, Some(f)), Some(f)).windows == d.windows <==> TogglesBack(d, f)
  {
    match d.windows[f].layer
    case Application => ToggleUpFirst(d, f);
    case AlwaysOnTop => ToggleDownFirst(d, f);
    case _ =>
  }

  // ---------- who is filed, stays filed nowhere, or is filed again ----------

  /** A command that files window w: a Shift command brings along the tree of the focused window,
      whatever its layer, and a toggle takes a tree down. */
  ghost predicate Files(d: Desk, c: Command, focus: Option<WindowId>, w: WindowId)
    requires d.active in d.workspaces
  {
    && focus.Some? && focus.value in d.windows && w in Tree(d.windows, focus.value)
    && match c
       case CmdGo(q, take) => take && Lead(d, q) != Stay
       case CmdToggleOnTop => d.windows[focus.value].layer == AlwaysOnTop
       case _ => false
  }

  lemma {:induction false} VisitKeepsFiling(d: Desk, visits: seq<(WorkspaceId, Option<WindowId>)>)
    ensures Visit(d, visits).windows.Keys == d.windows.Keys
    ensures forall w :: w in d.windows ==> Visit(d, visits).windows[w].places == d.windows[w].places
    decreases |visits|
  {
    if visits != [] {
      var (ws, focus) := visits[0];
      VisitKeepsFiling(Switch(d.(active := ws), ws, d.active, false, focus), visits[1..]);
    }
  }

  lemma TransitFiles(ws: Windows, moved: set<WindowId>, target: WorkspaceId, source: WorkspaceId, w: WindowId)
    requires w in ws && ws[w].places == {}
    ensures TransitAll(ws, moved, target, source)[w].places == {} <==> w !in moved
  {
  }

  lemma GoFiles(d: Desk, q: Request, take: bool, focus: Option<WindowId>, w: WindowId)
    requires GoEnabled(d, q, take, focus) && w in d.windows && d.windows[w].places == {}
    ensures var d' := Go(d, q, take, focus);
            w in d'.windows && (d'.windows[w].places == {} <==> !Files(d, CmdGo(q, take), focus, w))
  {
    LeadsElsewhere(d, q);
    var moved := Moved(d.windows, take, focus);
    match Lead(d, q)
    case Stay =>
    case Listed(ws) =>
      GoneWindows(d, d.(active := ws), ws, take, focus);
      TransitFiles(d.windows, moved, ws, d.active, w);
    case FreshOne =>
      GoneWindows(d, AppendNew(d), d.nextWorkspace, take, focus);
      TransitFiles(d.windows, moved, d.nextWorkspace, d.active, w);
  }

  lemma OpenKeepsFiling(d: Desk, parent: Option<WindowId>, layer: Layer, state: WindowState, w: WindowId)
    requires IdsOk(d) && w in d.windows && (parent.Some? ==> parent.value in d.windows)
    ensures var d' := Open(d, parent, layer, state); w in d'.windows && d'.windows[w] == d.windows[w]
  {
  }

  /** A window filed nowhere, as one put on top is, stays so until a command files it. */
  lemma UnfiledStaysIff(d: Desk, c: Command, focus: Option<WindowId>, w: WindowId)
    requires Inv(d) && Enabled(d, c, focus)
    requires w in d.windows && w in Step(d, c, focus).windows && d.windows[w].places == {}
    ensures Step(d, c, focus).windows[w].places == {} <==> !Files(d, c, focus, w)
  {
    match c
    case CmdGo(q, take) => GoFiles(d, q, take, focus, w);
    case CmdRaise(_, visits) => VisitKeepsFiling(d, visits);
    case CmdOpen(parent, layer, state) => OpenKeepsFiling(d, parent, layer, state, w);
    case _ =>
  }

  ghost predicate RunFilesNot(d: Desk, run: seq<Action>, w: WindowId)
    requires RunEnabled(d, run)
    decreases |run|
  {
    run == [] || (!Files(d, run[0].0, run[0].1, w) && RunFilesNot(Step(d, run[0].0, run[0].1), run[1..], w))
  }

  /** Filed nowhere and shown, in the desk at hand and in every one the run comes to. */
  ghost predicate NowhereThroughout(d: Desk, run: seq<Action>, w: WindowId)
    requires RunEnabled(d, run)
    decreases |run|
  {
    && w in d.windows && d.windows[w].places == {} && !d.windows[w].inHidden
    && (run == [] || NowhereThroughout(Step(d, run[0].0, run[0].1), run[1..], w))
  }

  lemma NowhereIsShown(d: Desk, w: WindowId)
    requires Inv(d) && w in d.windows && d.windows[w].places == {}
    ensures !d.windows[w].inHidden
  {
    if IsApp(d.windows[w]) {
      assert Placed(d.windows[w], d.workspaces, d.active);
    }
  }

  /** Over a run that a window survives, it stays filed nowhere, and shown, exactly if no
      command files it: neither Shift with focus in its tree nor taking its tree down. */
  lemma {:induction false} UnfiledOnRunIff(d: Desk, run: seq<Action>, w: WindowId)
    requires Inv(d) && RunEnabled(d, run)
    requires w in d.windows && d.windows[w].places == {} && w in After(d, run).windows
    ensures NowhereThroughout(d, run, w) <==> RunFilesNot(d, run, w)
    decreases |run|
  {
    NowhereIsShown(d, w);
    if run != [] {
      var d1 := Step(d, run[0].0, run[0].1);
      StepKeepsInv(d, run[0].0, run[0].1);
      StepKeepsIds(d, run[0].0, run[0].1);
      if w !in d1.windows {
        ClosedStaysClosed(d1, run[1..], w);
      }
      UnfiledStaysIff(d, run[0].0, run[0].1, w);
      if !Files(d, run[0].0, run[0].1, w) {
        UnfiledOnRunIff(d1, run[1..], w);
      }
    }
  }

  /** A window put on top, in the first workspace. */
  function OneOnTop(): Desk {
    ToggleOnTop(Open(Start(), None, Application, WindowState.Restored), Some(0))
  }

  lemma OneOnTopIs()
    ensures var d := OneOnTop();
            && d.workspaces == [0] && d.active == 0 && d.nextWorkspace == 1 && d.windows.Keys == {0}
            && d.windows[0] == Window(None, AlwaysOnTop, WindowState.Restored, {}, false, Unknown)
  {
    var d := Open(Start(), None, Application, WindowState.Restored);
    assert d.windows[0].places == {0} && d.windows.Keys == {0};
    assert 0 in Tree(d.windows, 0);
  }

  /** Brought down into a fresh workspace by Shift. */
  function BroughtAlong(): Desk {
    Go(OneOnTop(), ToDown, true, Some(0))
  }

  lemma BroughtAlongIs()
    ensures OneOnTop().active in OneOnTop().workspaces
    ensures var d := BroughtAlong();
            && d.active == 1 && 1 in d.workspaces && d.windows.Keys == {0}
            && d.windows[0] == Window(None, AlwaysOnTop, WindowState.Restored, {1}, false, Unknown)
  {
    OneOnTopIs();
    var d := OneOnTop();
    assert Lead(d, ToDown) == FreshOne;
    GoneWindows(d, AppendNew(d), 1, true, Some(0));
    assert 0 in Tree(d.windows, 0);
  }

  lemma BroughtAlongInv()
    ensures Inv(BroughtAlong())
  {
    StartInv();
    OpenKeepsInv(Start(), None, Application, WindowState.Restored);
    assert Open(Start(), None, Application, WindowState.Restored).windows[0].places == {0};
    ToggleKeepsInv(Open(Start(), None, Application, WindowState.Restored), Some(0));
    OneOnTopIs();
    GoKeepsInv(OneOnTop(), ToDown, true, Some(0));
  }

  lemma BroughtAlongThenLeft()
    ensures var d := BroughtAlong();
            && d.active in d.workspaces
            && var d' := Go(d, ToDown, false, Some(0));
               0 in d'.windows && d'.windows[0].layer == AlwaysOnTop && d'.windows[0].inHidden
  {
    BroughtAlongIs();
    BroughtAlongInv();
    var d := BroughtAlong();
    DownLeads(d, Some(0));
  }

  /** A window on top is hidden after all: open it, put it on top, take it down along with Shift,
      which files it, and go down again. */
  lemma OnTopIsHiddenOnRun()
    ensures var run: seq<Action> := [(CmdOpen(None, Application, WindowState.Restored), None)]
                                    + ([(CmdToggleOnTop, Some(0))]
                                    + ([(CmdGo(ToDown, true), Some(0))] + ([(CmdGo(ToDown, false), Some(0))] + [])));
            && RunEnabled(Start(), run)
            && var d := After(Start(), run);
               0 in d.windows && d.windows[0].layer == AlwaysOnTop && d.windows[0].inHidden
  {
    var a: Action, b: Action := (CmdOpen(None, Application, WindowState.Restored), None), (CmdToggleOnTop, Some(0));
    var e: Action, g: Action := (CmdGo(ToDown, true), Some(0)), (CmdGo(ToDown, false), Some(0));
    OneOnTopIs();
    BroughtAlongIs();
    BroughtAlongThenLeft();
    AfterOne(BroughtAlong(), g, []);
    AfterOne(OneOnTop(), e, [g] + []);
    AfterOne(Open(Start(), None, Application, WindowState.Restored), b, [e] + ([g] + []));
    AfterOne(Start(), a, [b] + ([e] + ([g] + [])));
  }

  // ---------- new children ----------

  /** A new child, filed as its application-layer parent is, ends up the same whether or not
      advise_adding_to_workspace ran for that workspace before advise_new_window. */
  lemma NotifiedFilingAgrees(child: Window, parent: Window, list: seq<WorkspaceId>, act: WorkspaceId)
    requires IsApp(parent) && Placed(parent, list, act) && child.places == parent.places && !child.inHidden
    ensures var told := if child.places == {} then child
                        else if act in child.places then Shown(child) else Hidden(child);
            (if parent.inHidden then Hidden(told) else told) == (if parent.inHidden then Hidden(child) else child)
  {
  }
}
