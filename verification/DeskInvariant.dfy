/** The invariant of the workspace machine, and that every command keeps it. */
module DeskInvariant {
  import opened Wrappers
  import opened Hooks
  import opened Windows
  import opened Desktops

  ghost predicate ListOk(d: Desk) {
    && Distinct(d.workspaces)
    && d.active in d.workspaces
    && (forall ws :: ws in d.workspaces ==> ws < d.nextWorkspace)
  }

  /** An application window is filed in at most one workspace, a listed one, and is hidden
      exactly when that one is not `act`. */
  ghost predicate Placed(r: Window, list: seq<WorkspaceId>, act: WorkspaceId) {
    && (forall p :: p in r.places ==> p in list)
    && (forall p, q :: p in r.places && q in r.places ==> p == q)
    && (r.inHidden <==> r.places != {} && act !in r.places)
    && (r.inHidden ==> r.state == HiddenState)
  }

  /** Shell windows are never hidden, wherever they are filed. */
  ghost predicate ShellShown(ws: Windows) {
    forall w :: w in ws && !IsApp(ws[w]) ==> !ws[w].inHidden
  }

  ghost predicate WindowsOk(ws: Windows, list: seq<WorkspaceId>, act: WorkspaceId) {
    && (forall w :: w in ws && IsApp(ws[w]) ==> Placed(ws[w], list, act))
    && ShellShown(ws)
  }

  /** A window is filed with the top of its tree, and is of its kind. */
  ghost predicate WithTop(ws: Windows, w: WindowId)
    requires w in ws
  {
    var top := ws[Root(ws, w)];
    ws[w].places == top.places && (IsApp(ws[w]) <==> IsApp(top))
  }

  ghost predicate TreesOk(ws: Windows) {
    forall w {:trigger WithTop(ws, w)} :: w in ws ==> WithTop(ws, w)
  }

  ghost predicate IdsOk(d: Desk) {
    && (forall w :: w in d.windows ==> w < d.nextWindow)
    && (forall w :: w in d.windows && d.windows[w].parent.Some? ==> d.windows[w].parent.value < w)
    && (forall w, p :: w in d.windows && p in d.windows[w].places ==> p < d.nextWorkspace)
  }

  ghost predicate Memory(ws: Windows, nextWindow: nat, m: Option<WindowId>) {
    m.Some? ==> m.value < nextWindow && (m.value in ws ==> IsApp(ws[m.value]))
  }

  /** Remembered focus: live keys, and application windows where the window still exists. */
  ghost predicate MemoryOk(d: Desk) {
    forall ws :: ws in d.remembered ==> ws in d.workspaces && Memory(d.windows, d.nextWindow, d.remembered[ws])
  }

  function Marks(list: seq<WorkspaceId>, act: WorkspaceId): map<WorkspaceId, bool> {
    map ws | ws in list :: ws == act
  }

  /** The history of notifications is lawful and adds up to the list with its one active mark. */
  ghost predicate HooksOk(d: Desk) {
    && Lawful(d.hooks)
    && MapAfter(d.hooks) == Marks(d.workspaces, d.active)
    && ListAfter(d.hooks) == d.workspaces
    && (forall i :: 0 <= i < |d.hooks| ==> d.hooks[i].ws < d.nextWorkspace)
  }

  ghost predicate Inv(d: Desk) {
    && ListOk(d)
    && WindowsOk(d.windows, d.workspaces, d.active)
    && TreesOk(d.windows)
    && IdsOk(d)
    && MemoryOk(d)
    && HooksOk(d)
  }

  // ---------- the windows across a switch ----------

  /** What Shift may bring along: a tree of windows none of which is filed away. */
  lemma MovedIsInTheOpen(ws: Windows, list: seq<WorkspaceId>, act: WorkspaceId, take: bool, focus: Option<WindowId>)
    requires WindowsOk(ws, list, act) && TreesOk(ws) && (take ==> FocusOk(ws, focus))
    ensures forall w :: w in Moved(ws, take, focus) ==>
              w in ws && (IsApp(ws[w]) ==> ws[w].places <= {act} && !ws[w].inHidden)
  {
    forall w | w in Moved(ws, take, focus)
      ensures w in ws && (IsApp(ws[w]) ==> ws[w].places <= {act} && !ws[w].inHidden)
    {
      var f := focus.value;
      assert Root(ws, w) == Root(ws, f);
      assert WithTop(ws, w) && WithTop(ws, f);
      if IsApp(ws[w]) {
        assert IsApp(ws[f]) && Placed(ws[f], list, act) && Placed(ws[w], list, act);
      }
    }
  }

  lemma TransitPlaces(ws: Windows, list: seq<WorkspaceId>, list': seq<WorkspaceId>, moved: set<WindowId>,
                      target: WorkspaceId, source: WorkspaceId)
    requires WindowsOk(ws, list, source)
    requires target != source && target in list'
    requires forall p :: p in list ==> p in list'
    requires forall w :: w in moved ==> w in ws && (IsApp(ws[w]) ==> ws[w].places <= {source})
    ensures WindowsOk(TransitAll(ws, moved, target, source), list', target)
  {
    var ws' := TransitAll(ws, moved, target, source);
    forall w | w in ws' && IsApp(ws'[w])
      ensures Placed(ws'[w], list', target)
    {
      assert IsApp(ws[w]) && Placed(ws[w], list, source);
      if w in moved {
        assert ws'[w].places == {target};
      }
    }
  }

  lemma TransitWithTop(ws: Windows, ws': Windows, moved: set<WindowId>, target: WorkspaceId, source: WorkspaceId, w: WindowId)
    requires ws' == TransitAll(ws, moved, target, source) && w in ws && WithTop(ws, w)
    requires Root(ws', w) == Root(ws, w) && (w in moved <==> Root(ws, w) in moved)
    ensures WithTop(ws', w)
  {
  }

  lemma MovedWithTop(ws: Windows, take: bool, focus: Option<WindowId>, w: WindowId)
    requires w in ws
    ensures w in Moved(ws, take, focus) <==> Root(ws, w) in Moved(ws, take, focus)
  {
    RootOfRoot(ws, w);
  }

  lemma TransitTrees(ws: Windows, take: bool, focus: Option<WindowId>, target: WorkspaceId, source: WorkspaceId)
    requires TreesOk(ws)
    ensures TreesOk(TransitAll(ws, Moved(ws, take, focus), target, source))
  {
    var moved := Moved(ws, take, focus);
    var ws' := TransitAll(ws, moved, target, source);
    forall w | w in ws'
      ensures WithTop(ws', w)
    {
      RootOfSameShape(ws, ws', w);
      MovedWithTop(ws, take, focus, w);
      TransitWithTop(ws, ws', moved, target, source, w);
    }
  }

  // ---------- the notifications ----------

  lemma HooksAppend(d: Desk)
    requires HooksOk(d)
    ensures var d' := AppendNew(d);
            && Lawful(d'.hooks)
            && MapAfter(d'.hooks) == Marks(d.workspaces, d.active)[d.nextWorkspace := true]
            && ListAfter(d'.hooks) == d'.workspaces
            && (forall i :: 0 <= i < |d'.hooks| ==> d'.hooks[i].ws < d'.nextWorkspace)
  {
    var ws := d.nextWorkspace;
    Extend(d.hooks, Create(ws));
    Extend(d.hooks + [Create(ws)], Activate(ws));
  }

  lemma HooksSwitch(h: seq<HookEvent>, list: seq<WorkspaceId>, m: map<WorkspaceId, bool>,
                    target: WorkspaceId, source: WorkspaceId)
    requires Lawful(h) && MapAfter(h) == m && ListAfter(h) == list
    requires target in m && source in m && target != source
    ensures var h' := h + [Deactivate(source)] + [Activate(target)];
            Lawful(h') && MapAfter(h') == m[source := false][target := true] && ListAfter(h') == list
  {
    Extend(h, Deactivate(source));
    Extend(h + [Deactivate(source)], Activate(target));
  }

  // ---------- the switch commands ----------

  /** All of the invariant but the notifications, with the cursor already moved on. */
  ghost predicate Midway(d: Desk, act: WorkspaceId) {
    && ListOk(d)
    && act in d.workspaces && act != d.active
    && WindowsOk(d.windows, d.workspaces, act)
    && TreesOk(d.windows)
    && IdsOk(d)
    && MemoryOk(d)
  }

  lemma TransitMemory(d: Desk, moved: set<WindowId>, target: WorkspaceId, source: WorkspaceId, focus: Option<WindowId>)
    requires MemoryOk(d) && IdsOk(d) && target in d.workspaces && source in d.workspaces
    ensures MemoryOk(d.(windows := TransitAll(d.windows, moved, target, source),
                        remembered := Remember(d, moved, target, source, focus)))
  {
    var ws' := TransitAll(d.windows, moved, target, source);
    var remembered' := Remember(d, moved, target, source, focus);
    forall ws | ws in remembered'
      ensures ws in d.workspaces && Memory(ws', d.nextWindow, remembered'[ws])
    {
      if ws in d.remembered && remembered'[ws] == d.remembered[ws] {
        assert Memory(d.windows, d.nextWindow, d.remembered[ws]);
      }
    }
  }

  lemma TransitIds(d: Desk, moved: set<WindowId>, target: WorkspaceId, source: WorkspaceId)
    requires IdsOk(d) && target < d.nextWorkspace
    ensures IdsOk(d.(windows := TransitAll(d.windows, moved, target, source)))
  {
  }

  /** Before the two notifications of a switch: nothing but its two ends may be marked active. */
  ghost predicate HooksMidway(d: Desk, source: WorkspaceId) {
    && Lawful(d.hooks)
    && ListAfter(d.hooks) == d.workspaces
    && MapAfter(d.hooks).Keys == Marks(d.workspaces, d.active).Keys
    && (forall ws :: ws in d.workspaces && ws != d.active && ws != source ==> !MapAfter(d.hooks)[ws])
    && (forall i :: 0 <= i < |d.hooks| ==> d.hooks[i].ws < d.nextWorkspace)
  }

  lemma MarksAfterSwitch(m: map<WorkspaceId, bool>, list: seq<WorkspaceId>, target: WorkspaceId, source: WorkspaceId)
    requires target in list && source in list && target != source
    requires forall ws :: ws in m <==> ws in list
    requires forall ws :: ws in m && ws != target && ws != source ==> !m[ws]
    ensures m[source := false][target := true] == Marks(list, target)
  {
  }

  lemma SwitchHooks(d: Desk, source: WorkspaceId)
    requires HooksMidway(d, source) && ListOk(d) && source in d.workspaces && source != d.active
    ensures HooksOk(d.(hooks := d.hooks + [Deactivate(source)] + [Activate(d.active)]))
  {
    HooksSwitch(d.hooks, d.workspaces, MapAfter(d.hooks), d.active, source);
    MarksAfterSwitch(MapAfter(d.hooks), d.workspaces, d.active, source);
  }

  lemma SwitchWindows(d: Desk, source: WorkspaceId, take: bool, focus: Option<WindowId>)
    requires Midway(d, source) && (take ==> FocusOk(d.windows, focus))
    ensures var ws' := TransitAll(d.windows, Moved(d.windows, take, focus), d.active, source);
            WindowsOk(ws', d.workspaces, d.active) && TreesOk(ws')
  {
    MovedIsInTheOpen(d.windows, d.workspaces, source, take, focus);
    TransitPlaces(d.windows, d.workspaces, d.workspaces, Moved(d.windows, take, focus), d.active, source);
    TransitTrees(d.windows, take, focus, d.active, source);
  }

  lemma SwitchCore(d: Desk, source: WorkspaceId, take: bool, focus: Option<WindowId>)
    requires Midway(d, source) && (take ==> FocusOk(d.windows, focus)) && HooksMidway(d, source)
    ensures Inv(Switch(d, d.active, source, take, focus))
  {
    var moved := Moved(d.windows, take, focus);
    SwitchWindows(d, source, take, focus);
    TransitMemory(d, moved, d.active, source, focus);
    TransitIds(d, moved, d.active, source);
    SwitchHooks(d, source);
  }

  lemma EraseKeepsInv(d: Desk, source: WorkspaceId)
    requires Inv(d) && source in d.workspaces && source != d.active
    ensures Inv(EraseIfEmpty(d, source))
  {
    var d' := EraseIfEmpty(d, source);
    if !HoldsApp(d.windows, source) {
      WithoutKeepsDistinct(d.workspaces, source);
      Extend(d.hooks, Destroy(source));
      assert MapAfter(d'.hooks) == Marks(d'.workspaces, d'.active);
      forall w | w in d'.windows && IsApp(d'.windows[w])
        ensures Placed(d'.windows[w], d'.workspaces, d'.active)
      {
        assert Placed(d.windows[w], d.workspaces, d.active);
        assert source !in d.windows[w].places;
      }
    }
  }

  lemma SwitchKeepsInv(d: Desk, target: WorkspaceId, take: bool, focus: Option<WindowId>)
    requires Inv(d) && target in d.workspaces && (take ==> FocusOk(d.windows, focus))
    ensures Inv(Switch(d.(active := target), target, d.active, take, focus))
  {
    if target != d.active {
      SwitchCore(d.(active := target), d.active, take, focus);
    }
  }

  lemma GoToKeepsInv(d: Desk, target: WorkspaceId, take: bool, focus: Option<WindowId>)
    requires Inv(d) && target in d.workspaces && target != d.active && FocusOk(d.windows, focus)
    ensures Inv(GoTo(d, target, take, focus))
  {
    SwitchKeepsInv(d, target, take, focus);
    EraseKeepsInv(Switch(d.(active := target), target, d.active, take, focus), d.active);
  }

  lemma MidwayTo(d: Desk, target: WorkspaceId)
    requires Inv(d) && target in d.workspaces && target != d.active
    ensures Midway(d.(active := target), d.active)
  {
  }

  lemma MidwayToFresh(d: Desk)
    requires Inv(d)
    ensures Midway(AppendNew(d), d.active)
  {
    var d1 := AppendNew(d);
    assert d1.workspaces[|d.workspaces|] == d1.active;
    assert forall j :: 0 <= j < |d.workspaces| ==> d.workspaces[j] in d.workspaces && d1.workspaces[j] == d.workspaces[j];
    assert d1.active in d1.workspaces && d.active in d1.workspaces;
    forall w | w in d.windows && IsApp(d.windows[w])
      ensures Placed(d1.windows[w], d1.workspaces, d.active)
    {
      assert Placed(d.windows[w], d.workspaces, d.active);
    }
  }

  lemma GoToFreshKeepsInv(d: Desk, take: bool, focus: Option<WindowId>)
    requires Inv(d) && FocusOk(d.windows, focus)
    ensures Inv(GoToFresh(d, take, focus))
  {
    var d1 := AppendNew(d);
    HooksAppend(d);
    MidwayToFresh(d);
    SwitchCore(d1, d.active, take, focus);
    EraseKeepsInv(Switch(d1, d.nextWorkspace, d.active, take, focus), d.active);
  }

  lemma GoKeepsInv(d: Desk, q: Request, take: bool, focus: Option<WindowId>)
    requires Inv(d) && FocusOk(d.windows, focus) && (q.To? ==> q.ws in d.workspaces)
    ensures Inv(Go(d, q, take, focus))
  {
    var i := IndexOf(d.workspaces, d.active);
    assert i > 0 ==> d.workspaces[0] != d.active && d.workspaces[i - 1] != d.active;
    match Lead(d, q)
    case Stay =>
    case Listed(ws) => GoToKeepsInv(d, ws, take, focus);
    case FreshOne => GoToFreshKeepsInv(d, take, focus);
  }

  /** The next workspace, if there is one, is another one. */
  lemma NextIsOther(d: Desk)
    requires ListOk(d)
    ensures var i := IndexOf(d.workspaces, d.active);
            i + 1 < |d.workspaces| ==> d.workspaces[i + 1] in d.workspaces && d.workspaces[i + 1] != d.active
  {
  }

  /** On to the next workspace, or past the end to an appended one. */
  function GoNext(d: Desk, take: bool, focus: Option<WindowId>): Desk
    requires d.active in d.workspaces
  {
    var i := IndexOf(d.workspaces, d.active);
    if i + 1 == |d.workspaces| then GoToFresh(d, take, focus) else GoTo(d, d.workspaces[i + 1], take, focus)
  }

  lemma GoDownIs(d: Desk, take: bool, focus: Option<WindowId>)
    requires Inv(d) && FocusOk(d.windows, focus)
    ensures GoNext(d, take, focus) == Go(d, ToDown, take, focus) && Inv(GoNext(d, take, focus))
  {
    GoKeepsInv(d, ToDown, take, focus);
  }

  lemma {:induction false} VisitKeepsInv(d: Desk, visits: seq<(WorkspaceId, Option<WindowId>)>)
    requires Inv(d) && forall i :: 0 <= i < |visits| ==> visits[i].0 in d.workspaces
    ensures Inv(Visit(d, visits))
    decreases |visits|
  {
    if visits != [] {
      var (ws, focus) := visits[0];
      var d1 := Switch(d.(active := ws), ws, d.active, false, focus);
      SwitchKeepsInv(d, ws, false, focus);
      VisitKeepsInv(d1, visits[1..]);
    }
  }

  /** A hidden window is an application window, so the workspaces that hold it are listed. */
  lemma HiddenIsListed(d: Desk, w: WindowId)
    requires Inv(d) && w in d.windows && d.windows[w].inHidden
    ensures IsApp(d.windows[w]) && forall p :: p in d.windows[w].places ==> p in d.workspaces
  {
    assert IsApp(d.windows[w]);
    assert Placed(d.windows[w], d.workspaces, d.active);
  }

  lemma TwoVisitsDiffer(visits: seq<(WorkspaceId, Option<WindowId>)>)
    requires |visits| > 1
    requires forall i, j :: 0 <= i < j < |visits| ==> visits[i].0 != visits[j].0
    ensures visits[0].0 != visits[1].0
  {
  }

  /** A hidden window is raised by a single visit. */
  lemma HiddenVisit(d: Desk, w: WindowId, visits: seq<(WorkspaceId, Option<WindowId>)>)
    requires Inv(d) && VisitsPlacesOf(d, w, visits) && d.windows[w].inHidden
    ensures |visits| == 1 && visits == [(visits[0].0, visits[0].1)] && visits[0].0 in d.windows[w].places
  {
    HiddenIsListed(d, w);
    assert Placed(d.windows[w], d.workspaces, d.active);
    var p :| p in d.windows[w].places;
    if |visits| > 1 {
      TwoVisitsDiffer(visits);
    }
  }

  lemma RaiseKeepsInv(d: Desk, w: WindowId, visits: seq<(WorkspaceId, Option<WindowId>)>)
    requires Inv(d) && w in d.windows && (d.windows[w].inHidden ==> VisitsPlacesOf(d, w, visits))
    ensures Inv(Raise(d, w, visits))
  {
    if d.windows[w].inHidden {
      HiddenIsListed(d, w);
      VisitKeepsInv(d, visits);
    }
  }

  // ---------- the other commands ----------

  lemma OpenTrees(d: Desk, parent: Option<WindowId>, r: Window)
    requires IdsOk(d) && TreesOk(d.windows) && r.parent == parent
    requires parent.Some? ==>
               && parent.value in d.windows
               && r.places == d.windows[parent.value].places
               && (IsApp(r) <==> IsApp(d.windows[parent.value]))
    ensures TreesOk(d.windows[d.nextWindow := r])
  {
    var n := d.nextWindow;
    var ws' := d.windows[n := r];
    forall w | w in ws'
      ensures WithTop(ws', w)
    {
      if w != n {
        RootAfterOpen(d.windows, n, r, w);
        assert WithTop(d.windows, w);
      } else if parent.Some? {
        var p := parent.value;
        RootAfterOpen(d.windows, n, r, p);
        assert WithTop(d.windows, p);
      }
    }
  }

  lemma OpenKeepsInv(d: Desk, parent: Option<WindowId>, layer: Layer, state: WindowState)
    requires Inv(d)
    requires parent.Some? ==> parent.value in d.windows && (IsApplication(layer) <==> IsApp(d.windows[parent.value]))
    ensures Inv(Open(d, parent, layer, state))
  {
    var n := d.nextWindow;
    var d' := Open(d, parent, layer, state);
    var r := d'.windows[n];
    assert TreesOk(d'.windows) by {
      OpenTrees(d, parent, r);
    }
    assert WindowsOk(d'.windows, d'.workspaces, d'.active) by {
      if IsApp(r) {
        if parent.Some? {
          assert Placed(d.windows[parent.value], d.workspaces, d.active);
        }
        assert Placed(r, d.workspaces, d.active);
      }
    }
  }

  lemma CloseKeepsInv(d: Desk, w: WindowId)
    requires Inv(d)
    ensures Inv(Close(d, w))
  {
    var d' := Close(d, w);
    forall x | x in d'.windows
      ensures WithTop(d'.windows, x)
    {
      var top := Root(d'.windows, x);
      RootAfterClose(d.windows, w, x);
      assert WithTop(d.windows, x) && WithTop(d.windows, top);
    }
  }

  /** A change that leaves every window's filing and kind alone. */
  lemma SameFilingTrees(ws: Windows, ws': Windows)
    requires TreesOk(ws) && SameShape(ws, ws')
    requires forall w :: w in ws ==> ws'[w].places == ws[w].places && (IsApp(ws'[w]) <==> IsApp(ws[w]))
    ensures TreesOk(ws')
  {
    RootsOfSameShape(ws, ws');
    forall w | w in ws'
      ensures WithTop(ws', w)
    {
      assert WithTop(ws, w);
    }
  }

  /** A change of filing that is the same for a whole tree. */
  lemma TreewiseTrees(ws: Windows, ws': Windows, f: WindowId, without: set<WorkspaceId>, with: set<WorkspaceId>)
    requires TreesOk(ws) && SameShape(ws, ws') && f in ws
    requires forall w :: w in ws ==> (IsApp(ws'[w]) <==> IsApp(ws[w]))
    requires forall w :: w in ws ==>
               ws'[w].places == if w in Tree(ws, f) then ws[w].places - without + with else ws[w].places
    ensures TreesOk(ws')
  {
    RootsOfSameShape(ws, ws');
    forall w | w in ws'
      ensures WithTop(ws', w)
    {
      RootOfRoot(ws, w);
      assert WithTop(ws, w);
      assert w in Tree(ws, f) <==> Root(ws, w) in Tree(ws, f);
    }
  }

  lemma ModifyKeepsInv(d: Desk, w: WindowId, q: Changes)
    requires Inv(d) && w in d.windows
    ensures Inv(Modify(d, w, q))
  {
    var d' := Modify(d, w, q);
    assert SameShape(d.windows, d'.windows);
    SameFilingTrees(d.windows, d'.windows);
    assert WindowsOk(d'.windows, d.workspaces, d.active) by {
      if IsApp(d.windows[w]) { assert Placed(d.windows[w], d.workspaces, d.active); }
    }
  }

  /** Leaving the active workspace, or joining it, by a window in the open. */
  lemma ToggledPlaces(r: Window, inTree: bool, isF: bool, list: seq<WorkspaceId>, act: WorkspaceId)
    requires Placed(r, list, act) && act in list && (inTree ==> !r.inHidden)
    ensures Placed(Topped(r, inTree, isF, act), list, act) && Placed(Lowered(r, inTree, isF, act), list, act)
  {
    assert inTree ==> r.places <= {act};
  }

  /** The focused application window's tree is in the open, so putting it on top or taking it
      down neither hides nor orphans anything. */
  ghost predicate TreeInTheOpen(ws: Windows, f: WindowId) {
    && f in ws && IsApp(ws[f])
    && forall w :: w in Tree(ws, f) ==> (IsApp(ws[w]) ==> !ws[w].inHidden)
  }

  lemma PutOnTopKeeps(d: Desk, f: WindowId)
    requires ListOk(d) && WindowsOk(d.windows, d.workspaces, d.active) && TreesOk(d.windows)
    requires TreeInTheOpen(d.windows, f)
    ensures var ws' := PutOnTop(d.windows, f, d.active); WindowsOk(ws', d.workspaces, d.active) && TreesOk(ws')
  {
    var ws' := PutOnTop(d.windows, f, d.active);
    assert f in Tree(d.windows, f);
    TreewiseTrees(d.windows, ws', f, {d.active}, {});
    forall w | w in ws' && IsApp(ws'[w])
      ensures Placed(ws'[w], d.workspaces, d.active)
    {
      assert Placed(d.windows[w], d.workspaces, d.active);
      ToggledPlaces(d.windows[w], w in Tree(d.windows, f), w == f, d.workspaces, d.active);
    }
  }

  lemma TakeDownKeeps(d: Desk, f: WindowId)
    requires ListOk(d) && WindowsOk(d.windows, d.workspaces, d.active) && TreesOk(d.windows)
    requires TreeInTheOpen(d.windows, f)
    ensures var ws' := TakeDown(d.windows, f, d.active); WindowsOk(ws', d.workspaces, d.active) && TreesOk(ws')
  {
    var ws' := TakeDown(d.windows, f, d.active);
    assert f in Tree(d.windows, f);
    TreewiseTrees(d.windows, ws', f, {}, {d.active});
    forall w | w in ws' && IsApp(ws'[w])
      ensures Placed(ws'[w], d.workspaces, d.active)
    {
      assert Placed(d.windows[w], d.workspaces, d.active);
      ToggledPlaces(d.windows[w], w in Tree(d.windows, f), w == f, d.workspaces, d.active);
    }
  }

  /** Ids and remembered windows survive whatever keeps the set of windows and their kinds. */
  lemma OthersKept(d: Desk, ws': Windows)
    requires IdsOk(d) && MemoryOk(d) && SameShape(d.windows, ws')
    requires forall w, p :: w in ws' && p in ws'[w].places ==> p < d.nextWorkspace
    requires forall w :: w in ws' ==> (IsApp(ws'[w]) <==> IsApp(d.windows[w]))
    ensures IdsOk(d.(windows := ws')) && MemoryOk(d.(windows := ws'))
  {
    forall ws | ws in d.remembered
      ensures Memory(ws', d.nextWindow, d.remembered[ws])
    {
      assert Memory(d.windows, d.nextWindow, d.remembered[ws]);
    }
  }

  lemma OtherWindowsKeepInv(d: Desk, ws': Windows)
    requires Inv(d) && SameShape(d.windows, ws')
    requires WindowsOk(ws', d.workspaces, d.active) && TreesOk(ws')
    requires forall w, p :: w in ws' && p in ws'[w].places ==> p < d.nextWorkspace
    requires forall w :: w in ws' ==> (IsApp(ws'[w]) <==> IsApp(d.windows[w]))
    ensures Inv(d.(windows := ws'))
  {
    OthersKept(d, ws');
  }

  lemma PutOnTopKeepsInv(d: Desk, f: WindowId)
    requires Inv(d) && TreeInTheOpen(d.windows, f)
    ensures Inv(d.(windows := PutOnTop(d.windows, f, d.active)))
  {
    PutOnTopKeeps(d, f);
    OtherWindowsKeepInv(d, PutOnTop(d.windows, f, d.active));
  }

  lemma TakeDownKeepsInv(d: Desk, f: WindowId)
    requires Inv(d) && TreeInTheOpen(d.windows, f)
    ensures Inv(d.(windows := TakeDown(d.windows, f, d.active)))
  {
    var ws' := TakeDown(d.windows, f, d.active);
    TakeDownKeeps(d, f);
    forall w | w in ws'
      ensures ws'[w].places <= d.windows[w].places + {d.active} && (IsApp(ws'[w]) <==> IsApp(d.windows[w]))
    {
    }
    OtherWindowsKeepInv(d, ws');
  }

  lemma ToggleKeepsInv(d: Desk, focus: Option<WindowId>)
    requires Inv(d) && FocusOk(d.windows, focus)
    ensures Inv(ToggleOnTop(d, focus))
  {
    if focus.Some? && IsApp(d.windows[focus.value]) {
      MovedIsInTheOpen(d.windows, d.workspaces, d.active, true, focus);
      assert TreeInTheOpen(d.windows, focus.value) by {
        assert Moved(d.windows, true, focus) == Tree(d.windows, focus.value);
      }
      if d.windows[focus.value].layer == Application {
        PutOnTopKeepsInv(d, focus.value);
      } else {
        TakeDownKeepsInv(d, focus.value);
      }
    }
  }

  lemma StepKeepsInv(d: Desk, c: Command, focus: Option<WindowId>)
    requires Inv(d) && Enabled(d, c, focus)
    ensures Inv(Step(d, c, focus))
  {
    match c
    case CmdGo(q, take) => GoKeepsInv(d, q, take, focus);
    case CmdRaise(w, visits) => RaiseKeepsInv(d, w, visits);
    case CmdOpen(parent, layer, state) => OpenKeepsInv(d, parent, layer, state);
    case CmdClose(w) => CloseKeepsInv(d, w);
    case CmdModify(w, q) => ModifyKeepsInv(d, w, q);
    case CmdToggleOnTop => ToggleKeepsInv(d, focus);
  }

  lemma StartInv()
    ensures Inv(Start())
  {
    var empty := Desk(map[], [], 0, map[], [], 0, 0);
    assert Lawful(empty.hooks);
    Extend([], Create(0));
    Extend([] + [Create(0)], Activate(0));
    assert empty.hooks == [];
    assert MapAfter(Start().hooks) == Marks([0], 0);
  }

  /** The invariant over whole runs. */
  lemma {:induction false} RunKeepsInv(d: Desk, run: seq<Action>)
    requires Inv(d) && RunEnabled(d, run)
    ensures Inv(After(d, run))
    decreases |run|
  {
    if run != [] {
      StepKeepsInv(d, run[0].0, run[0].1);
      RunKeepsInv(Step(d, run[0].0, run[0].1), run[1..]);
    }
  }
}
