/** What each command does, said of the desk before and after it and of nothing in between. */
module DeskAnswers {
  import opened Wrappers
  import opened Hooks
  import opened Windows
  import opened Desktops
  import opened DeskInvariant
  import opened DeskTheorems

  // ---------- where the switch commands lead ----------

  /** The workspace a request leads to from the i-th of the list, `unused` being the next identity. */
  function Destined(list: seq<WorkspaceId>, i: nat, unused: WorkspaceId, q: Request): WorkspaceId
    requires i < |list|
  {
    match q
    case ToBegin => list[0]
    case ToEnd => unused
    case ToUp => if i == 0 then list[0] else list[i - 1]
    case ToDown => if i + 1 < |list| then list[i + 1] else unused
    case To(ws) => ws
  }

  lemma IndexIs(list: seq<WorkspaceId>, ws: WorkspaceId, i: nat)
    requires Distinct(list) && i < |list| && list[i] == ws
    ensures IndexOf(list, ws) == i
  {
  }

  lemma LeadIs(d: Desk, q: Request, i: nat)
    requires ListOk(d) && i < |d.workspaces| && d.workspaces[i] == d.active && (q.To? ==> q.ws in d.workspaces)
    ensures var ws := Destined(d.workspaces, i, d.nextWorkspace, q);
            match Lead(d, q)
            case Stay => ws == d.active
            case Listed(p) => p == ws && ws in d.workspaces && ws != d.active
            case FreshOne => ws == d.nextWorkspace
  {
    IndexIs(d.workspaces, d.active, i);
    LeadsElsewhere(d, q);
  }

  lemma ListedIsReached(d: Desk, ws: WorkspaceId, take: bool, focus: Option<WindowId>)
    requires ws in d.workspaces && ws != d.active
    ensures var d' := GoTo(d, ws, take, focus);
            d'.active == ws && d'.nextWorkspace == d.nextWorkspace && forall p :: p in d'.workspaces ==> p in d.workspaces
  {
  }

  lemma FreshIsReached(d: Desk, take: bool, focus: Option<WindowId>)
    requires d.active != d.nextWorkspace
    ensures var d' := GoToFresh(d, take, focus);
            && d'.active == d.nextWorkspace && d'.nextWorkspace == d.nextWorkspace + 1
            && d'.workspaces != [] && d'.workspaces[|d'.workspaces| - 1] == d.nextWorkspace
  {
    WithoutKeepsLast(d.workspaces + [d.nextWorkspace], d.active);
  }

  /** Reached by a switch from `d`: `ws`, and only if that is a new one has one been appended. */
  ghost predicate Reached(d: Desk, d': Desk, ws: WorkspaceId) {
    && d'.active == ws
    && (ws == d.active ==> d' == d)
    && if ws == d.nextWorkspace
       then d'.nextWorkspace == ws + 1 && d'.workspaces != [] && d'.workspaces[|d'.workspaces| - 1] == ws
       else d'.nextWorkspace == d.nextWorkspace && forall p :: p in d'.workspaces ==> p in d.workspaces
  }

  /** Begin leads to the first workspace, end to a fresh one, up and down to the neighbours or, at
      the ends, to the first one and to a fresh one, a client's request to the one requested. */
  lemma GoLeadsTo(d: Desk, q: Request, take: bool, focus: Option<WindowId>, i: nat)
    requires GoEnabled(d, q, take, focus) && i < |d.workspaces| && d.workspaces[i] == d.active
    ensures Reached(d, Go(d, q, take, focus), Destined(d.workspaces, i, d.nextWorkspace, q))
  {
    LeadIs(d, q, i);
    match Lead(d, q)
    case Stay =>
    case Listed(ws) => ListedIsReached(d, ws, take, focus);
    case FreshOne => FreshIsReached(d, take, focus);
  }

  // ---------- what is remembered ----------

  ghost predicate SameEntry(d: Desk, d': Desk, ws: WorkspaceId) {
    (ws in d'.remembered <==> ws in d.remembered) && (ws in d.remembered ==> d'.remembered[ws] == d.remembered[ws])
  }

  /** An application window has focus, and stays behind in the workspace left. */
  ghost predicate FocusStays(d: Desk, take: bool, focus: Option<WindowId>) {
    FocusOnApp(d.windows, focus) && !take && d.active in d.windows[focus.value].places
  }

  /** The memory of a switch. The workspace left, if it survives, remembers the focused window if
      that one stays behind, and what it did otherwise; if it does not survive it is forgotten.
      The one reached gets an empty entry if it was looked up, focus not being on an application,
      and had none. Nothing else changes. */
  ghost predicate MemoryKept(d: Desk, d': Desk, take: bool, focus: Option<WindowId>, ws: WorkspaceId) {
    if ws == d.active then
      if ws !in d'.workspaces then ws !in d'.remembered
      else if FocusStays(d, take, focus) then ws in d'.remembered && d'.remembered[ws] == focus
      else SameEntry(d, d', ws)
    else if ws == d'.active && ws !in d.remembered && !FocusOnApp(d.windows, focus) then
      ws in d'.remembered && d'.remembered[ws] == None
    else
      SameEntry(d, d', ws)
  }

  lemma SwitchKeepsMemory(d: Desk, target: WorkspaceId, d1: Desk, take: bool, focus: Option<WindowId>, ws: WorkspaceId)
    requires target != d.active && d.active in d1.workspaces
    requires d1.windows == d.windows && d1.remembered == d.remembered && d1.active == target
    ensures MemoryKept(d, EraseIfEmpty(Switch(d1, target, d.active, take, focus), d.active), take, focus, ws)
  {
    if take && FocusOnApp(d.windows, focus) {
      assert focus.value in Tree(d.windows, focus.value);
    }
  }

  lemma GoKeepsMemory(d: Desk, q: Request, take: bool, focus: Option<WindowId>, ws: WorkspaceId)
    requires GoEnabled(d, q, take, focus)
    ensures var d' := Go(d, q, take, focus); d' == d || MemoryKept(d, d', take, focus, ws)
  {
    LeadsElsewhere(d, q);
    match Lead(d, q)
    case Stay =>
    case Listed(p) => SwitchKeepsMemory(d, p, d.(active := p), take, focus, ws);
    case FreshOne => SwitchKeepsMemory(d, d.nextWorkspace, AppendNew(d), take, focus, ws);
  }

  /** A raise remembers in the same way, and erases nothing. */
  lemma RaiseKeepsMemory(d: Desk, w: WindowId, visits: seq<(WorkspaceId, Option<WindowId>)>, ws: WorkspaceId)
    requires Inv(d) && w in d.windows && d.windows[w].inHidden && VisitsPlacesOf(d, w, visits)
    ensures |visits| == 1 && Raise(d, w, visits).workspaces == d.workspaces
    ensures MemoryKept(d, Raise(d, w, visits), false, visits[0].1, ws)
  {
    HiddenVisit(d, w, visits);
    HiddenIsListed(d, w);
    var (p, focus) := visits[0];
    var d' := Switch(d.(active := p), p, d.active, false, focus);
    assert Visit(d, visits) == Visit(d', visits[1..]) == d';
    assert Placed(d.windows[w], d.workspaces, d.active);
  }

  // ---------- trees ----------

  /** By going from child to parent any number of times. */
  predicate Ancestor(ws: Windows, a: WindowId, w: WindowId)
    requires w in ws
    decreases w
  {
    a == w || (ws[w].parent.Some? && ws[w].parent.value in ws && ws[w].parent.value < w
               && Ancestor(ws, a, ws[w].parent.value))
  }

  lemma {:induction false} RootIsAncestor(ws: Windows, w: WindowId)
    requires w in ws
    ensures Ancestor(ws, Root(ws, w), w)
    decreases w
  {
    match ws[w].parent
    case Some(p) => if p in ws && p < w { RootIsAncestor(ws, p); }
    case None =>
  }

  lemma {:induction false} AncestorsShareRoot(ws: Windows, a: WindowId, w: WindowId)
    requires w in ws && Ancestor(ws, a, w)
    ensures a in ws && Root(ws, a) == Root(ws, w)
    decreases w
  {
    if a != w {
      AncestorsShareRoot(ws, a, ws[w].parent.value);
    }
  }

  ghost predicate Kin(ws: Windows, f: WindowId, w: WindowId)
    requires f in ws && w in ws
  {
    exists a :: Ancestor(ws, a, f) && Ancestor(ws, a, w)
  }

  lemma KinIsInTree(ws: Windows, f: WindowId, w: WindowId)
    requires f in ws && w in ws && Kin(ws, f, w)
    ensures Root(ws, w) == Root(ws, f)
  {
    var a :| Ancestor(ws, a, f) && Ancestor(ws, a, w);
    AncestorsShareRoot(ws, a, f);
    AncestorsShareRoot(ws, a, w);
  }

  lemma TreeIsOfKin(ws: Windows, f: WindowId, w: WindowId)
    requires f in ws && w in ws && Root(ws, w) == Root(ws, f)
    ensures Kin(ws, f, w)
  {
    RootIsAncestor(ws, w);
    RootIsAncestor(ws, f);
  }

  /** A tree is a window with everything that has an ancestor in common with it. */
  lemma TreeIsKin(ws: Windows, f: WindowId, w: WindowId)
    requires f in ws && w in ws
    ensures w in Tree(ws, f) <==> Kin(ws, f, w)
  {
    if Kin(ws, f, w) { KinIsInTree(ws, f, w); }
    if w in Tree(ws, f) { TreeIsOfKin(ws, f, w); }
  }

  /** Parents are older than their children, so that no parent is passed over. */
  lemma ParentsAreOlder(run: seq<Action>, w: WindowId)
    requires RunEnabled(Start(), run) && w in After(Start(), run).windows && After(Start(), run).windows[w].parent.Some?
    ensures After(Start(), run).windows[w].parent.value < w
  {
    StartInv();
    RunKeepsInv(Start(), run);
  }

  lemma TransitMoves(ws: Windows, moved: set<WindowId>, target: WorkspaceId, source: WorkspaceId, w: WindowId)
    requires w in ws
    ensures TransitAll(ws, moved, target, source)[w].places ==
              if w in moved then ws[w].places - {source} + {target} else ws[w].places
  {
  }

  /** With Shift, whoever has an ancestor in common with the focused window comes along from the
      one workspace to the other, of whatever layer, and nobody else does. */
  lemma ShiftTakesKin(d: Desk, q: Request, focus: Option<WindowId>, w: WindowId)
    requires GoEnabled(d, q, true, focus) && Go(d, q, true, focus).active != d.active
    requires focus.Some? && w in d.windows
    ensures var d' := Go(d, q, true, focus);
            && w in d'.windows
            && d'.windows[w].places ==
                 (if Kin(d.windows, focus.value, w) then d.windows[w].places - {d.active} + {d'.active}
                  else d.windows[w].places)
  {
    TreeIsKin(d.windows, focus.value, w);
    LeadsElsewhere(d, q);
    var moved := Moved(d.windows, true, focus);
    match Lead(d, q)
    case Stay =>
    case Listed(ws) =>
      GoneWindows(d, d.(active := ws), ws, true, focus);
      TransitMoves(d.windows, moved, ws, d.active, w);
    case FreshOne =>
      GoneWindows(d, AppendNew(d), d.nextWorkspace, true, focus);
      TransitMoves(d.windows, moved, d.nextWorkspace, d.active, w);
  }

  // ---------- the other commands ----------

  /** Workspaces, memory and notifications, and every window but `w`, are as before. */
  ghost predicate OnlyWindow(d: Desk, d': Desk, w: WindowId) {
    && d'.workspaces == d.workspaces && d'.active == d.active && d'.remembered == d.remembered && d'.hooks == d.hooks
    && d'.nextWorkspace == d.nextWorkspace
    && (forall x :: x != w ==> (x in d'.windows <==> x in d.windows) && (x in d.windows ==> d'.windows[x] == d.windows[x]))
  }

  /** A new window has the layer and state it asked for; it is filed, and hidden, as its parent is,
      or else shown in the active workspace alone. */
  lemma OpenedIs(d: Desk, parent: Option<WindowId>, layer: Layer, state: WindowState)
    requires Inv(d) && (parent.Some? ==> parent.value in d.windows)
    ensures var d', w := Open(d, parent, layer, state), d.nextWindow;
            && w !in d.windows && w in d'.windows && d'.nextWindow == w + 1 && OnlyWindow(d, d', w)
            && d'.windows[w].parent == parent && d'.windows[w].layer == layer && Effective(d'.windows[w]) == state
            && (if parent.Some?
                then d'.windows[w].places == d.windows[parent.value].places
                     && d'.windows[w].inHidden == d.windows[parent.value].inHidden
                else d'.windows[w].places == {d.active} && !d'.windows[w].inHidden)
  {
  }

  lemma ClosedIs(d: Desk, w: WindowId)
    ensures var d' := Close(d, w); w !in d'.windows && OnlyWindow(d, d', w)
  {
  }

  /** A request for a state is granted to a shown window, and ignored of a hidden one. */
  lemma ModifiedIs(d: Desk, w: WindowId, q: Changes)
    requires w in d.windows
    ensures var d' := Modify(d, w, q);
            && OnlyWindow(d, d', w) && w in d'.windows
            && d'.windows[w] == (if q.state.Some? && !d.windows[w].inHidden
                                 then d.windows[w].(state := q.state.value) else d.windows[w])
  {
  }

  /** A toggle changes the layer of the focused window and of no other, and leaves workspaces,
      memory and notifications alone. */
  lemma ToggledIs(d: Desk, f: WindowId, w: WindowId)
    requires f in d.windows && w in d.windows
    ensures var d' := ToggleOnTop(d, Some(f));
            && OnlyWindow(d, d'.(windows := d.windows), w) && w in d'.windows
            && d'.windows[w].layer == (if w != f then d.windows[w].layer
                                       else if d.windows[f].layer == Application then AlwaysOnTop
                                       else if d.windows[f].layer == AlwaysOnTop then Application
                                       else d.windows[f].layer)
  {
  }
}
