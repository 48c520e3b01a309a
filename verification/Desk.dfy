/** The dynamic-workspace state machine as functions: one desk in, one desk out
    (miriway_workspace_manager.cpp and .h, toggle_always_on_top of miriway_policy.cpp).
    The class in WorkspaceManager.dfy performs the same commands by loops and updates. */
module Desktops {
  import opened Wrappers
  import opened Hooks
  import opened Windows

  datatype Desk = Desk(
    windows: Windows,
    workspaces: seq<WorkspaceId>,
    active: WorkspaceId,                             // the list iterator active_workspace_
    remembered: map<WorkspaceId, Option<WindowId>>,  // workspace_to_active
    hooks: seq<HookEvent>,                           // notifications sent so far
    nextWindow: nat,
    nextWorkspace: nat)                              // identities from here on are unused

  function IndexOf(list: seq<WorkspaceId>, ws: WorkspaceId): (i: nat)
    requires ws in list
    ensures i < |list| && list[i] == ws && ws !in list[..i]
  {
    if list[0] == ws then 0 else 1 + IndexOf(list[1..], ws)
  }

  /** The tree that a Shift command brings along. */
  function Moved(ws: Windows, take: bool, focus: Option<WindowId>): set<WindowId> {
    if take && focus.Some? && focus.value in ws then Tree(ws, focus.value) else {}
  }

  /** All that one switch from `source` to `target` does to one window. */
  function Transit(r: Window, moves: bool, target: WorkspaceId, source: WorkspaceId): Window {
    var places := if moves then r.places - {source} + {target} else r.places;
    var m := r.(places := places);
    if IsApp(r) then
      if target in places then Shown(m) else if source in places then Hidden(m) else m
    else
      if moves && target !in r.places - {source} then Shown(m) else m
  }

  function TransitAll(ws: Windows, moved: set<WindowId>, target: WorkspaceId, source: WorkspaceId): (r: Windows)
    ensures SameShape(ws, r)
  {
    map w | w in ws :: Transit(ws[w], w in moved, target, source)
  }

  predicate FocusOnApp(ws: Windows, focus: Option<WindowId>) {
    focus.Some? && focus.value in ws && IsApp(ws[focus.value])
  }

  /** Looking up the remembered window makes an entry if there is none; the window that had
      focus is remembered if the switch hides it. */
  function Remember(d: Desk, moved: set<WindowId>, target: WorkspaceId, source: WorkspaceId,
                    focus: Option<WindowId>): map<WorkspaceId, Option<WindowId>>
  {
    var looked := if FocusOnApp(d.windows, focus) || target in d.remembered then d.remembered
                  else d.remembered[target := None];
    if FocusOnApp(d.windows, focus) && focus.value !in moved && source in d.windows[focus.value].places
    then looked[source := focus] else looked
  }

  /** change_active_workspace, the cursor already being on `target` */
  function Switch(d: Desk, target: WorkspaceId, source: WorkspaceId, take: bool, focus: Option<WindowId>): Desk {
    if target == source then d
    else
      var moved := Moved(d.windows, take, focus);
      d.(windows := TransitAll(d.windows, moved, target, source),
         remembered := Remember(d, moved, target, source, focus),
         hooks := d.hooks + [Deactivate(source)] + [Activate(target)])
  }

  predicate HoldsApp(ws: Windows, wksp: WorkspaceId) {
    exists w :: w in ws && wksp in ws[w].places && IsApp(ws[w])
  }

  function EraseIfEmpty(d: Desk, source: WorkspaceId): Desk {
    if HoldsApp(d.windows, source) then d
    else d.(remembered := d.remembered - {source},
            workspaces := Without(d.workspaces, source),
            hooks := d.hooks + [Destroy(source)])
  }

  function AppendNew(d: Desk): Desk {
    var ws := d.nextWorkspace;
    d.(workspaces := d.workspaces + [ws], active := ws, nextWorkspace := ws + 1,
       hooks := d.hooks + [Create(ws)] + [Activate(ws)])
  }

  /** The common course of every switch command: cursor on `target`, switch, drop `source` if left empty. */
  function GoTo(d: Desk, target: WorkspaceId, take: bool, focus: Option<WindowId>): Desk {
    EraseIfEmpty(Switch(d.(active := target), target, d.active, take, focus), d.active)
  }

  function GoToFresh(d: Desk, take: bool, focus: Option<WindowId>): Desk {
    EraseIfEmpty(Switch(AppendNew(d), d.nextWorkspace, d.active, take, focus), d.active)
  }

  /** The ways a user or client asks for another workspace: the four shortcuts, and the
      callback that a client's activate request reaches. */
  datatype Request = ToBegin | ToEnd | ToUp | ToDown | To(ws: WorkspaceId)

  datatype Destination = Stay | Listed(ws: WorkspaceId) | FreshOne

  function Lead(d: Desk, q: Request): Destination
    requires d.active in d.workspaces
  {
    match q
    case ToBegin => if IndexOf(d.workspaces, d.active) == 0 then Stay else Listed(d.workspaces[0])
    case ToEnd => FreshOne
    case ToUp =>
      var i := IndexOf(d.workspaces, d.active);
      if i == 0 then Stay else Listed(d.workspaces[i - 1])
    case ToDown =>
      var i := IndexOf(d.workspaces, d.active);
      if i + 1 == |d.workspaces| then FreshOne else Listed(d.workspaces[i + 1])
    case To(ws) => if ws == d.active then Stay else Listed(ws)
  }

  /** A switch command. `take` is Shift; a client's request never takes a window along. */
  function Go(d: Desk, q: Request, take: bool, focus: Option<WindowId>): Desk
    requires d.active in d.workspaces
  {
    match Lead(d, q)
    case Stay => d
    case Listed(ws) => GoTo(d, ws, take, focus)
    case FreshOne => GoToFresh(d, take, focus)
  }

  /** activate_workspace_containing: a switch per workspace visited, none of them erased.
      Each visit carries the focus found when it starts. */
  function Visit(d: Desk, visits: seq<(WorkspaceId, Option<WindowId>)>): Desk
    decreases |visits|
  {
    if visits == [] then d
    else
      var (ws, focus) := visits[0];
      Visit(Switch(d.(active := ws), ws, d.active, false, focus), visits[1..])
  }

  predicate VisitsPlacesOf(d: Desk, w: WindowId, visits: seq<(WorkspaceId, Option<WindowId>)>) {
    && w in d.windows
    && (forall i :: 0 <= i < |visits| ==> visits[i].0 in d.windows[w].places)
    && (forall p :: p in d.windows[w].places ==> exists i :: 0 <= i < |visits| && visits[i].0 == p)
    && (forall i, j :: 0 <= i < j < |visits| ==> visits[i].0 != visits[j].0)
  }

  /** handle_raise_window */
  function Raise(d: Desk, w: WindowId, visits: seq<(WorkspaceId, Option<WindowId>)>): Desk
    requires w in d.windows
  {
    if d.windows[w].inHidden then Visit(d, visits) else d
  }

  /** Putting one window's tree into the active workspace. */
  function Join(r: Window, ws: WorkspaceId): Window {
    if ws in r.places then r else Shown(r.(places := r.places + {ws}))
  }

  /** A window appears: a child is filed where its parent is, any other window in the
      active workspace; then advise_new_window runs. */
  function Open(d: Desk, parent: Option<WindowId>, layer: Layer, state: WindowState): Desk
    requires parent.Some? ==> parent.value in d.windows
  {
    var r := Window(parent, layer, state, {}, false, Unknown);
    var filed := match parent
      case Some(p) => var c := r.(places := d.windows[p].places);
                      if d.windows[p].inHidden then Hidden(c) else c
      case None => Join(r, d.active);
    d.(windows := d.windows[d.nextWindow := filed], nextWindow := d.nextWindow + 1)
  }

  function Close(d: Desk, w: WindowId): Desk {
    d.(windows := d.windows - {w})
  }

  /** A client's request to change a window: the two attributes the manager filters, and one
      that stands for those it passes on. */
  datatype Changes = Changes(state: Option<WindowState>, size: Option<(nat, nat)>, name: Option<string>)

  function Filtered(r: Window, q: Changes): Changes {
    if r.inHidden then q.(state := None, size := None) else q
  }

  /** handle_modify_window, of which a desk records the state */
  function Modify(d: Desk, w: WindowId, q: Changes): Desk
    requires w in d.windows
  {
    match Filtered(d.windows[w], q).state
    case Some(s) => d.(windows := d.windows[w := d.windows[w].(state := s)])
    case None => d
  }

  function Leave(r: Window, ws: WorkspaceId): Window {
    r.(places := r.places - {ws})
  }

  /** What becomes of a window when the tree of `f` leaves the workspace and `f` goes on top. */
  function Topped(r: Window, inTree: bool, isF: bool, act: WorkspaceId): (t: Window)
    ensures t.parent == r.parent && Effective(t) == Effective(r) && t.inHidden == r.inHidden
    ensures t.places == if inTree then r.places - {act} else r.places
    ensures (isF ==> IsApp(r)) ==> (IsApp(t) <==> IsApp(r))
  {
    var left := if inTree then Leave(r, act) else r;
    if isF then left.(layer := AlwaysOnTop) else left
  }

  /** What becomes of a window when `f` goes back down and its tree joins the workspace. */
  function Lowered(r: Window, inTree: bool, isF: bool, act: WorkspaceId): (t: Window)
    ensures t.parent == r.parent && Effective(t) == Effective(r)
    ensures t.places == if inTree then r.places + {act} else r.places
    ensures (isF ==> IsApp(r)) ==> (IsApp(t) <==> IsApp(r))
  {
    var lowered := if isF then r.(layer := Application) else r;
    if inTree then Join(lowered, act) else lowered
  }

  function PutOnTop(ws: Windows, f: WindowId, act: WorkspaceId): (r: Windows)
    requires f in ws
    ensures SameShape(ws, r)
  {
    var tree := Tree(ws, f);
    map w | w in ws :: Topped(ws[w], w in tree, w == f, act)
  }

  function TakeDown(ws: Windows, f: WindowId, act: WorkspaceId): (r: Windows)
    requires f in ws
    ensures SameShape(ws, r)
  {
    var tree := Tree(ws, f);
    map w | w in ws :: Lowered(ws[w], w in tree, w == f, act)
  }

  /** toggle_always_on_top */
  function ToggleOnTop(d: Desk, focus: Option<WindowId>): Desk {
    if focus.None? || focus.value !in d.windows then d
    else
      match d.windows[focus.value].layer
      case Application => d.(windows := PutOnTop(d.windows, focus.value, d.active))
      case AlwaysOnTop => d.(windows := TakeDown(d.windows, focus.value, d.active))
      case _ => d
  }

  datatype Command =
    | CmdGo(request: Request, take: bool)
    | CmdRaise(w: WindowId, visits: seq<(WorkspaceId, Option<WindowId>)>)
    | CmdOpen(parent: Option<WindowId>, layer: Layer, state: WindowState)
    | CmdClose(w: WindowId)
    | CmdModify(w: WindowId, changes: Changes)
    | CmdToggleOnTop

  /** The toolkit never focuses a window the manager has hidden. */
  ghost predicate FocusOk(ws: Windows, focus: Option<WindowId>) {
    focus.Some? ==> focus.value in ws && !ws[focus.value].inHidden
  }

  /** What the surroundings guarantee when a command is given. */
  ghost predicate Enabled(d: Desk, c: Command, focus: Option<WindowId>) {
    && FocusOk(d.windows, focus)
    && d.active in d.workspaces
    && match c
       case CmdGo(q, take) => q.To? ==> q.ws in d.workspaces && !take
       case CmdRaise(w, visits) =>
         w in d.windows && (d.windows[w].inHidden ==> VisitsPlacesOf(d, w, visits))
       case CmdOpen(parent, layer, _) =>
         parent.Some? ==> parent.value in d.windows && (IsApplication(layer) <==> IsApp(d.windows[parent.value]))
       case CmdModify(w, _) => w in d.windows
       case _ => true
  }

  function Step(d: Desk, c: Command, focus: Option<WindowId>): Desk
    requires Enabled(d, c, focus)
  {
    match c
    case CmdGo(q, take) => Go(d, q, take, focus)
    case CmdRaise(w, visits) => Raise(d, w, visits)
    case CmdOpen(parent, layer, state) => Open(d, parent, layer, state)
    case CmdClose(w) => Close(d, w)
    case CmdModify(w, q) => Modify(d, w, q)
    case CmdToggleOnTop => ToggleOnTop(d, focus)
  }

  /** The desk the constructor leaves: one fresh active workspace. */
  function Start(): Desk {
    AppendNew(Desk(map[], [], 0, map[], [], 0, 0))
  }

  type Action = (Command, Option<WindowId>)

  ghost predicate RunEnabled(d: Desk, run: seq<Action>)
    decreases |run|
  {
    run == [] || (
      && Enabled(d, run[0].0, run[0].1)
      && RunEnabled(Step(d, run[0].0, run[0].1), run[1..]))
  }

  ghost function After(d: Desk, run: seq<Action>): Desk
    requires RunEnabled(d, run)
    decreases |run|
  {
    if run == [] then d else After(Step(d, run[0].0, run[0].1), run[1..])
  }
}
