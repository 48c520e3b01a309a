/** What the window-management toolkit knows of each window, and the per-window effect of
    the workspace manager: hide it, show it, move its tree between workspaces. */
module Windows {
  import opened Wrappers
  import opened Hooks

  type WindowId = nat

  datatype Layer = Background | Below | Application | AlwaysOnTop | Above | Overlay

  datatype WindowState =
    | Unknown | Restored | Minimized | Maximized | VertMaximized | Fullscreen
    | HorizMaximized | HiddenState | Attached

  /** `inHidden` and `oldState` are the manager's WorkspaceInfo, the rest belongs to the toolkit. */
  datatype Window = Window(
    parent: Option<WindowId>,
    layer: Layer,
    state: WindowState,
    places: set<WorkspaceId>,
    inHidden: bool,
    oldState: WindowState)

  predicate IsApplication(layer: Layer) {
    layer == Application || layer == AlwaysOnTop
  }

  predicate IsApp(r: Window) {
    IsApplication(r.layer)
  }

  /** The state the client sees as its own: the saved one while the manager hides the window. */
  function Effective(r: Window): WindowState {
    if r.inHidden then r.oldState else r.state
  }

  /** apply_workspace_hidden_to */
  function Hidden(r: Window): (h: Window)
    ensures h.inHidden && Effective(h) == Effective(r)
  {
    if r.inHidden then r else r.(inHidden := true, oldState := r.state, state := HiddenState)
  }

  /** apply_workspace_visible_to */
  function Shown(r: Window): (s: Window)
    ensures !s.inHidden && Effective(s) == Effective(r)
  {
    if r.inHidden then r.(inHidden := false, state := r.oldState) else r
  }

  type Windows = map<WindowId, Window>

  /** The top of a window's tree. A window whose parent has been closed is a top itself. */
  function Root(ws: Windows, w: WindowId): (root: WindowId)
    requires w in ws
    ensures root in ws
    decreases w
  {
    match ws[w].parent
    case Some(p) => if p in ws && p < w then Root(ws, p) else w
    case None => w
  }

  function Tree(ws: Windows, w: WindowId): set<WindowId>
    requires w in ws
  {
    set x | x in ws && Root(ws, x) == Root(ws, w)
  }

  predicate SameShape(ws: Windows, ws': Windows) {
    ws'.Keys == ws.Keys && forall x :: x in ws ==> ws'[x].parent == ws[x].parent
  }

  /** Trees depend on parents only. */
  lemma {:induction false} RootOfSameShape(ws: Windows, ws': Windows, w: WindowId)
    requires SameShape(ws, ws') && w in ws
    ensures Root(ws', w) == Root(ws, w)
    decreases w
  {
    match ws[w].parent
    case Some(p) => if p in ws && p < w { RootOfSameShape(ws, ws', p); }
    case None =>
  }

  lemma RootsOfSameShape(ws: Windows, ws': Windows)
    requires SameShape(ws, ws')
    ensures forall w {:trigger Root(ws', w)} :: w in ws ==> Root(ws', w) == Root(ws, w)
  {
    forall w | w in ws ensures Root(ws', w) == Root(ws, w) {
      RootOfSameShape(ws, ws', w);
    }
  }

  lemma {:induction false} RootOfRoot(ws: Windows, w: WindowId)
    requires w in ws
    ensures Root(ws, Root(ws, w)) == Root(ws, w)
    decreases w
  {
    match ws[w].parent
    case Some(p) => if p in ws && p < w { RootOfRoot(ws, p); }
    case None =>
  }

  /** Closing a window splits its tree into parts of that tree. */
  lemma {:induction false} RootAfterClose(ws: Windows, gone: WindowId, w: WindowId)
    requires w in ws && w != gone
    ensures Root(ws, Root(ws - {gone}, w)) == Root(ws, w)
    decreases w
  {
    var ws' := ws - {gone};
    match ws[w].parent
    case Some(p) => if p in ws' && p < w { RootAfterClose(ws, gone, p); }
    case None =>
  }

  /** A new window, whose identity exceeds all others, leaves the existing trees alone. */
  lemma {:induction false} RootAfterOpen(ws: Windows, id: WindowId, r: Window, w: WindowId)
    requires w in ws && id !in ws && (forall x :: x in ws ==> x < id)
    ensures Root(ws[id := r], w) == Root(ws, w)
    decreases w
  {
    match ws[w].parent
    case Some(p) => if p in ws && p < w { RootAfterOpen(ws, id, r, p); }
    case None =>
  }
}
