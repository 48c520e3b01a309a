/** WorkspaceManager and its strategy hooks, working in place. Each method is proved to do to
    the fields what the corresponding function of Desk.dfy does to a desk. The focused window
    is a question put to the toolkit, so it arrives as an argument. */
module WorkspaceManagement {
  import opened Wrappers
  import opened Hooks
  import opened Windows
  import opened Desktops
  import opened DeskInvariant

  // ---------- the passes of a switch, each as a function on all windows ----------

  function LeaveAll(ws: Windows, tree: set<WindowId>, p: WorkspaceId): (r: Windows)
    ensures SameShape(ws, r)
  {
    map w | w in ws :: if w in tree then Leave(ws[w], p) else ws[w]
  }

  function JoinAll(ws: Windows, tree: set<WindowId>, p: WorkspaceId): (r: Windows)
    ensures SameShape(ws, r)
  {
    map w | w in ws :: if w in tree then Join(ws[w], p) else ws[w]
  }

  function ShowAll(ws: Windows, p: WorkspaceId): (r: Windows)
    ensures SameShape(ws, r)
  {
    map w | w in ws :: if p in ws[w].places && IsApp(ws[w]) then Shown(ws[w]) else ws[w]
  }

  function HideAll(ws: Windows, p: WorkspaceId, last: Option<WindowId>): (r: Windows)
    ensures SameShape(ws, r)
  {
    map w | w in ws :: if p in ws[w].places && IsApp(ws[w]) && Some(w) != last then Hidden(ws[w]) else ws[w]
  }

  function ShowIfIn(ws: Windows, m: Option<WindowId>, p: WorkspaceId): (r: Windows)
    ensures SameShape(ws, r)
  {
    if m.Some? && m.value in ws && p in ws[m.value].places then ws[m.value := Shown(ws[m.value])] else ws
  }

  predicate HidesLast(ws: Windows, p: WorkspaceId, last: Option<WindowId>) {
    last.Some? && last.value in ws && p in ws[last.value].places && IsApp(ws[last.value])
  }

  lemma MovedOfSameShape(ws: Windows, ws': Windows, take: bool, focus: Option<WindowId>)
    requires SameShape(ws, ws')
    ensures Moved(ws', take, focus) == Moved(ws, take, focus)
  {
    RootsOfSameShape(ws, ws');
  }

  /** The passes as one window sees them. */
  function FirstPasses(r: Window, moves: bool, recalled: bool, target: WorkspaceId, source: WorkspaceId): Window {
    var r1 := if recalled && target in r.places then Shown(r) else r;
    var r2 := if moves then Join(Leave(r1, source), target) else r1;
    if target in r2.places && IsApp(r2) then Shown(r2) else r2
  }

  function LastPass(r: Window, source: WorkspaceId): Window {
    if source in r.places && IsApp(r) then Hidden(r) else r
  }

  lemma PassesOfOneWindow(r: Window, list: seq<WorkspaceId>, moves: bool, recalled: bool,
                          target: WorkspaceId, source: WorkspaceId)
    requires target != source && (IsApp(r) ==> Placed(r, list, source)) && (recalled ==> IsApp(r))
    requires moves && IsApp(r) ==> r.places <= {source} && !r.inHidden
    ensures LastPass(FirstPasses(r, moves, recalled, target, source), source) == Transit(r, moves, target, source)
  {
  }

  function ShownAfter(ws: Windows, m: Option<WindowId>, moved: set<WindowId>, target: WorkspaceId, source: WorkspaceId): (r: Windows)
    ensures SameShape(ws, r)
  {
    ShowAll(JoinAll(LeaveAll(ShowIfIn(ws, m, target), moved, source), moved, target), target)
  }

  lemma ShownAfterIs(ws: Windows, m: Option<WindowId>, moved: set<WindowId>, target: WorkspaceId,
                     source: WorkspaceId, w: WindowId)
    requires w in ws
    ensures ShownAfter(ws, m, moved, target, source)[w] == FirstPasses(ws[w], w in moved, m == Some(w), target, source)
  {
  }

  function HideFocusToo(ws: Windows, source: WorkspaceId, last: Option<WindowId>): Windows {
    var hid := HideAll(ws, source, last);
    if HidesLast(ws, source, last) then hid[last.value := Hidden(hid[last.value])] else hid
  }

  ghost predicate SwitchReady(ws: Windows, list: seq<WorkspaceId>, moved: set<WindowId>, m: Option<WindowId>, source: WorkspaceId) {
    && WindowsOk(ws, list, source)
    && (m.Some? && m.value in ws ==> IsApp(ws[m.value]))
    && (forall w :: w in moved ==> w in ws && (IsApp(ws[w]) ==> ws[w].places <= {source} && !ws[w].inHidden))
  }

  lemma HideFocusTooIs(ws: Windows, source: WorkspaceId, last: Option<WindowId>, w: WindowId)
    requires w in ws
    ensures HideFocusToo(ws, source, last).Keys == ws.Keys
    ensures HideFocusToo(ws, source, last)[w] == LastPass(ws[w], source)
  {
  }

  lemma TransitByPasses(ws: Windows, shown: Windows, list: seq<WorkspaceId>, moved: set<WindowId>, m: Option<WindowId>,
                        last: Option<WindowId>, target: WorkspaceId, source: WorkspaceId)
    requires target != source && SwitchReady(ws, list, moved, m, source) && shown.Keys == ws.Keys
    requires forall w :: w in ws ==> shown[w] == FirstPasses(ws[w], w in moved, m == Some(w), target, source)
    ensures HideFocusToo(shown, source, last) == TransitAll(ws, moved, target, source)
  {
    var ws' := HideFocusToo(shown, source, last);
    forall w | w in ws
      ensures w in ws' && ws'[w] == Transit(ws[w], w in moved, target, source)
    {
      HideFocusTooIs(shown, source, last, w);
      PassesOfOneWindow(ws[w], list, w in moved, m == Some(w), target, source);
    }
  }

  /** The passes, in the source's order, amount to one transit of every window. */
  lemma PassesMakeTransit(ws: Windows, list: seq<WorkspaceId>, moved: set<WindowId>, m: Option<WindowId>,
                          last: Option<WindowId>, target: WorkspaceId, source: WorkspaceId)
    requires target != source && SwitchReady(ws, list, moved, m, source)
    ensures HideFocusToo(ShownAfter(ws, m, moved, target, source), source, last)
              == TransitAll(ws, moved, target, source)
  {
    forall w | w in ws
      ensures ShownAfter(ws, m, moved, target, source)[w] == FirstPasses(ws[w], w in moved, m == Some(w), target, source)
    {
      ShownAfterIs(ws, m, moved, target, source, w);
    }
    TransitByPasses(ws, ShownAfter(ws, m, moved, target, source), list, moved, m, last, target, source);
  }

  lemma LastIsHidden(ws: Windows, moved: set<WindowId>, m: Option<WindowId>,
                     last: Option<WindowId>, target: WorkspaceId, source: WorkspaceId)
    requires target != source
    ensures HidesLast(ShownAfter(ws, m, moved, target, source), source, last) <==>
              FocusOnApp(ws, last) && last.value !in moved && source in ws[last.value].places
  {
    if last.Some? && last.value in ws {
      ShownAfterIs(ws, m, moved, target, source, last.value);
    }
  }

  /** What the passes leave is what a switch leaves. */
  lemma PassesMakeSwitch(d: Desk, source: WorkspaceId, window: Option<WindowId>, focus: Option<WindowId>,
                         m: Option<WindowId>)
    requires Midway(d, source) && (window == None || (window == focus && FocusOk(d.windows, focus)))
    requires m == None || (d.active in d.remembered && m == d.remembered[d.active])
    ensures var moved := Moved(d.windows, true, window);
            var shown := ShownAfter(d.windows, m, moved, d.active, source);
            && moved == Moved(d.windows, window.Some?, focus)
            && HideFocusToo(shown, source, focus) == TransitAll(d.windows, moved, d.active, source)
            && (HidesLast(shown, source, focus) <==>
                  FocusOnApp(d.windows, focus) && focus.value !in moved && source in d.windows[focus.value].places)
  {
    var moved := Moved(d.windows, true, window);
    assert SwitchReady(d.windows, d.workspaces, moved, m, source) by {
      MovedIsInTheOpen(d.windows, d.workspaces, source, window.Some?, focus);
      assert m.Some? ==> Memory(d.windows, d.nextWindow, m);
    }
    PassesMakeTransit(d.windows, d.workspaces, moved, m, focus, d.active, source);
    LastIsHidden(d.windows, moved, m, focus, d.active, source);
  }

  // ---------- the order in which a switch shows and hides ----------

  /** A request to the toolkit that the user sees take effect. */
  datatype Change = Showed(w: WindowId) | Hid(w: WindowId) | Focused(w: WindowId)

  predicate OnlyShows(before: seq<Change>, after: seq<Change>) {
    before <= after && forall i :: |before| <= i < |after| ==> after[i].Showed?
  }

  predicate OnlyHidesBut(before: seq<Change>, after: seq<Change>, last: Option<WindowId>) {
    before <= after && forall i :: |before| <= i < |after| ==> after[i].Hid? && Some(after[i].w) != last
  }

  /** Nothing is shown, or focused, once hiding has begun. */
  predicate ShowsThenHides(before: seq<Change>, after: seq<Change>) {
    before <= after && forall i, j :: |before| <= i < j < |after| && after[i].Hid? ==> after[j].Hid?
  }

  lemma ThreeParts(a: seq<Change>, b: seq<Change>, c: seq<Change>, d: seq<Change>)
    requires a <= b && forall i :: |a| <= i < |b| ==> !b[i].Hid?
    requires OnlyShows(b, c)
    requires c <= d && forall i :: |c| <= i < |d| ==> d[i].Hid?
    ensures ShowsThenHides(a, d)
  {
    forall i | |a| <= i < |c| ensures !d[i].Hid? {
      assert d[i] == c[i];
      if i < |b| { assert c[i] == b[i]; }
    }
  }

  ghost predicate SaidSince(before: seq<Change>, after: seq<Change>, c: Change) {
    exists i: nat :: |before| <= i < |after| && after[i] == c
  }

  /** Whatever has come to be shown or hidden has been asked of the toolkit. */
  ghost predicate Asked(ws: Windows, ws': Windows, before: seq<Change>, after: seq<Change>) {
    && before <= after && ws'.Keys == ws.Keys
    && (forall w :: w in ws && ws[w].inHidden && !ws'[w].inHidden ==> SaidSince(before, after, Showed(w)))
    && (forall w :: w in ws && !ws[w].inHidden && ws'[w].inHidden ==> SaidSince(before, after, Hid(w)))
  }

  lemma SaidOn(a: seq<Change>, b: seq<Change>, c: seq<Change>, x: Change)
    requires a <= b <= c && (SaidSince(a, b, x) || SaidSince(b, c, x))
    ensures SaidSince(a, c, x)
  {
    if SaidSince(a, b, x) {
      var i: nat :| |a| <= i < |b| && b[i] == x;
      assert c[i] == x;
    }
  }

  lemma AskedOn(ws: Windows, ws1: Windows, ws2: Windows, a: seq<Change>, b: seq<Change>, c: seq<Change>)
    requires Asked(ws, ws1, a, b) && Asked(ws1, ws2, b, c)
    ensures Asked(ws, ws2, a, c)
  {
    forall w | w in ws
      ensures ws[w].inHidden && !ws2[w].inHidden ==> SaidSince(a, c, Showed(w))
      ensures !ws[w].inHidden && ws2[w].inHidden ==> SaidSince(a, c, Hid(w))
    {
      if ws[w].inHidden && !ws2[w].inHidden { SaidOn(a, b, c, Showed(w)); }
      if !ws[w].inHidden && ws2[w].inHidden { SaidOn(a, b, c, Hid(w)); }
    }
  }

  lemma SaidLast(before: seq<Change>, c: Change)
    ensures SaidSince(before, before + [c], c)
  {
    assert (before + [c])[|before|] == c;
  }

  /** Filing as such changes no window's visibility. */
  lemma NothingToAsk(ws: Windows, ws': Windows, before: seq<Change>, after: seq<Change>)
    requires before <= after && ws'.Keys == ws.Keys && forall w :: w in ws ==> ws'[w].inHidden == ws[w].inHidden
    ensures Asked(ws, ws', before, after)
  {
  }

  /** The focused application window is visible, filed in `source` and not brought along. */
  predicate LeftBehind(ws: Windows, window: Option<WindowId>, source: WorkspaceId, focus: Option<WindowId>) {
    FocusOnApp(ws, focus) && window.None? && source in ws[focus.value].places && !ws[focus.value].inHidden
  }

  lemma LeftBehindIsHidden(ws: Windows, m: Option<WindowId>, window: Option<WindowId>,
                           target: WorkspaceId, source: WorkspaceId, focus: Option<WindowId>)
    requires target != source
    ensures var shown := ShownAfter(ws, m, Moved(ws, true, window), target, source);
            LeftBehind(ws, window, source, focus) ==>
              HidesLast(shown, source, focus) && !shown[focus.value].inHidden
  {
    if LeftBehind(ws, window, source, focus) {
      ShownAfterIs(ws, m, {}, target, source, focus.value);
    }
  }

  /** The remembered window of `target`, if a switch there brings it out. */
  function Recalled(ws: Windows, remembered: map<WorkspaceId, Option<WindowId>>, target: WorkspaceId): Option<WindowId> {
    if target in remembered && remembered[target].Some? && remembered[target].value in ws
       && target in ws[remembered[target].value].places && ws[remembered[target].value].inHidden
    then remembered[target] else None
  }

  predicate FocusOnShell(ws: Windows, focus: Option<WindowId>) {
    focus.Some? && focus.value in ws && !IsApp(ws[focus.value])
  }

  /** The window that is to be given focus: with focus on a shell window, the one remembered for
      the target, if one is. */
  function Refocused(ws: Windows, remembered: map<WorkspaceId, Option<WindowId>>, target: WorkspaceId,
                     focus: Option<WindowId>): Option<WindowId>
  {
    if FocusOnShell(ws, focus) && target in remembered then remembered[target] else None
  }

  predicate NoFocusing(before: seq<Change>, after: seq<Change>) {
    before <= after && forall i :: |before| <= i < |after| ==> !after[i].Focused?
  }

  /** Change i is the one request for focus, for w, and nothing is hidden before it. */
  predicate FocusedAt(before: seq<Change>, after: seq<Change>, w: WindowId, i: nat) {
    && before <= after && |before| <= i < |after| && after[i] == Focused(w)
    && (forall j :: |before| <= j < |after| && j != i ==> !after[j].Focused?)
    && (forall j :: |before| <= j < i ==> !after[j].Hid?)
  }

  /** Focus is asked for once, for that window and before anything is hidden, or not at all. */
  ghost predicate FocusesRight(before: seq<Change>, after: seq<Change>, w: Option<WindowId>) {
    if w.Some? then exists i: nat :: FocusedAt(before, after, w.value, i) else NoFocusing(before, after)
  }

  lemma ShownThenFocused(before: seq<Change>, shown: Option<WindowId>, w: Option<WindowId>, after: seq<Change>)
    requires after == before + (if shown.Some? then [Showed(shown.value)] else []) + (if w.Some? then [Focused(w.value)] else [])
    ensures FocusesRight(before, after, w)
  {
    if w.Some? {
      assert FocusedAt(before, after, w.value, |after| - 1);
    }
  }

  lemma FocusesOn(a: seq<Change>, b: seq<Change>, c: seq<Change>, w: Option<WindowId>)
    requires FocusesRight(a, b, w) && NoFocusing(b, c)
    ensures FocusesRight(a, c, w)
  {
    assert forall i :: |a| <= i < |b| ==> c[i] == b[i];
    if w.Some? {
      var i: nat :| FocusedAt(a, b, w.value, i);
      assert FocusedAt(a, c, w.value, i);
    }
  }

  /** With focus not on an application, the window remembered for the target is the first to be
      shown, and if focus is on a shell window it is the one given focus; nothing is shown or
      focused after hiding began; and the focused window, if it stays behind, is the last to be
      hidden. */
  ghost predicate InGoodOrder(ws: Windows, remembered: map<WorkspaceId, Option<WindowId>>, before: seq<Change>, after: seq<Change>,
                        target: WorkspaceId, source: WorkspaceId, window: Option<WindowId>, focus: Option<WindowId>)
  {
    && ShowsThenHides(before, after)
    && FocusesRight(before, after, Refocused(ws, remembered, target, focus))
    && (!FocusOnApp(ws, focus) && Recalled(ws, remembered, target).Some? ==>
          |after| > |before| && after[|before|] == Showed(Recalled(ws, remembered, target).value))
    && (LeftBehind(ws, window, source, focus) ==>
          |after| > |before| && after[|after| - 1] == Hid(focus.value))
  }

  /** A command that stays put shows and hides nothing; one that leaves does so in good order. */
  ghost predicate InOrderOrStill(ws: Windows, remembered: map<WorkspaceId, Option<WindowId>>, before: seq<Change>, after: seq<Change>,
                           target: WorkspaceId, source: WorkspaceId, take: bool, focus: Option<WindowId>)
  {
    if target == source then after == before
    else InGoodOrder(ws, remembered, before, after, target, source, if take then focus else None, focus)
  }

  lemma {:induction false} RootIsOlder(ws: Windows, w: WindowId)
    requires w in ws
    ensures Root(ws, w) <= w
    decreases w
  {
    match ws[w].parent
    case Some(p) => if p in ws && p < w { RootIsOlder(ws, p); }
    case None =>
  }

  /** A window that has just appeared without a parent has no relatives yet. */
  lemma AloneInItsTree(ws: Windows, w: WindowId)
    requires w in ws && ws[w].parent.None? && forall x :: x in ws ==> x <= w
    ensures Tree(ws, w) == {w}
  {
    forall x | x in ws && x != w
      ensures Root(ws, x) != w
    {
      RootIsOlder(ws, x);
    }
  }

  class WorkspaceManager {
    // the toolkit's
    var windows: Windows
    var nextWindow: nat
    var nextWorkspace: nat
    // the manager's own
    var workspaces: seq<WorkspaceId>
    var active: WorkspaceId
    var workspaceToActive: map<WorkspaceId, Option<WindowId>>
    var hooks: seq<HookEvent>
    // what the toolkit was asked to show, hide and focus
    var changes: seq<Change>

    function State(): Desk
      reads this
    {
      Desk(windows, workspaces, active, workspaceToActive, hooks, nextWindow, nextWorkspace)
    }

    constructor ()
      ensures State() == Start() && Inv(State())
    {
      windows, nextWindow, nextWorkspace := map[], 0, 0;
      workspaces, active, workspaceToActive, hooks, changes := [], 0, map[], [], [];
      new;
      AppendNewWorkspace();
      StartInv();
    }

    method AppendNewWorkspace()
      modifies this
      ensures State() == AppendNew(old(State())) && changes == old(changes)
    {
      var ws := nextWorkspace;
      nextWorkspace := nextWorkspace + 1;
      workspaces := workspaces + [ws];
      active := workspaces[|workspaces| - 1];
      hooks := hooks + [Create(active)];
      hooks := hooks + [Activate(active)];
    }

    method ApplyWorkspaceHiddenTo(w: WindowId)
      requires w in windows
      modifies this`windows, this`changes
      ensures windows == old(windows)[w := Hidden(old(windows)[w])]
      ensures changes == old(changes) + if old(windows)[w].inHidden then [] else [Hid(w)]
      ensures Asked(old(windows), windows, old(changes), changes)
    {
      if !windows[w].inHidden {
        SaidLast(changes, Hid(w));
        changes := changes + [Hid(w)];
        windows := windows[w := windows[w].(inHidden := true)];
        windows := windows[w := windows[w].(oldState := windows[w].state)];
        windows := windows[w := windows[w].(state := HiddenState)];
      }
    }

    method ApplyWorkspaceVisibleTo(w: WindowId)
      requires w in windows
      modifies this`windows, this`changes
      ensures windows == old(windows)[w := Shown(old(windows)[w])]
      ensures changes == old(changes) + if old(windows)[w].inHidden then [Showed(w)] else []
      ensures Asked(old(windows), windows, old(changes), changes)
    {
      if windows[w].inHidden {
        SaidLast(changes, Showed(w));
        changes := changes + [Showed(w)];
        windows := windows[w := windows[w].(inHidden := false)];
        windows := windows[w := windows[w].(state := windows[w].oldState)];
      }
    }

    /** Windows filed in a workspace; the loops below visit them in any order. */
    function In(ws: WorkspaceId): set<WindowId>
      reads this`windows
    {
      set w | w in windows && ws in windows[w].places
    }

    method AdviseAddingToWorkspace(ws: WorkspaceId, added: set<WindowId>)
      requires added <= windows.Keys
      modifies this`windows, this`changes
      ensures ws == active ==> OnlyShows(old(changes), changes)
      ensures Asked(old(windows), windows, old(changes), changes)
      ensures windows == map w | w in old(windows) ::
                if w !in added then old(windows)[w]
                else if ws == active then Shown(old(windows)[w]) else Hidden(old(windows)[w])
    {
      var todo := added;
      while todo != {}
        invariant todo <= added && windows.Keys == old(windows).Keys
        invariant ws == active ==> OnlyShows(old(changes), changes)
        invariant Asked(old(windows), windows, old(changes), changes)
        invariant forall w :: w in windows ==>
          windows[w] == if w !in added || w in todo then old(windows)[w]
                        else if ws == active then Shown(old(windows)[w]) else Hidden(old(windows)[w])
        decreases todo
      {
        var w :| w in todo;
        ghost var was, said := windows, changes;
        if ws == active {
          ApplyWorkspaceVisibleTo(w);
        } else {
          ApplyWorkspaceHiddenTo(w);
        }
        AskedOn(old(windows), was, windows, old(changes), said, changes);
        todo := todo - {w};
      }
    }

    /** The toolkit's removal of a whole tree; nothing happens without a window. */
    method RemoveTreeFromWorkspace(window: Option<WindowId>, ws: WorkspaceId)
      modifies this`windows
      ensures windows == LeaveAll(old(windows), Moved(old(windows), true, window), ws)
    {
      if window.Some? && window.value in windows {
        var tree := Tree(windows, window.value);
        windows := map w | w in windows :: if w in tree then Leave(windows[w], ws) else windows[w];
      }
    }

    method File(added: set<WindowId>, ws: WorkspaceId)
      modifies this`windows
      ensures windows == map w | w in old(windows) ::
                if w in added then old(windows)[w].(places := old(windows)[w].places + {ws}) else old(windows)[w]
      ensures Asked(old(windows), windows, old(changes), changes)
    {
      windows := map w | w in windows ::
        if w in added then windows[w].(places := windows[w].places + {ws}) else windows[w];
      NothingToAsk(old(windows), windows, changes, changes);
    }

    /** The toolkit's filing of a whole tree, which tells the manager of the windows added. */
    method AddTreeToWorkspace(window: Option<WindowId>, ws: WorkspaceId)
      requires ws == active
      modifies this`windows, this`changes
      ensures OnlyShows(old(changes), changes)
      ensures Asked(old(windows), windows, old(changes), changes)
      ensures windows == JoinAll(old(windows), Moved(old(windows), true, window), ws)
    {
      if window.Some? && window.value in windows {
        var tree := Tree(windows, window.value);
        var added := set w | w in tree && ws !in windows[w].places;
        File(added, ws);
        ghost var filed := windows;
        AdviseIfAny(ws, added);
        AskedOn(old(windows), filed, windows, old(changes), old(changes), changes);
      }
    }

    method AdviseIfAny(ws: WorkspaceId, added: set<WindowId>)
      requires added <= windows.Keys && ws == active
      modifies this`windows, this`changes
      ensures OnlyShows(old(changes), changes)
      ensures Asked(old(windows), windows, old(changes), changes)
      ensures windows == map w | w in old(windows) :: if w in added then Shown(old(windows)[w]) else old(windows)[w]
    {
      if added != {} {
        AdviseAddingToWorkspace(ws, added);
      }
    }

    method ShowApplicationsIn(ws: WorkspaceId)
      modifies this`windows, this`changes
      ensures windows == ShowAll(old(windows), ws)
      ensures OnlyShows(old(changes), changes)
      ensures Asked(old(windows), windows, old(changes), changes)
    {
      var todo := In(ws);
      while todo != {}
        invariant OnlyShows(old(changes), changes)
        invariant Asked(old(windows), windows, old(changes), changes)
        invariant windows.Keys == old(windows).Keys
        invariant forall w :: w in todo ==> w in windows && ws in old(windows)[w].places
        invariant forall w :: w in windows ==>
          windows[w] == if w in todo then old(windows)[w] else ShowAll(old(windows), ws)[w]
        decreases todo
      {
        var w :| w in todo;
        ghost var was, said := windows, changes;
        if IsApplication(windows[w].layer) {
          ApplyWorkspaceVisibleTo(w);
          AskedOn(old(windows), was, windows, old(changes), said, changes);
        }
        todo := todo - {w};
      }
    }

    /** If we hide the focused window focus will shift: that one is to be hidden last. */
    method HideUnlessLast(w: WindowId, last: Option<WindowId>) returns (isLast: bool)
      requires w in windows
      modifies this`windows, this`changes
      ensures isLast <==> IsApp(old(windows)[w]) && Some(w) == last
      ensures windows == if IsApp(old(windows)[w]) && Some(w) != last then old(windows)[w := Hidden(old(windows)[w])]
                         else old(windows)
      ensures OnlyHidesBut(old(changes), changes, last)
      ensures Asked(old(windows), windows, old(changes), changes)
    {
      isLast := false;
      if IsApplication(windows[w].layer) {
        if Some(w) == last {
          isLast := true;
        } else {
          ApplyWorkspaceHiddenTo(w);
        }
      }
    }

    /** Hides all but `last`, and says whether `last` is among the windows to hide. */
    method HideApplicationsIn(ws: WorkspaceId, last: Option<WindowId>) returns (hideLast: bool)
      modifies this`windows, this`changes
      ensures windows == HideAll(old(windows), ws, last)
      ensures hideLast == HidesLast(old(windows), ws, last)
      ensures OnlyHidesBut(old(changes), changes, last)
      ensures Asked(old(windows), windows, old(changes), changes)
    {
      hideLast := false;
      var todo := In(ws);
      while todo != {}
        invariant OnlyHidesBut(old(changes), changes, last)
        invariant Asked(old(windows), windows, old(changes), changes)
        invariant windows.Keys == old(windows).Keys
        invariant forall w :: w in todo ==> w in windows && ws in old(windows)[w].places
        invariant forall w :: w in windows ==>
          windows[w] == if w in todo then old(windows)[w] else HideAll(old(windows), ws, last)[w]
        invariant hideLast <==> HidesLast(old(windows), ws, last) && last.value !in todo
        decreases todo
      {
        var w :| w in todo;
        ghost var was, said := windows, changes;
        var isLast := HideUnlessLast(w, last);
        if isLast {
          hideLast := true;
        }
        AskedOn(old(windows), was, windows, old(changes), said, changes);
        todo := todo - {w};
      }
    }

    /** With no application in focus the first window shown would grab it, so the remembered
        one is shown first, provided it is still filed there. If a shell window had focus, the
        remembered one is given it. */
    method ShowRemembered(target: WorkspaceId, focusOnShell: bool)
      modifies this`windows, this`workspaceToActive, this`changes
      ensures workspaceToActive == if target in old(workspaceToActive) then old(workspaceToActive)
                                   else old(workspaceToActive)[target := None]
      ensures windows == ShowIfIn(old(windows), workspaceToActive[target], target)
      ensures var m, r := workspaceToActive[target], Recalled(old(windows), old(workspaceToActive), target);
              changes == old(changes) + (if r.Some? then [Showed(r.value)] else [])
                                      + (if m.Some? && focusOnShell then [Focused(m.value)] else [])
      ensures Asked(old(windows), windows, old(changes), changes)
    {
      if target !in workspaceToActive {
        workspaceToActive := workspaceToActive[target := None];
      }
      var m := workspaceToActive[target];
      if m.Some? {
        if m.value in windows {
          ShowIfFiledIn(m.value, target);
        }
        if focusOnShell {
          ghost var said := changes;
          changes := changes + [Focused(m.value)];
          NothingToAsk(windows, windows, said, changes);
          AskedOn(old(windows), windows, windows, old(changes), said, changes);
        }
      }
    }

    /** Goes through the workspaces containing a window, and shows it when it meets `target`. */
    method ShowIfFiledIn(w: WindowId, target: WorkspaceId)
      requires w in windows
      modifies this`windows, this`changes
      ensures windows == ShowIfIn(old(windows), Some(w), target)
      ensures changes == old(changes) +
        if target in old(windows)[w].places && old(windows)[w].inHidden then [Showed(w)] else []
      ensures Asked(old(windows), windows, old(changes), changes)
    {
      var todo := windows[w].places;
      ghost var places, hidden := todo, windows[w].inHidden;
      while todo != {}
        invariant w in windows && todo <= places
        invariant windows == if target in places - todo then old(windows)[w := Shown(old(windows)[w])] else old(windows)
        invariant changes == old(changes) + if target in places - todo && hidden then [Showed(w)] else []
        decreases todo
      {
        var ws :| ws in todo;
        if ws == target {
          ApplyWorkspaceVisibleTo(w);
        }
        todo := todo - {ws};
      }
      if windows != old(windows) && old(windows)[w].inHidden { SaidLast(old(changes), Showed(w)); }
    }

    /** The second and third passes: bring the moved tree over, show what belongs here. */
    method MoveAndShow(target: WorkspaceId, source: WorkspaceId, window: Option<WindowId>,
                       ghost before: Windows, ghost m: Option<WindowId>)
      requires active == target && windows == ShowIfIn(before, m, target)
      modifies this`windows, this`changes
      ensures OnlyShows(old(changes), changes)
      ensures Asked(old(windows), windows, old(changes), changes)
      ensures windows == ShownAfter(before, m, Moved(before, true, window), target, source)
    {
      MovedOfSameShape(before, windows, true, window);
      RemoveTreeFromWorkspace(window, source);
      MovedOfSameShape(before, windows, true, window);
      ghost var left := windows;
      NothingToAsk(old(windows), left, changes, changes);
      AddTreeToWorkspace(window, target);
      ghost var joined, said := windows, changes;
      AskedOn(old(windows), left, joined, old(changes), old(changes), said);
      ShowApplicationsIn(target);
      AskedOn(old(windows), joined, windows, old(changes), said, changes);
    }

    /** The last pass: hide what stays behind, the focused window after all others. */
    method HideFocusLast(source: WorkspaceId, focus: Option<WindowId>)
      modifies this`windows, this`workspaceToActive, this`changes
      ensures old(changes) <= changes && forall i :: |old(changes)| <= i < |changes| ==> changes[i].Hid?
      ensures HidesLast(old(windows), source, focus) && !old(windows)[focus.value].inHidden ==>
                |changes| > |old(changes)| && changes[|changes| - 1] == Hid(focus.value)
      ensures windows == HideFocusToo(old(windows), source, focus)
      ensures Asked(old(windows), windows, old(changes), changes)
      ensures workspaceToActive == if HidesLast(old(windows), source, focus)
                                   then old(workspaceToActive)[source := focus] else old(workspaceToActive)
    {
      var hideFocus := HideApplicationsIn(source, focus);
      if hideFocus {
        ghost var was, said := windows, changes;
        ApplyWorkspaceHiddenTo(focus.value);
        AskedOn(old(windows), was, windows, old(changes), said, changes);
        workspaceToActive := workspaceToActive[source := focus];
      }
    }

    /** The first pass: only when focus is not on an application. Returns what it looked up. */
    method ShowRememberedUnlessFocused(target: WorkspaceId, focus: Option<WindowId>) returns (m: Option<WindowId>)
      modifies this`windows, this`workspaceToActive, this`changes
      ensures workspaceToActive == if FocusOnApp(old(windows), focus) || target in old(workspaceToActive)
                                   then old(workspaceToActive) else old(workspaceToActive)[target := None]
      ensures m == None || (target in old(workspaceToActive) && m == old(workspaceToActive)[target])
      ensures windows == ShowIfIn(old(windows), m, target)
      ensures Asked(old(windows), windows, old(changes), changes)
      ensures old(changes) <= changes && forall i :: |old(changes)| <= i < |changes| ==> !changes[i].Hid?
      ensures FocusesRight(old(changes), changes, Refocused(old(windows), old(workspaceToActive), target, focus))
      ensures var r := Recalled(old(windows), old(workspaceToActive), target);
              !FocusOnApp(old(windows), focus) && r.Some? ==>
                |changes| > |old(changes)| && changes[|old(changes)|] == Showed(r.value)
    {
      m := None;
      var focusOnShell := focus.Some? && focus.value in windows && !IsApplication(windows[focus.value].layer);
      if focus.None? || focus.value !in windows || focusOnShell {
        ShowRemembered(target, focusOnShell);
        m := workspaceToActive[target];
        ShownThenFocused(old(changes), Recalled(old(windows), old(workspaceToActive), target),
                         if focusOnShell then m else None, changes);
      }
    }

    /** The passes in order, and what was looked up on the way. */
    method RunPasses(target: WorkspaceId, source: WorkspaceId, window: Option<WindowId>, focus: Option<WindowId>)
      returns (ghost m: Option<WindowId>)
      requires active == target && target != source
      modifies this`windows, this`workspaceToActive, this`changes
      ensures m == None || (target in old(workspaceToActive) && m == old(workspaceToActive)[target])
      ensures var shown := ShownAfter(old(windows), m, Moved(old(windows), true, window), target, source);
              var looked := if FocusOnApp(old(windows), focus) || target in old(workspaceToActive)
                            then old(workspaceToActive) else old(workspaceToActive)[target := None];
              && windows == HideFocusToo(shown, source, focus)
              && workspaceToActive == (if HidesLast(shown, source, focus) then looked[source := focus] else looked)
      ensures InGoodOrder(old(windows), old(workspaceToActive), old(changes), changes, target, source, window, focus)
      ensures Asked(old(windows), windows, old(changes), changes)
    {
      m := ShowRememberedUnlessFocused(target, focus);
      ghost var recalled, was := changes, windows;
      MoveAndShow(target, source, window, old(windows), m);
      ghost var shown, were := changes, windows;
      AskedOn(old(windows), was, were, old(changes), recalled, shown);
      HideFocusLast(source, focus);
      AskedOn(old(windows), were, windows, old(changes), shown, changes);
      ThreeParts(old(changes), recalled, shown, changes);
      FocusesOn(old(changes), recalled, shown, Refocused(old(windows), old(workspaceToActive), target, focus));
      FocusesOn(old(changes), shown, changes, Refocused(old(windows), old(workspaceToActive), target, focus));
      LeftBehindIsHidden(old(windows), m, window, target, source, focus);
    }

    /** A switch, pass by pass. */
    method ChangeActiveWorkspace(target: WorkspaceId, source: WorkspaceId,
                                 window: Option<WindowId>, focus: Option<WindowId>)
      requires active == target
      requires target != source ==> Midway(State(), source)
      requires window == None || (window == focus && FocusOk(windows, focus))
      modifies this
      ensures State() == Switch(old(State()), target, source, window.Some?, focus)
      ensures if target == source then changes == old(changes)
              else InGoodOrder(old(windows), old(workspaceToActive), old(changes), changes, target, source, window, focus)
      ensures Asked(old(windows), windows, old(changes), changes)
    {
      if target == source { return; }
      hooks := hooks + [Deactivate(source)];
      hooks := hooks + [Activate(target)];

      ghost var d := State();
      ghost var m := RunPasses(target, source, window, focus);
      PassesMakeSwitch(d, source, window, focus, m);
    }

    /** Drops a workspace left without application windows. The workspace is saved before its
        list entry goes, which is what the destroy notification is about. */
    method EraseIfEmpty(source: WorkspaceId)
      modifies this`workspaceToActive, this`workspaces, this`hooks
      ensures State() == Desktops.EraseIfEmpty(old(State()), source)
    {
      var empty := true;
      var todo := In(source);
      while todo != {}
        invariant todo <= In(source)
        invariant empty <==> forall w :: w in In(source) - todo ==> !IsApp(windows[w])
        invariant State() == old(State())
        decreases todo
      {
        var w :| w in todo;
        if IsApplication(windows[w].layer) {
          empty := false;
        }
        todo := todo - {w};
      }
      if empty {
        workspaceToActive := workspaceToActive - {source};
        workspaces := Without(workspaces, source);
        hooks := hooks + [Destroy(source)];
      }
    }

    /** The common tail of the commands, the cursor having left `source` for a listed workspace. */
    method LeaveFor(target: WorkspaceId, source: WorkspaceId, take: bool, focus: Option<WindowId>)
      requires active == target && target != source && Midway(State(), source) && FocusOk(windows, focus)
      modifies this
      ensures State() == Desktops.EraseIfEmpty(Switch(old(State()), target, source, take, focus), source)
      ensures InGoodOrder(old(windows), old(workspaceToActive), old(changes), changes,
                          target, source, if take then focus else None, focus)
      ensures Asked(old(windows), windows, old(changes), changes)
    {
      var window := if take then focus else None;
      ghost var d := State();
      ChangeActiveWorkspace(target, source, window, focus);
      if focus.None? {
        assert Moved(d.windows, take, focus) == Moved(d.windows, window.Some?, focus);
        assert State() == Switch(d, target, source, take, focus);
      }
      EraseIfEmpty(source);
    }

    /** Moving on to a listed workspace. */
    method LeaveForListed(ws: WorkspaceId, take: bool, focus: Option<WindowId>)
      requires Inv(State()) && FocusOk(windows, focus) && ws in workspaces && ws != active
      modifies this
      ensures State() == GoTo(old(State()), ws, take, focus)
      ensures InOrderOrStill(old(windows), old(workspaceToActive), old(changes), changes, active, old(active), take, focus)
      ensures Asked(old(windows), windows, old(changes), changes)
    {
      var source := active;
      MidwayTo(State(), ws);
      active := ws;
      LeaveFor(ws, source, take, focus);
    }

    /** Moving on to a workspace appended for the purpose. */
    method LeaveForFresh(take: bool, focus: Option<WindowId>)
      requires Inv(State()) && FocusOk(windows, focus)
      modifies this
      ensures State() == GoToFresh(old(State()), take, focus)
      ensures InOrderOrStill(old(windows), old(workspaceToActive), old(changes), changes, active, old(active), take, focus)
      ensures Asked(old(windows), windows, old(changes), changes)
    {
      var source := active;
      MidwayToFresh(State());
      AppendNewWorkspace();
      LeaveFor(active, source, take, focus);
    }

    method WorkspaceBegin(take: bool, focus: Option<WindowId>)
      requires Inv(State()) && FocusOk(windows, focus)
      modifies this
      ensures State() == Go(old(State()), ToBegin, take, focus) && Inv(State())
      ensures InOrderOrStill(old(windows), old(workspaceToActive), old(changes), changes, active, old(active), take, focus)
      ensures Asked(old(windows), windows, old(changes), changes)
    {
      GoKeepsInv(State(), ToBegin, take, focus);
      if active != workspaces[0] {
        LeaveForListed(workspaces[0], take, focus);
      }
    }

    method WorkspaceEnd(take: bool, focus: Option<WindowId>)
      requires Inv(State()) && FocusOk(windows, focus)
      modifies this
      ensures State() == Go(old(State()), ToEnd, take, focus) && Inv(State())
      ensures InOrderOrStill(old(windows), old(workspaceToActive), old(changes), changes, active, old(active), take, focus)
      ensures Asked(old(windows), windows, old(changes), changes)
    {
      GoKeepsInv(State(), ToEnd, take, focus);
      LeaveForFresh(take, focus);
    }

    method WorkspaceUp(take: bool, focus: Option<WindowId>)
      requires Inv(State()) && FocusOk(windows, focus)
      modifies this
      ensures State() == Go(old(State()), ToUp, take, focus) && Inv(State())
      ensures InOrderOrStill(old(windows), old(workspaceToActive), old(changes), changes, active, old(active), take, focus)
      ensures Asked(old(windows), windows, old(changes), changes)
    {
      GoKeepsInv(State(), ToUp, take, focus);
      var cursor := IndexOf(workspaces, active);
      if cursor != 0 {
        cursor := cursor - 1;
        LeaveForListed(workspaces[cursor], take, focus);
      }
    }

    /** Moving on to the next workspace, or past the end to an appended one. */
    method LeaveForNext(take: bool, focus: Option<WindowId>)
      requires Inv(State()) && FocusOk(windows, focus)
      modifies this
      ensures State() == GoNext(old(State()), take, focus)
      ensures InOrderOrStill(old(windows), old(workspaceToActive), old(changes), changes, active, old(active), take, focus)
      ensures Asked(old(windows), windows, old(changes), changes)
    {
      NextIsOther(State());
      var cursor := IndexOf(workspaces, active);
      cursor := cursor + 1;
      if cursor == |workspaces| {
        LeaveForFresh(take, focus);
      } else {
        LeaveForListed(workspaces[cursor], take, focus);
      }
    }

    method WorkspaceDown(take: bool, focus: Option<WindowId>)
      requires Inv(State()) && FocusOk(windows, focus)
      modifies this
      ensures State() == Go(old(State()), ToDown, take, focus) && Inv(State())
      ensures InOrderOrStill(old(windows), old(workspaceToActive), old(changes), changes, active, old(active), take, focus)
      ensures Asked(old(windows), windows, old(changes), changes)
    {
      GoDownIs(State(), take, focus);
      LeaveForNext(take, focus);
    }

    /** The activation callback. The requested workspace must still be listed: the source does
        not check its search for it. */
    method ActivateForClient(ws: WorkspaceId, focus: Option<WindowId>)
      requires Inv(State()) && FocusOk(windows, focus) && ws in workspaces
      modifies this
      ensures State() == Go(old(State()), To(ws), false, focus) && Inv(State())
      ensures InOrderOrStill(old(windows), old(workspaceToActive), old(changes), changes, active, old(active), false, focus)
      ensures Asked(old(windows), windows, old(changes), changes)
    {
      GoKeepsInv(State(), To(ws), false, focus);
      if active != ws {
        LeaveForListed(ws, false, focus);
      }
    }

    method VisitOne(ws: WorkspaceId, focus: Option<WindowId>)
      requires Inv(State()) && ws in workspaces
      modifies this
      ensures State() == Switch(old(State()).(active := ws), ws, old(active), false, focus)
      ensures Inv(State()) && workspaces == old(workspaces)
      ensures InOrderOrStill(old(windows), old(workspaceToActive), old(changes), changes, active, old(active), false, focus)
      ensures Asked(old(windows), windows, old(changes), changes)
    {
      SwitchKeepsInv(State(), ws, false, focus);
      var source := active;
      if source != ws { MidwayTo(State(), ws); }
      active := ws;
      ChangeActiveWorkspace(ws, source, None, focus);
    }

    /** One visit of several, the first of which starts from `d`. */
    method VisitOneOf(visits: seq<(WorkspaceId, Option<WindowId>)>, i: nat, ghost d: Desk, ghost before: seq<Change>)
      requires Inv(State()) && i < |visits| && visits[i].0 in workspaces
      requires i == 0 ==> State() == d && changes == before
      modifies this
      ensures Visit(State(), visits[i + 1..]) == Visit(old(State()), visits[i..])
      ensures Inv(State()) && workspaces == old(workspaces)
      ensures i == 0 ==>
                InOrderOrStill(d.windows, d.remembered, before, changes, active, d.active, false, visits[0].1)
    {
      assert visits[i..][1..] == visits[i + 1..];
      VisitOne(visits[i].0, visits[i].1);
    }

    /** Visits every workspace that contains a raised window; the toolkit chooses the order and
        focus may have moved each time. */
    method ActivateWorkspaceContaining(w: WindowId, visits: seq<(WorkspaceId, Option<WindowId>)>)
      requires Inv(State())
      requires forall i :: 0 <= i < |visits| ==> visits[i].0 in workspaces
      modifies this
      ensures State() == Visit(old(State()), visits) && Inv(State())
      ensures |visits| == 1 ==> InOrderOrStill(old(windows), old(workspaceToActive), old(changes), changes,
                                               active, old(active), false, visits[0].1)
    {
      ghost var d := State();
      for i := 0 to |visits|
        invariant Inv(State()) && workspaces == old(workspaces)
        invariant Visit(State(), visits[i..]) == Visit(d, visits)
        invariant i == 0 ==> State() == d && changes == old(changes)
        invariant i == 1 ==> InOrderOrStill(d.windows, d.remembered, old(changes), changes, active, d.active, false, visits[0].1)
      {
        VisitOneOf(visits, i, d, old(changes));
      }
      assert visits[|visits|..] == [];
    }

    method HandleRaiseWindow(w: WindowId, visits: seq<(WorkspaceId, Option<WindowId>)>)
      requires Inv(State()) && w in windows
      requires windows[w].inHidden ==> VisitsPlacesOf(State(), w, visits)
      modifies this
      ensures State() == Raise(old(State()), w, visits) && Inv(State())
      ensures if old(windows)[w].inHidden
              then |visits| == 1 && InOrderOrStill(old(windows), old(workspaceToActive), old(changes), changes,
                                                   active, old(active), false, visits[0].1)
              else changes == old(changes)
    {
      if windows[w].inHidden {
        HiddenIsListed(State(), w);
        HiddenVisit(State(), w, visits);
        ActivateWorkspaceContaining(w, visits);
      }
    }

    /** What reaches the underlying strategy, which carries the request out. */
    method HandleModifyWindow(w: WindowId, changes: Changes) returns (passedOn: Changes)
      requires Inv(State()) && w in windows
      modifies this
      ensures State() == Modify(old(State()), w, changes) && Inv(State())
      ensures passedOn.name == changes.name
      ensures old(windows)[w].inHidden ==> passedOn.state.None? && passedOn.size.None? && State() == old(State())
      ensures !old(windows)[w].inHidden ==> passedOn == changes
    {
      ModifyKeepsInv(State(), w, changes);
      passedOn := changes;
      if windows[w].inHidden {
        passedOn := passedOn.(state := None);
        passedOn := passedOn.(size := None);
      }
      if passedOn.state.Some? {
        windows := windows[w := windows[w].(state := passedOn.state.value)];
      }
    }

    /** A window that has just been created, a child already filed where its parent is. */
    method AdviseNewWindow(w: WindowId)
      requires w in windows && (forall x :: x in windows ==> x <= w)
      requires windows[w].parent.Some? ==> windows[w].parent.value in windows
      modifies this`windows, this`changes
      ensures windows == old(windows)[w :=
                match old(windows)[w].parent
                case Some(p) => if old(windows)[p].inHidden then Hidden(old(windows)[w]) else old(windows)[w]
                case None => Join(old(windows)[w], active)]
    {
      var parent := windows[w].parent;
      if parent.Some? {
        if windows[parent.value].inHidden {
          ApplyWorkspaceHiddenTo(w);
        }
      } else {
        AloneInItsTree(windows, w);
        AddTreeToWorkspace(Some(w), active);
      }
    }

    /** The toolkit creates a window, filing a child where its parent is, and advises. */
    method NewWindow(parent: Option<WindowId>, layer: Layer, state: WindowState) returns (w: WindowId)
      requires Inv(State())
      requires parent.Some? ==> parent.value in windows && (IsApplication(layer) <==> IsApp(windows[parent.value]))
      modifies this
      ensures State() == Open(old(State()), parent, layer, state) && Inv(State())
      ensures w == old(nextWindow)
    {
      OpenKeepsInv(State(), parent, layer, state);
      w := CreateWindow(parent, layer, state);
    }

    method CreateWindow(parent: Option<WindowId>, layer: Layer, state: WindowState) returns (w: WindowId)
      requires IdsOk(State()) && (parent.Some? ==> parent.value in windows)
      modifies this
      ensures State() == Open(old(State()), parent, layer, state)
      ensures w == old(nextWindow)
    {
      w := nextWindow;
      nextWindow := nextWindow + 1;
      var places: set<WorkspaceId> := if parent.Some? then windows[parent.value].places else {};
      windows := windows[w := Window(parent, layer, state, places, false, Unknown)];
      AdviseNewWindow(w);
    }

    method CloseWindow(w: WindowId)
      requires Inv(State())
      modifies this`windows
      ensures State() == Close(old(State()), w) && Inv(State())
    {
      CloseKeepsInv(State(), w);
      windows := windows - {w};
    }

    method PutWindowOnTop(f: WindowId)
      requires f in windows
      modifies this`windows
      ensures windows == PutOnTop(old(windows), f, active)
    {
      RemoveTreeFromWorkspace(Some(f), active);
      windows := windows[f := windows[f].(layer := AlwaysOnTop)];
    }

    method TakeWindowDown(f: WindowId)
      requires f in windows
      modifies this`windows, this`changes
      ensures windows == TakeDown(old(windows), f, active)
    {
      ghost var before := windows;
      windows := windows[f := windows[f].(layer := Application)];
      MovedOfSameShape(before, windows, true, Some(f));
      AddTreeToWorkspace(Some(f), active);
    }

    method ToggleAlwaysOnTop(focus: Option<WindowId>)
      requires Inv(State()) && FocusOk(windows, focus)
      modifies this
      ensures State() == ToggleOnTop(old(State()), focus) && Inv(State())
    {
      ToggleKeepsInv(State(), focus);
      if focus.Some? {
        match windows[focus.value].layer
        case Application => PutWindowOnTop(focus.value);
        case AlwaysOnTop => TakeWindowDown(focus.value);
        case _ =>
      }
    }
  }
}
