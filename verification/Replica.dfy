/** One client's replica of the workspace list: ExtWorkspaceManagerV1 as functions. */
module Replicas {
  import opened Wrappers
  import opened Hooks
  import opened Wire

  datatype Entry = Entry(ws: WorkspaceId, h: HandleId)

  datatype Replica = Replica(list: seq<Entry>, trace: seq<Event>, nextHandle: nat)

  function Seen(c: Replica): Picture {
    SeeAll(BLANK, c.trace)
  }

  /** update_workspace_info */
  function Info(h: HandleId, number: nat): seq<Event> {
    [Name(h, number), Coordinates(h, number, 0)]
  }

  function Created(c: Replica, ws: WorkspaceId): Replica {
    var h := c.nextHandle;
    Replica(c.list + [Entry(ws, h)],
            c.trace + [NewHandle(h), Capabilities(h, CAN_ACTIVATE)] + Info(h, |c.list| + 1) + [EnterGroup(h)],
            h + 1)
  }

  /** The handle that stands for a workspace: the first of its entries. */
  function First(list: seq<Entry>, ws: WorkspaceId): Option<HandleId> {
    if list == [] then None
    else if list[0].ws == ws then Some(list[0].h)
    else First(list[1..], ws)
  }

  function Marked(c: Replica, ws: WorkspaceId, active: bool): Replica {
    match First(c.list, ws)
    case Some(h) => c.(trace := c.trace + [StateIs(h, active)])
    case None => c
  }

  function Drop(list: seq<Entry>, ws: WorkspaceId): (r: seq<Entry>)
    ensures forall e :: e in r <==> e in list && e.ws != ws
    ensures |r| <= |list|
  {
    if list == [] then []
    else if list[0].ws == ws then Drop(list[1..], ws)
    else [list[0]] + Drop(list[1..], ws)
  }

  /** What the erase-and-renumber loop says about `list`, `i` entries having been kept so far. */
  function DropEvents(list: seq<Entry>, ws: WorkspaceId, searching: bool, i: nat): seq<Event> {
    if list == [] then []
    else if list[0].ws == ws then
      [LeaveGroup(list[0].h), Removed(list[0].h)] + DropEvents(list[1..], ws, false, i)
    else
      (if searching then [] else Info(list[0].h, i + 1)) + DropEvents(list[1..], ws, searching, i + 1)
  }

  function Destroyed(c: Replica, ws: WorkspaceId): Replica {
    c.(list := Drop(c.list, ws), trace := c.trace + DropEvents(c.list, ws, true, 0))
  }

  function Finished(c: Replica): Replica {
    c.(trace := c.trace + [Done])
  }

  /** One queued notification, carried out for this client. */
  function Handle(c: Replica, e: HookEvent): Replica {
    Finished(match e
             case Create(ws) => Created(c, ws)
             case Activate(ws) => Marked(c, ws, true)
             case Deactivate(ws) => Marked(c, ws, false)
             case Destroy(ws) => Destroyed(c, ws))
  }

  function Greeting(): Replica {
    Replica([], [Group, GroupCapabilities(NOTHING)], 0)
  }

  /** The snapshot taken on bind, in the map's own order. */
  function Snapshot(c: Replica, shared: map<WorkspaceId, bool>, order: seq<WorkspaceId>): Replica
    requires forall ws :: ws in order ==> ws in shared
    decreases |order|
  {
    if order == [] then c
    else Snapshot(Marked(Created(c, order[0]), order[0], shared[order[0]]), shared, order[1..])
  }

  function Bound(shared: map<WorkspaceId, bool>, order: seq<WorkspaceId>): Replica
    requires forall ws :: ws in order ==> ws in shared
  {
    Finished(Snapshot(Greeting(), shared, order))
  }

  /** A client's destroy request drops the handle from the list, and renumbers nothing. */
  function Forget(list: seq<Entry>, h: HandleId): seq<Entry> {
    if list == [] then []
    else if list[0].h == h then list[1..]
    else [list[0]] + Forget(list[1..], h)
  }

  // ---------- numbering ----------

  /** Entry k of `list` was last announced under number i + k + 1. */
  ghost predicate Numbered(v: Picture, list: seq<Entry>, i: nat) {
    forall k :: 0 <= k < |list| ==>
      && list[k].h in v.names && v.names[list[k].h] == i + k + 1
      && list[k].h in v.coords && v.coords[list[k].h] == (i + k + 1, 0)
  }

  ghost predicate Own(v: Picture, list: seq<Entry>) {
    && (forall j, k :: 0 <= j < k < |list| ==> list[j].h != list[k].h)
    && (forall k :: 0 <= k < |list| ==> list[k].h in v.live && list[k].h in v.grouped)
  }

  /** The list holds exactly the live handles, numbered by position. */
  ghost predicate Matches(v: Picture, list: seq<Entry>, nextHandle: nat) {
    && Own(v, list) && Numbered(v, list, 0)
    && (forall h :: h in v.live ==> exists k :: 0 <= k < |list| && list[k].h == h)
    && (forall h :: h in v.known ==> h < nextHandle)
    && v.live <= v.known && v.grouped <= v.known && v.states.Keys <= v.known && v.caps.Keys <= v.known
    && v.group && v.groupCaps == Some(NOTHING)
    && (forall h :: h in v.live ==> h in v.caps && v.caps[h] == CAN_ACTIVATE)
  }

  ghost predicate ReplicaOk(c: Replica) {
    LegalAll(BLANK, c.trace) && Matches(Seen(c), c.list, c.nextHandle)
  }

  // ---------- every notification keeps the replica in order ----------

  function WithHandle(v: Picture, h: HandleId, n: nat): Picture {
    v.(known := v.known + {h}, live := v.live + {h}, grouped := v.grouped + {h},
       caps := v.caps[h := CAN_ACTIVATE], names := v.names[h := n], coords := v.coords[h := (n, 0)])
  }

  lemma SeeCreation(v: Picture, h: HandleId, n: nat)
    requires h !in v.known && v.live <= v.known && v.grouped <= v.known && v.caps.Keys <= v.known
    requires v.group && v.groupCaps.Some?
    ensures var es := [NewHandle(h), Capabilities(h, CAN_ACTIVATE)] + Info(h, n) + [EnterGroup(h)];
            && LegalAll(v, es)
            && SeeAll(v, es) == WithHandle(v, h, n)
  {
    assert h !in v.caps;
    SeeTwo(v, NewHandle(h), Capabilities(h, CAN_ACTIVATE));
    var v1 := SeeAll(v, [NewHandle(h), Capabilities(h, CAN_ACTIVATE)]);
    SeeTwo(v1, Name(h, n), Coordinates(h, n, 0));
    var v2 := SeeAll(v1, Info(h, n));
    SeeOne(v2, EnterGroup(h));
    SeeAppend(v1, Info(h, n), [EnterGroup(h)]);
    var a, b := [NewHandle(h), Capabilities(h, CAN_ACTIVATE)], Info(h, n) + [EnterGroup(h)];
    SeeAppend(v, a, b);
    assert a + b == [NewHandle(h), Capabilities(h, CAN_ACTIVATE)] + Info(h, n) + [EnterGroup(h)];
  }

  lemma MatchesOneMore(v: Picture, list: seq<Entry>, h: HandleId, ws: WorkspaceId)
    requires Matches(v, list, h)
    ensures Matches(WithHandle(v, h, |list| + 1), list + [Entry(ws, h)], h + 1)
    ensures h !in v.known
  {
    var v', list' := WithHandle(v, h, |list| + 1), list + [Entry(ws, h)];
    assert h !in v.known;
    assert forall k :: 0 <= k < |list| ==> list'[k] == list[k] && list[k].h != h;
    assert list'[|list|].h == h;
    forall g | g in v'.live
      ensures exists k :: 0 <= k < |list'| && list'[k].h == g
    {
      if g != h {
        var k :| 0 <= k < |list| && list[k].h == g;
        assert list'[k].h == g;
      }
    }
  }

  lemma CreatedOk(c: Replica, ws: WorkspaceId)
    requires ReplicaOk(c)
    ensures ReplicaOk(Created(c, ws))
    ensures Seen(Created(c, ws)).states == Seen(c).states && c.nextHandle !in Seen(c).states
  {
    var h, n := c.nextHandle, |c.list| + 1;
    var es := [NewHandle(h), Capabilities(h, CAN_ACTIVATE)] + Info(h, n) + [EnterGroup(h)];
    MatchesOneMore(Seen(c), c.list, h, ws);
    SeeAppend(BLANK, c.trace, es);
    SeeCreation(Seen(c), h, n);
    assert Created(c, ws).trace == c.trace + es;
  }

  lemma {:induction false} FirstIs(list: seq<Entry>, ws: WorkspaceId)
    ensures First(list, ws).None? <==> forall k :: 0 <= k < |list| ==> list[k].ws != ws
    ensures First(list, ws).Some? ==> exists k :: 0 <= k < |list| && list[k] == Entry(ws, First(list, ws).value)
  {
    if list != [] {
      FirstIs(list[1..], ws);
      if list[0].ws != ws && First(list, ws).Some? {
        var k :| 0 <= k < |list[1..]| && list[1..][k] == Entry(ws, First(list, ws).value);
        assert list[k + 1] == Entry(ws, First(list, ws).value);
      } else if list[0].ws == ws {
        assert list[0] == Entry(ws, First(list, ws).value);
      }
    }
  }

  lemma MarkedOk(c: Replica, ws: WorkspaceId, active: bool)
    requires ReplicaOk(c)
    ensures ReplicaOk(Marked(c, ws, active))
    ensures Seen(Marked(c, ws, active)).states ==
              if First(c.list, ws).Some? then Seen(c).states[First(c.list, ws).value := active] else Seen(c).states
  {
    FirstIs(c.list, ws);
    match First(c.list, ws)
    case Some(h) =>
      SeeAppend(BLANK, c.trace, [StateIs(h, active)]);
      SeeOne(Seen(c), StateIs(h, active));
    case None =>
  }

  /** Coordinates are unique when a batch is closed. */
  lemma FinishedOk(c: Replica)
    requires ReplicaOk(c)
    ensures ReplicaOk(Finished(c)) && Seen(Finished(c)) == Seen(c)
  {
    var v := Seen(c);
    SeeAppend(BLANK, c.trace, [Done]);
    SeeOne(v, Done);
    forall h | h in v.live
      ensures exists k :: 0 <= k < |c.list| && c.list[k].h == h && v.coords.Keys >= {h} && v.coords[h] == (k + 1, 0)
    {
      var k :| 0 <= k < |c.list| && c.list[k].h == h;
    }
  }

  lemma SeeFarewell(v: Picture, h: HandleId)
    requires h in v.live && h in v.grouped
    ensures var es := [LeaveGroup(h), Removed(h)];
            LegalAll(v, es) && SeeAll(v, es) == v.(grouped := v.grouped - {h}, live := v.live - {h})
  {
    SeeTwo(v, LeaveGroup(h), Removed(h));
  }

  lemma SeeInfo(v: Picture, h: HandleId, n: nat)
    requires h in v.live
    ensures LegalAll(v, Info(h, n))
    ensures SeeAll(v, Info(h, n)) == v.(names := v.names[h := n], coords := v.coords[h := (n, 0)])
  {
    SeeTwo(v, Name(h, n), Coordinates(h, n, 0));
  }

  ghost predicate NotIn(h: HandleId, list: seq<Entry>) {
    forall k :: 0 <= k < |list| ==> list[k].h != h
  }

  ghost predicate SameOf(v: Picture, v': Picture, h: HandleId) {
    && (h in v'.live <==> h in v.live) && (h in v'.grouped <==> h in v.grouped)
    && (h in v.names ==> h in v'.names && v'.names[h] == v.names[h])
    && (h in v.coords ==> h in v'.coords && v'.coords[h] == v.coords[h])
  }

  /** A picture after the loop has seen the head of the list. */
  function SeeHead(v: Picture, e: Entry, ws: WorkspaceId, searching: bool, i: nat): Picture {
    if e.ws == ws then v.(grouped := v.grouped - {e.h}, live := v.live - {e.h})
    else if searching then v
    else v.(names := v.names[e.h := i + 1], coords := v.coords[e.h := (i + 1, 0)])
  }

  function SeeDropped(v: Picture, list: seq<Entry>, ws: WorkspaceId, searching: bool, i: nat): Picture
    decreases |list|
  {
    if list == [] then v
    else
      var v' := SeeHead(v, list[0], ws, searching, i);
      if list[0].ws == ws then SeeDropped(v', list[1..], ws, false, i)
      else SeeDropped(v', list[1..], ws, searching, i + 1)
  }

  lemma OwnTail(v: Picture, list: seq<Entry>, ws: WorkspaceId, searching: bool, i: nat)
    requires list != [] && Own(v, list)
    ensures NotIn(list[0].h, list[1..]) && Own(SeeHead(v, list[0], ws, searching, i), list[1..])
  {
    var tail := list[1..];
    assert forall k :: 0 <= k < |tail| ==> tail[k] == list[k + 1] && list[k + 1].h != list[0].h;
  }

  lemma {:induction false} DropIsSeen(v: Picture, list: seq<Entry>, ws: WorkspaceId, searching: bool, i: nat)
    requires Own(v, list)
    ensures LegalAll(v, DropEvents(list, ws, searching, i))
    ensures SeeAll(v, DropEvents(list, ws, searching, i)) == SeeDropped(v, list, ws, searching, i)
    decreases |list|
  {
    if list != [] {
      var h, tail := list[0].h, list[1..];
      OwnTail(v, list, ws, searching, i);
      var v' := SeeHead(v, list[0], ws, searching, i);
      if list[0].ws == ws {
        SeeAppend(v, [LeaveGroup(h), Removed(h)], DropEvents(tail, ws, false, i));
        SeeFarewell(v, h);
        DropIsSeen(v', tail, ws, false, i);
      } else {
        if !searching {
          SeeAppend(v, Info(h, i + 1), DropEvents(tail, ws, searching, i + 1));
          SeeInfo(v, h, i + 1);
        } else {
          assert DropEvents(list, ws, searching, i) == DropEvents(tail, ws, searching, i + 1);
        }
        DropIsSeen(v', tail, ws, searching, i + 1);
      }
    }
  }

  lemma {:induction false} DroppedLeavesOthers(v: Picture, list: seq<Entry>, ws: WorkspaceId, searching: bool, i: nat, g: HandleId)
    requires NotIn(g, list)
    ensures SameOf(v, SeeDropped(v, list, ws, searching, i), g)
    decreases |list|
  {
    if list != [] {
      var v' := SeeHead(v, list[0], ws, searching, i);
      assert NotIn(g, list[1..]);
      assert list[0].h != g;
      if list[0].ws == ws { DroppedLeavesOthers(v', list[1..], ws, false, i, g); }
      else { DroppedLeavesOthers(v', list[1..], ws, searching, i + 1, g); }
    }
  }

  lemma NumberedTail(v: Picture, list: seq<Entry>, i: nat)
    requires list != [] && Numbered(v, list, i)
    ensures Numbered(v, list[1..], i + 1)
  {
    assert forall k :: 0 <= k < |list[1..]| ==> list[1..][k] == list[k + 1];
  }

  lemma ConsNumbered(v: Picture, e: Entry, rest: seq<Entry>, tail: seq<Entry>, i: nat)
    requires Own(v, rest) && Numbered(v, rest, i + 1)
    requires NotIn(e.h, tail) && forall x :: x in rest ==> x in tail
    requires e.h in v.live && e.h in v.grouped
    requires e.h in v.names && v.names[e.h] == i + 1 && e.h in v.coords && v.coords[e.h] == (i + 1, 0)
    ensures Own(v, [e] + rest) && Numbered(v, [e] + rest, i)
  {
    var all := [e] + rest;
    forall k | 0 < k < |all|
      ensures all[k] == rest[k - 1] && all[k].h != e.h
    {
      assert rest[k - 1] in rest;
    }
  }

  /** Kept entries are renumbered by their new position. */
  lemma {:induction false} DroppedNumbers(v: Picture, list: seq<Entry>, ws: WorkspaceId, searching: bool, i: nat)
    requires Own(v, list) && (searching ==> Numbered(v, list, i))
    ensures Own(SeeDropped(v, list, ws, searching, i), Drop(list, ws))
    ensures Numbered(SeeDropped(v, list, ws, searching, i), Drop(list, ws), i)
    decreases |list|
  {
    if list != [] {
      var h, tail := list[0].h, list[1..];
      OwnTail(v, list, ws, searching, i);
      var v' := SeeHead(v, list[0], ws, searching, i);
      if list[0].ws == ws {
        DroppedNumbers(v', tail, ws, false, i);
      } else {
        if searching { NumberedTail(v, list, i); }
        DroppedNumbers(v', tail, ws, searching, i + 1);
        DroppedLeavesOthers(v', tail, ws, searching, i + 1, h);
        ConsNumbered(SeeDropped(v, list, ws, searching, i), list[0], Drop(tail, ws), tail, i);
      }
    }
  }

  lemma {:induction false} DroppedKeeps(v: Picture, list: seq<Entry>, ws: WorkspaceId, searching: bool, i: nat)
    ensures var v' := SeeDropped(v, list, ws, searching, i);
            && v'.known == v.known && v'.states == v.states && v'.live <= v.live && v'.grouped <= v.grouped
            && v'.caps == v.caps && v'.group == v.group && v'.groupCaps == v.groupCaps
    ensures var v' := SeeDropped(v, list, ws, searching, i);
            forall k :: 0 <= k < |list| && list[k].ws == ws ==> list[k].h !in v'.live
    decreases |list|
  {
    if list != [] {
      var v' := SeeHead(v, list[0], ws, searching, i);
      if list[0].ws == ws { DroppedKeeps(v', list[1..], ws, false, i); }
      else { DroppedKeeps(v', list[1..], ws, searching, i + 1); }
      assert forall k :: 0 < k < |list| ==> list[k] == list[1..][k - 1];
    }
  }

  lemma DroppedMatches(v: Picture, list: seq<Entry>, nextHandle: nat, ws: WorkspaceId)
    requires Matches(v, list, nextHandle)
    ensures Matches(SeeDropped(v, list, ws, true, 0), Drop(list, ws), nextHandle)
  {
    DroppedNumbers(v, list, ws, true, 0);
    DroppedKeeps(v, list, ws, true, 0);
    var v', rest := SeeDropped(v, list, ws, true, 0), Drop(list, ws);
    forall g | g in v'.live
      ensures exists k :: 0 <= k < |rest| && rest[k].h == g
    {
      var j :| 0 <= j < |list| && list[j].h == g;
      assert list[j] in rest;
    }
  }

  lemma DestroyedOk(c: Replica, ws: WorkspaceId)
    requires ReplicaOk(c)
    ensures ReplicaOk(Destroyed(c, ws)) && Seen(Destroyed(c, ws)).states == Seen(c).states
  {
    SeeAppend(BLANK, c.trace, DropEvents(c.list, ws, true, 0));
    DropIsSeen(Seen(c), c.list, ws, true, 0);
    DroppedMatches(Seen(c), c.list, c.nextHandle, ws);
    DroppedKeeps(Seen(c), c.list, ws, true, 0);
  }

  /** Every queued notification leaves each client numbered by position, at the end of a
      complete batch. */
  lemma HandleOk(c: Replica, e: HookEvent)
    requires ReplicaOk(c)
    ensures ReplicaOk(Handle(c, e))
    ensures var t := Handle(c, e).trace; t != [] && t[|t| - 1] == Done
  {
    match e
    case Create(ws) => CreatedOk(c, ws); FinishedOk(Created(c, ws));
    case Activate(ws) => MarkedOk(c, ws, true); FinishedOk(Marked(c, ws, true));
    case Deactivate(ws) => MarkedOk(c, ws, false); FinishedOk(Marked(c, ws, false));
    case Destroy(ws) => DestroyedOk(c, ws); FinishedOk(Destroyed(c, ws));
  }

  lemma GreetingOk()
    ensures ReplicaOk(Greeting())
  {
    SeeTwo(BLANK, Group, GroupCapabilities(NOTHING));
  }

  lemma {:induction false} SnapshotOk(c: Replica, shared: map<WorkspaceId, bool>, order: seq<WorkspaceId>)
    requires ReplicaOk(c) && forall ws :: ws in order ==> ws in shared
    ensures ReplicaOk(Snapshot(c, shared, order))
    decreases |order|
  {
    if order != [] {
      var ws := order[0];
      CreatedOk(c, ws);
      MarkedOk(Created(c, ws), ws, shared[ws]);
      SnapshotOk(Marked(Created(c, ws), ws, shared[ws]), shared, order[1..]);
    }
  }

  lemma BoundOk(shared: map<WorkspaceId, bool>, order: seq<WorkspaceId>)
    requires forall ws :: ws in order ==> ws in shared
    ensures ReplicaOk(Bound(shared, order))
  {
    GreetingOk();
    SnapshotOk(Greeting(), shared, order);
    FinishedOk(Snapshot(Greeting(), shared, order));
  }

  lemma NumberedCons(v: Picture, e: Entry, rest: seq<Entry>, i: nat)
    requires Numbered(v, [e], i)
    ensures Numbered(v, [e] + rest, i) <==> Numbered(v, rest, i + 1)
  {
    var all := [e] + rest;
    assert all[1..] == rest;
    if Numbered(v, all, i) { NumberedTail(v, all, i); }
    if Numbered(v, rest, i + 1) {
      assert [e][0] == e;
      assert forall k :: 0 < k < |all| ==> all[k] == rest[k - 1];
    }
  }

  /** A client that destroys a handle still listed upsets the numbering, unless it was the
      last one: the list closes up and nothing is announced. */
  lemma {:induction false} ForgetKeepsNumbersIff(v: Picture, list: seq<Entry>, h: HandleId, i: nat)
    requires Numbered(v, list, i)
    requires forall j, k :: 0 <= j < k < |list| ==> list[j].h != list[k].h
    ensures Numbered(v, Forget(list, h), i) <==> NotIn(h, list) || list[|list| - 1].h == h
    decreases |list|
  {
    if list != [] {
      var tail := list[1..];
      assert forall k :: 0 <= k < |tail| ==> tail[k] == list[k + 1];
      NumberedTail(v, list, i);
      if list[0].h == h {
        assert tail != [] ==> v.coords[tail[0].h] == (i + 2, 0);
        assert tail != [] ==> list[|list| - 1].h != h;
      } else {
        ForgetKeepsNumbersIff(v, tail, h, i + 1);
        NumberedCons(v, list[0], Forget(tail, h), i);
        assert NotIn(h, list) <==> NotIn(h, tail) by {
          assert forall k :: 0 < k < |list| ==> list[k] == tail[k - 1];
        }
      }
    }
  }
}
