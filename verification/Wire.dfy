/** What one client of ext-workspace-v1 is sent, and the picture it forms of the workspaces.
    Legality of an event is the protocol's own text (wayland-protocols/ext-workspace-v1.xml). */
module Wire {
  import opened Wrappers

  type HandleId = nat

  datatype Event =
    | Group
    | GroupCapabilities(caps: nat)
    | NewHandle(h: HandleId)
    | Capabilities(h: HandleId, caps: nat)
    | Name(h: HandleId, number: nat)              // "Wksp <number>"
    | Coordinates(h: HandleId, x: nat, y: nat)
    | EnterGroup(h: HandleId)
    | LeaveGroup(h: HandleId)
    | StateIs(h: HandleId, active: bool)
    | Removed(h: HandleId)
    | Done

  /** The bits of a workspace's capabilities (lines 336-341); a group may have none. */
  const CAN_ACTIVATE := 1
  const NOTHING := 0

  /** `live` handles have been announced and not removed; the maps hold what was said last. */
  datatype Picture = Picture(
    group: bool,                   // the one group has been announced
    groupCaps: Option<nat>,
    known: set<HandleId>,
    live: set<HandleId>,
    grouped: set<HandleId>,
    caps: map<HandleId, nat>,
    names: map<HandleId, nat>,
    coords: map<HandleId, (nat, nat)>,
    states: map<HandleId, bool>)

  const BLANK := Picture(false, None, {}, {}, {}, map[], map[], map[], map[])

  function See(v: Picture, e: Event): Picture {
    match e
    case Group => v.(group := true)
    case GroupCapabilities(caps) => v.(groupCaps := Some(caps))
    case Capabilities(h, caps) => v.(caps := v.caps[h := caps])
    case NewHandle(h) => v.(known := v.known + {h}, live := v.live + {h})
    case Name(h, n) => v.(names := v.names[h := n])
    case Coordinates(h, x, y) => v.(coords := v.coords[h := (x, y)])
    case EnterGroup(h) => v.(grouped := v.grouped + {h})
    case LeaveGroup(h) => v.(grouped := v.grouped - {h})
    case StateIs(h, a) => v.(states := v.states[h := a])
    case Removed(h) => v.(live := v.live - {h})
    case Done => v
  }

  /** The group and the handles are announced once, and have their capabilities advertised once;
      only an announced group with its capabilities is entered; nothing refers to a removed
      handle; a handle leaves its group before it is removed; and at `done` every live handle
      has its capabilities, a group and a name, with coordinates no other live handle has. */
  ghost predicate Legal(v: Picture, e: Event) {
    match e
    case Group => !v.group
    case GroupCapabilities(_) => v.group && v.groupCaps.None?
    case NewHandle(h) => h !in v.known
    case Capabilities(h, _) => h in v.live && h !in v.caps
    case Name(h, _) => h in v.live
    case Coordinates(h, _, _) => h in v.live
    case EnterGroup(h) => h in v.live && h !in v.grouped && v.group && v.groupCaps.Some?
    case LeaveGroup(h) => h in v.live && h in v.grouped
    case StateIs(h, _) => h in v.live
    case Removed(h) => h in v.live && h !in v.grouped
    case Done =>
      && v.group && v.groupCaps.Some?
      && v.live <= v.caps.Keys && v.live <= v.grouped && v.live <= v.names.Keys && v.live <= v.coords.Keys
      && (forall g, h :: g in v.live && h in v.live && g != h ==> v.coords[g] != v.coords[h])
  }

  function SeeAll(v: Picture, es: seq<Event>): Picture
    decreases |es|
  {
    if es == [] then v else SeeAll(See(v, es[0]), es[1..])
  }

  ghost predicate LegalAll(v: Picture, es: seq<Event>)
    decreases |es|
  {
    es == [] || (Legal(v, es[0]) && LegalAll(See(v, es[0]), es[1..]))
  }

  lemma {:induction false} SeeAppend(v: Picture, a: seq<Event>, b: seq<Event>)
    ensures SeeAll(v, a + b) == SeeAll(SeeAll(v, a), b)
    ensures LegalAll(v, a + b) <==> LegalAll(v, a) && LegalAll(SeeAll(v, a), b)
    decreases |a|
  {
    if a == [] {
      assert a + b == b;
    } else {
      assert (a + b)[1..] == a[1..] + b;
      SeeAppend(See(v, a[0]), a[1..], b);
    }
  }

  lemma SeeOne(v: Picture, e: Event)
    ensures SeeAll(v, [e]) == See(v, e) && (LegalAll(v, [e]) <==> Legal(v, e))
  {
    assert SeeAll(See(v, e), [e][1..]) == See(v, e);
    assert LegalAll(See(v, e), [e][1..]);
  }

  lemma SeeTwo(v: Picture, e: Event, f: Event)
    ensures SeeAll(v, [e, f]) == See(See(v, e), f)
    ensures LegalAll(v, [e, f]) <==> Legal(v, e) && Legal(See(v, e), f)
  {
    assert [e, f] == [e] + [f];
    SeeAppend(v, [e], [f]);
    SeeOne(v, e);
    SeeOne(See(v, e), f);
  }

  predicate Refers(e: Event, h: HandleId) {
    !e.Group? && !e.GroupCapabilities? && !e.Done? && e.h == h
  }

  /** No event refers to a handle once it has been removed. */
  lemma {:induction false} NothingAfterRemoval(v: Picture, es: seq<Event>, h: HandleId)
    requires LegalAll(v, es) && h in v.known && h !in v.live
    ensures forall i :: 0 <= i < |es| ==> !Refers(es[i], h)
    decreases |es|
  {
    if es != [] {
      NothingAfterRemoval(See(v, es[0]), es[1..], h);
      forall i | 0 <= i < |es|
        ensures !Refers(es[i], h)
      {
        if i > 0 {
          assert es[i] == es[1..][i - 1];
        }
      }
    }
  }
}
