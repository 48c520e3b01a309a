/** The notifications a workspace manager sends to whoever mirrors its workspaces
    (miriway_workspace_hooks.h), and what a history of them adds up to. */
module Hooks {
  type WorkspaceId = nat

  datatype HookEvent =
    | Create(ws: WorkspaceId)
    | Activate(ws: WorkspaceId)
    | Deactivate(ws: WorkspaceId)
    | Destroy(ws: WorkspaceId)

  /** One notification's effect on `all_the_workspaces`; `true` stands for the active mark. */
  function ApplyToMap(m: map<WorkspaceId, bool>, e: HookEvent): map<WorkspaceId, bool> {
    match e
    case Create(ws) => if ws in m then m else m[ws := false]
    case Activate(ws) => if ws in m then m[ws := true] else m
    case Deactivate(ws) => if ws in m then m[ws := false] else m
    case Destroy(ws) => m - {ws}
  }

  ghost predicate Distinct<T(!new)>(list: seq<T>) {
    forall i, j :: 0 <= i < j < |list| ==> list[i] != list[j]
  }

  function Without(list: seq<WorkspaceId>, ws: WorkspaceId): (r: seq<WorkspaceId>)
    ensures forall x :: x in r <==> x in list && x != ws
    ensures |r| <= |list|
  {
    if list == [] then []
    else if list[0] == ws then Without(list[1..], ws)
    else [list[0]] + Without(list[1..], ws)
  }

  /** One notification's effect on a list that appends on creation and erases on destruction. */
  function ApplyToList(list: seq<WorkspaceId>, e: HookEvent): seq<WorkspaceId> {
    match e
    case Create(ws) => list + [ws]
    case Destroy(ws) => Without(list, ws)
    case _ => list
  }

  function MapAfter(h: seq<HookEvent>): map<WorkspaceId, bool> {
    if h == [] then map[] else ApplyToMap(MapAfter(h[..|h| - 1]), h[|h| - 1])
  }

  function ListAfter(h: seq<HookEvent>): seq<WorkspaceId> {
    if h == [] then [] else ApplyToList(ListAfter(h[..|h| - 1]), h[|h| - 1])
  }

  /** An event a mirror may receive after history `h`: identities are never reused, only a
      mirrored workspace is (de)activated, and only an inactive one is destroyed. */
  ghost predicate LawfulNext(h: seq<HookEvent>, e: HookEvent) {
    match e
    case Create(ws) => forall i :: 0 <= i < |h| ==> h[i].ws != ws
    case Activate(ws) => ws in MapAfter(h)
    case Deactivate(ws) => ws in MapAfter(h)
    case Destroy(ws) => ws in MapAfter(h) && !MapAfter(h)[ws]
  }

  ghost predicate Lawful(h: seq<HookEvent>) {
    forall i :: 0 <= i < |h| ==> LawfulNext(h[..i], h[i])
  }

  lemma Extend(h: seq<HookEvent>, e: HookEvent)
    ensures MapAfter(h + [e]) == ApplyToMap(MapAfter(h), e)
    ensures ListAfter(h + [e]) == ApplyToList(ListAfter(h), e)
    ensures Lawful(h) && LawfulNext(h, e) ==> Lawful(h + [e])
  {
    var g := h + [e];
    assert g[..|h|] == h;
    if Lawful(h) && LawfulNext(h, e) {
      forall i | 0 <= i < |g|
        ensures LawfulNext(g[..i], g[i])
      {
        if i < |h| {
          assert g[..i] == h[..i];
        }
      }
    }
  }

  /** What has been mirrored was created, hence named by some event. */
  lemma {:induction false} MirroredWasNamed(h: seq<HookEvent>, ws: WorkspaceId)
    requires ws in MapAfter(h)
    ensures exists i :: 0 <= i < |h| && h[i].ws == ws
  {
    var g := h[..|h| - 1];
    if ws in MapAfter(g) {
      MirroredWasNamed(g, ws);
      var i :| 0 <= i < |g| && g[i].ws == ws;
      assert h[i].ws == ws;
    } else {
      assert h[|h| - 1].ws == ws;
    }
  }

  lemma {:induction false} GoneForGood(h: seq<HookEvent>, i: nat, j: nat)
    requires Lawful(h) && i < j <= |h| && h[i].Destroy?
    ensures h[i].ws !in MapAfter(h[..j])
    decreases j
  {
    assert h[..j][..j - 1] == h[..j - 1];
    if j > i + 1 {
      GoneForGood(h, i, j - 1);
      assert LawfulNext(h[..j - 1], h[j - 1]);
      assert h[..j - 1][i] == h[i];
    }
  }

  /** In a lawful history nothing refers to a workspace after its destruction. */
  lemma {:induction false} NoEventAfterDestruction(h: seq<HookEvent>, i: nat, j: nat)
    requires Lawful(h) && i < j < |h| && h[i].Destroy?
    ensures h[j].ws != h[i].ws
  {
    GoneForGood(h, i, j);
    assert LawfulNext(h[..j], h[j]);
    assert h[..j][i] == h[i];
  }

  lemma {:induction false} WithoutKeepsDistinct(list: seq<WorkspaceId>, ws: WorkspaceId)
    requires Distinct(list)
    ensures Distinct(Without(list, ws))
  {
    if list != [] {
      var rest := Without(list[1..], ws);
      WithoutKeepsDistinct(list[1..], ws);
      forall j | 0 <= j < |rest| ensures rest[j] != list[0] {
        assert rest[j] in rest && rest[j] in list[1..];
        var k :| 0 <= k < |list[1..]| && list[1..][k] == rest[j];
        assert list[k + 1] == rest[j];
      }
    }
  }
}
