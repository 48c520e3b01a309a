/** Runs of commands and service that show what clients meet when they bind, or act, while
    notifications are under way, or when they look between two of them. */
module Races {
  import opened Wrappers
  import opened Sequences
  import opened Hooks
  import opened Windows
  import opened Desktops
  import opened DeskInvariant
  import opened DeskTheorems
  import opened Replicas
  import opened Protocol
  import opened StateEvents
  import opened Batches
  import opened Composition

  // ---------- runs with one client ----------

  lemma {:induction false} RunAppend(s: Server, a: seq<ServerStep>, b: seq<ServerStep>)
    requires ServerRunEnabled(s, a) && ServerRunEnabled(ServerAfter(s, a), b)
    ensures ServerRunEnabled(s, a + b) && ServerAfter(s, a + b) == ServerAfter(ServerAfter(s, a), b)
    decreases |a|
  {
    if a == [] {
      assert a + b == b;
    } else {
      assert (a + b)[1..] == a[1..] + b;
      RunAppend(Next(s, a[0]), a[1..], b);
    }
  }

  function Heads(n: nat): seq<ServerStep> {
    if n == 0 then [] else [RunHead] + Heads(n - 1)
  }

  lemma {:induction false} HeadsUnseen(s: Server, n: nat)
    requires s.clients == [] && n <= |s.queue|
    ensures ServerRunEnabled(s, Heads(n)) && ServerAfter(s, Heads(n)) == s.(queue := s.queue[n..])
    decreases n
  {
    if n == 0 {
      assert s.queue[0..] == s.queue;
    } else {
      assert Heads(n)[1..] == Heads(n - 1);
      HeadsUnseen(Next(s, RunHead), n - 1);
      assert s.queue[1..][n - 1..] == s.queue[n..];
    }
  }

  lemma {:induction false} HeadsSeen(s: Server, c: Replica, n: nat)
    requires s.clients == [c] && n <= |s.queue|
    ensures ServerRunEnabled(s, Heads(n))
    ensures ServerAfter(s, Heads(n)) == s.(queue := s.queue[n..], clients := [Drained(c, s.queue[..n])])
    decreases n
  {
    if n == 0 {
      assert s.queue[0..] == s.queue && s.queue[..0] == [];
    } else {
      var s1 := Next(s, RunHead);
      assert Heads(n)[1..] == Heads(n - 1);
      assert s1.clients == [Handle(c, s.queue[0])];
      HeadsSeen(s1, Handle(c, s.queue[0]), n - 1);
      assert s.queue[1..][n - 1..] == s.queue[n..];
      assert s.queue[..n][1..] == s.queue[1..][..n - 1];
    }
  }

  /** Of the history `h` the first n notifications are received and k of them carried out; a
      client binds; the rest is received, and another j are carried out. */
  function RaceRun(h: seq<HookEvent>, n: nat, k: nat, order: seq<WorkspaceId>, j: nat): seq<ServerStep>
    requires n <= |h|
  {
    Serve(h[..n]) + (Heads(k) + ([Bind(order)] + (Serve(h[n..]) + Heads(j))))
  }

  function RaceEnd(h: seq<HookEvent>, n: nat, k: nat, order: seq<WorkspaceId>, j: nat): Server
    requires n <= |h| && k + j <= |h| && forall ws :: ws in order ==> ws in MapAfter(h[..n])
  {
    Server(MapAfter(h), None, h[k + j..], [Drained(Bound(MapAfter(h[..n]), order), h[k..k + j])], h)
  }

  lemma {:induction false} HeadsOfBoth(a: seq<HookEvent>, h: seq<HookEvent>, n: nat, k: nat, j: nat)
    requires k <= n <= |h| && k + j <= |h| && a == h[..n]
    ensures a[k..] + h[n..] == h[k..] && h[k..][..j] == h[k..k + j] && h[k..][j..] == h[k + j..]
  {
  }

  lemma MapsOfPrefix(h: seq<HookEvent>, n: nat)
    requires n <= |h| && Lawful(h)
    ensures Lawful(h[..n]) && h[..n][..0] == [] && h[..n][0..] == h[..n]
  {
    PrefixOfLawful(h, h[..n]);
  }

  /** Received in part, carried out in part. */
  lemma FirstLeg(h: seq<HookEvent>, n: nat, k: nat)
    requires Lawful(h) && k <= n <= |h|
    ensures ServerRunEnabled(IDLE, Serve(h[..n]) + Heads(k))
    ensures ServerAfter(IDLE, Serve(h[..n]) + Heads(k)) == Server(MapAfter(h[..n]), None, h[..n][k..], [], h[..n])
  {
    MapsOfPrefix(h, n);
    ServeIsEnabled(IDLE, h[..n], 0);
    var s1 := ServerAfter(IDLE, Serve(h[..n]));
    assert s1.queue == h[..n];
    HeadsUnseen(s1, k);
    RunAppend(IDLE, Serve(h[..n]), Heads(k));
  }

  /** The rest, with a client that has bound. */
  lemma LastLeg(s: Server, h: seq<HookEvent>, n: nat, k: nat, c: Replica, j: nat)
    requires Lawful(h) && k <= n <= |h| && k + j <= |h|
    requires s == Server(MapAfter(h[..n]), None, h[..n][k..], [c], h[..n])
    ensures ServerRunEnabled(s, Serve(h[n..]) + Heads(j))
    ensures ServerAfter(s, Serve(h[n..]) + Heads(j)) == Server(MapAfter(h), None, h[k + j..], [Drained(c, h[k..k + j])], h)
  {
    ServeIsEnabled(s, h, n);
    HeadsOfBoth(h[..n], h, n, k, j);
    var s1 := ServerAfter(s, Serve(h[n..]));
    HeadsSeen(s1, c, j);
    RunAppend(s, Serve(h[n..]), Heads(j));
  }

  /** What has been received and carried out when the client binds. */
  function RaceStart(h: seq<HookEvent>, n: nat, k: nat): Server
    requires k <= n <= |h|
  {
    Server(MapAfter(h[..n]), None, h[..n][k..], [], h[..n])
  }

  lemma RaceBind(h: seq<HookEvent>, n: nat, k: nat, order: seq<WorkspaceId>, rest: seq<ServerStep>)
    requires k <= n <= |h|
    requires Distinct(order) && forall ws :: ws in order <==> ws in MapAfter(h[..n])
    requires ServerRunEnabled(RaceStart(h, n, k).(clients := [Bound(MapAfter(h[..n]), order)]), rest)
    ensures ServerRunEnabled(RaceStart(h, n, k), [Bind(order)] + rest)
    ensures ServerAfter(RaceStart(h, n, k), [Bind(order)] + rest)
              == ServerAfter(RaceStart(h, n, k).(clients := [Bound(MapAfter(h[..n]), order)]), rest)
  {
    var s := RaceStart(h, n, k);
    assert Next(s, Bind(order)) == s.(clients := [Bound(MapAfter(h[..n]), order)]);
    RunOne(s, Bind(order), rest);
  }

  lemma Race(h: seq<HookEvent>, n: nat, k: nat, order: seq<WorkspaceId>, j: nat)
    requires Lawful(h) && k <= n <= |h| && k + j <= |h|
    requires Distinct(order) && forall ws :: ws in order <==> ws in MapAfter(h[..n])
    ensures ServerRunEnabled(IDLE, RaceRun(h, n, k, order, j))
    ensures ServerAfter(IDLE, RaceRun(h, n, k, order, j)) == RaceEnd(h, n, k, order, j)
  {
    var a, b := Serve(h[..n]) + Heads(k), Serve(h[n..]) + Heads(j);
    FirstLeg(h, n, k);
    LastLeg(RaceStart(h, n, k).(clients := [Bound(MapAfter(h[..n]), order)]), h, n, k, Bound(MapAfter(h[..n]), order), j);
    RaceBind(h, n, k, order, b);
    RunAppend(IDLE, a, [Bind(order)] + b);
    Assoc(Serve(h[..n]), Heads(k), [Bind(order)] + b);
  }

  /** What the client of a race has been told of a workspace. */
  lemma RaceStatus(h: seq<HookEvent>, n: nat, k: nat, order: seq<WorkspaceId>, j: nat, ws: WorkspaceId)
    requires Lawful(h) && k <= n <= |h| && k + j <= |h|
    requires Distinct(order) && forall x :: x in order <==> x in MapAfter(h[..n])
    ensures var c := RaceEnd(h, n, k, order, j).clients[0];
            && ReplicaOk(c) && StatusOf(c, ws) == TellAll(News(MapAfter(h[..n]), ws), h[k..k + j], ws)
  {
    StatusBound(MapAfter(h[..n]), order, ws);
    StatusDrained(Bound(MapAfter(h[..n]), order), h[k..k + j], ws);
  }

  lemma {:induction false} DrainedIsClosed(c: Replica, es: seq<HookEvent>)
    requires ReplicaOk(c) && Closed(c)
    ensures Closed(Drained(c, es))
    decreases |es|
  {
    if es != [] {
      HandleOk(c, es[0]);
      DrainedIsClosed(Handle(c, es[0]), es[1..]);
    }
  }

  lemma RaceIsClosed(h: seq<HookEvent>, n: nat, k: nat, order: seq<WorkspaceId>, j: nat)
    requires n <= |h| && k + j <= |h| && forall ws :: ws in order ==> ws in MapAfter(h[..n])
    ensures Closed(RaceEnd(h, n, k, order, j).clients[0])
  {
    BoundOk(MapAfter(h[..n]), order);
    DrainedIsClosed(Bound(MapAfter(h[..n]), order), h[k..k + j]);
  }

  lemma EndAccounted(h: seq<HookEvent>, n: nat, k: nat, order: seq<WorkspaceId>, j: nat)
    requires n <= |h| && k + j <= |h| && forall ws :: ws in order ==> ws in MapAfter(h[..n])
    ensures var s := RaceEnd(h, n, k, order, j); Flow(s) == h[k + j..] && Accounted(s) && CarriedOut(s) == h[..k + j]
  {
    assert h[..k + j] + h[k + j..] == h;
  }

  lemma TellOne(x: Status, a: HookEvent, ws: WorkspaceId)
    ensures TellAll(x, [a], ws) == Tell(x, a, ws)
  {
    assert [a][1..] == [];
  }

  lemma TellTwo(x: Status, a: HookEvent, b: HookEvent, ws: WorkspaceId)
    ensures TellAll(x, [a, b], ws) == Tell(Tell(x, a, ws), b, ws)
  {
    assert [a, b][1..] == [b];
    TellOne(Tell(x, a, ws), b, ws);
  }

  lemma TellThree(x: Status, a: HookEvent, b: HookEvent, c: HookEvent, ws: WorkspaceId)
    ensures TellAll(x, [a, b, c], ws) == Tell(Tell(Tell(x, a, ws), b, ws), c, ws)
  {
    assert [a, b, c][1..] == [b, c];
    TellTwo(Tell(x, a, ws), b, c, ws);
  }

  lemma TwoAreNotOne(c: Replica, a: WorkspaceId, b: WorkspaceId)
    requires a != b && Standing(c, a) == Some(true) && Standing(c, b) == Some(true)
    ensures !SeesOneActive(c)
  {
  }

  // ---------- open a window and go down ----------

  function TwoSteps(): seq<Action> {
    [(CmdOpen(None, Application, WindowState.Restored), None)] + ([(CmdGo(ToDown, false), None)] + [])
  }

  lemma AfterTwoSteps()
    ensures RunEnabled(Start(), TwoSteps()) && After(Start(), TwoSteps()) == OneLeftBehind()
  {
    AfterOne(Open(Start(), None, Application, WindowState.Restored), (CmdGo(ToDown, false), None), []);
    AfterOne(Start(), (CmdOpen(None, Application, WindowState.Restored), None), [(CmdGo(ToDown, false), None)] + []);
  }

  /** Its six notifications, and the map they leave. */
  ghost predicate Six(h: seq<HookEvent>) {
    && h == [Create(0), Activate(0), Create(1), Activate(1), Deactivate(0), Activate(1)]
    && h[..6] == h && Lawful(h) && MapAfter(h) == map[0 := false, 1 := true] && ListAfter(h) == [0, 1]
  }

  lemma MarksOfTwo()
    ensures Marks([0, 1], 1) == map[0 := false, 1 := true]
  {
    var m := Marks([0, 1], 1);
    assert forall ws :: ws in m <==> ws == 0 || ws == 1;
  }

  lemma OneLeftBehindMap()
    ensures Lawful(OneLeftBehind().hooks) && ListAfter(OneLeftBehind().hooks) == [0, 1]
    ensures MapAfter(OneLeftBehind().hooks) == map[0 := false, 1 := true]
  {
    OneLeftBehindInv();
    OneLeftBehindIs();
    MarksOfTwo();
  }

  lemma WholeSix(h: seq<HookEvent>)
    requires |h| == 6
    ensures h[..6] == h
  {
  }

  lemma OneLeftBehindSix()
    ensures Six(OneLeftBehind().hooks)
  {
    OneLeftBehindMap();
    OneLeftBehindHooks();
    WholeSix(OneLeftBehind().hooks);
  }

  lemma SixCarried(h: seq<HookEvent>)
    requires Six(h)
    ensures h[..6] == h && h[0..0 + 2] == [Create(0), Activate(0)] == h[..0 + 2] && h[6..6 + 0] == []
    ensures Settled(h[..0 + 2])
  {
  }

  lemma TwoAreTold(h: seq<HookEvent>)
    requires Six(h)
    ensures var c := RaceEnd(h, 6, 0, [0, 1], 2).clients[0];
            Standing(c, 0) == Some(true) && Standing(c, 1) == Some(true)
  {
    SixCarried(h);
    RaceStatus(h, 6, 0, [0, 1], 2, 0);
    RaceStatus(h, 6, 0, [0, 1], 2, 1);
    TellTwo(Told(false), Create(0), Activate(0), 0);
    TellTwo(Told(true), Create(0), Activate(0), 1);
  }

  lemma TwoActive(h: seq<HookEvent>) returns (run: seq<ServerStep>)
    requires Six(h)
    ensures ServerRunEnabled(IDLE, run)
    ensures var s := ServerAfter(IDLE, run);
            && |s.clients| == 1 && Closed(s.clients[0]) && s.history == h && Accounted(s)
            && Settled(CarriedOut(s)) && !SeesOneActive(s.clients[0])
            && Standing(s.clients[0], 0) == Some(true) && Standing(s.clients[0], 1) == Some(true)
  {
    SixCarried(h);
    run := RaceRun(h, 6, 0, [0, 1], 2);
    Race(h, 6, 0, [0, 1], 2);
    EndAccounted(h, 6, 0, [0, 1], 2);
    RaceIsClosed(h, 6, 0, [0, 1], 2);
    TwoAreTold(h);
    TwoAreNotOne(RaceEnd(h, 6, 0, [0, 1], 2).clients[0], 0, 1);
  }

  /** Before it has caught up, a client may see two active workspaces though the notifications
      carried out are settled: it binds while all six are under way, and two are carried out. */
  lemma TwoActiveAtDone() returns (run: seq<ServerStep>)
    ensures RunEnabled(Start(), TwoSteps()) && ServerRunEnabled(IDLE, run)
    ensures var s := ServerAfter(IDLE, run);
            && s.history == After(Start(), TwoSteps()).hooks && Accounted(s)
            && |s.clients| == 1 && Closed(s.clients[0])
            && Settled(CarriedOut(s)) && !SeesOneActive(s.clients[0])
            && Standing(s.clients[0], 0) == Some(true) && Standing(s.clients[0], 1) == Some(true)
  {
    AfterTwoSteps();
    OneLeftBehindSix();
    run := TwoActive(OneLeftBehind().hooks);
  }

  lemma TurnedRound(h: seq<HookEvent>) returns (run: seq<ServerStep>)
    requires Six(h)
    ensures ServerRunEnabled(IDLE, run)
    ensures var s := ServerAfter(IDLE, run);
            && |s.clients| == 1 && s.history == h && Flow(s) == []
            && NamesOf(s.clients[0].list) == [1, 0] && !InOrder(s, s.clients[0])
  {
    SixCarried(h);
    run := RaceRun(h, 6, 6, [1, 0], 0);
    Race(h, 6, 6, [1, 0], 0);
    EndAccounted(h, 6, 6, [1, 0], 0);
    NamesOfSnapshot(Greeting(), MapAfter(h), [1, 0]);
  }

  /** A client that binds to both workspaces with nothing under way may be given them the other
      way round. */
  lemma BoundOutOfOrder() returns (run: seq<ServerStep>)
    ensures RunEnabled(Start(), TwoSteps()) && ServerRunEnabled(IDLE, run)
    ensures var s := ServerAfter(IDLE, run);
            && s.history == After(Start(), TwoSteps()).hooks && Flow(s) == [] && |s.clients| == 1
            && NamesOf(s.clients[0].list) == [1, 0] && !InOrder(s, s.clients[0])
  {
    AfterTwoSteps();
    OneLeftBehindSix();
    run := TurnedRound(OneLeftBehind().hooks);
  }

  // ---------- and up again ----------

  /** The notifications of a run that goes up again. */
  ghost predicate Nine(h: seq<HookEvent>) {
    |h| == 9 && Lawful(h) && Six(h[..6]) && h[6] == Deactivate(1) && h[7] == Activate(0) && h[8] == Destroy(1)
  }

  lemma UpAgainHooks()
    ensures Go(OneLeftBehind(), ToUp, false, None).hooks
              == OneLeftBehind().hooks + [Deactivate(1)] + [Activate(0)] + [Destroy(1)]
    ensures Lawful(Go(OneLeftBehind(), ToUp, false, None).hooks)
  {
    OneLeftBehindHooks();
    OneLeftBehindInv();
    HooksOfListed(OneLeftBehind(), 0, None);
    GoKeepsInv(OneLeftBehind(), ToUp, false, None);
  }

  lemma NineOf(a: seq<HookEvent>, h: seq<HookEvent>)
    requires Six(a) && h == a + [Deactivate(1)] + [Activate(0)] + [Destroy(1)] && Lawful(h)
    ensures Nine(h)
  {
    assert h[..6] == a;
  }

  lemma ThereAndBack()
    ensures RunEnabled(Start(), ThreeSteps(CmdGo(ToUp, false)))
    ensures Nine(After(Start(), ThreeSteps(CmdGo(ToUp, false))).hooks)
  {
    OneLeftBehindInv();
    OneLeftBehindOnRun(CmdGo(ToUp, false));
    OneLeftBehindSix();
    UpAgainHooks();
    NineOf(OneLeftBehind().hooks, Go(OneLeftBehind(), ToUp, false, None).hooks);
  }

  lemma NoneAreTold(h: seq<HookEvent>, ws: WorkspaceId)
    requires Nine(h)
    ensures Standing(RaceEnd(h, 6, 6, [0, 1], 1).clients[0], ws) != Some(true)
  {
    RaceStatus(h, 6, 6, [0, 1], 1, ws);
    assert h[6..6 + 1] == [Deactivate(1)];
    TellOne(News(MapAfter(h[..6]), ws), Deactivate(1), ws);
  }

  lemma NoneActive(h: seq<HookEvent>) returns (run: seq<ServerStep>)
    requires Nine(h)
    ensures ServerRunEnabled(IDLE, run)
    ensures var s := ServerAfter(IDLE, run);
            && |s.clients| == 1 && Closed(s.clients[0]) && s.history == h
            && forall ws :: Standing(s.clients[0], ws) != Some(true)
  {
    run := RaceRun(h, 6, 6, [0, 1], 1);
    Race(h, 6, 6, [0, 1], 1);
    RaceIsClosed(h, 6, 6, [0, 1], 1);
    forall ws
      ensures Standing(RaceEnd(h, 6, 6, [0, 1], 1).clients[0], ws) != Some(true)
    {
      NoneAreTold(h, ws);
    }
  }

  /** A client that bound with nothing under way sees no active workspace at a `done`: the
      first half of going up has been carried out. */
  lemma NoneActiveAtDone() returns (run: seq<ServerStep>)
    ensures RunEnabled(Start(), ThreeSteps(CmdGo(ToUp, false))) && ServerRunEnabled(IDLE, run)
    ensures var s := ServerAfter(IDLE, run);
            && s.history == After(Start(), ThreeSteps(CmdGo(ToUp, false))).hooks
            && |s.clients| == 1 && Closed(s.clients[0])
            && forall ws :: Standing(s.clients[0], ws) != Some(true)
  {
    ThereAndBack();
    run := NoneActive(After(Start(), ThreeSteps(CmdGo(ToUp, false))).hooks);
  }

  lemma GoneAtTheEnd(h: seq<HookEvent>)
    requires Nine(h)
    ensures 1 !in MapAfter(h) && Destroy(1) in h[6 + 0..]
  {
    assert h[..8] + [Destroy(1)] == h;
    Extend(h[..8], Destroy(1));
    assert h[6 + 0..][2] == Destroy(1);
  }

  lemma StillListed(h: seq<HookEvent>)
    requires Nine(h)
    ensures Lists(RaceEnd(h, 6, 6, [0, 1], 0).clients[0], 1)
  {
    assert h[6..6 + 0] == [];
    RaceStatus(h, 6, 6, [0, 1], 0, 1);
    ListsIff(RaceEnd(h, 6, 6, [0, 1], 0).clients[0], 1);
  }

  lemma Doomed(h: seq<HookEvent>) returns (run: seq<ServerStep>)
    requires Nine(h)
    ensures ServerRunEnabled(IDLE, run)
    ensures var s := ServerAfter(IDLE, run);
            && |s.clients| == 1 && s.history == h
            && Lists(s.clients[0], 1) && 1 !in s.shared && Destroy(1) in Flow(s)
  {
    GoneAtTheEnd(h);
    run := RaceRun(h, 6, 6, [0, 1], 0);
    Race(h, 6, 6, [0, 1], 0);
    EndAccounted(h, 6, 6, [0, 1], 0);
    StillListed(h);
  }

  /** A listed handle whose workspace no longer exists: its destruction is under way. */
  lemma DoomedHandle() returns (run: seq<ServerStep>)
    ensures RunEnabled(Start(), ThreeSteps(CmdGo(ToUp, false))) && ServerRunEnabled(IDLE, run)
    ensures var s := ServerAfter(IDLE, run);
            && s.history == After(Start(), ThreeSteps(CmdGo(ToUp, false))).hooks && |s.clients| == 1
            && Lists(s.clients[0], 1) && 1 !in s.shared && Destroy(1) in Flow(s)
  {
    ThereAndBack();
    run := Doomed(After(Start(), ThreeSteps(CmdGo(ToUp, false))).hooks);
  }

  // ---------- a state the map was never in ----------

  /** Open a window, go down, on to another workspace, and up again. */
  function FourSteps(): seq<Action> {
    [(CmdOpen(None, Application, WindowState.Restored), None)]
    + ([(CmdGo(ToDown, false), None)] + ([(CmdGo(ToEnd, false), None)] + ([(CmdGo(ToUp, false), None)] + [])))
  }

  /** After the first three. */
  function Further(): Desk {
    Go(OneLeftBehind(), ToEnd, false, None)
  }

  lemma WithoutOne()
    ensures Without([0, 1] + [2], 1) == [0, 2] && Without([0, 2], 2) == [0]
  {
    var list := [0, 1] + [2];
    assert list[1..] == [1, 2] && list[1..][1..] == [2];
    AbsentNothingDropped([2], 1);
    assert Without(list[1..], 1) == [2];
    WithoutLast([0], 2);
    assert [0] + [2] == [0, 2];
  }

  lemma ThirdIsReached()
    ensures Further() == GoToFresh(OneLeftBehind(), false, None)
    ensures OneLeftBehind().nextWorkspace == 2 && OneLeftBehind().active == 1 && !HoldsApp(OneLeftBehind().windows, 1)
  {
    OneLeftBehindHooks();
    OneLeftBehindInv();
  }

  lemma FurtherLists()
    ensures var d := Further(); d.workspaces == [0, 2] && d.active == 2 && !HoldsApp(d.windows, 2)
  {
    OneLeftBehindIs();
    ThirdIsReached();
    WithoutOne();
    var d := OneLeftBehind();
    GoToLeads(d, 2, AppendNew(d), None);
    SameHeld(d.windows, {}, 2, 1, 2);
  }

  lemma FurtherHooks()
    ensures Further().hooks == OneLeftBehind().hooks
              + [Create(2)] + [Activate(2)] + [Deactivate(1)] + [Activate(2)] + [Destroy(1)]
  {
    ThirdIsReached();
    HooksOfFresh(OneLeftBehind(), None);
  }

  lemma FurtherIs()
    ensures var d := Further();
            Inv(d) && d.workspaces == [0, 2] && d.active == 2 && !HoldsApp(d.windows, 2) && Lead(d, ToUp) == Listed(0)
    ensures Further().hooks == OneLeftBehind().hooks
              + [Create(2)] + [Activate(2)] + [Deactivate(1)] + [Activate(2)] + [Destroy(1)]
  {
    OneLeftBehindInv();
    GoKeepsInv(OneLeftBehind(), ToEnd, false, None);
    FurtherLists();
    FurtherHooks();
  }

  lemma BackFromFurther()
    ensures var d := Go(Further(), ToUp, false, None);
            && Inv(d) && d.workspaces == [0] && d.active == 0
            && d.hooks == Further().hooks + [Deactivate(2)] + [Activate(0)] + [Destroy(2)]
  {
    FurtherIs();
    var d := Further();
    GoKeepsInv(d, ToUp, false, None);
    GoToLeads(d, 0, d.(active := 0), None);
    HooksOfListed(d, 0, None);
    WithoutOne();
  }

  lemma AfterFourSteps()
    ensures RunEnabled(Start(), FourSteps()) && After(Start(), FourSteps()) == Go(Further(), ToUp, false, None)
  {
    OneLeftBehindInv();
    FurtherIs();
    AfterOne(Further(), (CmdGo(ToUp, false), None), []);
    AfterOne(OneLeftBehind(), (CmdGo(ToEnd, false), None), [(CmdGo(ToUp, false), None)] + []);
    AfterOne(Open(Start(), None, Application, WindowState.Restored), (CmdGo(ToDown, false), None),
             [(CmdGo(ToEnd, false), None)] + ([(CmdGo(ToUp, false), None)] + []));
    AfterOne(Start(), (CmdOpen(None, Application, WindowState.Restored), None),
             [(CmdGo(ToDown, false), None)] + ([(CmdGo(ToEnd, false), None)] + ([(CmdGo(ToUp, false), None)] + [])));
  }

  /** Workspaces 0 and 2 are not both active. */
  ghost predicate Apart(m: map<WorkspaceId, bool>) {
    !(0 in m && m[0] && 2 in m && m[2])
  }

  ghost predicate AlwaysApart(h: seq<HookEvent>) {
    forall m :: 0 <= m <= |h| ==> Apart(MapAfter(h[..m]))
  }

  lemma ApartExtend(h: seq<HookEvent>, e: HookEvent)
    requires AlwaysApart(h) && Apart(MapAfter(h + [e]))
    ensures AlwaysApart(h + [e])
  {
    var g := h + [e];
    forall m | 0 <= m <= |g|
      ensures Apart(MapAfter(g[..m]))
    {
      if m <= |h| {
        assert g[..m] == h[..m];
      } else {
        assert g[..m] == g;
      }
    }
  }

  /** One more notification, and the map it leaves. */
  lemma ApartNext(h: seq<HookEvent>, e: HookEvent, m: map<WorkspaceId, bool>)
    requires AlwaysApart(h) && MapAfter(h) == m && Apart(ApplyToMap(m, e))
    ensures AlwaysApart(h + [e]) && MapAfter(h + [e]) == ApplyToMap(m, e)
  {
    Extend(h, e);
    ApartExtend(h, e);
  }

  lemma SixApart(h: seq<HookEvent>)
    requires Six(h)
    ensures AlwaysApart(h)
  {
    forall m | 0 <= m <= |h|
      ensures 2 !in MapAfter(h[..m])
    {
      if 2 in MapAfter(h[..m]) {
        MirroredWasNamed(h[..m], 2);
      }
    }
  }

  lemma FurtherApart(h: seq<HookEvent>)
    requires Six(h)
    ensures var g := h + [Create(2)] + [Activate(2)] + [Deactivate(1)] + [Activate(2)] + [Destroy(1)];
            AlwaysApart(g) && MapAfter(g) == map[0 := false, 2 := true]
  {
    SixApart(h);
    ApartNext(h, Create(2), map[0 := false, 1 := true]);
    var h1 := h + [Create(2)];
    ApartNext(h1, Activate(2), map[0 := false, 1 := true, 2 := false]);
    var h2 := h1 + [Activate(2)];
    ApartNext(h2, Deactivate(1), map[0 := false, 1 := true, 2 := true]);
    var h3 := h2 + [Deactivate(1)];
    ApartNext(h3, Activate(2), map[0 := false, 1 := false, 2 := true]);
    var h4 := h3 + [Activate(2)];
    ApartNext(h4, Destroy(1), map[0 := false, 1 := false, 2 := true]);
    assert map[0 := false, 1 := false, 2 := true] - {1} == map[0 := false, 2 := true];
  }

  lemma BackApart(g: seq<HookEvent>)
    requires AlwaysApart(g) && MapAfter(g) == map[0 := false, 2 := true]
    ensures var h := g + [Deactivate(2)] + [Activate(0)] + [Destroy(2)];
            AlwaysApart(h) && MapAfter(h) == map[0 := true]
  {
    ApartNext(g, Deactivate(2), map[0 := false, 2 := true]);
    var h1 := g + [Deactivate(2)];
    ApartNext(h1, Activate(0), map[0 := false, 2 := false]);
    var h2 := h1 + [Activate(0)];
    ApartNext(h2, Destroy(2), map[0 := true, 2 := false]);
    assert map[0 := true, 2 := false] - {2} == map[0 := true];
  }

  ghost predicate Fourteen(h: seq<HookEvent>) {
    && |h| == 14 && h[..14] == h && Lawful(h) && AlwaysApart(h) && MapAfter(h) == map[0 := true]
    && h[6..6 + 3] == [Create(2), Activate(2), Deactivate(1)] && Settled(h[..6 + 3])
  }

  lemma FourteenOf(a: seq<HookEvent>, h: seq<HookEvent>)
    requires |a| == 6
    requires h == a + [Create(2)] + [Activate(2)] + [Deactivate(1)] + [Activate(2)] + [Destroy(1)]
                    + [Deactivate(2)] + [Activate(0)] + [Destroy(2)]
    ensures |h| == 14 && h[..14] == h && h[6..6 + 3] == [Create(2), Activate(2), Deactivate(1)] && Settled(h[..6 + 3])
  {
    assert h[..9][..8][7] == Activate(2) && h[..9][..8][6] == Create(2);
  }

  lemma FourSteppedHooks()
    ensures RunEnabled(Start(), FourSteps()) && Fourteen(After(Start(), FourSteps()).hooks)
  {
    AfterFourSteps();
    OneLeftBehindSix();
    FurtherIs();
    BackFromFurther();
    FurtherApart(OneLeftBehind().hooks);
    BackApart(Further().hooks);
    FourteenOf(OneLeftBehind().hooks, Go(Further(), ToUp, false, None).hooks);
  }

  lemma BothAreTold(h: seq<HookEvent>)
    requires Fourteen(h)
    ensures var c := RaceEnd(h, 14, 6, [0], 3).clients[0];
            Standing(c, 0) == Some(true) && Standing(c, 2) == Some(true)
  {
    RaceStatus(h, 14, 6, [0], 3, 0);
    RaceStatus(h, 14, 6, [0], 3, 2);
    TellThree(Told(true), Create(2), Activate(2), Deactivate(1), 0);
    TellThree(NoHandle, Create(2), Activate(2), Deactivate(1), 2);
  }

  lemma BothActive(h: seq<HookEvent>) returns (run: seq<ServerStep>)
    requires Fourteen(h)
    ensures ServerRunEnabled(IDLE, run)
    ensures var s := ServerAfter(IDLE, run);
            && |s.clients| == 1 && Closed(s.clients[0]) && s.history == h
            && Standing(s.clients[0], 0) == Some(true) && Standing(s.clients[0], 2) == Some(true)
  {
    run := RaceRun(h, 14, 6, [0], 3);
    Race(h, 14, 6, [0], 3);
    RaceIsClosed(h, 14, 6, [0], 3);
    BothAreTold(h);
  }

  /** Before it has caught up, a client may show what the map never was: it binds when eight of
      the fourteen notifications are under way, and when three more have been carried out it
      shows 0 and 2 active, which at no time both were. */
  lemma NeverAPast() returns (run: seq<ServerStep>)
    ensures RunEnabled(Start(), FourSteps()) && ServerRunEnabled(IDLE, run)
    ensures var s := ServerAfter(IDLE, run);
            && s.history == After(Start(), FourSteps()).hooks
            && (forall m :: 0 <= m <= |s.history| ==> Apart(MapAfter(s.history[..m])))
            && |s.clients| == 1 && Closed(s.clients[0])
            && Standing(s.clients[0], 0) == Some(true) && Standing(s.clients[0], 2) == Some(true)
  {
    FourSteppedHooks();
    run := BothActive(After(Start(), FourSteps()).hooks);
  }
}
