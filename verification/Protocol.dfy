/** The replication protocol as a state machine: the window manager's thread updates the shared
    map and, having released its lock, queues the notification; the Wayland loop runs the queue
    and serves binds. Any interleaving of these steps is a run. */
module Protocol {
  import opened Wrappers
  import opened Sequences
  import opened Hooks
  import opened Wire
  import opened Replicas

  datatype Server = Server(
    shared: map<WorkspaceId, bool>,    // all_the_workspaces
    pending: Option<HookEvent>,        // applied to the map, not yet queued
    queue: seq<HookEvent>,             // work for the Wayland main loop
    clients: seq<Replica>,
    history: seq<HookEvent>)           // every notification received

  datatype ServerStep =
    | Update(e: HookEvent)
    | Enqueue
    | RunHead
    | Bind(order: seq<WorkspaceId>)
    | Disconnect(i: nat)

  /** (De)activating an unknown workspace is not passed on. */
  predicate PassedOn(shared: map<WorkspaceId, bool>, e: HookEvent) {
    e.Activate? || e.Deactivate? ==> e.ws in shared
  }

  ghost predicate StepEnabled(s: Server, step: ServerStep) {
    match step
    case Update(e) => s.pending.None? && (e.Create? ==> LawfulNext(s.history, e))
    case Enqueue => s.pending.Some?
    case RunHead => s.queue != []
    case Bind(order) => Distinct(order) && forall ws :: ws in order <==> ws in s.shared
    case Disconnect(i) => i < |s.clients|
  }

  function HandleAll(clients: seq<Replica>, e: HookEvent): (r: seq<Replica>)
    ensures |r| == |clients| && forall i :: 0 <= i < |r| ==> r[i] == Handle(clients[i], e)
  {
    if clients == [] then [] else [Handle(clients[0], e)] + HandleAll(clients[1..], e)
  }

  function Next(s: Server, step: ServerStep): Server
    requires StepEnabled(s, step)
  {
    match step
    case Update(e) =>
      s.(shared := ApplyToMap(s.shared, e),
         pending := if PassedOn(s.shared, e) then Some(e) else None,
         history := s.history + [e])
    case Enqueue => s.(queue := s.queue + [s.pending.value], pending := None)
    case RunHead => s.(queue := s.queue[1..], clients := HandleAll(s.clients, s.queue[0]))
    case Bind(order) => s.(clients := s.clients + [Bound(s.shared, order)])
    case Disconnect(i) => s.(clients := s.clients[..i] + s.clients[i + 1..])
  }

  const IDLE := Server(map[], None, [], [], [])

  // ---------- one workspace as one client sees it ----------

  /** What a client has been told of a workspace: no handle stands for it, or the first that does
      has been sent no state yet, or it was last said to be active or not. */
  datatype Status = NoHandle | Untold | Told(active: bool)

  function StatusOf(c: Replica, ws: WorkspaceId): Status {
    match First(c.list, ws)
    case None => NoHandle
    case Some(h) => var states := Seen(c).states; if h in states then Told(states[h]) else Untold
  }

  /** What the client makes of it: a state never sent counts as not active. */
  function Reads(x: Status): Option<bool> {
    match x
    case NoHandle => None
    case Untold => Some(false)
    case Told(active) => Some(active)
  }

  function Standing(c: Replica, ws: WorkspaceId): Option<bool> {
    Reads(StatusOf(c, ws))
  }

  /** What one notification tells. */
  function Tell(x: Status, e: HookEvent, ws: WorkspaceId): Status {
    if e.ws != ws then x
    else match e
         case Create(_) => if x.NoHandle? then Untold else x
         case Activate(_) => if x.NoHandle? then x else Told(true)
         case Deactivate(_) => if x.NoHandle? then x else Told(false)
         case Destroy(_) => NoHandle
  }

  function TellAll(x: Status, es: seq<HookEvent>, ws: WorkspaceId): Status
    decreases |es|
  {
    if es == [] then x else TellAll(Tell(x, es[0], ws), es[1..], ws)
  }

  function Due(shared: map<WorkspaceId, bool>, ws: WorkspaceId): Option<bool> {
    if ws in shared then Some(shared[ws]) else None
  }

  /** What there is to tell of the map. */
  function News(shared: map<WorkspaceId, bool>, ws: WorkspaceId): Status {
    if ws in shared then Told(shared[ws]) else NoHandle
  }

  lemma {:induction false} TellExtend(x: Status, es: seq<HookEvent>, e: HookEvent, ws: WorkspaceId)
    ensures TellAll(x, es + [e], ws) == Tell(TellAll(x, es, ws), e, ws)
    decreases |es|
  {
    if es == [] {
      assert TellAll(Tell(x, e, ws), ([] + [e])[1..], ws) == Tell(x, e, ws);
      assert es + [e] == [e];
    } else {
      assert (es + [e])[1..] == es[1..] + [e];
      TellExtend(Tell(x, es[0], ws), es[1..], e, ws);
    }
  }

  /** Whether a handle survives does not depend on what was said of it. */
  lemma {:induction false} TellSurvival(x: Status, y: Status, es: seq<HookEvent>, ws: WorkspaceId)
    requires x.NoHandle? <==> y.NoHandle?
    ensures TellAll(x, es, ws).NoHandle? <==> TellAll(y, es, ws).NoHandle?
    decreases |es|
  {
    if es != [] {
      TellSurvival(Tell(x, es[0], ws), Tell(y, es[0], ws), es[1..], ws);
    }
  }

  lemma {:induction false} TellUnnamed(x: Status, es: seq<HookEvent>, ws: WorkspaceId)
    requires forall i :: 0 <= i < |es| ==> es[i].ws != ws
    ensures TellAll(x, es, ws) == x
    decreases |es|
  {
    if es != [] {
      TellUnnamed(x, es[1..], ws);
    }
  }

  // ---------- the two invariants ----------

  function Flow(s: Server): seq<HookEvent> {
    s.queue + (match s.pending case Some(e) => [e] case None => [])
  }

  /** Whatever part of the flow is still to come, it changes nothing for someone who already
      knows the map: a snapshot taken now is not spoilt by what is queued. */
  ghost predicate Absorbs(shared: map<WorkspaceId, bool>, flow: seq<HookEvent>, ws: WorkspaceId) {
    forall k :: 0 <= k <= |flow| ==> TellAll(News(shared, ws), flow[k..], ws) == News(shared, ws)
  }

  /** What the flow still brings takes this client to the map. */
  ghost predicate Converges(shared: map<WorkspaceId, bool>, flow: seq<HookEvent>, c: Replica, ws: WorkspaceId) {
    Reads(TellAll(StatusOf(c, ws), flow, ws)) == Due(shared, ws)
  }

  /** The trace ends a batch. */
  predicate Closed(c: Replica) {
    c.trace != [] && c.trace[|c.trace| - 1] == Done
  }

  ghost predicate Sound(shared: map<WorkspaceId, bool>, flow: seq<HookEvent>, clients: seq<Replica>, history: seq<HookEvent>) {
    && shared == MapAfter(history)
    && (forall e :: e in flow ==> e in history)
    && (forall ws :: Absorbs(shared, flow, ws))
    && (forall i :: 0 <= i < |clients| ==> ReplicaOk(clients[i]) && Closed(clients[i]))
    && (forall i, ws :: 0 <= i < |clients| ==> Converges(shared, flow, clients[i], ws))
  }

  ghost predicate ServerOk(s: Server) {
    Sound(s.shared, Flow(s), s.clients, s.history)
  }

  // ---------- the flow absorbs ----------

  /** Appending a notification to the flow, with its effect on the map. */
  lemma AbsorbsUpdate(shared: map<WorkspaceId, bool>, flow: seq<HookEvent>, e: HookEvent, ws: WorkspaceId)
    requires Absorbs(shared, flow, ws) && PassedOn(shared, e)
    requires e.Create? ==> e.ws !in shared && forall i :: 0 <= i < |flow| ==> flow[i].ws != e.ws
    ensures Absorbs(ApplyToMap(shared, e), flow + [e], ws)
  {
    var x, x' := News(shared, ws), News(ApplyToMap(shared, e), ws);
    var longer := flow + [e];
    forall k | 0 <= k <= |longer|
      ensures TellAll(x', longer[k..], ws) == x'
    {
      if k <= |flow| {
        assert longer[k..] == flow[k..] + [e];
        TellExtend(x', flow[k..], e, ws);
        assert TellAll(x, flow[k..], ws) == x;
        if e.ws == ws {
          if e.Create? {
            TellUnnamed(x', flow[k..], ws);
          } else if x.Told? && x'.Told? {
            TellSurvival(x, x', flow[k..], ws);
          }
        }
      }
    }
  }

  /** A notification that is not passed on changes nothing. */
  lemma NotPassedOn(shared: map<WorkspaceId, bool>, e: HookEvent)
    requires !PassedOn(shared, e)
    ensures ApplyToMap(shared, e) == shared
  {
  }

  lemma AbsorbsTail(shared: map<WorkspaceId, bool>, flow: seq<HookEvent>, ws: WorkspaceId)
    requires Absorbs(shared, flow, ws) && flow != []
    ensures Absorbs(shared, flow[1..], ws)
  {
    forall k | 0 <= k <= |flow[1..]|
      ensures TellAll(News(shared, ws), flow[1..][k..], ws) == News(shared, ws)
    {
      assert flow[1..][k..] == flow[k + 1..];
    }
  }

  lemma ConvergesUpdate(shared: map<WorkspaceId, bool>, flow: seq<HookEvent>, e: HookEvent, c: Replica, ws: WorkspaceId)
    requires Converges(shared, flow, c, ws) && PassedOn(shared, e)
    requires e.Create? ==> e.ws !in shared
    ensures Converges(ApplyToMap(shared, e), flow + [e], c, ws)
  {
    TellExtend(StatusOf(c, ws), flow, e, ws);
  }

  // ---------- what one notification does to a standing ----------

  lemma {:induction false} FirstOfAppended(list: seq<Entry>, e: Entry, ws: WorkspaceId)
    ensures First(list + [e], ws) == if First(list, ws).Some? then First(list, ws)
                                     else if e.ws == ws then Some(e.h) else None
  {
    if list == [] {
      assert list + [e] == [e];
      assert First([e][1..], ws) == None;
    } else {
      assert (list + [e])[1..] == list[1..] + [e];
      FirstOfAppended(list[1..], e, ws);
    }
  }

  lemma {:induction false} FirstOfDropped(list: seq<Entry>, gone: WorkspaceId, ws: WorkspaceId)
    ensures First(Drop(list, gone), ws) == if ws == gone then None else First(list, ws)
  {
    if list != [] {
      FirstOfDropped(list[1..], gone, ws);
      if list[0].ws != gone {
        assert Drop(list, gone)[1..] == Drop(list[1..], gone);
      }
    }
  }

  /** Different workspaces have different first handles. */
  lemma FirstsDiffer(c: Replica, ws: WorkspaceId, other: WorkspaceId)
    requires ReplicaOk(c) && ws != other
    requires First(c.list, ws).Some? && First(c.list, other).Some?
    ensures First(c.list, ws) != First(c.list, other)
  {
    FirstIs(c.list, ws);
    FirstIs(c.list, other);
  }

  lemma StatusCreated(c: Replica, made: WorkspaceId, ws: WorkspaceId)
    requires ReplicaOk(c)
    ensures ReplicaOk(Created(c, made))
    ensures StatusOf(Created(c, made), ws) == Tell(StatusOf(c, ws), Create(made), ws)
  {
    CreatedOk(c, made);
    FirstOfAppended(c.list, Entry(made, c.nextHandle), ws);
  }

  lemma StatusMarked(c: Replica, marked: WorkspaceId, active: bool, ws: WorkspaceId)
    requires ReplicaOk(c)
    ensures ReplicaOk(Marked(c, marked, active))
    ensures StatusOf(Marked(c, marked, active), ws) ==
              if ws == marked && StatusOf(c, ws) != NoHandle then Told(active) else StatusOf(c, ws)
  {
    MarkedOk(c, marked, active);
    if ws != marked && First(c.list, ws).Some? && First(c.list, marked).Some? {
      FirstsDiffer(c, ws, marked);
    }
  }

  lemma StatusDestroyed(c: Replica, gone: WorkspaceId, ws: WorkspaceId)
    requires ReplicaOk(c)
    ensures ReplicaOk(Destroyed(c, gone))
    ensures StatusOf(Destroyed(c, gone), ws) == Tell(StatusOf(c, ws), Destroy(gone), ws)
  {
    DestroyedOk(c, gone);
    FirstOfDropped(c.list, gone, ws);
  }

  lemma StatusFinished(c: Replica, ws: WorkspaceId)
    requires ReplicaOk(c)
    ensures StatusOf(Finished(c), ws) == StatusOf(c, ws)
  {
    FinishedOk(c);
  }

  lemma StatusHandled(c: Replica, e: HookEvent, ws: WorkspaceId)
    requires ReplicaOk(c)
    ensures StatusOf(Handle(c, e), ws) == Tell(StatusOf(c, ws), e, ws)
  {
    match e
    case Create(made) => StatusCreated(c, made, ws); StatusFinished(Created(c, made), ws);
    case Activate(marked) => StatusMarked(c, marked, true, ws); StatusFinished(Marked(c, marked, true), ws);
    case Deactivate(marked) => StatusMarked(c, marked, false, ws); StatusFinished(Marked(c, marked, false), ws);
    case Destroy(gone) => StatusDestroyed(c, gone, ws); StatusFinished(Destroyed(c, gone), ws);
  }

  lemma {:induction false} StatusSnapshot(c: Replica, shared: map<WorkspaceId, bool>, order: seq<WorkspaceId>, ws: WorkspaceId)
    requires ReplicaOk(c) && Distinct(order) && forall x :: x in order ==> x in shared
    requires forall x :: x in order ==> StatusOf(c, x) == NoHandle
    ensures StatusOf(Snapshot(c, shared, order), ws) ==
              if ws in order then Told(shared[ws]) else StatusOf(c, ws)
    decreases |order|
  {
    if order != [] {
      var head, rest := order[0], order[1..];
      var c1 := Created(c, head);
      var c2 := Marked(c1, head, shared[head]);
      assert forall j :: 0 <= j < |rest| ==> rest[j] == order[j + 1] && order[j + 1] != order[0];
      CreatedOk(c, head);
      MarkedOk(c1, head, shared[head]);
      forall x
        ensures StatusOf(c2, x) == if x == head then Told(shared[head]) else StatusOf(c, x)
      {
        assert head in order;
        StatusCreated(c, head, x);
        StatusMarked(c1, head, shared[head], x);
      }
      StatusSnapshot(c2, shared, rest, ws);
    }
  }

  /** A client that has just bound has been told the map, states and all. */
  lemma StatusBound(shared: map<WorkspaceId, bool>, order: seq<WorkspaceId>, ws: WorkspaceId)
    requires Distinct(order) && forall x :: x in order <==> x in shared
    ensures ReplicaOk(Bound(shared, order)) && StatusOf(Bound(shared, order), ws) == News(shared, ws)
  {
    GreetingOk();
    SnapshotOk(Greeting(), shared, order);
    FinishedOk(Snapshot(Greeting(), shared, order));
    StatusSnapshot(Greeting(), shared, order, ws);
  }

  // ---------- every step keeps the invariant ----------

  lemma FreshToAll(s: Server, e: HookEvent)
    requires ServerOk(s) && (e.Create? ==> LawfulNext(s.history, e))
    ensures e.Create? ==> e.ws !in s.shared && forall i :: 0 <= i < |Flow(s)| ==> Flow(s)[i].ws != e.ws
  {
    if e.Create? && e.ws in s.shared {
      MirroredWasNamed(s.history, e.ws);
    }
    if e.Create? {
      forall i | 0 <= i < |Flow(s)| ensures Flow(s)[i].ws != e.ws {
        assert Flow(s)[i] in s.history;
      }
    }
  }

  lemma UpdateKeepsOk(s: Server, e: HookEvent)
    requires ServerOk(s) && StepEnabled(s, Update(e))
    ensures ServerOk(Next(s, Update(e)))
  {
    var s' := Next(s, Update(e));
    Extend(s.history, e);
    FreshToAll(s, e);
    if PassedOn(s.shared, e) {
      assert Flow(s') == Flow(s) + [e];
      assert s'.history[|s.history|] == e;
      forall ws ensures Absorbs(s'.shared, Flow(s'), ws) {
        AbsorbsUpdate(s.shared, Flow(s), e, ws);
      }
      forall i, ws | 0 <= i < |s'.clients| ensures Converges(s'.shared, Flow(s'), s'.clients[i], ws) {
        ConvergesUpdate(s.shared, Flow(s), e, s.clients[i], ws);
      }
    } else {
      NotPassedOn(s.shared, e);
    }
  }

  lemma HeadKeepsSound(shared: map<WorkspaceId, bool>, flow: seq<HookEvent>, clients: seq<Replica>, history: seq<HookEvent>)
    requires Sound(shared, flow, clients, history) && flow != []
    ensures Sound(shared, flow[1..], HandleAll(clients, flow[0]), history)
  {
    var clients' := HandleAll(clients, flow[0]);
    forall ws ensures Absorbs(shared, flow[1..], ws) {
      AbsorbsTail(shared, flow, ws);
    }
    forall i | 0 <= i < |clients'| ensures ReplicaOk(clients'[i]) && Closed(clients'[i]) {
      HandleOk(clients[i], flow[0]);
    }
    forall i, ws | 0 <= i < |clients'| ensures Converges(shared, flow[1..], clients'[i], ws) {
      StatusHandled(clients[i], flow[0], ws);
      assert Converges(shared, flow, clients[i], ws);
    }
  }

  lemma BindKeepsSound(shared: map<WorkspaceId, bool>, flow: seq<HookEvent>, clients: seq<Replica>,
                       history: seq<HookEvent>, order: seq<WorkspaceId>)
    requires Sound(shared, flow, clients, history)
    requires Distinct(order) && forall ws :: ws in order <==> ws in shared
    ensures Sound(shared, flow, clients + [Bound(shared, order)], history)
  {
    var c := Bound(shared, order);
    BoundOk(shared, order);
    forall ws ensures Converges(shared, flow, c, ws) {
      StatusBound(shared, order, ws);
      assert Absorbs(shared, flow, ws);
      assert flow[0..] == flow;
    }
  }

  lemma DisconnectKeepsSound(shared: map<WorkspaceId, bool>, flow: seq<HookEvent>, clients: seq<Replica>,
                             history: seq<HookEvent>, i: nat)
    requires Sound(shared, flow, clients, history) && i < |clients|
    ensures Sound(shared, flow, clients[..i] + clients[i + 1..], history)
  {
    var clients' := clients[..i] + clients[i + 1..];
    forall j | 0 <= j < |clients'| ensures clients'[j] == clients[if j < i then j else j + 1] {
    }
    forall j, ws | 0 <= j < |clients'| ensures Converges(shared, flow, clients'[j], ws) {
      assert Converges(shared, flow, clients[if j < i then j else j + 1], ws);
    }
  }

  lemma StepKeepsOk(s: Server, step: ServerStep)
    requires ServerOk(s) && StepEnabled(s, step)
    ensures ServerOk(Next(s, step))
  {
    var s' := Next(s, step);
    match step
    case Update(e) => UpdateKeepsOk(s, e);
    case Enqueue =>
      assert Flow(s') == Flow(s);
    case RunHead =>
      assert Flow(s') == Flow(s)[1..] && Flow(s)[0] == s.queue[0];
      HeadKeepsSound(s.shared, Flow(s), s.clients, s.history);
    case Bind(order) =>
      assert Flow(s') == Flow(s);
      BindKeepsSound(s.shared, Flow(s), s.clients, s.history, order);
    case Disconnect(i) =>
      assert Flow(s') == Flow(s);
      DisconnectKeepsSound(s.shared, Flow(s), s.clients, s.history, i);
  }

  // ---------- runs ----------

  ghost predicate ServerRunEnabled(s: Server, run: seq<ServerStep>)
    decreases |run|
  {
    run == [] || (StepEnabled(s, run[0]) && ServerRunEnabled(Next(s, run[0]), run[1..]))
  }

  ghost function ServerAfter(s: Server, run: seq<ServerStep>): Server
    requires ServerRunEnabled(s, run)
    decreases |run|
  {
    if run == [] then s else ServerAfter(Next(s, run[0]), run[1..])
  }

  lemma {:induction false} RunKeepsOk(s: Server, run: seq<ServerStep>)
    requires ServerOk(s) && ServerRunEnabled(s, run)
    ensures ServerOk(ServerAfter(s, run))
    decreases |run|
  {
    if run != [] {
      StepKeepsOk(s, run[0]);
      RunKeepsOk(Next(s, run[0]), run[1..]);
    }
  }

  lemma IdleOk()
    ensures ServerOk(IDLE)
  {
    forall ws ensures Absorbs(IDLE.shared, Flow(IDLE), ws) {
    }
  }

  // ---------- what a client ends up with ----------

  /** The client once everything in the flow has been carried out for it. */
  function Drained(c: Replica, es: seq<HookEvent>): Replica
    decreases |es|
  {
    if es == [] then c else Drained(Handle(c, es[0]), es[1..])
  }

  lemma {:induction false} StatusDrained(c: Replica, es: seq<HookEvent>, ws: WorkspaceId)
    requires ReplicaOk(c)
    ensures ReplicaOk(Drained(c, es)) && StatusOf(Drained(c, es), ws) == TellAll(StatusOf(c, ws), es, ws)
    decreases |es|
  {
    if es != [] {
      HandleOk(c, es[0]);
      StatusHandled(c, es[0], ws);
      StatusDrained(Handle(c, es[0]), es[1..], ws);
    }
  }

  predicate Lists(c: Replica, ws: WorkspaceId) {
    exists k :: 0 <= k < |c.list| && c.list[k].ws == ws
  }

  lemma ListsIff(c: Replica, ws: WorkspaceId)
    ensures Lists(c, ws) <==> StatusOf(c, ws) != NoHandle
  {
    FirstIs(c.list, ws);
  }

  /** Convergence under every interleaving: in any reachable state, each bound client ends,
      once the flow has been carried out, with handles for exactly the workspaces of the map,
      and the first handle of each is active exactly if the map says so. */
  lemma ClientsConverge(run: seq<ServerStep>, i: nat, ws: WorkspaceId)
    requires ServerRunEnabled(IDLE, run) && i < |ServerAfter(IDLE, run).clients|
    ensures var s := ServerAfter(IDLE, run); var c := Drained(s.clients[i], Flow(s));
            && (Lists(c, ws) <==> ws in s.shared)
            && (ws in s.shared ==> Standing(c, ws) == Some(s.shared[ws]))
            && s.shared == MapAfter(s.history)
  {
    IdleOk();
    RunKeepsOk(IDLE, run);
    var s := ServerAfter(IDLE, run);
    StatusDrained(s.clients[i], Flow(s), ws);
    assert Converges(s.shared, Flow(s), s.clients[i], ws);
    ListsIff(Drained(s.clients[i], Flow(s)), ws);
  }

  /** At all times, drained or not, a client's handles carry their list position as name and
      coordinate, its live handles are those of its list, each advertised as one that can be
      activated, in a group that can do nothing, and its trace has been legal: in particular
      coordinates were unique at every `done`. */
  lemma ClientsNumbered(run: seq<ServerStep>, i: nat)
    requires ServerRunEnabled(IDLE, run) && i < |ServerAfter(IDLE, run).clients|
    ensures var c := ServerAfter(IDLE, run).clients[i]; var v := Seen(c);
            && LegalAll(BLANK, c.trace) && Closed(c)
            && (forall k :: 0 <= k < |c.list| ==> c.list[k].h in v.names && v.names[c.list[k].h] == k + 1)
            && (forall k :: 0 <= k < |c.list| ==> c.list[k].h in v.coords && v.coords[c.list[k].h] == (k + 1, 0))
            && (forall h :: h in v.live <==> exists k :: 0 <= k < |c.list| && c.list[k].h == h)
            && (forall h :: h in v.live ==> h in v.caps && v.caps[h] == 1)
            && v.group && v.groupCaps == Some(0)
  {
    IdleOk();
    RunKeepsOk(IDLE, run);
    assert ReplicaOk(ServerAfter(IDLE, run).clients[i]);
  }

  // ---------- order ----------

  function NamesOf(list: seq<Entry>): (r: seq<WorkspaceId>)
    ensures |r| == |list| && forall k :: 0 <= k < |r| ==> r[k] == list[k].ws
  {
    if list == [] then [] else [list[0].ws] + NamesOf(list[1..])
  }

  function FoldList(list: seq<WorkspaceId>, es: seq<HookEvent>): seq<WorkspaceId>
    decreases |es|
  {
    if es == [] then list else FoldList(ApplyToList(list, es[0]), es[1..])
  }

  lemma {:induction false} FoldExtend(list: seq<WorkspaceId>, es: seq<HookEvent>, e: HookEvent)
    ensures FoldList(list, es + [e]) == ApplyToList(FoldList(list, es), e)
    decreases |es|
  {
    if es == [] {
      assert es + [e] == [e];
      assert FoldList(ApplyToList(list, e), [e][1..]) == ApplyToList(list, e);
    } else {
      assert (es + [e])[1..] == es[1..] + [e];
      FoldExtend(ApplyToList(list, es[0]), es[1..], e);
    }
  }

  lemma {:induction false} NamesOfDropped(list: seq<Entry>, ws: WorkspaceId)
    ensures NamesOf(Drop(list, ws)) == Without(NamesOf(list), ws)
  {
    if list != [] {
      NamesOfDropped(list[1..], ws);
      assert NamesOf(list)[1..] == NamesOf(list[1..]);
    }
  }

  lemma NamesCreated(c: Replica, ws: WorkspaceId)
    ensures NamesOf(Created(c, ws).list) == NamesOf(c.list) + [ws]
  {
  }

  lemma NamesHandled(c: Replica, e: HookEvent)
    ensures NamesOf(Handle(c, e).list) == ApplyToList(NamesOf(c.list), e)
  {
    match e
    case Create(ws) => NamesCreated(c, ws);
    case Destroy(ws) => NamesOfDropped(c.list, ws);
    case Activate(ws) => assert Marked(c, ws, true).list == c.list;
    case Deactivate(ws) => assert Marked(c, ws, false).list == c.list;
  }

  lemma {:induction false} NamesDrained(c: Replica, es: seq<HookEvent>)
    ensures NamesOf(Drained(c, es).list) == FoldList(NamesOf(c.list), es)
    decreases |es|
  {
    if es != [] {
      NamesHandled(c, es[0]);
      NamesDrained(Handle(c, es[0]), es[1..]);
    }
  }

  /** The client's list, once drained, is the window manager's list of workspaces, in order. */
  ghost predicate InOrder(s: Server, c: Replica) {
    FoldList(NamesOf(c.list), Flow(s)) == ListAfter(s.history)
  }

  function SeatNext(i: nat, step: ServerStep): Option<nat> {
    match step
    case Disconnect(k) => if k == i then None else if k < i then Some(i - 1) else Some(i)
    case _ => Some(i)
  }

  /** Where the i-th client is listed after a run; nowhere if it has itself gone away. */
  function Seat(i: nat, run: seq<ServerStep>): Option<nat>
    decreases |run|
  {
    if run == [] then Some(i)
    else match SeatNext(i, run[0])
         case None => None
         case Some(j) => Seat(j, run[1..])
  }

  lemma SeatKept(s: Server, step: ServerStep, i: nat)
    requires StepEnabled(s, step) && step.Disconnect? && i < |s.clients| && SeatNext(i, step).Some?
    ensures var s', j := Next(s, step), SeatNext(i, step).value;
            j < |s'.clients| && s'.clients[j] == s.clients[i] && Flow(s') == Flow(s) && s'.history == s.history
  {
  }

  lemma UpdateKeepsOrder(s: Server, e: HookEvent, c: Replica)
    requires StepEnabled(s, Update(e)) && InOrder(s, c)
    ensures InOrder(Next(s, Update(e)), c)
  {
    var s' := Next(s, Update(e));
    Extend(s.history, e);
    if PassedOn(s.shared, e) {
      assert Flow(s') == Flow(s) + [e];
      FoldExtend(NamesOf(c.list), Flow(s), e);
    } else {
      assert Flow(s') == Flow(s);
    }
  }

  lemma HeadKeepsOrder(s: Server, c: Replica)
    requires s.queue != [] && InOrder(s, c)
    ensures InOrder(Next(s, RunHead), Handle(c, s.queue[0]))
  {
    assert Flow(Next(s, RunHead)) == Flow(s)[1..] && Flow(s)[0] == s.queue[0];
    NamesHandled(c, s.queue[0]);
  }

  lemma StepKeepsOrder(s: Server, step: ServerStep, i: nat)
    requires StepEnabled(s, step) && i < |s.clients| && InOrder(s, s.clients[i]) && SeatNext(i, step).Some?
    ensures var s', j := Next(s, step), SeatNext(i, step).value; j < |s'.clients| && InOrder(s', s'.clients[j])
  {
    match step
    case Update(e) => UpdateKeepsOrder(s, e, s.clients[i]);
    case Enqueue => assert Flow(Next(s, step)) == Flow(s);
    case RunHead => HeadKeepsOrder(s, s.clients[i]);
    case Bind(_) => assert Flow(Next(s, step)) == Flow(s);
    case Disconnect(_) => SeatKept(s, step, i);
  }

  lemma NamesOfShown(c: Replica, ws: WorkspaceId, active: bool)
    ensures NamesOf(Marked(Created(c, ws), ws, active).list) == NamesOf(c.list) + [ws]
  {
    NamesCreated(c, ws);
  }

  lemma {:induction false} NamesOfSnapshot(c: Replica, shared: map<WorkspaceId, bool>, order: seq<WorkspaceId>)
    requires forall ws :: ws in order ==> ws in shared
    ensures NamesOf(Snapshot(c, shared, order).list) == NamesOf(c.list) + order
    decreases |order|
  {
    if order != [] {
      NamesOfShown(c, order[0], shared[order[0]]);
      NamesOfSnapshot(Marked(Created(c, order[0]), order[0], shared[order[0]]), shared, order[1..]);
      HeadMoves(NamesOf(c.list), order);
    }
  }

  lemma {:induction false} ListMatchesMap(h: seq<HookEvent>)
    requires Lawful(h)
    ensures Distinct(ListAfter(h)) && forall ws :: ws in ListAfter(h) <==> ws in MapAfter(h)
    decreases |h|
  {
    if h != [] {
      var g, e := h[..|h| - 1], h[|h| - 1];
      assert Lawful(g) by {
        forall i | 0 <= i < |g| ensures LawfulNext(g[..i], g[i]) {
          assert g[..i] == h[..i];
        }
      }
      assert LawfulNext(g, e);
      ListMatchesMap(g);
      match e
      case Create(ws) => if ws in MapAfter(g) { MirroredWasNamed(g, ws); }
      case Destroy(ws) => WithoutKeepsDistinct(ListAfter(g), ws);
      case _ =>
    }
  }

  lemma FirstTwo(list: seq<WorkspaceId>)
    requires Distinct(list) && |list| > 1
    ensures list[0] != list[1] && list[0] in list && list[1] in list
  {
  }

  lemma OneElement(list: seq<WorkspaceId>, only: WorkspaceId)
    requires Distinct(list) && forall ws :: ws in list <==> ws == only
    ensures list == [only]
  {
    assert only in list;
    if |list| > 1 {
      FirstTwo(list);
    }
  }

  /** A client that binds while nothing is under way is in order exactly if the map's own order,
      which is that of pointers, happens to be the window manager's. */
  lemma BindsInOrderIff(s: Server, order: seq<WorkspaceId>)
    requires StepEnabled(s, Bind(order)) && Flow(s) == []
    ensures var s' := Next(s, Bind(order));
            InOrder(s', s'.clients[|s.clients|]) <==> order == ListAfter(s.history)
  {
    NamesOfSnapshot(Greeting(), s.shared, order);
    assert Flow(Next(s, Bind(order))) == [];
  }

  /** In particular if there is a single workspace. Such a client ... */
  lemma BindsInOrder(s: Server, order: seq<WorkspaceId>, only: WorkspaceId)
    requires ServerOk(s) && StepEnabled(s, Bind(order)) && Lawful(s.history)
    requires Flow(s) == [] && s.shared.Keys == {only}
    ensures var s' := Next(s, Bind(order)); InOrder(s', s'.clients[|s.clients|])
  {
    ListMatchesMap(s.history);
    OneElement(order, only);
    OneElement(ListAfter(s.history), only);
    BindsInOrderIff(s, order);
  }

  /** ... has, whenever the flow drains and whoever else comes and goes, its handles in the
      window manager's order. */
  lemma {:induction false} OrderSurvives(s: Server, run: seq<ServerStep>, i: nat)
    requires ServerRunEnabled(s, run) && i < |s.clients| && InOrder(s, s.clients[i])
    requires Seat(i, run).Some?
    ensures var s', j := ServerAfter(s, run), Seat(i, run).value;
            j < |s'.clients| && NamesOf(Drained(s'.clients[j], Flow(s')).list) == ListAfter(s'.history)
    decreases |run|
  {
    if run != [] {
      StepKeepsOrder(s, run[0], i);
      OrderSurvives(Next(s, run[0]), run[1..], SeatNext(i, run[0]).value);
    } else {
      NamesDrained(s.clients[i], Flow(s));
    }
  }

  // ---------- activation requests ----------

  lemma {:induction false} TellWithoutDestroy(x: Status, es: seq<HookEvent>, ws: WorkspaceId)
    requires Destroy(ws) !in es && x != NoHandle
    ensures TellAll(x, es, ws) != NoHandle
    decreases |es|
  {
    if es != [] {
      assert es[0] in es;
      TellWithoutDestroy(Tell(x, es[0], ws), es[1..], ws);
    }
  }

  /** A handle a client still lists names a workspace the window manager still has exactly when
      no destruction of it is under way: the window in which an activate request races. */
  lemma ListedUnlessDoomed(s: Server, i: nat, ws: WorkspaceId)
    requires ServerOk(s) && Lawful(s.history) && i < |s.clients| && Lists(s.clients[i], ws)
    ensures ws in s.shared <==> Destroy(ws) !in Flow(s)
  {
    var c := s.clients[i];
    FirstIs(c.list, ws);
    assert Converges(s.shared, Flow(s), c, ws);
    if Destroy(ws) in Flow(s) {
      assert Destroy(ws) in s.history;
      var j :| 0 <= j < |s.history| && s.history[j] == Destroy(ws);
      GoneForGood(s.history, j, |s.history|);
      assert s.history[..|s.history|] == s.history;
    } else {
      TellWithoutDestroy(StatusOf(c, ws), Flow(s), ws);
    }
  }
}
