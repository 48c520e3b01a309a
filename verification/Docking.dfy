/** The width a window takes each time it is docked to a side edge (miriway_policy.cpp). */
module Docking {
  import opened Wrappers

  datatype Edge = West | East

  /** A window's width, and the edge it is attached to, if it is. */
  datatype Docked = Docked(width: nat, attached: Option<Edge>)

  /** dock_active_window_under_lock, in an application zone `zone` wide whose placement keeps
      the width asked for. */
  function Dock(w: Docked, edge: Edge, zone: nat): Docked {
    var width :=
      if w.attached != Some(edge) then zone / 2
      else if w.width == zone / 2 then zone / 3
      else if w.width < zone / 2 then 2 * zone / 3
      else zone / 2;
    Docked(width, Some(edge))
  }

  function DockTimes(w: Docked, edge: Edge, zone: nat, n: nat): Docked
    decreases n
  {
    if n == 0 then w else Dock(DockTimes(w, edge, zone, n - 1), edge, zone)
  }

  /** Half, a third, two thirds, and round again; n counts from 1. */
  function CycleWidth(zone: nat, n: nat): nat {
    if n % 3 == 1 then zone / 2 else if n % 3 == 2 then zone / 3 else 2 * zone / 3
  }

  lemma {:induction false} DockCycles(w: Docked, edge: Edge, zone: nat, n: nat)
    requires w.attached != Some(edge) && n > 0 && (zone <= 1 || zone >= 5)
    ensures DockTimes(w, edge, zone, n) == Docked(CycleWidth(zone, n), Some(edge))
    decreases n
  {
    if n > 1 {
      DockCycles(w, edge, zone, n - 1);
    } else {
      assert DockTimes(w, edge, zone, 0) == w;
    }
  }

  /** Docking to one edge over and over cycles through the three widths exactly if the zone is
      at least five wide (or has no width to speak of). */
  lemma DockCyclesIff(w: Docked, edge: Edge, zone: nat)
    requires w.attached != Some(edge)
    ensures (forall n: nat :: n > 0 ==> DockTimes(w, edge, zone, n).width == CycleWidth(zone, n)) <==>
              zone <= 1 || zone >= 5
  {
    if zone <= 1 || zone >= 5 {
      forall n: nat | n > 0
        ensures DockTimes(w, edge, zone, n).width == CycleWidth(zone, n)
      {
        DockCycles(w, edge, zone, n);
      }
    } else {
      assert DockTimes(w, edge, zone, 1) == Dock(DockTimes(w, edge, zone, 0), edge, zone);
      assert DockTimes(w, edge, zone, 2) == Dock(DockTimes(w, edge, zone, 1), edge, zone);
      assert DockTimes(w, edge, zone, 3) == Dock(DockTimes(w, edge, zone, 2), edge, zone);
      assert DockTimes(w, edge, zone, 4) == Dock(DockTimes(w, edge, zone, 3), edge, zone);
      assert CycleWidth(zone, 3) == 2 * zone / 3 && CycleWidth(zone, 4) == zone / 2;
    }
  }

  /** Where the next dock takes an attached window in the cycle. */
  function Entry(width: nat, zone: nat): nat {
    if width == zone / 2 then 2 else if width < zone / 2 then 3 else 1
  }

  /** In such a zone one dock brings a window attached there into the cycle, whatever its width,
      and from there on it keeps to it. */
  lemma {:induction false} DockEntersCycle(w: Docked, edge: Edge, zone: nat, n: nat)
    requires w.attached == Some(edge) && (zone <= 1 || zone >= 5)
    ensures DockTimes(w, edge, zone, n + 1) == Docked(CycleWidth(zone, Entry(w.width, zone) + n), Some(edge))
    decreases n
  {
    if n == 0 {
      assert DockTimes(w, edge, zone, 0) == w;
    } else {
      DockEntersCycle(w, edge, zone, n - 1);
    }
  }

  lemma FirstFour(w: Docked, edge: Edge, zone: nat)
    requires w.attached == Some(edge)
    ensures var d1 := Dock(w, edge, zone); var d2 := Dock(d1, edge, zone); var d3 := Dock(d2, edge, zone);
            && DockTimes(w, edge, zone, 0 + 1) == d1 && DockTimes(w, edge, zone, 1 + 1) == d2
            && DockTimes(w, edge, zone, 2 + 1) == d3 && DockTimes(w, edge, zone, 3 + 1) == Dock(d3, edge, zone)
  {
    assert DockTimes(w, edge, zone, 0) == w;
    assert DockTimes(w, edge, zone, 1) == Dock(DockTimes(w, edge, zone, 0), edge, zone);
    assert DockTimes(w, edge, zone, 2) == Dock(DockTimes(w, edge, zone, 1), edge, zone);
    assert DockTimes(w, edge, zone, 3) == Dock(DockTimes(w, edge, zone, 2), edge, zone);
    assert DockTimes(w, edge, zone, 4) == Dock(DockTimes(w, edge, zone, 3), edge, zone);
  }

  /** The width after dock n + 1 is the one the cycle has there. */
  predicate InStep(w: Docked, edge: Edge, zone: nat, n: nat) {
    DockTimes(w, edge, zone, n + 1).width == CycleWidth(zone, Entry(w.width, zone) + n)
  }

  lemma OutOfStep(w: Docked, edge: Edge, zone: nat)
    requires w.attached == Some(edge) && 2 <= zone <= 4
    ensures !InStep(w, edge, zone, 1) || !InStep(w, edge, zone, 2) || !InStep(w, edge, zone, 3)
  {
    FirstFour(w, edge, zone);
  }

  /** In no other zone does any width lead into it. */
  lemma DockEntersCycleIff(w: Docked, edge: Edge, zone: nat)
    requires w.attached == Some(edge)
    ensures (forall n: nat :: InStep(w, edge, zone, n)) <==> zone <= 1 || zone >= 5
  {
    if zone <= 1 || zone >= 5 {
      forall n: nat
        ensures InStep(w, edge, zone, n)
      {
        DockEntersCycle(w, edge, zone, n);
      }
    } else {
      OutOfStep(w, edge, zone);
    }
  }
}
