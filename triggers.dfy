/**
 * Trigger types and what a tile emits. A broadcast on the world's tile-effect
 * delegate, a call of ActivateEffect on each of the tile's own effect
 * components, a subscription to the delegate and the damage report are all
 * recorded, in order, as `Emission`s appended to the tile's log.
 */
module Triggers {
  import opened Grid

  /** The trigger types the core uses (ETileEffectTriggerType). */
  datatype TriggerType =
    | OnActivated
    | OnDeactivated
    | PlantsGrow
    | PlayerTurn
    | PlantSpawned
    | PlantKilled
    | TrashSpawned
    | TrashPickedUp

  datatype Emission =
    | Broadcast(trigger: TriggerType, cells: set<Point>)  // world delegate Broadcast
    | Activate(trigger: TriggerType, cells: set<Point>)   // ActivateEffect on every own effect component
    | Subscribe                                          // AddDynamic of ReceiveEffectTrigger
    | DamageReported(amount: int, killed: bool)          // the OnDamageRecived event

  /** Number of times `e` occurs in `out`. */
  function Count(out: seq<Emission>, e: Emission): nat {
    if out == [] then 0 else (if out[0] == e then 1 else 0) + Count(out[1..], e)
  }

  lemma {:induction false} CountAppend(a: seq<Emission>, b: seq<Emission>, e: Emission)
    ensures Count(a + b, e) == Count(a, e) + Count(b, e)
  {
    if a != [] {
      assert (a + b)[1..] == a[1..] + b;
      CountAppend(a[1..], b, e);
    } else {
      assert a + b == b;
    }
  }

  lemma {:induction false} CountAbsent(out: seq<Emission>, e: Emission)
    requires e !in out
    ensures Count(out, e) == 0
  {
    if out != [] {
      assert out[0] != e;
      assert forall k :: 0 <= k < |out[1..]| ==> out[1..][k] == out[k + 1];
      CountAbsent(out[1..], e);
    }
  }

  /**
   * The cells handed to the effect components for a trigger: the whole effect
   * area when no cells were named, otherwise the named cells inside the area.
   */
  function TriggeredLocations(requested: set<Point>, area: set<Point>): (r: set<Point>)
    ensures r <= area
    ensures requested == {} ==> r == area
    ensures requested != {} ==> (forall c :: c in r <==> c in requested && c in area)
  {
    if requested == {} then area else requested * area
  }

  /**
   * What a range change emits when the tile's effects are switched on (`gate`):
   * first the cells that left the area are deactivated, then the cells that
   * joined it are activated; an empty difference emits nothing.
   */
  function RangeChangeEmissions(gate: bool, oldArea: set<Point>, newArea: set<Point>): (r: seq<Emission>)
    ensures forall e :: e in r ==> e.Activate? && e.cells != {} && e.cells !! (oldArea * newArea)
    ensures forall e :: e in r ==>
              (e.trigger == OnDeactivated && e.cells == oldArea - newArea) || (e.trigger == OnActivated && e.cells == newArea - oldArea)
    ensures (Activate(OnDeactivated, oldArea - newArea) in r) <==> gate && oldArea - newArea != {}
    ensures (Activate(OnActivated, newArea - oldArea) in r) <==> gate && newArea - oldArea != {}
    ensures |r| <= 2
    ensures |r| == 2 ==> r[0].trigger == OnDeactivated && r[1].trigger == OnActivated
  {
    (if gate && oldArea - newArea != {} then [Activate(OnDeactivated, oldArea - newArea)] else [])
    + (if gate && newArea - oldArea != {} then [Activate(OnActivated, newArea - oldArea)] else [])
  }

  /**
   * The area an observer of the emissions believes active: an OnDeactivated
   * takes its cells out, an OnActivated adds its cells, anything else
   * leaves it alone.
   */
  function Replay(area: set<Point>, out: seq<Emission>): set<Point>
    decreases |out|
  {
    if out == [] then area
    else
      var e := out[0];
      var next := if e.Activate? && e.trigger == OnDeactivated then area - e.cells
                  else if e.Activate? && e.trigger == OnActivated then area + e.cells
                  else area;
      Replay(next, out[1..])
  }

  /**
   * Replaying what a range change emits over the old area yields the new
   * area when the tile's effects are on, and leaves the old area when off.
   */
  lemma {:induction false} RangeDeltaRebuildsArea(gate: bool, oldArea: set<Point>, newArea: set<Point>)
    ensures Replay(oldArea, RangeChangeEmissions(gate, oldArea, newArea)) == if gate then newArea else oldArea
  {
    var r := RangeChangeEmissions(gate, oldArea, newArea);
    var deactivate: seq<Emission> := if gate && oldArea - newArea != {} then [Activate(OnDeactivated, oldArea - newArea)] else [];
    var activate: seq<Emission> := if gate && newArea - oldArea != {} then [Activate(OnActivated, newArea - oldArea)] else [];
    assert r == deactivate + activate;
    var mid := if deactivate == [] then oldArea else oldArea - (oldArea - newArea);
    if deactivate != [] {
      assert r[1..] == activate;
    }
    assert Replay(oldArea, r) == Replay(mid, activate);
    if activate != [] {
      assert activate[1..] == [];
      assert Replay(mid, activate) == Replay(mid + (newArea - oldArea), []);
    }
    if gate {
      if oldArea - newArea == {} {
        assert forall c :: c in oldArea ==> c in newArea by {
          forall c | c in oldArea ensures c in newArea {
            assert c !in oldArea - newArea;
          }
        }
      }
      assert mid == oldArea * newArea;
      if newArea - oldArea == {} {
        assert forall c :: c in newArea ==> c in oldArea by {
          forall c | c in newArea ensures c in oldArea {
            assert c !in newArea - oldArea;
          }
        }
        assert mid == newArea;
      } else {
        assert mid + (newArea - oldArea) == newArea;
      }
    }
  }

  /** Shrinking the range under a monotone ScaleShapeUp only ever deactivates. */
  lemma ShrinkOnlyDeactivates(scale: (set<Point>, int) -> set<Point>, cells: set<Point>, gate: bool, r1: int, r2: int)
    requires MonotoneScale(scale)
    requires 0 <= r2 <= r1
    ensures RangeChangeEmissions(gate, scale(cells, r1), scale(cells, r2))
         == if gate && scale(cells, r1) - scale(cells, r2) != {}
            then [Activate(OnDeactivated, scale(cells, r1) - scale(cells, r2))] else []
  {
    ScaleMonotoneBetween(scale, cells, r2, r1);
    assert scale(cells, r2) - scale(cells, r1) == {};
  }

  /** Growing the range under a monotone ScaleShapeUp only ever activates. */
  lemma GrowOnlyActivates(scale: (set<Point>, int) -> set<Point>, cells: set<Point>, gate: bool, r1: int, r2: int)
    requires MonotoneScale(scale)
    requires 0 <= r1 <= r2
    ensures RangeChangeEmissions(gate, scale(cells, r1), scale(cells, r2))
         == if gate && scale(cells, r2) - scale(cells, r1) != {}
            then [Activate(OnActivated, scale(cells, r2) - scale(cells, r1))] else []
  {
    ScaleMonotoneBetween(scale, cells, r1, r2);
    assert scale(cells, r1) - scale(cells, r2) == {};
  }
}
