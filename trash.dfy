/**
 * ATrash: a piece of trash that is inactive while it falls, switches its
 * effects on when it lands, can be picked up for an energy cost, and switches
 * its effects off when destroyed. Unlike a plant it never hands its effects
 * an empty set of cells.
 */
module Trashes {
  import opened Grid
  import opened Triggers
  import opened Tiles

  /**
   * The effect-invoking part of ReceiveEffectTrigger: nothing while inactive,
   * nothing when no triggered cell lies in the area, otherwise the effects
   * receive the triggered cells.
   */
  function TrashDispatch(active: bool, t: TriggerType, requested: set<Point>, area: set<Point>): (r: seq<Emission>)
    ensures |r| <= 1
    ensures !active ==> r == []
    ensures forall e :: e in r ==> e.Activate? && e.trigger == t && e.cells != {} && e.cells <= area
    ensures active && TriggeredLocations(requested, area) != {} ==> r == [Activate(t, TriggeredLocations(requested, area))]
    ensures r == [] <==> !active || TriggeredLocations(requested, area) == {}
  {
    var triggered := TriggeredLocations(requested, area);
    if active && triggered != {} then [Activate(t, triggered)] else []
  }

  class Trash {
    const base: Tile
    var range: int
    var pickUpCost: int
    var active: bool
    var destroyed: bool
    /** Everything this trash has broadcast, dispatched to its effects or subscribed, in order. */
    var emitted: seq<Emission>

    function SubTiles(): set<Point> {
      base.SubTileLocations()
    }

    /** GetEffectLocations: the sub-tiles scaled up by the range. */
    function GetEffectLocations(): (r: set<Point>)
      reads this
      ensures CoveringScale(base.geo.scale) && range >= 0 ==> SubTiles() <= r
    {
      base.geo.scale(SubTiles(), range)
    }

    /**
     * OnConstruction: the relative sub-tiles are extended with the origin. The
     * trash starts inactive, before it has fallen.
     */
    constructor (transform: GridTransform, relative: set<Point>, geo: Geometry, range: int, pickUpCost: int)
      ensures fresh(base) && base.Valid()
      ensures base.relative == relative + {Origin}
      ensures this.range == range && this.pickUpCost == pickUpCost
      ensures !active && !destroyed && emitted == []
    {
      base := new Tile(transform, relative, geo);
      this.range := range;
      this.pickUpCost := pickUpCost;
      active := false;
      destroyed := false;
      emitted := [];
    }

    /** BeginPlay: TrashSpawned is broadcast before the trash subscribes, so it never receives its own spawn. */
    method BeginPlay()
      modifies this
      ensures emitted == old(emitted) + [Broadcast(TrashSpawned, SubTiles()), Subscribe]
      ensures range == old(range) && pickUpCost == old(pickUpCost) && active == old(active) && destroyed == old(destroyed)
    {
      var cells := base.GetSubTileLocations();
      emitted := emitted + [Broadcast(TrashSpawned, cells)];
      emitted := emitted + [Subscribe];
    }

    /** OnFinishedFalling: the trash becomes active and activates its effects over the whole area. */
    method OnFinishedFalling()
      modifies this
      ensures active
      ensures emitted == old(emitted) + TrashDispatch(true, OnActivated, {}, GetEffectLocations())
      ensures range == old(range) && pickUpCost == old(pickUpCost) && destroyed == old(destroyed)
    {
      active := true;
      ReceiveEffectTrigger(OnActivated, {});
    }

    /** Destroyed: the effects are deactivated over the whole area before the trash goes. */
    method Destroyed()
      modifies this
      ensures destroyed
      ensures emitted == old(emitted) + TrashDispatch(active, OnDeactivated, {}, GetEffectLocations())
      ensures range == old(range) && pickUpCost == old(pickUpCost) && active == old(active)
    {
      ReceiveEffectTrigger(OnDeactivated, {});
      destroyed := true;
    }

    /**
     * PickUp: succeeds exactly when the reserve covers the pick-up cost; then
     * the cost is debited, TrashPickedUp is broadcast with the sub-tiles and
     * the trash is destroyed. The trash is itself subscribed to that broadcast,
     * so its own ReceiveEffectTrigger runs on it before the destruction. On
     * failure nothing changes and nothing is emitted.
     */
    method PickUp(reserve: int) returns (ok: bool, newReserve: int)
      modifies this
      ensures ok <==> old(reserve >= pickUpCost)
      ensures newReserve == if ok then reserve - old(pickUpCost) else reserve
      ensures ok ==> destroyed && emitted == old(emitted) + [Broadcast(TrashPickedUp, SubTiles())]
                                              + TrashDispatch(active, TrashPickedUp, SubTiles(), GetEffectLocations())
                                              + TrashDispatch(active, OnDeactivated, {}, GetEffectLocations())
      ensures !ok ==> emitted == old(emitted) && destroyed == old(destroyed)
      ensures range == old(range) && pickUpCost == old(pickUpCost) && active == old(active)
    {
      if reserve >= pickUpCost {
        newReserve := reserve - pickUpCost;
        var cells := base.GetSubTileLocations();
        emitted := emitted + [Broadcast(TrashPickedUp, cells)];
        ReceiveEffectTrigger(TrashPickedUp, cells);
        Destroyed();
        return true, newReserve;
      }
      return false, reserve;
    }

    /**
     * SetRange_Implementation: the range becomes max(0, newRange); the cells
     * leaving the area are deactivated before the range changes and the cells
     * joining it activated after, each only when there are any.
     */
    method SetRange(newRange: int)
      modifies this
      ensures range == Max(0, newRange)
      ensures emitted == old(emitted) + RangeChangeEmissions(active, old(GetEffectLocations()), GetEffectLocations())
      ensures pickUpCost == old(pickUpCost) && active == old(active) && destroyed == old(destroyed)
    {
      var oldArea := GetEffectLocations();
      var cells := base.GetSubTileLocations();
      var newArea := base.geo.scale(cells, Max(0, newRange));
      var deactivated := oldArea - newArea;
      if deactivated != {} {
        assert TriggeredLocations(deactivated, oldArea) == deactivated;
        ReceiveEffectTrigger(OnDeactivated, deactivated);
      }
      range := Max(0, newRange);
      var activated := newArea - oldArea;
      if activated != {} {
        assert TriggeredLocations(activated, newArea) == activated;
        ReceiveEffectTrigger(OnActivated, activated);
      }
    }

    method ReceiveEffectTrigger(t: TriggerType, requested: set<Point>)
      modifies this
      ensures emitted == old(emitted) + TrashDispatch(active, t, requested, GetEffectLocations())
      ensures range == old(range) && pickUpCost == old(pickUpCost) && active == old(active) && destroyed == old(destroyed)
    {
      if active {
        var area := GetEffectLocations();
        var triggered := if requested == {} then area else requested * area;
        if triggered != {} {
          emitted := emitted + [Activate(t, triggered)];
        }
      }
    }
  }
}
