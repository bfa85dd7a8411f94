/**
 * UApplyField: the effect component that applies a field to the ground
 * planes and to the tiles inside its area, remembering what it has affected
 * so that nothing is applied twice before the next Unaffect, and so that
 * Unaffect can take back exactly what was applied.
 *
 * Liveness of planes and tiles (the engine's IsValid) is a set of live
 * handles passed in; the world's ground planes and the tiles the overlap query finds
 * are parameters as well.
 */
module FieldEffects {
  import opened Grid
  import opened Triggers
  import opened Fields
  import opened Tiles

  datatype PlaneCall = ApplyCall(field: FieldType, cells: set<Point>) | RemoveCall(field: FieldType, cells: set<Point>)

  /**
   * AGroundPlane, seen only through the calls it receives. Whether its
   * ApplyField reports success (`accepts`) is fixed per plane.
   */
  class GroundPlane {
    const accepts: bool
    var calls: seq<PlaneCall>

    constructor (accepts: bool)
      ensures this.accepts == accepts && calls == []
    {
      this.accepts := accepts;
      calls := [];
    }

    method ApplyField(t: FieldType, cells: set<Point>) returns (ok: bool)
      modifies this
      ensures ok == accepts
      ensures calls == old(calls) + [ApplyCall(t, cells)]
    {
      calls := calls + [ApplyCall(t, cells)];
      ok := accepts;
    }

    method RemoveField(t: FieldType, cells: set<Point>)
      modifies this
      ensures calls == old(calls) + [RemoveCall(t, cells)]
    {
      calls := calls + [RemoveCall(t, cells)];
    }
  }

  /** The planes a first Affect keeps: those that are live and accepted the field. */
  function AcceptingPlanes(world: set<GroundPlane>, livePlanes: set<GroundPlane>): (r: set<GroundPlane>)
    ensures r <= world && r <= livePlanes
    ensures forall p :: p in world && p in livePlanes && p.accepts ==> p in r
    ensures forall p :: p in r ==> p.accepts
  {
    set p | p in world && p in livePlanes && p.accepts
  }

  /**
   * The first Affect's search: every live plane of the world is handed the
   * field on `cells`, and those that accept it are returned.
   */
  method ApplyToWorldPlanes(t: FieldType, cells: set<Point>, world: set<GroundPlane>, livePlanes: set<GroundPlane>)
    returns (found: set<GroundPlane>)
    modifies world
    ensures found == AcceptingPlanes(world, livePlanes)
    ensures forall p :: p in world ==>
              p.calls == if p in livePlanes then old(p.calls) + [ApplyCall(t, cells)] else old(p.calls)
  {
    var remaining := world;
    found := {};
    while remaining != {}
      invariant remaining <= world
      invariant found == AcceptingPlanes(world - remaining, livePlanes)
      invariant forall p :: p in world - remaining ==>
                  p.calls == if p in livePlanes then old(p.calls) + [ApplyCall(t, cells)] else old(p.calls)
      invariant forall p :: p in remaining ==> p.calls == old(p.calls)
      decreases remaining
    {
      var p :| p in remaining;
      if p in livePlanes {
        var ok := p.ApplyField(t, cells);
        if ok {
          found := found + {p};
        }
      }
      remaining := remaining - {p};
    }
  }

  /** A later Affect: every remembered plane that is still live is handed the field on `cells`. */
  method ApplyToKnownPlanes(t: FieldType, cells: set<Point>, planes: set<GroundPlane>, livePlanes: set<GroundPlane>)
    modifies planes
    ensures forall p :: p in planes ==>
              p.calls == if p in livePlanes then old(p.calls) + [ApplyCall(t, cells)] else old(p.calls)
  {
    var remaining := planes;
    while remaining != {}
      invariant remaining <= planes
      invariant forall p :: p in planes - remaining ==>
                  p.calls == if p in livePlanes then old(p.calls) + [ApplyCall(t, cells)] else old(p.calls)
      invariant forall p :: p in remaining ==> p.calls == old(p.calls)
      decreases remaining
    {
      var p :| p in remaining;
      if p in livePlanes {
        var _ := p.ApplyField(t, cells);
      }
      remaining := remaining - {p};
    }
  }

  /** Every tile of `tiles` receives the field exactly once. */
  method ApplyToTiles(t: FieldType, tiles: set<Tile>)
    requires forall u :: u in tiles ==> u.Valid()
    modifies tiles
    ensures forall u :: u in tiles ==> u.Valid() && u.fieldsToStrengths == Applied(old(u.fieldsToStrengths), t)
  {
    var remaining := tiles;
    while remaining != {}
      invariant remaining <= tiles
      invariant forall u :: u in tiles - remaining ==> u.Valid() && u.fieldsToStrengths == Applied(old(u.fieldsToStrengths), t)
      invariant forall u :: u in remaining ==> u.Valid() && u.fieldsToStrengths == old(u.fieldsToStrengths)
      decreases remaining
    {
      var u :| u in remaining;
      u.ApplyField(t);
      remaining := remaining - {u};
    }
  }

  class ApplyField {
    const fieldType: FieldType
    const triggers: set<TriggerType>
    /** The cells this component has affected since the last Unaffect. */
    var effectedLocations: set<Point>
    /** The ground planes that accepted the field, found on the first Affect. */
    var effectedGroundPlanes: set<GroundPlane>
    /** The tiles this component has applied its field to since the last Unaffect. */
    var effectedTiles: set<Tile>

    /** The component reacts to OnActivated, PlantSpawned and TrashSpawned, and affects nothing yet. */
    constructor (fieldType: FieldType)
      ensures this.fieldType == fieldType
      ensures triggers == {OnActivated, PlantSpawned, TrashSpawned}
      ensures effectedLocations == {} && effectedGroundPlanes == {} && effectedTiles == {}
    {
      this.fieldType := fieldType;
      triggers := {OnActivated, PlantSpawned, TrashSpawned};
      effectedLocations := {};
      effectedGroundPlanes := {};
      effectedTiles := {};
    }

    /**
     * Affect: the planes receive the field only on the cells not yet affected;
     * when no plane is known yet, every live plane of the world is tried and
     * those that accept are remembered. Every tile the overlap query finds that
     * has not had the field receives it once and is remembered. The affected
     * cells then grow by `locations` (the base class's Affect).
     */
    method Affect(locations: set<Point>, world: set<GroundPlane>, livePlanes: set<GroundPlane>,
                  overlapping: set<Tile>)
      requires forall u :: u in overlapping ==> u.Valid()
      modifies this, (if effectedGroundPlanes == {} then world else effectedGroundPlanes), overlapping
      ensures effectedLocations == old(effectedLocations) + locations
      ensures old(effectedGroundPlanes) == {} ==> effectedGroundPlanes == AcceptingPlanes(world, livePlanes)
      ensures old(effectedGroundPlanes) != {} ==> effectedGroundPlanes == old(effectedGroundPlanes)
      ensures forall p :: p in (if old(effectedGroundPlanes) == {} then world else old(effectedGroundPlanes)) ==>
                p.calls == if p in livePlanes then old(p.calls) + [ApplyCall(fieldType, locations - old(effectedLocations))]
                           else old(p.calls)
      ensures effectedTiles == old(effectedTiles) + overlapping
      ensures forall u :: u in overlapping ==> u.Valid()
      ensures forall u :: u in overlapping && u !in old(effectedTiles) ==>
                u.fieldsToStrengths == Applied(old(u.fieldsToStrengths), fieldType)
      ensures forall u :: u in overlapping && u in old(effectedTiles) ==>
                u.fieldsToStrengths == old(u.fieldsToStrengths) && u.customData == old(u.customData)
    {
      var newlyEffected := locations - effectedLocations;
      if effectedGroundPlanes == {} {
        var found := ApplyToWorldPlanes(fieldType, newlyEffected, world, livePlanes);
        effectedGroundPlanes := found;
      } else {
        ApplyToKnownPlanes(fieldType, newlyEffected, effectedGroundPlanes, livePlanes);
      }
      AffectTiles(overlapping);
      effectedLocations := effectedLocations + locations;
    }

    /** The tile half of Affect: each tile not yet affected receives the field once and is remembered. */
    method AffectTiles(overlapping: set<Tile>)
      requires forall u :: u in overlapping ==> u.Valid()
      modifies this`effectedTiles, overlapping
      ensures effectedTiles == old(effectedTiles) + overlapping
      ensures forall u :: u in overlapping ==> u.Valid()
      ensures forall u :: u in overlapping && u !in old(effectedTiles) ==>
                u.fieldsToStrengths == Applied(old(u.fieldsToStrengths), fieldType)
      ensures forall u :: u in overlapping && u in old(effectedTiles) ==>
                u.fieldsToStrengths == old(u.fieldsToStrengths) && u.customData == old(u.customData)
    {
      var todo := overlapping - effectedTiles;
      ApplyToTiles(fieldType, todo);
      effectedTiles := effectedTiles + todo;
    }

    /**
     * Unaffect: the invalid planes are pruned from the cache, every remaining
     * plane has the field removed from all affected cells, every still-valid
     * affected tile has it removed once, and both caches are cleared.
     */
    method Unaffect(livePlanes: set<GroundPlane>, liveTiles: set<Tile>)
      requires forall u :: u in effectedTiles && u in liveTiles ==> u.Valid()
      modifies this, effectedGroundPlanes, effectedTiles
      ensures effectedGroundPlanes == old(effectedGroundPlanes) * livePlanes
      ensures forall p :: p in old(effectedGroundPlanes) ==>
                p.calls == if p in livePlanes then old(p.calls) + [RemoveCall(fieldType, old(effectedLocations))]
                           else old(p.calls)
      ensures forall u :: u in old(effectedTiles) && u in liveTiles ==>
                u.Valid() && u.fieldsToStrengths == Removed(old(u.fieldsToStrengths), fieldType)
      ensures forall u :: u in old(effectedTiles) && u !in liveTiles ==>
                u.fieldsToStrengths == old(u.fieldsToStrengths) && u.customData == old(u.customData)
      ensures effectedTiles == {} && effectedLocations == {}
    {
      PruneInvalidPlanes(livePlanes);
      RemoveFromPlanes(fieldType, effectedLocations, effectedGroundPlanes);
      RemoveFromTiles(fieldType, effectedTiles, liveTiles);
      effectedTiles := {};
      effectedLocations := {};
    }

    /** The pruning loop of Unaffect: every plane that is no longer live leaves the cache. */
    method PruneInvalidPlanes(livePlanes: set<GroundPlane>)
      modifies this`effectedGroundPlanes
      ensures effectedGroundPlanes == old(effectedGroundPlanes) * livePlanes
    {
      var scan := effectedGroundPlanes;
      while scan != {}
        invariant scan <= old(effectedGroundPlanes)
        invariant effectedGroundPlanes == (old(effectedGroundPlanes) - scan) * livePlanes + scan
        decreases scan
      {
        var p :| p in scan;
        if p !in livePlanes {
          effectedGroundPlanes := effectedGroundPlanes - {p};
        }
        scan := scan - {p};
      }
    }
  }

  /** Every plane of the (already pruned) cache has the field removed from `cells`. */
  method RemoveFromPlanes(t: FieldType, cells: set<Point>, planes: set<GroundPlane>)
    modifies planes
    ensures forall p :: p in planes ==> p.calls == old(p.calls) + [RemoveCall(t, cells)]
  {
    var remaining := planes;
    while remaining != {}
      invariant remaining <= planes
      invariant forall p :: p in planes - remaining ==> p.calls == old(p.calls) + [RemoveCall(t, cells)]
      invariant forall p :: p in remaining ==> p.calls == old(p.calls)
      decreases remaining
    {
      var p :| p in remaining;
      p.RemoveField(t, cells);
      remaining := remaining - {p};
    }
  }

  /** Every live tile of `tiles` has the field removed once; the others are skipped. */
  method RemoveFromTiles(t: FieldType, tiles: set<Tile>, liveTiles: set<Tile>)
    requires forall u :: u in tiles && u in liveTiles ==> u.Valid()
    modifies tiles
    ensures forall u :: u in tiles && u in liveTiles ==>
              u.Valid() && u.fieldsToStrengths == Removed(old(u.fieldsToStrengths), t)
    ensures forall u :: u in tiles && u !in liveTiles ==>
              u.fieldsToStrengths == old(u.fieldsToStrengths) && u.customData == old(u.customData)
  {
    var remaining := tiles;
    while remaining != {}
      invariant remaining <= tiles
      invariant forall u :: u in tiles - remaining && u in liveTiles ==>
                  u.Valid() && u.fieldsToStrengths == Removed(old(u.fieldsToStrengths), t)
      invariant forall u :: u in tiles && (u in remaining || u !in liveTiles) ==>
                  u.fieldsToStrengths == old(u.fieldsToStrengths) && u.customData == old(u.customData)
      invariant forall u :: u in remaining && u in liveTiles ==> u.Valid()
      decreases remaining
    {
      var u :| u in remaining;
      if u in liveTiles {
        u.RemoveField(t);
      }
      remaining := remaining - {u};
    }
  }

  /**
   * Affect followed by Unaffect, starting from a component that has affected
   * no tile: every tile the Affect reached that is still valid at the Unaffect
   * has exactly the field strengths it had before.
   */
  method AffectThenUnaffect(c: ApplyField, locations: set<Point>, world: set<GroundPlane>,
                            livePlanes: set<GroundPlane>, liveTiles: set<Tile>, overlapping: set<Tile>)
    requires c.effectedTiles == {}
    requires forall u :: u in overlapping ==> u.Valid()
    modifies c, world, c.effectedGroundPlanes, overlapping
    ensures forall u :: u in overlapping && u in liveTiles ==>
              u.Valid() && u.fieldsToStrengths == old(u.fieldsToStrengths)
    ensures c.effectedTiles == {} && c.effectedLocations == {}
  {
    c.Affect(locations, world, livePlanes, overlapping);
    assert c.effectedTiles == overlapping;
    c.Unaffect(livePlanes, liveTiles);
    forall u | u in overlapping && u in liveTiles
      ensures u.fieldsToStrengths == old(u.fieldsToStrengths)
    {
      RemoveUndoesApply(old(u.fieldsToStrengths), c.fieldType);
    }
  }

  /**
   * Affect twice with the same cells: the second call applies the field to no
   * tile and hands the planes no cell, whether or not the first call had to
   * search the world for planes.
   */
  method AffectTwice(c: ApplyField, locations: set<Point>, world: set<GroundPlane>,
                     livePlanes: set<GroundPlane>, overlapping: set<Tile>)
    requires forall u :: u in overlapping ==> u.Valid()
    modifies c, world, c.effectedGroundPlanes, overlapping
    ensures forall u :: u in overlapping && u !in old(c.effectedTiles) ==>
              u.fieldsToStrengths == Applied(old(u.fieldsToStrengths), c.fieldType)
    ensures forall u :: u in overlapping && u in old(c.effectedTiles) ==>
              u.fieldsToStrengths == old(u.fieldsToStrengths)
    ensures old(c.effectedGroundPlanes) != {} ==>
              forall p :: p in old(c.effectedGroundPlanes) && p in livePlanes ==>
                p.calls == old(p.calls) + [ApplyCall(c.fieldType, locations - old(c.effectedLocations)), ApplyCall(c.fieldType, {})]
    ensures old(c.effectedGroundPlanes) == {} ==>
              forall p :: p in world && p in livePlanes ==>
                p.calls == old(p.calls) + [ApplyCall(c.fieldType, locations - old(c.effectedLocations))]
                           + (if AcceptingPlanes(world, livePlanes) == {} || p.accepts then [ApplyCall(c.fieldType, {})] else [])
    ensures old(c.effectedGroundPlanes) == {} ==> c.effectedGroundPlanes == AcceptingPlanes(world, livePlanes)
    ensures c.effectedTiles == old(c.effectedTiles) + overlapping
    ensures c.effectedLocations == old(c.effectedLocations) + locations
  {
    c.Affect(locations, world, livePlanes, overlapping);
    assert locations - c.effectedLocations == {};
    c.Affect(locations, world, livePlanes, overlapping);
  }
}
