/**
 * ATile: a tile placed on the grid with a fixed transform and a set of
 * relative sub-tile locations, holding the field strengths applied to it and
 * one custom-data record per sub-tile mesh instance.
 */
module Tiles {
  import opened Grid
  import opened Fields

  class Tile {
    const location: Point
    const direction: Direction
    /** What GetRelativeSubTileLocations returns for this tile's kind, origin included. */
    const relative: set<Point>
    const geo: Geometry

    var fieldsToStrengths: Strengths
    /** Custom data of the sub-tile mesh instances, one map per instance. */
    var customData: seq<map<FieldType, int>>

    ghost predicate Valid()
      reads this
    {
      && Origin in relative
      && |customData| == |relative|
      && Positive(fieldsToStrengths)
      && FlagsMatch(fieldsToStrengths, customData)
    }

    /**
     * OnConstruction: the field map starts empty and one mesh instance is made
     * for every relative location, the origin always among them. `kindRelative`
     * is the kind's GetRelativeSubTileLocations: {Origin} for a plain tile, the
     * Shape for a plant, the relative sub-tile set for a trash.
     */
    constructor (transform: GridTransform, kindRelative: set<Point>, geo: Geometry)
      ensures Valid()
      ensures location == transform.location && direction == transform.direction && this.geo == geo
      ensures relative == kindRelative + {Origin}
      ensures fieldsToStrengths == map[]
      ensures forall i :: 0 <= i < |customData| ==> customData[i] == map[]
    {
      location := transform.location;
      direction := transform.direction;
      relative := kindRelative + {Origin};
      this.geo := geo;
      fieldsToStrengths := map[];
      customData := seq(|kindRelative + {Origin}|, _ => map[]);
    }

    /** The absolute cells this tile covers: each relative location rotated, then moved to `location`. */
    function SubTileLocations(): set<Point> {
      TransformShape(geo.rotate, relative, GridTransform(location, direction))
    }

    /** GetSubTileLocations: rotate the relative shape, then add `location` to each point in turn. */
    method GetSubTileLocations() returns (r: set<Point>)
      ensures r == SubTileLocations()
      ensures forall q :: q in r <==> exists p :: p in relative && q == Add(geo.rotate(direction, p), location)
    {
      var rotated := RotateShape(geo.rotate, direction, relative);
      var todo := rotated;
      r := {};
      while todo != {}
        invariant todo <= rotated
        invariant r == Translate(rotated - todo, location)
        decreases todo
      {
        var p :| p in todo;
        assert Translate((rotated - todo) + {p}, location) == Translate(rotated - todo, location) + {Add(p, location)};
        assert (rotated - (todo - {p})) == (rotated - todo) + {p};
        r := r + {Add(p, location)};
        todo := todo - {p};
      }
      assert rotated - todo == rotated;
      forall q ensures q in r <==> exists p :: p in relative && q == Add(geo.rotate(direction, p), location) {
        TransformShapeMembers(geo.rotate, relative, GridTransform(location, direction), q);
      }
    }

    /**
     * ApplyField: a present field gains one strength; an absent one is stored
     * with strength 1 and only then is it switched on in every mesh instance.
     */
    method ApplyField(t: FieldType)
      requires Valid()
      modifies this
      ensures Valid()
      ensures fieldsToStrengths == Applied(old(fieldsToStrengths), t)
      ensures customData == if t in old(fieldsToStrengths) then old(customData) else SetFlag(old(customData), t, 1)
    {
      if t in fieldsToStrengths {
        fieldsToStrengths := fieldsToStrengths[t := fieldsToStrengths[t] + 1];
        return;
      }
      fieldsToStrengths := fieldsToStrengths[t := 1];
      SetInstanceFlags(t, 1);
    }

    /**
     * RemoveField: an absent field changes nothing; otherwise its strength drops
     * by one and at zero the entry is deleted and switched off in every instance.
     */
    method RemoveField(t: FieldType)
      requires Valid()
      modifies this
      ensures Valid()
      ensures fieldsToStrengths == Removed(old(fieldsToStrengths), t)
      ensures customData == if t in old(fieldsToStrengths) && old(fieldsToStrengths)[t] <= 1
                            then SetFlag(old(customData), t, 0) else old(customData)
    {
      if t in fieldsToStrengths {
        var newStrength := fieldsToStrengths[t] - 1;
        if newStrength > 0 {
          fieldsToStrengths := fieldsToStrengths[t := newStrength];
        } else {
          fieldsToStrengths := fieldsToStrengths - {t};
          SetInstanceFlags(t, 0);
        }
      }
    }

    /** The loop over mesh instances that writes custom-data slot `t`. */
    method SetInstanceFlags(t: FieldType, v: int)
      modifies this
      ensures fieldsToStrengths == old(fieldsToStrengths)
      ensures customData == SetFlag(old(customData), t, v)
    {
      var i := 0;
      while i < |customData|
        invariant 0 <= i <= |customData| == |old(customData)|
        invariant fieldsToStrengths == old(fieldsToStrengths)
        invariant forall k :: 0 <= k < i ==> customData[k] == old(customData)[k][t := v]
        invariant forall k :: i <= k < |customData| ==> customData[k] == old(customData)[k]
      {
        customData := customData[i := customData[i][t := v]];
        i := i + 1;
      }
      assert customData == SetFlag(old(customData), t, v);
    }
  }
}
