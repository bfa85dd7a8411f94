# Planting Syrup: the turn-driven tile core, in Dafny

This project models the tile logic of the Planting Syrup game. It covers
plants, trash, the field-strength counters every tile carries, and the
`UApplyField` effect component, and proves properties of each operation:
how it changes the state, what it emits, and in which order.

- **Grid** (`grid.dfy`): cells, directions and grid transforms. The grid
  library's rotation (`PointLocationInDirection`) and ring expansion
  (`ScaleShapeUp`) are function values in a `Geometry`. So every property
  about them holds for any rotation and any scaling. Where a lemma needs
  more, it states the assumption as a predicate: `MonotoneScale` or
  `CoveringScale`.
- **Triggers** (`triggers.dfy`): the trigger types. Each tile records what it
  does, in order, in an append-only log of `Emission`s:
  - `Broadcast` is a broadcast on the world's tile-effect delegate. A
    subscribed tile also receives its own broadcast, and what its own
    `ReceiveEffectTrigger` then emits follows the `Broadcast` in the log;
  - `Activate` is `ActivateEffect` called on every one of the tile's own
    effect components;
  - `Subscribe` is the delegate subscription;
  - `DamageReported` is the `OnDamageRecived` event.

  The module also holds the two rules that plants and trash share: location
  filtering (`TriggeredLocations`) and the range-change delta
  (`RangeChangeEmissions`).
- **Fields** (`fields.dfy`): the `FieldsToStrengths` counter map and the
  per-instance custom-data flags, as values.
- **Tiles** (`tile.dfy`): class `Tile` with its transform, relative sub-tiles,
  counter map and custom data; `ApplyField`, `RemoveField` and
  `GetSubTileLocations` are methods.
- **Plants** (`plant.dfy`): the lifecycle of `APlant`, in two layers.
  - A pure step function on `PlantState` gives each operation its meaning;
    the lemmas are stated over these functions.
  - Class `Plant` performs the operation on its fields; each method is proved
    to equal its step function.
  - Sowing, with and without an energy reserve.
  - For the two defects listed under Findings, a function records the source
    as written; the class and the run lemmas use the corrected behaviour.
- **Trashes** (`trash.dfy`): class `Trash`, covering falling, activation,
  pick-up, destruction and range changes.
- **FieldEffects** (`apply_field.dfy`): class `ApplyField` and the
  ground-plane calls it makes.
  - Ground planes appear only through the calls they receive.
  - The engine's `IsValid` is a set of live handles passed in.
  - The world's planes and the overlap query's result are parameters.

Plant and trash extend tile in the source. Here each holds a `const base: Tile`.

`Plant.ReceiveEffectTrigger` and `Plant.Grow` are mutually recursive, as in the
source. Their `decreases` clauses rest on `Grow` only ever sending
`OnActivated`, never `PlantsGrow`.

## Model

| member | source | states |
|---|---|---|
| Grid.Max | Source/Syrup/Tiles/Plant.cpp:93 | `FMath::Max` is at least both arguments and equal to one of them |
| Grid.TransformShapeMembers | Source/Syrup/Tiles/Tile.cpp:162-172 | a cell is in the transformed shape iff it is some relative point rotated to the direction and moved to the location |
| Grid.ScaleMonotoneBetween | Source/Syrup/Tiles/Plant.cpp:192-209 | a scaling that never loses a cell when the range grows by one also never loses one across any range increase |
| Triggers.TriggeredLocations | Source/Syrup/Tiles/Plant.cpp:231-232 | the triggered cells always lie in the effect area; an empty request is the whole area, otherwise exactly the requested cells inside it |
| Triggers.RangeChangeEmissions | Source/Syrup/Tiles/Plant.cpp:194-208 | at most two emissions: deactivation of old − new and activation of new − old, each iff gated on and non-empty, deactivation first; no emitted set is empty or meets a cell in both areas |
| Triggers.RangeDeltaRebuildsArea | Source/Syrup/Tiles/Plant.cpp:197-208 | taking the deactivated cells out of the old area and adding the activated ones, as emitted, gives the new area when effects are on and keeps the old one when off |
| Triggers.ShrinkOnlyDeactivates | Source/Syrup/Tiles/Plant.cpp:192-209 | under a monotone scaling, lowering the range emits at most one deactivation and no activation |
| Triggers.GrowOnlyActivates | Source/Syrup/Tiles/Plant.cpp:192-209 | under a monotone scaling, raising the range emits at most one activation and no deactivation |
| Fields.Applied | Source/Syrup/Tiles/Tile.cpp:106-113 | a present field gains exactly one; an absent one is stored as 1; no other field changes; all-positive counts stay positive |
| Fields.Removed | Source/Syrup/Tiles/Tile.cpp:125-143 | an absent field leaves the map unchanged; otherwise strength drops by one and the entry is deleted at zero; no other field changes; positivity is kept |
| Fields.RemoveUndoesApply | Source/Syrup/Tiles/Tile.cpp:106-143 | ApplyField then RemoveField restores the counter map exactly |
| Fields.ApplyUndoesRemove | Source/Syrup/Tiles/Tile.cpp:106-143 | RemoveField of a present field then ApplyField restores the counter map exactly |
| Fields.SetFlag | Source/Syrup/Tiles/Tile.cpp:114-117 | every instance's slot `t` holds the written value; every other slot and the instance count are untouched |
| Tiles.Tile.constructor | Source/Syrup/Tiles/Tile.cpp:45-89 | empty counter map, relative sub-tiles are the kind's plus the origin, one empty custom-data record per sub-tile, tile invariant established |
| Tiles.Tile.GetSubTileLocations | Source/Syrup/Tiles/Tile.cpp:162-172 | the loop yields exactly { rotate(direction, p) + location \| p in relative } |
| Tiles.Tile.ApplyField | Source/Syrup/Tiles/Tile.cpp:106-118 | the map becomes `Applied`; custom data is rewritten only on the absent→1 transition; positive counts and matching flags are preserved |
| Tiles.Tile.RemoveField | Source/Syrup/Tiles/Tile.cpp:125-143 | the map becomes `Removed`; custom data is rewritten only on the 1→absent transition; positive counts and matching flags are preserved |
| Tiles.Tile.SetInstanceFlags | Source/Syrup/Tiles/Tile.cpp:114-117 | the instance loop writes slot `t` of every instance and nothing else |
| Plants.Dispatch | Source/Syrup/Tiles/Plant.cpp:229-240 | effects are invoked iff (grown or PlantsGrow) and health > 0, with cells inside the effect area |
| Plants.GrowStep | Source/Syrup/Tiles/Plant.cpp:166-177 | countdown drops by exactly one iff planting is finished and not yet grown; OnActivated goes out exactly when a live plant's countdown goes 1→0 |
| Plants.TriggerStep | Source/Syrup/Tiles/Plant.cpp:218-241 | PlantsGrow runs a Grow step and then dispatches on the grown state; PlayerTurn finishes planting; any other trigger keeps the countdown and only dispatches; health and range never change; every dispatched set lies in the effect area |
| Plants.DamageStep | Source/Syrup/Tiles/Plant.cpp:85-103 | no effect before planting finishes; health drops by max(0, amount) and never rises; result is health ≤ 0; PlantKilled iff health crosses from positive to ≤ 0; once planted, the log is exactly PlantKilled on the killing blow followed by the damage report, and a hit that does not kill emits the report alone |
| Plants.DeathDeactivationDropped | Source/Syrup/Tiles/Plant.cpp:93-99 | as written, killing a grown plant emits PlantKilled and the damage report but no OnDeactivated |
| Plants.IntendedDamageStep | Source/Syrup/Tiles/Plant.cpp:95-100 | same state and result as the source; a killing blow to a grown plant deactivates its whole effect area |
| Plants.PassiveTrigger | Source/Syrup/Tiles/Plant.cpp:220-232 | a trigger other than PlantsGrow and PlayerTurn leaves the plant's state alone and only dispatches to the effects |
| Plants.RangeStep | Source/Syrup/Tiles/Plant.cpp:192-209 | range becomes max(0, new); emissions are the range-change delta, gated by grown and alive |
| Plants.BeginPlayStep | Source/Syrup/Tiles/Plant.cpp:27-33 | a configured countdown ≥ 0 comes out unchanged; with countdown ≥ 1 no OnActivated fires, only subscribe then PlantSpawned, which the plant's own effects do not see; with countdown 0 a live plant activates its area, subscribes, broadcasts PlantSpawned and hands its own effects PlantSpawned on its sub-tiles inside the area; planting finished iff it is the player's turn |
| Plants.GrownIsStable | Source/Syrup/Tiles/Plant.cpp:168-170 | once grown, Grow changes nothing and no trigger or damage makes the plant ungrown |
| Plants.DamageStepCounts | Source/Syrup/Tiles/Plant.cpp:95-100 | one damage call broadcasts PlantKilled once on the killing blow and never otherwise, and deactivates the effect area at most as often |
| Plants.DamageRunNeverHeals | Source/Syrup/Tiles/Plant.cpp:93 | over any sequence of damage calls health never rises and nothing but health changes |
| Plants.KilledAtMostOnce | Source/Syrup/Tiles/Plant.cpp:95-100 | over any sequence of damage calls, PlantKilled and OnDeactivated of the effect area each go out at most once, and never for a plant already dead |
| Plants.GrowRunActivatesOnce | Source/Syrup/Tiles/Plant.cpp:166-177 | over n PlantsGrow triggers OnActivated fires exactly once if a live, planted plant is due within n turns, never otherwise |
| Plants.LifecycleScenario | Source/Syrup/Tiles/Plant.cpp:218-241 | PlayerTurn then two PlantsGrow on a two-turn plant: PlayerTurn emits nothing; the first PlantsGrow only passes PlantsGrow over the whole area to the effects; no OnActivated until the second, which activates the whole area and then passes PlantsGrow on |
| Plants.Plant.constructor | Source/Syrup/Tiles/Plant.cpp:41-49 | health from the class default, configured range, shape extended with the origin, empty counter map |
| Plants.Plant.GetShape | Source/Syrup/Tiles/Plant.h:71 | the shape is exactly the class's configured shape plus the origin |
| Plants.Plant.GetMaxHealth | Source/Syrup/Tiles/Plant.h:126 | the value is the class default's health, which is at least one and bounds the current health |
| Plants.Plant.GetInitialTimeUntilGrown | Source/Syrup/Tiles/Plant.h:156 | the value is the class default's countdown, which is at least one |
| Plants.Plant.IsGrown | Source/Syrup/Tiles/Plant.h:164 | holds exactly when the countdown is at most zero (`Plants.Grown` on the state) |
| Plants.Plant.GetEffectLocations | Source/Syrup/Tiles/Plant.cpp:248-251 | the sub-tiles scaled by the range; contains the sub-tiles under a covering scaling |
| Plants.Plant.ReceiveDamage | Source/Syrup/Tiles/Plant.cpp:85-103 | new state, emissions and result are those of `IntendedDamageStep` (the corrected kill path) |
| Plants.Plant.Grow | Source/Syrup/Tiles/Plant.cpp:166-177 | new state and emissions are those of `GrowStep` |
| Plants.Plant.SetRange | Source/Syrup/Tiles/Plant.cpp:192-209 | new state and emissions are those of `RangeStep` |
| Plants.Plant.PassiveReceive | Source/Syrup/Tiles/Plant.cpp:196-208 | the `ReceiveEffectTrigger` calls SetRange makes (OnDeactivated, then OnActivated) leave the plant's state alone and append exactly the dispatch |
| Plants.Plant.ReceiveEffectTrigger | Source/Syrup/Tiles/Plant.cpp:218-241 | new state and emissions are those of `TriggerStep` |
| Plants.Plant.BeginPlay | Source/Syrup/Tiles/Plant.cpp:21-34 | new state and emissions are those of `BeginPlayStep` |
| Plants.SowPlant | Source/Syrup/Tiles/Plant.cpp:145-161 | succeeds iff the class is non-null, not abstract and nothing blocks its transformed configured shape (the class default's, without the origin construction adds); spawns exactly on success |
| Plants.SowFromReserveAsWritten | Source/Syrup/Tiles/Plant.cpp:127-140 | as written, a null class dereferences null; no other input does |
| Plants.SowPlantFromReserve | Source/Syrup/Tiles/Plant.cpp:127-140 | succeeds iff the reserve covers the cost and the spawn succeeds; debits exactly the cost on success and nothing otherwise; agrees with the source on every non-null class |
| Trashes.TrashDispatch | Source/Syrup/Tiles/Trash.cpp:149-166 | emits iff active and the triggered cells are non-empty, and then exactly the triggered cells; never an empty set; always inside the effect area |
| Trashes.Trash.GetEffectLocations | Source/Syrup/Tiles/Trash.cpp:173-176 | contains the sub-tiles under a covering scaling with a non-negative range |
| Trashes.Trash.constructor | Source/Syrup/Tiles/Trash.cpp:73-81 | relative sub-tiles extended with the origin; inactive, not destroyed, nothing emitted |
| Trashes.Trash.BeginPlay | Source/Syrup/Tiles/Trash.cpp:51-57 | TrashSpawned with the sub-tiles is broadcast before the subscription |
| Trashes.Trash.OnFinishedFalling | Source/Syrup/Tiles/Trash.cpp:42-46 | becomes active, then activates the whole effect area |
| Trashes.Trash.Destroyed | Source/Syrup/Tiles/Trash.cpp:62-66 | deactivates the whole effect area if active, before being destroyed |
| Trashes.Trash.PickUp | Source/Syrup/Tiles/Trash.cpp:97-108 | succeeds iff the reserve covers the cost; on success debits exactly the cost, broadcasts TrashPickedUp, hands its own effects TrashPickedUp on its sub-tiles when active (its own subscription, Trash.cpp:56 and 149-163), then deactivates; on failure nothing changes |
| Trashes.Trash.SetRange | Source/Syrup/Tiles/Trash.cpp:123-140 | range becomes max(0, new); emissions are the range-change delta, gated by active |
| Trashes.Trash.ReceiveEffectTrigger | Source/Syrup/Tiles/Trash.cpp:149-166 | emissions are those of `TrashDispatch`; no field changes |
| FieldEffects.AcceptingPlanes | Source/Syrup/Tiles/Effects/ApplyField.cpp:42-56 | exactly the world's live planes that accept the field |
| FieldEffects.ApplyToWorldPlanes | Source/Syrup/Tiles/Effects/ApplyField.cpp:45-55 | each live world plane gets one ApplyField call on the given cells, invalid ones none; returns exactly the accepting live planes |
| FieldEffects.ApplyToKnownPlanes | Source/Syrup/Tiles/Effects/ApplyField.cpp:60-66 | each live cached plane gets one ApplyField call on the given cells, invalid ones none |
| FieldEffects.ApplyToTiles | Source/Syrup/Tiles/Effects/ApplyField.cpp:72-76 | each given tile receives the field exactly once and stays valid |
| FieldEffects.RemoveFromPlanes | Source/Syrup/Tiles/Effects/ApplyField.cpp:96-102 | each plane of the pruned cache gets one RemoveField call on the affected cells |
| FieldEffects.RemoveFromTiles | Source/Syrup/Tiles/Effects/ApplyField.cpp:105-111 | each live tile has the field removed once and stays valid; each invalid tile is untouched |
| FieldEffects.ApplyField.constructor | Source/Syrup/Tiles/Effects/ApplyField.cpp:16-21 | triggers are exactly OnActivated, PlantSpawned and TrashSpawned; all caches empty |
| FieldEffects.ApplyField.Affect | Source/Syrup/Tiles/Effects/ApplyField.cpp:28-79 | planes get only the not-yet-affected cells; the plane cache fills only when empty and only with accepting live planes; each new overlapping tile gets the field once; already affected tiles are untouched; caches only grow |
| FieldEffects.ApplyField.AffectTiles | Source/Syrup/Tiles/Effects/ApplyField.cpp:70-76 | each overlapping tile not yet affected gets exactly one ApplyField; already affected tiles are untouched; the tile cache grows by exactly the overlapping tiles |
| FieldEffects.ApplyField.Unaffect | Source/Syrup/Tiles/Effects/ApplyField.cpp:84-114 | invalid planes are pruned; each remaining plane gets RemoveField on all affected cells; each valid affected tile gets exactly one RemoveField, invalid ones none; tile and location caches end empty |
| FieldEffects.ApplyField.PruneInvalidPlanes | Source/Syrup/Tiles/Effects/ApplyField.cpp:87-93 | the plane cache keeps exactly its live planes |
| FieldEffects.AffectThenUnaffect | Source/Syrup/Tiles/Effects/ApplyField.cpp:72-111 | Affect followed by Unaffect leaves every still-valid tile's counter map as it was |
| FieldEffects.AffectTwice | Source/Syrup/Tiles/Effects/ApplyField.cpp:39-76 | a repeated Affect on the same cells applies the field to no tile a second time and hands every plane an empty cell set, both when the plane cache was already filled and on the first activation that searches the world |

## Left out

- World↔grid transforms and the `FTransform` overloads of `SowPlant` (Plant.cpp:123-126, 141-144) are left out. They only convert the transform, and the conversion is not part of this model.
- Spawning a plant is recorded as the `spawned` result rather than modelled as a new actor.
- Mesh, material, random seed, logging and debug drawing are left out: they are rendering work with no effect on the logic.
- Collision responses are left out. Disabling a dying plant's collision (Plant.cpp:97) and the construction-time response (Plant.cpp:45) only change what the overlap query reports, and that query is a parameter here.
- The resource sinks bound in the trash constructor, `SetDamage` and the damage value (Trash.cpp:21-37, 79) are left out. Only the bindings are visible.
- The `Triggerer` argument of `ReceiveEffectTrigger` is only passed through to the effects, so it is not modelled.
- `Cause` in `ReceiveDamage` is passed only to the blueprint event `OnDamageRecived`. That event is recorded as `DamageReported(amount, killed)`, and its body is not part of this model.
- The base `UTileEffect::Affect`, `ActivateEffect` and its trigger filtering are not part of this model. `ApplyField.Affect` assumes that `Super::Affect(Locations)` (ApplyField.cpp:78) adds `Locations` to `EffectedLocations` and does nothing else.
- `AGroundPlane` internals are left out. A plane is the list of `ApplyField`/`RemoveField` calls it receives, together with a fixed answer to whether it accepts a field.
- `PointShapeInDirection` is taken to rotate each point with `PointLocationInDirection`. The grid library's bodies are not part of this model.
- Grid.TransformShape: `UGridLibrary::TransformShape` (Plant.cpp:154) is taken to rotate the shape to the transform's direction and then move it to the transform's location, the same composition GetSubTileLocations uses. The library's body is not part of this model.
- Plants.DamageStep: health is an unbounded integer. The source's `Health -= FMath::Max(0, Amount)` (Plant.cpp:93) on a 32-bit `int` overflows below the minimum, which is undefined and in practice wraps. For example, health −2 hit by the maximum `int` would come out positive. The model does not capture this.
- Plants.IntendedDamageStep: the same unbounded health, so the wrap of Plant.cpp:93 is not modelled.
- Plants.DamageRunNeverHeals: holds for unbounded health. With 32-bit wrap-around, a dead plant hit hard enough could come out with positive health.
- Plants.KilledAtMostOnce: holds for unbounded health. With 32-bit wrap-around, a plant that "heals" by overflow could be killed, and PlantKilled broadcast, a second time.
- Plants.BeginPlayStep: the countdown is unbounded. `GetTimeUntilGrown() + 1` (Plant.cpp:28) overflows when the countdown is the maximum `int`, and that is not modelled.
- `OverlapShape` is a parameter: the set of overlapping tiles in `Affect`, the blocked predicate in `SowPlant`.
- `ScaleShapeUp` is an arbitrary function. Three lemmas assume it monotone (`MonotoneScale`): `Grid.ScaleMonotoneBetween`, `Triggers.ShrinkOnlyDeactivates` and `Triggers.GrowOnlyActivates`. The covering clause of `Plants.Plant.GetEffectLocations` and `Trashes.Trash.GetEffectLocations` assumes it never drops a cell (`CoveringScale`); nothing else assumes anything of it.
- Tiles.Tile.GetSubTileLocations: the source adds the location to each set element in place, without rehashing the set. The model takes the result to be the set of translated points, and hash-table behaviour is not modelled.
- Tiles.Tile.SetInstanceFlags: the model loops over one custom-data record per mesh instance. The source's bound is `PerInstanceSMCustomData.Num()`, and the engine's layout of that array is not modelled. Each instance is given two custom-data floats (Tile.cpp:36), while the slot written is `(uint8)Type` (Tile.cpp:116, 139). The model gives every field type its own slot, so `Fields.FlagsMatch` mirrors the whole counter map; what the engine does with a slot of 2 or more is not modelled.
- Delivery of a broadcast to the other subscribers is not modelled: the TrashPickedUp of Trash.cpp:102, the PlantSpawned of Plant.cpp:33 and the PlantKilled of Plant.cpp:98 reach every subscribed tile, but only the broadcasting tile's own handling is in the log. For PlantKilled it always emits nothing, because health has already dropped.
- Trashes.Trash.PickUp: `Destroy()` is taken to run `Destroyed()` at once. Removing the actor from the world is not modelled beyond the `destroyed` flag.
- Trash.h, Tile.h and the trigger-type header are not part of this model. The trash is assumed to start inactive and a plant to start with planting unfinished.
- `GetHealth`, `GetRange`, `GetTimeUntilGrown`, `GetPlantingCost` and `GetMesh` are plain field reads. They are fields of the model, not members.
- Save-game I/O, the other effect components and the game mode are outside the modelled core.

## Findings

| source | as written | input that shows it | evidently intended | confidence | as-written member | corrected member |
|---|---|---|---|---|---|---|
| Source/Syrup/Tiles/Plant.cpp:93-99 | The killing blow lowers `Health` before it calls `ReceiveEffectTrigger(OnDeactivated)`, and that call only acts while `Health > 0` (line 229). So a dying plant's effects are never deactivated. | A grown plant that has finished planting, with health 1, takes 1 damage. | The dying plant's effects receive OnDeactivated over its whole effect area. | not executed | Plants.DeathDeactivationDropped (on Plants.DamageStep) | Plants.IntendedDamageStep |
| Source/Syrup/Tiles/Plant.cpp:129-130 | The reserve overload reads `PlantClass.GetDefaultObject()->GetPlantingCost()` before anything checks the class. The null check sits in the other overload, at line 147. | `SowPlant(world, reserve, nullptr, transform)` | A null class is rejected, as the inner overload does, and the reserve is left alone. | not executed | Plants.SowFromReserveAsWritten | Plants.SowPlantFromReserve |
