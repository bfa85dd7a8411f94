/**
 * APlant: a plant on the grid that is sown from an energy reserve, waits for
 * the player's turn to finish planting, counts down to being grown, takes
 * damage and dies once, and switches its effects on and off over a
 * range-scaled area around its sub-tiles.
 *
 * Each operation is described twice: a pure step function on `PlantState`
 * (its meaning, with the lemmas below) and a method of class `Plant` that
 * performs it on the fields and is proved to agree with the step function.
 */
module Plants {
  import opened Wrappers
  import opened Grid
  import opened Triggers
  import opened Tiles

  /** The class default object of a plant type: its editor-configured values. */
  datatype PlantKind = PlantKind(
    health: int,
    timeUntilGrown: int,
    plantingCost: int,
    range: int,
    shape: set<Point>,
    isAbstract: bool)

  /** The editor clamps on a plant type's configured values. */
  predicate ValidKind(k: PlantKind) {
    k.health >= 1 && k.timeUntilGrown >= 1 && k.plantingCost >= 0 && k.range >= 0
  }

  datatype PlantState = PlantState(health: int, timeUntilGrown: int, range: int, finishedPlanting: bool)

  /** IsGrown: the countdown has run out. */
  predicate Grown(s: PlantState) {
    s.timeUntilGrown <= 0
  }

  /** What a plant's effect area depends on besides its range: ScaleShapeUp and its sub-tile cells. */
  datatype Site = Site(scale: (set<Point>, int) -> set<Point>, subTiles: set<Point>)

  /** GetEffectLocations: the sub-tiles scaled up by the range. */
  function EffectArea(site: Site, range: int): set<Point> {
    site.scale(site.subTiles, range)
  }

  /** The new state and what was emitted, in order. */
  datatype Step = Step(state: PlantState, out: seq<Emission>)

  /**
   * The effect-invoking half of ReceiveEffectTrigger: the components are
   * activated only while the plant is alive and grown (or for PlantsGrow),
   * on the triggered part of the current effect area.
   */
  function Dispatch(s: PlantState, t: TriggerType, requested: set<Point>, site: Site): (r: seq<Emission>)
    ensures |r| <= 1
    ensures r != [] <==> (Grown(s) || t == PlantsGrow) && s.health > 0
    ensures forall e :: e in r ==> e.Activate? && e.trigger == t && e.cells <= EffectArea(site, s.range)
    ensures forall e :: e in r ==> e.cells == TriggeredLocations(requested, EffectArea(site, s.range))
  {
    if (Grown(s) || t == PlantsGrow) && s.health > 0
    then [Activate(t, TriggeredLocations(requested, EffectArea(site, s.range)))]
    else []
  }

  /**
   * Grow: one turn closer to grown, only once planting is finished and while
   * not yet grown; OnActivated reaches the effects exactly on the turn the
   * countdown reaches zero.
   */
  function GrowStep(s: PlantState, site: Site): (st: Step)
    ensures st.state.health == s.health && st.state.range == s.range
    ensures st.state.finishedPlanting == s.finishedPlanting
    ensures st.state.timeUntilGrown == s.timeUntilGrown - (if s.finishedPlanting && !Grown(s) then 1 else 0)
    ensures st.out == if s.finishedPlanting && s.timeUntilGrown == 1 && s.health > 0
                      then [Activate(OnActivated, EffectArea(site, s.range))] else []
  {
    if s.finishedPlanting && !Grown(s) then
      var s' := s.(timeUntilGrown := s.timeUntilGrown - 1);
      Step(s', if Grown(s') then Dispatch(s', OnActivated, {}, site) else [])
    else
      Step(s, [])
  }

  /**
   * ReceiveEffectTrigger: PlantsGrow grows the plant, PlayerTurn finishes the
   * planting, and then the effects are invoked.
   */
  function TriggerStep(s: PlantState, t: TriggerType, requested: set<Point>, site: Site): (st: Step)
    ensures st.state.health == s.health && st.state.range == s.range
    ensures t != PlantsGrow ==> st.state.timeUntilGrown == s.timeUntilGrown
    ensures t == PlayerTurn ==> st.state.finishedPlanting
    ensures t != PlayerTurn ==> st.state.finishedPlanting == s.finishedPlanting
    ensures forall e :: e in st.out ==> e.Activate? && e.cells <= EffectArea(site, s.range)
    ensures t != PlantsGrow ==> st.out == Dispatch(st.state, t, requested, site)
    ensures t == PlantsGrow ==> st.state == GrowStep(s, site).state
    ensures t == PlantsGrow ==> st.out == GrowStep(s, site).out + Dispatch(GrowStep(s, site).state, t, requested, site)
  {
    var pre :=
      if t == PlantsGrow then GrowStep(s, site)
      else if !s.finishedPlanting && t == PlayerTurn then Step(s.(finishedPlanting := true), [])
      else Step(s, []);
    Step(pre.state, pre.out + Dispatch(pre.state, t, requested, site))
  }

  /**
   * ReceiveDamage, as the source has it. Nothing happens before planting is
   * finished; otherwise negative damage counts as none, the result says
   * whether health is now at most zero, and PlantKilled is broadcast only on
   * the call that takes health from positive to at most zero. The plant
   * receives its own PlantKilled broadcast, and the OnDeactivated trigger of
   * that call is dispatched, after the health has dropped, so the `health > 0`
   * gate closes on both (see DeathDeactivationDropped).
   */
  function DamageStep(s: PlantState, amount: int, site: Site): (r: (Step, bool))
    ensures !s.finishedPlanting ==> r.0 == Step(s, []) && !r.1
    ensures s.finishedPlanting ==> r.0.state == s.(health := s.health - Max(0, amount))
    ensures s.finishedPlanting ==> r.1 == (r.0.state.health <= 0)
    ensures r.0.state.health <= s.health
    ensures (Broadcast(PlantKilled, site.subTiles) in r.0.out) <==> s.finishedPlanting && s.health > 0 && r.1
    ensures s.finishedPlanting ==> r.0.out == (if s.health > 0 && r.1 then [Broadcast(PlantKilled, site.subTiles)] else [])
                                              + [DamageReported(amount, r.1)]
  {
    if !s.finishedPlanting then (Step(s, []), false)
    else
      var s' := s.(health := s.health - Max(0, amount));
      var dead := s'.health <= 0;
      var killed := if dead && s.health > 0
                    then [Broadcast(PlantKilled, site.subTiles)] + Dispatch(s', PlantKilled, site.subTiles, site)
                         + Dispatch(s', OnDeactivated, {}, site)
                    else [];
      (Step(s', killed + [DamageReported(amount, dead)]), dead)
  }

  /** As written, the death of a grown plant never deactivates its effects. */
  lemma DeathDeactivationDropped(s: PlantState, amount: int, site: Site)
    requires s.finishedPlanting && Grown(s) && s.health > 0 && amount >= s.health
    ensures DamageStep(s, amount, site).0.out == [Broadcast(PlantKilled, site.subTiles), DamageReported(amount, true)]
    ensures Activate(OnDeactivated, EffectArea(site, s.range)) !in DamageStep(s, amount, site).0.out
  {
  }

  /**
   * ReceiveDamage as evidently intended: the OnDeactivated dispatched on death
   * is judged by the plant as it was while still alive, so a grown plant's
   * effects are switched off over its whole area.
   */
  function IntendedDamageStep(s: PlantState, amount: int, site: Site): (r: (Step, bool))
    ensures r.0.state == DamageStep(s, amount, site).0.state && r.1 == DamageStep(s, amount, site).1
    ensures s.finishedPlanting && s.health > 0 && r.1
            ==> r.0.out == [Broadcast(PlantKilled, site.subTiles)]
                           + (if Grown(s) then [Activate(OnDeactivated, EffectArea(site, s.range))] else [])
                           + [DamageReported(amount, true)]
    ensures !(s.finishedPlanting && s.health > 0 && r.1) ==> r.0.out == DamageStep(s, amount, site).0.out
  {
    if !s.finishedPlanting then (Step(s, []), false)
    else
      var s' := s.(health := s.health - Max(0, amount));
      var dead := s'.health <= 0;
      var killed := if dead && s.health > 0
                    then [Broadcast(PlantKilled, site.subTiles)] + Dispatch(s', PlantKilled, site.subTiles, site)
                         + Dispatch(s, OnDeactivated, {}, site)
                    else [];
      (Step(s', killed + [DamageReported(amount, dead)]), dead)
  }

  /**
   * SetRange: the range becomes max(0, newRange); the cells leaving the area
   * are deactivated before the range changes, the cells joining it activated
   * after, and a cell in both areas is in neither trigger.
   */
  function RangeStep(s: PlantState, newRange: int, site: Site): (st: Step)
    ensures st.state == s.(range := Max(0, newRange))
    ensures st.out == RangeChangeEmissions(Grown(s) && s.health > 0,
                                           EffectArea(site, s.range), EffectArea(site, Max(0, newRange)))
  {
    var oldArea := EffectArea(site, s.range);
    var newArea := EffectArea(site, Max(0, newRange));
    var deactivated := oldArea - newArea;
    var first := if deactivated != {} then Dispatch(s, OnDeactivated, deactivated, site) else [];
    var s' := s.(range := Max(0, newRange));
    var activated := newArea - oldArea;
    var second := if activated != {} then Dispatch(s', OnActivated, activated, site) else [];
    assert deactivated != {} ==> TriggeredLocations(deactivated, oldArea) == deactivated;
    assert activated != {} ==> TriggeredLocations(activated, newArea) == activated;
    Step(s', first + second)
  }

  /**
   * BeginPlay: the countdown is raised by one and Grow runs with planting
   * marked finished, so a configured countdown of at least one comes out
   * unchanged and no OnActivated fires; then the plant subscribes and
   * broadcasts PlantSpawned with its sub-tiles, which, being subscribed, it
   * also receives itself: its effects see it only when it is already grown.
   */
  function BeginPlayStep(s: PlantState, isPlayerTurn: bool, site: Site): (st: Step)
    ensures st.state.health == s.health && st.state.range == s.range
    ensures st.state.finishedPlanting == isPlayerTurn
    ensures s.timeUntilGrown >= 0 ==> st.state.timeUntilGrown == s.timeUntilGrown
    ensures s.timeUntilGrown >= 1 ==> st.out == [Subscribe, Broadcast(PlantSpawned, site.subTiles)]
    ensures s.timeUntilGrown == 0 && s.health > 0
            ==> st.out == [Activate(OnActivated, EffectArea(site, s.range)), Subscribe, Broadcast(PlantSpawned, site.subTiles),
                           Activate(PlantSpawned, TriggeredLocations(site.subTiles, EffectArea(site, s.range)))]
  {
    var g := GrowStep(s.(finishedPlanting := true, timeUntilGrown := s.timeUntilGrown + 1), site);
    var s' := g.state.(finishedPlanting := isPlayerTurn);
    Step(s', g.out + [Subscribe, Broadcast(PlantSpawned, site.subTiles)] + Dispatch(s', PlantSpawned, site.subTiles, site))
  }

  /** Successive ReceiveDamage calls, with the death deactivation as intended. */
  function DamageRun(s: PlantState, amounts: seq<int>, site: Site): Step
    decreases |amounts|
  {
    if amounts == [] then Step(s, [])
    else
      var first := IntendedDamageStep(s, amounts[0], site).0;
      var rest := DamageRun(first.state, amounts[1..], site);
      Step(rest.state, first.out + rest.out)
  }

  /** Health never rises over any number of damage calls, and nothing but health changes. */
  lemma {:induction false} DamageRunNeverHeals(s: PlantState, amounts: seq<int>, site: Site)
    ensures DamageRun(s, amounts, site).state.health <= s.health
    ensures DamageRun(s, amounts, site).state == s.(health := DamageRun(s, amounts, site).state.health)
    decreases |amounts|
  {
    if amounts != [] {
      DamageRunNeverHeals(IntendedDamageStep(s, amounts[0], site).0.state, amounts[1..], site);
    }
  }

  /** The OnDeactivated a dying grown plant sends its effects. */
  function Deactivation(s: PlantState, site: Site): Emission {
    Activate(OnDeactivated, EffectArea(site, s.range))
  }

  /** One damage call emits PlantKilled once on the killing blow and never otherwise, and OnDeactivated at most as often. */
  lemma DamageStepCounts(s: PlantState, amount: int, site: Site)
    ensures var st := IntendedDamageStep(s, amount, site);
            var kills := if s.finishedPlanting && s.health > 0 && st.1 then 1 else 0;
            Count(st.0.out, Broadcast(PlantKilled, site.subTiles)) == kills
            && Count(st.0.out, Deactivation(s, site)) <= kills
  {
    var killed := Broadcast(PlantKilled, site.subTiles);
    var deact := Deactivation(s, site);
    var st := IntendedDamageStep(s, amount, site);
    if s.finishedPlanting && s.health > 0 && st.1 {
      var d: seq<Emission> := if Grown(s) then [deact] else [];
      var tail := d + [DamageReported(amount, true)];
      assert st.0.out == [killed] + tail;
      CountAppend([killed], tail, killed);
      CountAppend([killed], tail, deact);
      CountAppend(d, [DamageReported(amount, true)], deact);
      CountAbsent(tail, killed);
      CountAbsent([DamageReported(amount, true)], deact);
      CountAbsent([killed], deact);
      assert Count([killed], killed) == 1 by { assert [killed][1..] == []; }
      if d != [] {
        assert Count(d, deact) == 1 by { assert d[1..] == []; }
      }
    } else {
      CountAbsent(st.0.out, killed);
      CountAbsent(st.0.out, deact);
    }
  }

  /**
   * Over any sequence of damage calls PlantKilled is broadcast at most once,
   * and never for a plant already dead; the same holds for the OnDeactivated
   * of its effect area.
   */
  lemma {:induction false} KilledAtMostOnce(s: PlantState, amounts: seq<int>, site: Site)
    ensures Count(DamageRun(s, amounts, site).out, Broadcast(PlantKilled, site.subTiles)) <= if s.health > 0 then 1 else 0
    ensures Count(DamageRun(s, amounts, site).out, Deactivation(s, site)) <= if s.health > 0 then 1 else 0
    decreases |amounts|
  {
    var killed := Broadcast(PlantKilled, site.subTiles);
    if amounts != [] {
      var first := IntendedDamageStep(s, amounts[0], site).0;
      var rest := DamageRun(first.state, amounts[1..], site).out;
      assert Deactivation(first.state, site) == Deactivation(s, site);
      KilledAtMostOnce(first.state, amounts[1..], site);
      DamageStepCounts(s, amounts[0], site);
      CountAppend(first.out, rest, killed);
      CountAppend(first.out, rest, Deactivation(s, site));
    } else {
      assert Count([], killed) == 0;
      assert Count([], Deactivation(s, site)) == 0;
    }
  }

  /** A trigger other than PlantsGrow and PlayerTurn changes no state and only dispatches. */
  lemma PassiveTrigger(s: PlantState, t: TriggerType, requested: set<Point>, site: Site)
    requires t != PlantsGrow && t != PlayerTurn
    ensures TriggerStep(s, t, requested, site) == Step(s, Dispatch(s, t, requested, site))
  {
  }

  /**
   * Once grown, a plant stays grown: Grow no longer counts down, and no
   * trigger or damage moves the countdown.
   */
  lemma GrownIsStable(s: PlantState, t: TriggerType, requested: set<Point>, amount: int, site: Site)
    requires Grown(s)
    ensures GrowStep(s, site).state == s
    ensures Grown(TriggerStep(s, t, requested, site).state)
    ensures Grown(IntendedDamageStep(s, amount, site).0.state)
  {
  }

  /** `n` successive PlantsGrow triggers. */
  function GrowRun(s: PlantState, n: nat, site: Site): Step
    decreases n
  {
    if n == 0 then Step(s, [])
    else
      var first := TriggerStep(s, PlantsGrow, {}, site);
      var rest := GrowRun(first.state, n - 1, site);
      Step(rest.state, first.out + rest.out)
  }

  /** The OnActivated that a grown plant sends its effects. */
  function Activation(s: PlantState, site: Site): Emission {
    Activate(OnActivated, EffectArea(site, s.range))
  }

  /**
   * Over `n` PlantsGrow triggers OnActivated reaches the effects exactly once
   * if the plant is alive, has finished planting and is due within `n` turns,
   * and never otherwise.
   */
  lemma {:induction false} GrowRunActivatesOnce(s: PlantState, n: nat, site: Site)
    ensures Count(GrowRun(s, n, site).out, Activation(s, site))
         == if s.finishedPlanting && s.health > 0 && 1 <= s.timeUntilGrown <= n then 1 else 0
    decreases n
  {
    var e := Activation(s, site);
    if n == 0 {
      assert Count([], e) == 0;
    } else {
      var first := TriggerStep(s, PlantsGrow, {}, site);
      var g := GrowStep(s, site);
      assert first.out == g.out + Dispatch(g.state, PlantsGrow, {}, site);
      assert Activation(first.state, site) == e;
      GrowRunActivatesOnce(first.state, n - 1, site);
      CountAppend(first.out, GrowRun(first.state, n - 1, site).out, e);
      CountAppend(g.out, Dispatch(g.state, PlantsGrow, {}, site), e);
      CountAbsent(Dispatch(g.state, PlantsGrow, {}, site), e);
      if g.out == [] {
        assert Count(g.out, e) == 0;
      } else {
        assert g.out == [e];
        assert Count(g.out, e) == 1 by { assert g.out[1..] == []; }
      }
    }
  }

  /**
   * A plant due in two turns: PlayerTurn finishes the planting and hands the
   * effects nothing; the first PlantsGrow only passes PlantsGrow on to them;
   * the second activates the whole area, then passes PlantsGrow on.
   */
  lemma LifecycleScenario(health: int, range: int, site: Site)
    requires health > 0
    ensures var s0 := PlantState(health, 2, range, false);
            var s1 := TriggerStep(s0, PlayerTurn, {}, site);
            var s2 := TriggerStep(s1.state, PlantsGrow, {}, site);
            var s3 := TriggerStep(s2.state, PlantsGrow, {}, site);
            && s1.state.finishedPlanting
            && Activation(s0, site) !in s1.out + s2.out
            && s1.out == [] && s2.out == [Activate(PlantsGrow, EffectArea(site, range))]
            && s3.out == [Activation(s0, site), Activate(PlantsGrow, EffectArea(site, range))]
            && Grown(s3.state)
  {
  }

  class Plant {
    const kind: PlantKind
    const base: Tile

    var health: int
    var timeUntilGrown: int
    var range: int
    var finishedPlanting: bool
    /** Everything this plant has broadcast, dispatched to its effects or reported, in order. */
    var emitted: seq<Emission>

    ghost predicate Valid()
      reads this
    {
      && ValidKind(kind)
      && health <= kind.health
      && range >= 0
      && base.relative == kind.shape + {Origin}
    }

    function State(): PlantState
      reads this
    {
      PlantState(health, timeUntilGrown, range, finishedPlanting)
    }

    function CurrentSite(): Site {
      Site(base.geo.scale, base.SubTileLocations())
    }

    /** OnConstruction: health from the class default, the configured range, the shape extended with the origin. */
    constructor (kind: PlantKind, transform: GridTransform, geo: Geometry)
      requires ValidKind(kind)
      ensures Valid() && fresh(base)
      ensures State() == PlantState(kind.health, kind.timeUntilGrown, kind.range, false)
      ensures base.location == transform.location && base.direction == transform.direction
      ensures base.fieldsToStrengths == map[]
      ensures emitted == []
    {
      this.kind := kind;
      base := new Tile(transform, kind.shape, geo);
      health := kind.health;
      timeUntilGrown := kind.timeUntilGrown;
      range := kind.range;
      finishedPlanting := false;
      emitted := [];
    }

    function GetShape(): (r: set<Point>)
      reads this
      requires Valid()
      ensures r == kind.shape + {Origin}
      ensures Origin in r && kind.shape <= r
    {
      base.relative
    }

    /** GetMaxHealth reads the class default, which no damage lowers health above. */
    function GetMaxHealth(): (r: int)
      reads this
      requires Valid()
      ensures r == kind.health
      ensures r >= 1 && health <= r
    {
      kind.health
    }

    function GetInitialTimeUntilGrown(): (r: int)
      reads this
      requires Valid()
      ensures r == kind.timeUntilGrown
      ensures r >= 1
    {
      kind.timeUntilGrown
    }

    /** IsGrown: the countdown has run out. */
    predicate IsGrown()
      reads this
      ensures IsGrown() <==> timeUntilGrown <= 0
    {
      Grown(State())
    }

    function GetEffectLocations(): (r: set<Point>)
      reads this
      requires Valid()
      ensures r == EffectArea(CurrentSite(), range)
      ensures CoveringScale(base.geo.scale) ==> base.SubTileLocations() <= r
    {
      base.geo.scale(base.SubTileLocations(), range)
    }

    /**
     * ReceiveDamage with the death deactivation dispatched while the plant is
     * still alive, so that it reaches the effects (see IntendedDamageStep).
     */
    method ReceiveDamage(amount: int) returns (dead: bool)
      requires Valid()
      modifies this
      ensures Valid()
      ensures State() == IntendedDamageStep(old(State()), amount, CurrentSite()).0.state
      ensures emitted == old(emitted) + IntendedDamageStep(old(State()), amount, CurrentSite()).0.out
      ensures dead == IntendedDamageStep(old(State()), amount, CurrentSite()).1
    {
      if !finishedPlanting {
        return false;
      }
      var newHealth := health - Max(0, amount);
      dead := newHealth <= 0;
      if dead && health > 0 {
        var cells := base.GetSubTileLocations();
        emitted := emitted + [Broadcast(PlantKilled, cells)];
        PassiveTrigger(State(), OnDeactivated, {}, CurrentSite());
        ReceiveEffectTrigger(OnDeactivated, {});
      }
      health := newHealth;
      emitted := emitted + [DamageReported(amount, dead)];
    }

    method Grow()
      requires Valid()
      modifies this
      decreases 1
      ensures Valid()
      ensures State() == GrowStep(old(State()), CurrentSite()).state
      ensures emitted == old(emitted) + GrowStep(old(State()), CurrentSite()).out
    {
      if finishedPlanting && !IsGrown() {
        timeUntilGrown := timeUntilGrown - 1;
        if IsGrown() {
          ReceiveEffectTrigger(OnActivated, {});
        }
      }
    }

    method SetRange(newRange: int)
      requires Valid()
      modifies this
      ensures Valid()
      ensures State() == RangeStep(old(State()), newRange, CurrentSite()).state
      ensures emitted == old(emitted) + RangeStep(old(State()), newRange, CurrentSite()).out
    {
      var oldArea := GetEffectLocations();
      var cells := base.GetSubTileLocations();
      var newArea := base.geo.scale(cells, Max(0, newRange));
      var deactivated := oldArea - newArea;
      if deactivated != {} {
        PassiveReceive(OnDeactivated, deactivated);
      }
      range := Max(0, newRange);
      var activated := newArea - oldArea;
      if activated != {} {
        PassiveReceive(OnActivated, activated);
      }
    }

    /** ReceiveEffectTrigger for a trigger that only dispatches (see PassiveTrigger). */
    method PassiveReceive(t: TriggerType, requested: set<Point>)
      requires Valid() && t != PlantsGrow && t != PlayerTurn
      modifies this
      ensures Valid() && State() == old(State())
      ensures emitted == old(emitted) + Dispatch(State(), t, requested, CurrentSite())
    {
      PassiveTrigger(State(), t, requested, CurrentSite());
      ReceiveEffectTrigger(t, requested);
    }

    method ReceiveEffectTrigger(t: TriggerType, requested: set<Point>)
      requires Valid()
      modifies this
      decreases if t == PlantsGrow then 2 else 0
      ensures Valid()
      ensures State() == TriggerStep(old(State()), t, requested, CurrentSite()).state
      ensures emitted == old(emitted) + TriggerStep(old(State()), t, requested, CurrentSite()).out
    {
      if t == PlantsGrow {
        Grow();
      } else if !finishedPlanting && t == PlayerTurn {
        finishedPlanting := true;
      }
      if (IsGrown() || t == PlantsGrow) && health > 0 {
        var area := GetEffectLocations();
        var triggered := if requested == {} then area else requested * area;
        emitted := emitted + [Activate(t, triggered)];
      }
    }

    method BeginPlay(isPlayerTurn: bool)
      requires Valid()
      modifies this
      ensures Valid()
      ensures State() == BeginPlayStep(old(State()), isPlayerTurn, CurrentSite()).state
      ensures emitted == old(emitted) + BeginPlayStep(old(State()), isPlayerTurn, CurrentSite()).out
    {
      finishedPlanting := true;
      timeUntilGrown := timeUntilGrown + 1;
      Grow();
      finishedPlanting := isPlayerTurn;
      emitted := emitted + [Subscribe];
      var cells := base.GetSubTileLocations();
      emitted := emitted + [Broadcast(PlantSpawned, cells)];
      PassiveReceive(PlantSpawned, cells);
    }
  }

  /**
   * SowPlant without a reserve: a null or abstract class, or any blocking
   * tile over the class's shape at the target, fails with nothing spawned;
   * otherwise a plant of that class is spawned at the target. `blocked` is
   * the grid library's overlap query on the blocking channel. The shape
   * tested is the class default's configured shape, which does not get the
   * origin that construction adds to a spawned plant's shape.
   */
  method SowPlant(plantClass: Option<PlantKind>, transform: GridTransform,
                  rotate: (Direction, Point) -> Point, blocked: set<Point> -> bool)
    returns (ok: bool, spawned: Option<GridTransform>)
    ensures ok <==> plantClass.Some? && !plantClass.value.isAbstract
                    && !blocked(TransformShape(rotate, plantClass.value.shape, transform))
    ensures spawned == if ok then Some(transform) else None
  {
    if plantClass.None? || plantClass.value.isAbstract {
      return false, None;
    }
    if !blocked(TransformShape(rotate, plantClass.value.shape, transform)) {
      return true, Some(transform);
    }
    return false, None;
  }

  datatype ReserveSow = NullDereference | Sown(ok: bool, reserve: int)

  /**
   * SowPlant with a reserve, as the source has it: the class default object
   * is read for its planting cost before anything checks the class, so a
   * null class dereferences null.
   */
  function SowFromReserveAsWritten(reserve: int, plantClass: Option<PlantKind>, transform: GridTransform,
                                   rotate: (Direction, Point) -> Point, blocked: set<Point> -> bool): (r: ReserveSow)
    ensures plantClass.None? <==> r == NullDereference
  {
    match plantClass
    case None => NullDereference
    case Some(k) =>
      var ok := reserve >= k.plantingCost && !k.isAbstract && !blocked(TransformShape(rotate, k.shape, transform));
      Sown(ok, if ok then reserve - k.plantingCost else reserve)
  }

  /**
   * SowPlant with a reserve, with the null class rejected before its cost is
   * read: the reserve is debited by exactly the planting cost when, and only
   * when, it covers the cost and the plant is spawned; otherwise it is left
   * alone. On every non-null class it agrees with the source.
   */
  method SowPlantFromReserve(reserve: int, plantClass: Option<PlantKind>, transform: GridTransform,
                             rotate: (Direction, Point) -> Point, blocked: set<Point> -> bool)
    returns (ok: bool, newReserve: int, spawned: Option<GridTransform>)
    ensures ok <==> plantClass.Some? && reserve >= plantClass.value.plantingCost && !plantClass.value.isAbstract
                    && !blocked(TransformShape(rotate, plantClass.value.shape, transform))
    ensures newReserve == if ok then reserve - plantClass.value.plantingCost else reserve
    ensures spawned == if ok then Some(transform) else None
    ensures plantClass.Some? && ValidKind(plantClass.value) && reserve >= 0 ==> 0 <= newReserve <= reserve
    ensures plantClass.Some? ==> SowFromReserveAsWritten(reserve, plantClass, transform, rotate, blocked) == Sown(ok, newReserve)
  {
    ok, newReserve, spawned := false, reserve, None;
    if plantClass.None? {
      return;
    }
    var neededEnergy := plantClass.value.plantingCost;
    if reserve >= neededEnergy {
      var sown, at := SowPlant(plantClass, transform, rotate, blocked);
      if sown {
        newReserve := reserve - neededEnergy;
        ok, spawned := true, at;
      }
    }
  }
}
