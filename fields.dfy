/**
 * Per-tile field strengths (FieldsToStrengths): a map from field type to a
 * count of how many effects currently apply that field to the tile, and the
 * per-instance custom data that shows a field while its count is positive.
 */
module Fields {

  /** EFieldType; the source casts it to a byte to pick a custom-data slot. */
  newtype FieldType = x: int | 0 <= x < 256

  type Strengths = map<FieldType, int>

  /** A field is stored only while at least one application is outstanding. */
  predicate Positive(m: Strengths) {
    forall t :: t in m ==> m[t] >= 1
  }

  /** How many applications of `t` are outstanding; an absent type counts as none. */
  function Strength(m: Strengths, t: FieldType): int {
    if t in m then m[t] else 0
  }

  /** ATile::ApplyField on the map: one more application of `t`. */
  function Applied(m: Strengths, t: FieldType): (r: Strengths)
    ensures r.Keys == m.Keys + {t}
    ensures Strength(r, t) == Strength(m, t) + 1
    ensures t !in m ==> r[t] == 1
    ensures forall u :: u != t ==> Strength(r, u) == Strength(m, u)
    ensures Positive(m) ==> Positive(r)
  {
    if t in m then m[t := m[t] + 1] else m[t := 1]
  }

  /** ATile::RemoveField on the map: one application of `t` fewer, dropping the entry at zero. */
  function Removed(m: Strengths, t: FieldType): (r: Strengths)
    ensures t !in m ==> r == m
    ensures Positive(m) ==> Strength(r, t) == Max0(Strength(m, t) - 1)
    ensures r.Keys <= m.Keys
    ensures t in m && m[t] <= 1 ==> t !in r
    ensures forall u :: u != t ==> Strength(r, u) == Strength(m, u)
    ensures Positive(m) ==> Positive(r)
  {
    if t in m then (if m[t] - 1 > 0 then m[t := m[t] - 1] else m - {t}) else m
  }

  function Max0(x: int): int {
    if x > 0 then x else 0
  }

  /** Applying a field and then removing it gives back exactly the map one started with. */
  lemma RemoveUndoesApply(m: Strengths, t: FieldType)
    requires Positive(m)
    ensures Removed(Applied(m, t), t) == m
  {
  }

  /** Removing a present field and applying it again also gives back the original map. */
  lemma ApplyUndoesRemove(m: Strengths, t: FieldType)
    requires Positive(m) && t in m
    ensures Applied(Removed(m, t), t) == m
  {
  }

  /** The custom-data value of slot `t` in one mesh instance; an unset slot reads 0. */
  function Flag(data: map<FieldType, int>, t: FieldType): int {
    if t in data then data[t] else 0
  }

  /** SetCustomDataValue(i, t, v) for every instance i. */
  function SetFlag(instances: seq<map<FieldType, int>>, t: FieldType, v: int): (r: seq<map<FieldType, int>>)
    ensures |r| == |instances|
    ensures forall i :: 0 <= i < |r| ==> Flag(r[i], t) == v
    ensures forall i, u :: 0 <= i < |r| && u != t ==> Flag(r[i], u) == Flag(instances[i], u)
  {
    seq(|instances|, i requires 0 <= i < |instances| => instances[i][t := v])
  }

  /** Every mesh instance shows field `t` (value 1) exactly while `t` has a positive strength. */
  predicate FlagsMatch(m: Strengths, instances: seq<map<FieldType, int>>) {
    forall i, t :: 0 <= i < |instances| ==> Flag(instances[i], t) == (if t in m then 1 else 0)
  }
}
