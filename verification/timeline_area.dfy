/**
 * The timeline area: a ruler of 61 ticks along the top whose labels depend
 * on the timeline's length, a unit label that cycles through the timeline
 * units on double click (converting every effect's times), and the button
 * that adds a new scale effect to a layer.
 *
 * The list of units and the time conversion belong to the workspace and are
 * not part of this model's source; they are parameters here: `units` is any
 * list of unit names and `convert(t, from, to)` any conversion.
 */
module TimelineArea {
  import opened JsMath
  import opened Workspace

  /** Every `modulo`-th tick is major; a major tick at index i reads i * factor. */
  datatype RulerParams = RulerParams(modulo: int, factor: real)

  /** The number of ticks on the ruler. */
  const TickCount: nat := 61

  /** `getWideRulerParams`: major ticks every 10; the label factor suits the timeline's length. */
  function WideRulerParams(maxValue: real): (p: RulerParams)
    ensures p.modulo == 10
    ensures maxValue in {30.0, 60.0, 90.0} ==> p.factor == maxValue / 60.0
    ensures maxValue !in {30.0, 60.0, 90.0} ==> p.factor == 1.0
  {
    if maxValue == 30.0 then RulerParams(10, 0.5)
    else if maxValue == 60.0 then RulerParams(10, 1.0)
    else if maxValue == 90.0 then RulerParams(10, 1.5)
    else RulerParams(10, 1.0)
  }

  /** A tick: major or minor, and the number written under it, if any. */
  datatype Tick = Tick(major: bool, caption: Option<real>)

  /** The tick at index `i`: major every `modulo` ticks, labelled except at the last index 60. */
  function TickAt(i: nat, params: RulerParams): Tick
    requires params.modulo != 0
  {
    if i % params.modulo == 0 then Tick(true, if i < 60 then Some(i as real * params.factor) else None)
    else Tick(false, None)
  }

  /** The wide ruler for a timeline of length `maxValue`. */
  function Ruler(maxValue: real): (ticks: seq<Tick>)
    ensures |ticks| == TickCount
  {
    seq(TickCount, i requires 0 <= i < TickCount => TickAt(i, WideRulerParams(maxValue)))
  }

  /**
   * The ruler has 61 ticks; a tick is major exactly at multiples of 10; a
   * major tick before the last reads its index times the factor; only major
   * ticks before the last carry a label.
   */
  lemma RulerShape(maxValue: real)
    ensures var ticks := Ruler(maxValue);
      |ticks| == 61 &&
      (forall i :: 0 <= i < 61 ==> (ticks[i].major <==> i % 10 == 0)) &&
      (forall i :: 0 <= i < 61 ==> (ticks[i].caption.Some? <==> i % 10 == 0 && i < 60)) &&
      (forall i :: 0 <= i < 60 && i % 10 == 0 ==>
        ticks[i].caption == Some(i as real * WideRulerParams(maxValue).factor))
  {
    var ticks, params := Ruler(maxValue), WideRulerParams(maxValue);
    forall i | 0 <= i < 61
      ensures ticks[i] == TickAt(i, params)
    {
    }
  }

  /** On the three standard lengths, the labels count seconds up to the length: the 50th tick reads 5/6 of it. */
  lemma RulerLabelsSpanTimeline(maxValue: real)
    requires maxValue in {30.0, 60.0, 90.0}
    ensures Ruler(maxValue)[50].caption == Some(maxValue * 5.0 / 6.0)
    ensures Ruler(maxValue)[0].caption == Some(0.0)
  {
  }

  /** Where `current` first appears in `units`, or -1 (`timelineUnits.findIndex`). */
  function UnitIndex(units: seq<string>, current: string): (i: int)
    ensures -1 <= i < |units|
    ensures i < 0 <==> current !in units
    ensures 0 <= i ==> units[i] == current && current !in units[..i]
  {
    FindIndex(units, (v: string) => v == current)
  }

  /**
   * The unit after `current` (the unit label's double-click handler): the
   * next unit in the list, or the first one after the last or when
   * `current` is not in the list.
   */
  function NextUnit(units: seq<string>, current: string): (u: string)
    requires units != []
    ensures u in units
  {
    var i := UnitIndex(units, current);
    if i >= 0 && i + 1 < |units| then units[i + 1] else units[0]
  }

  /** No unit name appears twice. */
  predicate DistinctUnits(units: seq<string>) {
    forall i, j :: 0 <= i < j < |units| ==> units[i] != units[j]
  }

  /** With distinct units, the k-th unit is found at index k. */
  lemma UnitIndexOfDistinct(units: seq<string>, k: nat)
    requires DistinctUnits(units) && k < |units|
    ensures UnitIndex(units, units[k]) == k
  {
    var i := UnitIndex(units, units[k]);
    assert units[k] in units;
    assert units[i] == units[k];
  }

  /** With distinct units, the unit after the k-th is the (k+1)-th, wrapping round after the last. */
  lemma NextUnitCycles(units: seq<string>, k: nat)
    requires DistinctUnits(units) && k < |units|
    ensures NextUnit(units, units[k]) == if k + 1 < |units| then units[k + 1] else units[0]
  {
    UnitIndexOfDistinct(units, k);
  }

  /** A unit that is not in the list is followed by the first unit. */
  lemma NextUnitOfStranger(units: seq<string>, current: string)
    requires units != [] && current !in units
    ensures NextUnit(units, current) == units[0]
  {
  }

  /** One effect with its start and end converted from unit `from` to unit `to`; its kind, key and other fields stay. */
  function ConvertEffect(e: Effect, convert: (real, string, string) -> real, from: string, to: string): (r: Effect)
    ensures r.key == e.key && r.ScaleEffect? == e.ScaleEffect?
    ensures r.Offset() == convert(e.Offset(), from, to) && r.Duration() == convert(e.Duration(), from, to)
    ensures r.ScaleEffect? ==> r.scale.(offset := e.scale.offset, duration := e.scale.duration) == e.scale
    ensures r.MoveEffect? ==> r.move.(offset := e.move.offset, duration := e.move.duration) == e.move
  {
    match e
    case ScaleEffect(key, s) =>
      ScaleEffect(key, s.(offset := convert(s.offset, from, to), duration := convert(s.duration, from, to)))
    case MoveEffect(key, m) =>
      MoveEffect(key, m.(offset := convert(m.offset, from, to), duration := convert(m.duration, from, to)))
  }

  /** Every effect converted from unit `from` to unit `to`, in order (the unit change's `effects.map`). */
  function ConvertEffects(effects: seq<Effect>, convert: (real, string, string) -> real, from: string, to: string): (r: seq<Effect>)
    ensures |r| == |effects|
    ensures forall i :: 0 <= i < |effects| ==> r[i] == ConvertEffect(effects[i], convert, from, to)
  {
    seq(|effects|, i requires 0 <= i < |effects| => ConvertEffect(effects[i], convert, from, to))
  }

  /** Converting there and back, with a conversion that undoes itself, gives the effects back. */
  lemma ConvertEffectsRoundTrip(effects: seq<Effect>, convert: (real, string, string) -> real, a: string, b: string)
    requires forall t :: convert(convert(t, a, b), b, a) == t
    ensures ConvertEffects(ConvertEffects(effects, convert, a, b), convert, b, a) == effects
  {
    var back := ConvertEffects(ConvertEffects(effects, convert, a, b), convert, b, a);
    forall i | 0 <= i < |effects|
      ensures back[i] == effects[i]
    {
      var e := effects[i];
      assert convert(convert(e.Offset(), a, b), b, a) == e.Offset();
      assert convert(convert(e.Duration(), a, b), b, a) == e.Duration();
    }
  }

  /** The number of scale effects in `effects` (`effects.filter(e => e.type == 'scale').length`). */
  function CountScales(effects: seq<Effect>): (n: nat)
    ensures n <= |effects|
  {
    if effects == [] then 0
    else (if effects[0].ScaleEffect? then 1 else 0) + CountScales(effects[1..])
  }

  /** Appending one effect adds one to the count exactly when it is a scale effect. */
  lemma {:induction false} CountScalesAppend(effects: seq<Effect>, e: Effect)
    ensures CountScales(effects + [e]) == CountScales(effects) + (if e.ScaleEffect? then 1 else 0)
  {
    if effects == [] {
      assert effects + [e] == [e];
    } else {
      assert (effects + [e])[1..] == effects[1..] + [e];
      CountScalesAppend(effects[1..], e);
    }
  }

  /** The frames per second a new scale effect runs at. */
  const NewScaleFps: real := 30.0

  /**
   * The scale effect the add button asks the server to create: no keyframes,
   * start and end at 0, 30 frames per second, in the given layer, in the
   * project (or the project just created when the current one has no id),
   * ordered after every scale effect there is.
   */
  function NewScaleDraft(projectId: string, createdProjectId: string, layerId: string, effects: seq<Effect>): (s: Scale)
    ensures s.math == map[] && s.offset == 0.0 && s.duration == 0.0 && s.fps == NewScaleFps
    ensures s.order == CountScales(effects) && s.layerId == layerId
    ensures s.projectId == (if projectId != "" then projectId else createdProjectId)
  {
    Scale("", if projectId != "" then projectId else createdProjectId, layerId, 0.0, 0.0, NewScaleFps, CountScales(effects), map[])
  }

  /** The effects once the server has answered: the created scale is appended under its id, or nothing changes. */
  function AddCreatedScale(effects: seq<Effect>, created: Option<Scale>): (r: seq<Effect>)
    ensures created.None? ==> r == effects
    ensures created.Some? ==> r == effects + [ScaleEffect(created.value.scaleId, created.value)]
  {
    if created.Some? then effects + [ScaleEffect(created.value.scaleId, created.value)] else effects
  }

  /**
   * Scale effects added one after another get orders 0, 1, 2, ...: the next
   * draft is ordered one past the one just added.
   */
  lemma NextDraftOrderedAfter(projectId: string, layerId: string, effects: seq<Effect>, created: Scale)
    ensures NewScaleDraft(projectId, projectId, layerId, AddCreatedScale(effects, Some(created))).order
      == NewScaleDraft(projectId, projectId, layerId, effects).order + 1
  {
    CountScalesAppend(effects, ScaleEffect(created.scaleId, created));
  }
}
