/**
 * The servings stepper (components/serving-stepper.tsx): a minus and a plus button that
 * propose `servings - 1` or `servings + 1` to the parent, but only inside `[min, max]`.
 * An emitted value is `Some`; a click that emits nothing is `None`.
 */
module ServingStepper {
  import opened Wrappers

  /** The bounds when the parent gives none. */
  const DefaultMin := 1
  const DefaultMax := 12

  /** `min = 1` and `max = 12` as parameter defaults: they apply only when the prop is absent. */
  function MinOf(min: Option<int>): int { min.GetOr(DefaultMin) }
  function MaxOf(max: Option<int>): int { max.GetOr(DefaultMax) }

  /** `handleDecrease`. */
  function Decrease(servings: int, min: Option<int>): (r: Option<int>)
    ensures r.Some? <==> servings > MinOf(min)
    ensures r.Some? ==> r.value == servings - 1 && r.value >= MinOf(min)
  {
    if servings > MinOf(min) then Some(servings - 1) else None
  }

  /** `handleIncrease`. */
  function Increase(servings: int, max: Option<int>): (r: Option<int>)
    ensures r.Some? <==> servings < MaxOf(max)
    ensures r.Some? ==> r.value == servings + 1 && r.value <= MaxOf(max)
  {
    if servings < MaxOf(max) then Some(servings + 1) else None
  }

  /** A plus followed by a minus comes back, and so does a minus followed by a plus. */
  lemma IncreaseThenDecrease(servings: int, min: Option<int>, max: Option<int>)
    requires MinOf(min) <= servings <= MaxOf(max)
    ensures Increase(servings, max).Some? ==> Decrease(Increase(servings, max).value, min) == Some(servings)
    ensures Decrease(servings, min).Some? ==> Increase(Decrease(servings, min).value, max) == Some(servings)
  {
  }

  datatype Click = Minus | Plus

  /** The parent adopts every emitted value; a run of clicks ends at this count. */
  function Run(servings: int, clicks: seq<Click>, min: Option<int>, max: Option<int>): int {
    if clicks == [] then servings
    else
      var last := clicks[|clicks| - 1];
      var before := Run(servings, clicks[..|clicks| - 1], min, max);
      var emitted := if last == Minus then Decrease(before, min) else Increase(before, max);
      emitted.GetOr(before)
  }

  /** Starting inside the bounds, every click keeps the count inside them; with the default
      bounds the count stays between 1 and 12, a safe divisor for scaling. */
  lemma {:induction false} RunStaysInBounds(servings: int, clicks: seq<Click>, min: Option<int>, max: Option<int>)
    requires MinOf(min) <= servings <= MaxOf(max)
    ensures MinOf(min) <= Run(servings, clicks, min, max) <= MaxOf(max)
    ensures min.None? && max.None? ==> 1 <= Run(servings, clicks, min, max) <= 12
  {
    if clicks != [] {
      RunStaysInBounds(servings, clicks[..|clicks| - 1], min, max);
    }
  }

  /** Every click changes the count by at most one. */
  lemma {:induction false} RunMovesByOne(servings: int, clicks: seq<Click>, min: Option<int>, max: Option<int>)
    ensures servings - |clicks| <= Run(servings, clicks, min, max) <= servings + |clicks|
  {
    if clicks != [] {
      RunMovesByOne(servings, clicks[..|clicks| - 1], min, max);
    }
  }
}
