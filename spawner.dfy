/** Obstacle creation and the difficulty ramp applied each time an obstacle is spawned. */
module Spawner {
  import opened Obstacles

  const InitialInterval: int := 1500
  const MinInterval: int := 700
  const IntervalStep: int := 20
  const InitialSpeed: real := 4.0
  const SpeedStep: real := 0.12

  /** New obstacles appear this far right of the canvas edge. */
  const SpawnMargin: real := 10.0
  /** New obstacles sink this far below the ground line. */
  const GroundInset: real := 2.0

  /** Smallest width and height of a new obstacle; each ranges over 30 whole values from there. */
  const MinWidth: int := 20
  const MinHeight: int := 30
  const SizeRange: int := 30

  /** The shape every obstacle has from its creation on. */
  predicate WellShaped(o: Obstacle, groundY: real)
  {
    MinWidth <= o.w < MinWidth + SizeRange &&
    MinHeight <= o.h < MinHeight + SizeRange &&
    o.y == groundY - o.h as real + GroundInset
  }

  /** `base + Math.floor(r * 30)` for a draw r of `Math.random`, which lies in [0, 1). */
  function RandomSize(base: int, r: real): (d: int)
    requires 0.0 <= r < 1.0
    ensures base <= d < base + SizeRange
  {
    base + (r * SizeRange as real).Floor
  }

  /** The obstacle `spawnObstacle` pushes, for random draws rw and rh. */
  function Spawn(width: real, groundY: real, rw: real, rh: real): (o: Obstacle)
    requires 0.0 <= rw < 1.0 && 0.0 <= rh < 1.0
    ensures WellShaped(o, groundY)
    ensures o.x == width + SpawnMargin && !o.passed
  {
    var w := RandomSize(MinWidth, rw);
    var h := RandomSize(MinHeight, rh);
    Obstacle(width + SpawnMargin, groundY - h as real + GroundInset, w, h, false)
  }

  /** `Math.max(700, spawnInterval - 20)`. */
  function NextInterval(i: int): (r: int)
    ensures r >= MinInterval
    ensures r == i - IntervalStep || r == MinInterval
    ensures i >= MinInterval ==> r <= i
    ensures i - IntervalStep >= MinInterval ==> r == i - IntervalStep
  {
    if i - IntervalStep >= MinInterval then i - IntervalStep else MinInterval
  }

  /** The spawn interval after n spawns in one run. */
  function IntervalAfter(n: nat): (r: int)
    ensures MinInterval <= r <= InitialInterval
  {
    if n == 0 then InitialInterval else NextInterval(IntervalAfter(n - 1))
  }

  /** Closed form of the ramp: the interval shrinks by 20 per spawn until it rests at 700. */
  lemma {:induction false} IntervalAfterClosedForm(n: nat)
    ensures IntervalAfter(n) == if InitialInterval - IntervalStep * n >= MinInterval
                                then InitialInterval - IntervalStep * n else MinInterval
  {
    if n > 0 {
      IntervalAfterClosedForm(n - 1);
    }
  }

  /** The interval never grows within a run. */
  lemma {:induction false} IntervalNonIncreasing(m: nat, n: nat)
    requires m <= n
    ensures IntervalAfter(n) <= IntervalAfter(m)
  {
    if m < n {
      IntervalNonIncreasing(m, n - 1);
    }
  }
}
