/**
 * The player's squash-and-stretch animator (`PlayerSquisher`).
 *
 * A morph animates the scale toward a target in two phases: to the target,
 * then back to rest at (1, 1). Progress advances by `rate * dt` each update
 * and a phase ends once it reaches 0.99. While no morph is in flight the
 * animator is idle, and only then do the continuous falling and moving
 * blends act on the scale.
 *
 * `Morph` is the animator's whole state as a value; the functions over it
 * specify the class `PlayerSquisher`, whose methods update its fields in
 * place as the game code does.
 */
module Squisher {
  import opened Geometry

  const PlayerMinXScale: real := 0.8
  const PlayerMaxXScale: real := 1.2
  const PlayerMinYScale: real := 0.8
  const PlayerMaxYScale: real := 1.2
  const PlayerShotMinScale: real := 0.5

  const PlayerJumpScaleChange: real := 1.5
  const PlayerLandScaleChange: real := 7.0
  const PlayerFallScaleChange: real := 7.0

  /** Progress at which a morph phase counts as finished. */
  const CompletionThreshold: real := 0.99

  /**
   * The animator's fields: current scale, target scale, lerp progress, the
   * phase flag (`toTarget`), the idle flag (`completed`) and the rate.
   */
  datatype Morph = Morph(
    scale: Vec2,
    target: Vec2,
    progress: real,
    toTarget: bool,
    completed: bool,
    rate: real)

  /**
   * The invariant every reachable animator keeps: while a morph is in flight
   * its progress lies in [0, 0.99), its rate is positive, and in the
   * to-rest phase the target is the neutral scale.
   */
  predicate WellFormed(m: Morph)
  {
    !m.completed ==>
      && 0.0 <= m.progress < CompletionThreshold
      && m.rate > 0.0
      && (!m.toTarget ==> m.target == One)
  }

  /**
   * A freshly constructed animator: idle at scale (1, 1), target (0, 0).
   * The fields the constructor leaves unset are given 0 and false; they are
   * always written by a trigger before `update` reads them.
   */
  const Initial: Morph := Morph(One, Vec2(0.0, 0.0), 0.0, false, true, 0.0)

  /** One call of `update(dt)`. */
  function Tick(m: Morph, dt: real): (r: Morph)
    // idle is a fixed point: nothing changes
    ensures m.completed ==> r == m
    ensures r.rate == m.rate
    ensures WellFormed(m) && dt >= 0.0 ==> WellFormed(r)
    // an active update lerps with the old progress, then advances it by rate * dt
    ensures !m.completed && !r.completed ==> r.scale == Lerp(m.scale, m.target, m.progress)
    ensures !m.completed && r.toTarget == m.toTarget ==> r.progress == m.progress + m.rate * dt
    // the lerped scale never overshoots the target
    ensures WellFormed(m) && !m.completed && !r.completed ==>
      Between(m.scale.x, r.scale.x, m.target.x) && Between(m.scale.y, r.scale.y, m.target.y)
    // end of the to-target phase: flip to rest, progress 0, target (1, 1), no snap
    ensures !m.completed && m.toTarget ==> !r.completed
    ensures !m.completed && m.toTarget && !r.toTarget ==>
      r.progress == 0.0 && r.target == One && m.progress + m.rate * dt >= CompletionThreshold
    // end of the to-rest phase: idle, scale snapped to exactly (1, 1)
    ensures !m.completed && r.completed ==>
      !m.toTarget && r.scale == One && m.progress + m.rate * dt >= CompletionThreshold
  {
    if m.completed then m
    else
      var scale := Lerp(m.scale, m.target, m.progress);
      var progress := m.progress + m.rate * dt;
      if WellFormed(m) then
        LinearBetween(m.scale.x, m.target.x, m.progress);
        LinearBetween(m.scale.y, m.target.y, m.progress);
        FinishUpdate(m, scale, progress)
      else
        FinishUpdate(m, scale, progress)
  }

  /** The second half of an active update: store the lerped scale and progress, then test for completion. */
  function FinishUpdate(m: Morph, scale: Vec2, progress: real): Morph
  {
    if m.toTarget then
      if progress >= CompletionThreshold then
        m.(scale := scale, progress := 0.0, toTarget := false, target := One)
      else
        m.(scale := scale, progress := progress)
    else
      if progress >= CompletionThreshold then
        m.(scale := One, progress := progress, completed := true)
      else
        m.(scale := scale, progress := progress)
  }

  /** `playerJumped`: start a stretch morph toward (0.8, 1.2) at rate 1.5. */
  function Jumped(m: Morph): (r: Morph)
    ensures WellFormed(r) && !r.completed && r.toTarget && r.progress == 0.0
    ensures r.target == Vec2(PlayerMinXScale, PlayerMaxYScale) && r.rate == PlayerJumpScaleChange
    ensures r.scale == m.scale
  {
    m.(target := Vec2(PlayerMinXScale, PlayerMaxYScale), completed := false, toTarget := true,
       progress := 0.0, rate := PlayerJumpScaleChange)
  }

  /** `playerLanded`: start a squash morph toward (1.2, 0.8) at rate 7. */
  function Landed(m: Morph): (r: Morph)
    ensures WellFormed(r) && !r.completed && r.toTarget && r.progress == 0.0
    ensures r.target == Vec2(PlayerMaxXScale, PlayerMinYScale) && r.rate == PlayerLandScaleChange
    ensures r.scale == m.scale
  {
    m.(target := Vec2(PlayerMaxXScale, PlayerMinYScale), completed := false, toTarget := true,
       progress := 0.0, rate := PlayerLandScaleChange)
  }

  /**
   * The squish factor of one axis for a force-squish of magnitude `v`:
   * `map(|v|, 0, 1, 1, 0.5)`.
   */
  function SquishAmount(v: real): (r: real)
    ensures r == 1.0 - Abs(v) / 2.0
    ensures Abs(v) <= 1.0 ==> PlayerShotMinScale <= r <= 1.0
    ensures v == 0.0 ==> r == 1.0
  {
    Remap(Abs(v), 0.0, 1.0, 1.0, PlayerShotMinScale)
  }

  /** `playerForceSquish(x, y)`: set the scale outright; the morph state is untouched. */
  function ForceSquish(m: Morph, xValue: real, yValue: real): (r: Morph)
    ensures r.scale == Vec2(SquishAmount(xValue), SquishAmount(yValue))
    ensures r.(scale := m.scale) == m
    ensures WellFormed(m) ==> WellFormed(r)
  {
    m.(scale := Vec2(SquishAmount(xValue), SquishAmount(yValue)))
  }

  /** `playerForceSquishComplete`: start a to-rest morph at rate 7 from the current scale. */
  function ForceSquishComplete(m: Morph): (r: Morph)
    ensures WellFormed(r) && !r.completed && !r.toTarget && r.progress == 0.0
    ensures r.target == One && r.rate == PlayerLandScaleChange
    ensures r.scale == m.scale
  {
    m.(rate := PlayerLandScaleChange, completed := false, toTarget := false, progress := 0.0,
       target := One)
  }

  /** The scale the falling blend eases toward, for fall speed `v`. */
  function FallTarget(v: real, maxFallVelocity: real): (r: Vec2)
    requires maxFallVelocity != 0.0
    ensures v == 0.0 ==> r == One
    ensures v == maxFallVelocity ==> r == Vec2(PlayerMinXScale, PlayerMaxYScale)
    ensures 0.0 <= v <= maxFallVelocity ==>
      PlayerMinXScale <= r.x <= 1.0 && 1.0 <= r.y <= PlayerMaxYScale
  {
    Vec2(Remap(v, 0.0, maxFallVelocity, 1.0, PlayerMinXScale),
         Remap(v, 0.0, maxFallVelocity, 1.0, PlayerMaxYScale))
  }

  /** The scale the moving blend eases toward, for horizontal speed `v`. */
  function MoveTarget(v: real, maxMovementVelocity: real): (r: Vec2)
    requires maxMovementVelocity != 100.0
    ensures v == 100.0 ==> r == One
    ensures v == maxMovementVelocity ==> r == Vec2(PlayerMaxXScale, PlayerMinYScale)
    ensures 100.0 <= v <= maxMovementVelocity ==>
      1.0 <= r.x <= PlayerMaxXScale && PlayerMinYScale <= r.y <= 1.0
  {
    Vec2(Remap(v, 100.0, maxMovementVelocity, 1.0, PlayerMaxXScale),
         Remap(v, 100.0, maxMovementVelocity, 1.0, PlayerMinYScale))
  }

  /** Ease the scale toward `goal` by `7 * dt`, but only while idle. */
  function Blend(m: Morph, goal: Vec2, dt: real): (r: Morph)
    ensures !m.completed ==> r == m
    ensures r.(scale := m.scale) == m
    ensures WellFormed(m) ==> WellFormed(r)
    ensures m.completed && 0.0 <= PlayerFallScaleChange * dt <= 1.0 ==>
      Between(m.scale.x, r.scale.x, goal.x) && Between(m.scale.y, r.scale.y, goal.y)
    ensures m.scale == goal ==> r == m
  {
    if m.completed then
      var t := PlayerFallScaleChange * dt;
      if 0.0 <= t <= 1.0 then
        LinearBetween(m.scale.x, goal.x, t);
        LinearBetween(m.scale.y, goal.y, t);
        m.(scale := Vec2(Linear(m.scale.x, goal.x, t), Linear(m.scale.y, goal.y, t)))
      else
        m.(scale := Vec2(Linear(m.scale.x, goal.x, t), Linear(m.scale.y, goal.y, t)))
    else
      m
  }

  /** `playerFalling(v, maxFall, dt)`. */
  function Falling(m: Morph, v: real, maxFallVelocity: real, dt: real): (r: Morph)
    requires maxFallVelocity != 0.0
    ensures !m.completed ==> r == m
    ensures r.(scale := m.scale) == m
    ensures m.completed && 0.0 <= PlayerFallScaleChange * dt <= 1.0 ==>
      var goal := FallTarget(v, maxFallVelocity);
      Between(m.scale.x, r.scale.x, goal.x) && Between(m.scale.y, r.scale.y, goal.y)
  {
    Blend(m, FallTarget(v, maxFallVelocity), dt)
  }

  /** `playerMoving(v, maxMove, dt)`. */
  function Moving(m: Morph, v: real, maxMovementVelocity: real, dt: real): (r: Morph)
    requires maxMovementVelocity != 100.0
    ensures !m.completed ==> r == m
    ensures r.(scale := m.scale) == m
    ensures m.completed && 0.0 <= PlayerFallScaleChange * dt <= 1.0 ==>
      var goal := MoveTarget(v, maxMovementVelocity);
      Between(m.scale.x, r.scale.x, goal.x) && Between(m.scale.y, r.scale.y, goal.y)
  {
    Blend(m, MoveTarget(v, maxMovementVelocity), dt)
  }

  /** The state after one `update` per frame time in `dts`, in order. */
  function Run(m: Morph, dts: seq<real>): Morph
    decreases |dts|
  {
    if |dts| == 0 then m else Run(Tick(m, dts[0]), dts[1..])
  }

  /** An idle animator stays exactly as it is however many updates follow. */
  lemma {:induction false} RunIdle(m: Morph, dts: seq<real>)
    requires m.completed
    ensures Run(m, dts) == m
    decreases |dts|
  {
    if |dts| > 0 {
      RunIdle(Tick(m, dts[0]), dts[1..]);
    }
  }

  /** An update changes the target only when it ends the to-target phase; otherwise the target is kept. */
  lemma TickKeepsTarget(m: Morph, dt: real)
    ensures Tick(m, dt).toTarget ==> Tick(m, dt).target == m.target
    ensures !m.toTarget ==> Tick(m, dt).target == m.target
  {
    if !m.completed {
      var scale := Lerp(m.scale, m.target, m.progress);
      var progress := m.progress + m.rate * dt;
      assert Tick(m, dt) == FinishUpdate(m, scale, progress);
    }
  }

  /** Each discrete trigger overwrites whatever morph was in flight: only the scale carries over. */
  lemma TriggersOverwrite(m1: Morph, m2: Morph)
    requires m1.scale == m2.scale
    ensures Jumped(m1) == Jumped(m2)
    ensures Landed(m1) == Landed(m2)
    ensures ForceSquishComplete(m1) == ForceSquishComplete(m2)
  {
  }

  /** Every frame time in `dts` is non-negative and advances a morph of this rate by at least `step`. */
  predicate Paced(dts: seq<real>, rate: real, step: real)
  {
    forall i :: 0 <= i < |dts| ==> dts[i] >= 0.0 && rate * dts[i] >= step
  }

  lemma PacedTail(dts: seq<real>, rate: real, step: real)
    requires |dts| > 0 && Paced(dts, rate, step)
    ensures Paced(dts[1..], rate, step) && dts[0] >= 0.0 && rate * dts[0] >= step
  {
  }

  /** The progress reached from `p` after `k` updates of exactly `step` each. */
  function Reach(p: real, step: real, k: nat): real
    decreases k
  {
    if k == 0 then p else Reach(p + step, step, k - 1)
  }

  /** Starting further along reaches further by the same amount. */
  lemma {:induction false} ReachShift(p: real, d: real, step: real, k: nat)
    ensures Reach(p + d, step, k) == Reach(p, step, k) + d
    decreases k
  {
    if k > 0 {
      ReachShift(p + step, d, step, k - 1);
      assert p + d + step == (p + step) + d;
    }
  }

  /** Starting no earlier reaches no less far. */
  lemma ReachMonotone(p: real, q: real, step: real, k: nat)
    requires p <= q
    ensures Reach(p, step, k) <= Reach(q, step, k)
  {
    var d := q - p;
    ReachShift(p, d, step, k);
    assert p + d == q;
  }

  /** `Reach` in closed form. */
  lemma {:induction false} ReachClosed(p: real, step: real, k: nat)
    ensures Reach(p, step, k) == p + (k as real) * step
    decreases k
  {
    if k > 0 {
      ReachClosed(p + step, step, k - 1);
      assert ((k - 1) as real) * step + step == (k as real) * step;
    }
  }

  /**
   * The to-rest phase ends, with the scale at (1, 1), within any run of
   * updates that each add at least `step` to the progress and that would
   * together carry the progress past the threshold.
   */
  lemma {:induction false} ToRestEnds(m: Morph, dts: seq<real>, step: real)
    requires WellFormed(m) && !m.completed && !m.toTarget
    requires step > 0.0 && Paced(dts, m.rate, step)
    requires Reach(m.progress, step, |dts|) >= CompletionThreshold
    ensures Run(m, dts).completed && Run(m, dts).scale == One
    decreases |dts|
  {
    assert |dts| > 0;
    PacedTail(dts, m.rate, step);
    ToRestStep(m, dts[0], step);
    var m1, rest := Tick(m, dts[0]), dts[1..];
    assert Run(m, dts) == Run(m1, rest);
    assert Reach(m.progress + step, step, |rest|) >= CompletionThreshold;
    if !m1.completed {
      ReachMonotone(m.progress + step, m1.progress, step, |rest|);
      ToRestEnds(m1, rest, step);
    } else {
      RunIdle(m1, rest);
    }
  }

  /** One update of at least `step` progress in the to-rest phase either finishes at (1, 1) or stays to-rest, ahead by `step`. */
  lemma ToRestStep(m: Morph, dt: real, step: real)
    requires WellFormed(m) && !m.completed && !m.toTarget
    requires dt >= 0.0 && m.rate * dt >= step
    ensures var m1 := Tick(m, dt);
      m1.completed ==> m1.scale == One
    ensures var m1 := Tick(m, dt);
      !m1.completed ==> WellFormed(m1) && !m1.toTarget && m1.rate == m.rate && m1.progress >= m.progress + step
  {
  }

  /**
   * The to-target phase flips to rest and the whole morph then ends at
   * (1, 1), given enough updates for both phases plus one.
   */
  lemma {:induction false} ToTargetEnds(m: Morph, dts: seq<real>, step: real)
    requires WellFormed(m) && !m.completed && m.toTarget
    requires step > 0.0 && Paced(dts, m.rate, step)
    requires Reach(m.progress, step, |dts|) >= 2.0 * CompletionThreshold + step
    ensures Run(m, dts).completed && Run(m, dts).scale == One
    decreases |dts|
  {
    assert |dts| > 0;
    PacedTail(dts, m.rate, step);
    ToTargetStep(m, dts[0], step);
    var m1, rest := Tick(m, dts[0]), dts[1..];
    assert Run(m, dts) == Run(m1, rest);
    assert Reach(m.progress + step, step, |rest|) >= 2.0 * CompletionThreshold + step;
    if m1.toTarget {
      ReachMonotone(m.progress + step, m1.progress, step, |rest|);
      ToTargetEnds(m1, rest, step);
    } else {
      ReachShift(0.0, m.progress + step, step, |rest|);
      ToRestEnds(m1, rest, step);
    }
  }

  /** One update of at least `step` progress in the to-target phase either advances by `step` or flips to rest at progress 0. */
  lemma ToTargetStep(m: Morph, dt: real, step: real)
    requires WellFormed(m) && !m.completed && m.toTarget
    requires dt >= 0.0 && m.rate * dt >= step
    ensures var m1 := Tick(m, dt);
      WellFormed(m1) && !m1.completed && m1.rate == m.rate
    ensures var m1 := Tick(m, dt);
      m1.toTarget ==> m1.progress >= m.progress + step
    ensures var m1 := Tick(m, dt);
      !m1.toTarget ==> m1.progress == 0.0
  {
  }

  /** A number of updates of at least `c` seconds each that is sure to finish any morph of this rate. */
  function UpdatesToRest(rate: real, c: real): (n: nat)
    requires rate > 0.0 && c > 0.0
  {
    var q := (2.0 * CompletionThreshold) / (rate * c);
    if q.Floor >= 0 then q.Floor + 2 else 2
  }

  /**
   * Convergence: with frame times bounded below by `c > 0`, every morph in
   * flight ends idle with the scale at exactly (1, 1) after at most
   * `UpdatesToRest(rate, c)` uninterrupted updates; an idle animator stays idle.
   */
  lemma MorphConverges(m: Morph, dts: seq<real>, c: real)
    requires WellFormed(m) && c > 0.0
    requires forall i :: 0 <= i < |dts| ==> dts[i] >= c
    requires !m.completed ==> |dts| >= UpdatesToRest(m.rate, c)
    ensures Run(m, dts).completed
    ensures !m.completed ==> Run(m, dts).scale == One
  {
    if m.completed {
      RunIdle(m, dts);
    } else {
      var step := m.rate * c;
      PacedByFloor(dts, m.rate, c, step);
      EnoughUpdates(m.progress, m.rate, c, step, |dts|);
      if m.toTarget {
        ToTargetEnds(m, dts, step);
      } else {
        ToRestEnds(m, dts, step);
      }
    }
  }

  /** Frame times of at least `c` advance a morph of rate `rate` by at least `rate * c` each. */
  lemma PacedByFloor(dts: seq<real>, rate: real, c: real, step: real)
    requires rate > 0.0 && c > 0.0 && step == rate * c
    requires forall i :: 0 <= i < |dts| ==> dts[i] >= c
    ensures step > 0.0 && Paced(dts, rate, step)
  {
    forall i | 0 <= i < |dts|
      ensures dts[i] >= 0.0 && rate * dts[i] >= step
    {
      assert rate * dts[i] - rate * c == rate * (dts[i] - c);
    }
  }

  /** `UpdatesToRest(rate, c)` updates of `rate * c` each cover both phases of a morph plus one step. */
  lemma EnoughUpdates(p: real, rate: real, c: real, step: real, count: nat)
    requires p >= 0.0 && rate > 0.0 && c > 0.0 && step == rate * c
    requires count >= UpdatesToRest(rate, c)
    ensures Reach(p, step, count) >= 2.0 * CompletionThreshold + step
  {
    var q := (2.0 * CompletionThreshold) / step;
    var n := UpdatesToRest(rate, c);
    assert q * step == 2.0 * CompletionThreshold;
    assert (n as real) >= q + 1.0;
    assert (n as real) * step >= q * step + step by {
      assert (n as real) * step - (q * step + step) == ((n as real) - q - 1.0) * step;
    }
    assert (count as real) * step >= (n as real) * step by {
      assert (count as real) * step - (n as real) * step == ((count - n) as real) * step;
    }
    ReachClosed(p, step, count);
  }

  /** Every triggered morph (jump, land, end of a force-squish) ends idle at exactly (1, 1). */
  lemma TriggeredMorphConverges(m: Morph, dts: seq<real>, c: real)
    requires c > 0.0
    requires forall i :: 0 <= i < |dts| ==> dts[i] >= c
    requires |dts| >= UpdatesToRest(PlayerJumpScaleChange, c)
    ensures Run(Jumped(m), dts).completed && Run(Jumped(m), dts).scale == One
    ensures Run(Landed(m), dts).completed && Run(Landed(m), dts).scale == One
    ensures Run(ForceSquishComplete(m), dts).completed && Run(ForceSquishComplete(m), dts).scale == One
  {
    UpdatesToRestMonotone(PlayerLandScaleChange, PlayerJumpScaleChange, c);
    MorphConverges(Jumped(m), dts, c);
    MorphConverges(Landed(m), dts, c);
    MorphConverges(ForceSquishComplete(m), dts, c);
  }

  /** A faster rate never needs more updates. */
  lemma UpdatesToRestMonotone(fast: real, slow: real, c: real)
    requires 0.0 < slow <= fast && c > 0.0
    ensures UpdatesToRest(fast, c) <= UpdatesToRest(slow, c)
  {
    var qf := (2.0 * CompletionThreshold) / (fast * c);
    var qs := (2.0 * CompletionThreshold) / (slow * c);
    assert slow * c <= fast * c by {
      assert fast * c - slow * c == (fast - slow) * c;
    }
    assert qf <= qs;
  }

  /**
   * A zero-length update is not idempotent while a morph is in flight: the
   * scale still moves toward the target by the old progress.
   */
  lemma ZeroUpdateStillLerps()
    ensures var m := Morph(One, Vec2(0.8, 1.2), 0.5, true, false, 1.5);
      Tick(m, 0.0).scale == Vec2(0.9, 1.1) && Tick(m, 0.0).scale != m.scale
  {
  }

  /**
   * A blend over a frame longer than 1/7 s overshoots its goal: falling at
   * full speed for 0.2 s from (1, 1) sends the x scale past the goal 0.8,
   * to 0.72.
   */
  lemma LongFrameBlendOvershoots()
    ensures FallTarget(300.0, 300.0).x == PlayerMinXScale
    ensures Falling(Initial, 300.0, 300.0, 0.2).scale.x == 0.72
    ensures Falling(Initial, 300.0, 300.0, 0.2).scale.x < FallTarget(300.0, 300.0).x
  {
    var goal := FallTarget(300.0, 300.0);
    assert goal.x == PlayerMinXScale;
    assert Linear(1.0, PlayerMinXScale, PlayerFallScaleChange * 0.2) == 0.72;
  }

  /** The animator object. Each method is specified by the function of the same name above. */
  class PlayerSquisher {
    var playerScale: Vec2
    var playerTargetScale: Vec2
    var lerpAmount: real
    var morphToTarget: bool
    var morphCompleted: bool
    var scaleChangeRate: real

    /** The fields as one `Morph` value. */
    function State(): Morph
      reads this
    {
      Morph(playerScale, playerTargetScale, lerpAmount, morphToTarget, morphCompleted, scaleChangeRate)
    }

    predicate Valid()
      reads this
    {
      WellFormed(State())
    }

    constructor ()
      ensures State() == Initial && Valid()
    {
      morphCompleted := true;
      playerTargetScale := Vec2(0.0, 0.0);
      playerScale := One;
      lerpAmount := 0.0;
      morphToTarget := false;
      scaleChangeRate := 0.0;
    }

    method Update(dt: real)
      requires Valid() && dt >= 0.0
      modifies this
      ensures State() == Tick(old(State()), dt) && Valid()
      ensures old(morphCompleted) ==> unchanged(this)
    {
      if morphCompleted {
        return;
      }

      if morphToTarget {
        playerScale := Lerp(playerScale, playerTargetScale, lerpAmount);
        lerpAmount := lerpAmount + scaleChangeRate * dt;

        if lerpAmount >= CompletionThreshold {
          morphToTarget := false;
          lerpAmount := 0.0;

          playerTargetScale := playerTargetScale.(x := 1.0);
          playerTargetScale := playerTargetScale.(y := 1.0);
        }
      } else {
        playerScale := Lerp(playerScale, playerTargetScale, lerpAmount);
        lerpAmount := lerpAmount + scaleChangeRate * dt;

        if lerpAmount >= CompletionThreshold {
          morphCompleted := true;
          playerScale := playerScale.(x := 1.0);
          playerScale := playerScale.(y := 1.0);
        }
      }
    }

    method PlayerForceSquish(xValue: real, yValue: real)
      requires Valid()
      modifies this
      ensures State() == ForceSquish(old(State()), xValue, yValue) && Valid()
    {
      var xSquishAmount := Remap(Abs(xValue), 0.0, 1.0, 1.0, PlayerShotMinScale);
      var ySquishAmount := Remap(Abs(yValue), 0.0, 1.0, 1.0, PlayerShotMinScale);

      playerScale := playerScale.(x := xSquishAmount);
      playerScale := playerScale.(y := ySquishAmount);
    }

    method PlayerForceSquishComplete()
      modifies this
      ensures State() == ForceSquishComplete(old(State())) && Valid()
    {
      scaleChangeRate := PlayerLandScaleChange;
      morphCompleted := false;
      morphToTarget := false;
      lerpAmount := 0.0;

      playerTargetScale := playerTargetScale.(x := 1.0);
      playerTargetScale := playerTargetScale.(y := 1.0);
    }

    method PlayerJumped()
      modifies this
      ensures State() == Jumped(old(State())) && Valid()
    {
      playerTargetScale := playerTargetScale.(x := PlayerMinXScale);
      playerTargetScale := playerTargetScale.(y := PlayerMaxYScale);

      morphCompleted := false;
      morphToTarget := true;
      lerpAmount := 0.0;
      scaleChangeRate := PlayerJumpScaleChange;
    }

    method PlayerLanded()
      modifies this
      ensures State() == Landed(old(State())) && Valid()
    {
      playerTargetScale := playerTargetScale.(x := PlayerMaxXScale);
      playerTargetScale := playerTargetScale.(y := PlayerMinYScale);

      morphCompleted := false;
      morphToTarget := true;
      lerpAmount := 0.0;
      scaleChangeRate := PlayerLandScaleChange;
    }

    method PlayerFalling(currentFallVelocity: real, maxFallVelocity: real, dt: real)
      requires Valid() && maxFallVelocity != 0.0
      modifies this
      ensures State() == Falling(old(State()), currentFallVelocity, maxFallVelocity, dt) && Valid()
    {
      var xScale := Remap(currentFallVelocity, 0.0, maxFallVelocity, 1.0, PlayerMinXScale);
      var yScale := Remap(currentFallVelocity, 0.0, maxFallVelocity, 1.0, PlayerMaxYScale);

      if morphCompleted {
        playerScale := playerScale.(x := Linear(playerScale.x, xScale, PlayerFallScaleChange * dt));
        playerScale := playerScale.(y := Linear(playerScale.y, yScale, PlayerFallScaleChange * dt));
      }
    }

    method PlayerMoving(currentMovementVelocity: real, maxMovementVelocity: real, dt: real)
      requires Valid() && maxMovementVelocity != 100.0
      modifies this
      ensures State() == Moving(old(State()), currentMovementVelocity, maxMovementVelocity, dt) && Valid()
    {
      var xScale := Remap(currentMovementVelocity, 100.0, maxMovementVelocity, 1.0, PlayerMaxXScale);
      var yScale := Remap(currentMovementVelocity, 100.0, maxMovementVelocity, 1.0, PlayerMinYScale);

      if morphCompleted {
        playerScale := playerScale.(x := Linear(playerScale.x, xScale, PlayerFallScaleChange * dt));
        playerScale := playerScale.(y := Linear(playerScale.y, yScale, PlayerFallScaleChange * dt));
      }
    }
  }
}
