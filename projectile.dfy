/**
 * Projectile bookkeeping (`Projectile`): a lifetime that counts down by the
 * frame time, with no floor, and the launch rule that scales the launch
 * vector by a fixed speed. The sprite itself belongs to the engine; only
 * the velocity this code writes to it is kept.
 */
module Projectiles {
  import opened Geometry

  const ProjectileLifetime: real := 3.0
  const ProjectLaunchSpeed: real := 500.0

  /** The total of a sequence of frame times. */
  function Sum(dts: seq<real>): real
    decreases |dts|
  {
    if |dts| == 0 then 0.0 else Sum(dts[..|dts| - 1]) + dts[|dts| - 1]
  }

  /** Frame times that are never negative add up to a non-negative total. */
  lemma {:induction false} SumNonNegative(dts: seq<real>)
    requires forall i :: 0 <= i < |dts| ==> dts[i] >= 0.0
    ensures Sum(dts) >= 0.0
    decreases |dts|
  {
    if |dts| > 0 {
      var prefix := dts[..|dts| - 1];
      assert forall i :: 0 <= i < |prefix| ==> prefix[i] == dts[i];
      SumNonNegative(prefix);
    }
  }

  /** Frames of length zero add nothing. */
  lemma {:induction false} SumZeros(dts: seq<real>, n: nat)
    ensures Sum(dts + seq(n, _ => 0.0)) == Sum(dts)
    decreases n
  {
    if n > 0 {
      var shorter := dts + seq(n - 1, _ => 0.0);
      assert (dts + seq(n, _ => 0.0))[..|dts| + n - 1] == shorter;
      SumZeros(dts, n - 1);
    } else {
      assert dts + seq(0, _ => 0.0) == dts;
    }
  }

  /**
   * The velocity a launch vector gives: the same direction and orientation,
   * `ProjectLaunchSpeed` times as long.
   */
  function LaunchVelocity(launchVector: Vec2): (r: Vec2)
    ensures r.x * launchVector.y == r.y * launchVector.x
    ensures (r.x > 0.0 <==> launchVector.x > 0.0) && (r.x < 0.0 <==> launchVector.x < 0.0)
    ensures (r.y > 0.0 <==> launchVector.y > 0.0) && (r.y < 0.0 <==> launchVector.y < 0.0)
    ensures r.x * r.x + r.y * r.y ==
      ProjectLaunchSpeed * ProjectLaunchSpeed * (launchVector.x * launchVector.x + launchVector.y * launchVector.y)
  {
    Vec2(launchVector.x * ProjectLaunchSpeed, launchVector.y * ProjectLaunchSpeed)
  }

  class Projectile {
    var currentLifeTime: real
    var velocity: Vec2
    const color: int
    const isPlayerProjectile: bool

    /** The frame times of every update so far, oldest first. */
    ghost var elapsed: seq<real>

    ghost predicate Valid()
      reads this
    {
      currentLifeTime == ProjectileLifetime - Sum(elapsed)
    }

    /** The position goes to the engine sprite; the projectile starts at rest with a full lifetime. */
    constructor (x: real, y: real, color: int, isPlayerProjectile: bool)
      ensures Valid() && elapsed == []
      ensures currentLifeTime == ProjectileLifetime
      ensures this.isPlayerProjectile == isPlayerProjectile && this.color == color
      ensures velocity == Vec2(0.0, 0.0)
    {
      this.color := color;
      this.isPlayerProjectile := isPlayerProjectile;
      currentLifeTime := ProjectileLifetime;
      velocity := Vec2(0.0, 0.0);
      elapsed := [];
    }

    /** Counts the lifetime down by exactly `deltaTime`, past zero if need be. */
    method Update(deltaTime: real)
      requires Valid()
      modifies this
      ensures Valid() && elapsed == old(elapsed) + [deltaTime]
      ensures currentLifeTime == old(currentLifeTime) - deltaTime
      ensures velocity == old(velocity)
    {
      assert (elapsed + [deltaTime])[..|elapsed|] == elapsed;
      currentLifeTime := currentLifeTime - deltaTime;
      elapsed := elapsed + [deltaTime];
    }

    method LaunchProjectile(launchVector: Vec2)
      modifies this
      ensures velocity == LaunchVelocity(launchVector)
      ensures currentLifeTime == old(currentLifeTime) && elapsed == old(elapsed)
    {
      velocity := Vec2(launchVector.x * ProjectLaunchSpeed, launchVector.y * ProjectLaunchSpeed);
    }
  }

  /** With non-negative frame times, a projectile's lifetime never exceeds its initial value. */
  lemma LifetimeNeverGrows(p: Projectile)
    requires p.Valid() && forall i :: 0 <= i < |p.elapsed| ==> p.elapsed[i] >= 0.0
    ensures p.currentLifeTime <= ProjectileLifetime
  {
    SumNonNegative(p.elapsed);
  }
}
