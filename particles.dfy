/**
 * The particle-effect lifetime list (`MainSceneParticlesManager`).
 *
 * Every effect goes through a two-stage countdown: while live its lifetime
 * runs down, and when it reaches zero the effect is marked dead (its
 * emitters stop) but stays in the list; a dead effect then runs down a
 * fixed grace period of `ParticleStopDestroyTime` seconds and is removed
 * (its emitter manager destroyed) when that runs out.
 *
 * `Age` is one entry's step and `Advance` the whole list's; the manager's
 * `Update` walks the list backwards, mutating and splicing in place, and is
 * proved to compute `Advance`.
 */
module Particles {

  datatype Option<T> = None | Some(value: T)

  datatype ParticleType = LandDust | Dash | StarSpiral | BulletTrail

  /** Seconds a dead effect stays in the list after its emitters stop. */
  const ParticleStopDestroyTime: real := 1.0

  /**
   * One entry of the list. The engine's emitter manager is represented by
   * the kind of effect it was created for.
   */
  datatype ParticleEffect = ParticleEffect(
    kind: ParticleType,
    lifeTime: real,
    isDead: bool,
    deadLifeTimeLeft: real,
    xPosition: real,
    yPosition: real)

  /** The entry `playEffectAtPosition` creates. */
  function Spawn(kind: ParticleType, lifeTime: real, x: real, y: real): (e: ParticleEffect)
    ensures !e.isDead && e.deadLifeTimeLeft == ParticleStopDestroyTime
    ensures e.kind == kind && e.lifeTime == lifeTime && e.xPosition == x && e.yPosition == y
  {
    ParticleEffect(kind, lifeTime, false, ParticleStopDestroyTime, x, y)
  }

  /**
   * One entry after an update of `dt` seconds, or `None` when it is removed.
   * Only an entry that was already dead can be removed; a live entry that
   * runs out is marked dead and kept.
   */
  function Age(e: ParticleEffect, dt: real): (r: Option<ParticleEffect>)
    ensures r.None? <==> e.isDead && e.deadLifeTimeLeft - dt <= 0.0
    ensures r.Some? ==> r.value.kind == e.kind && r.value.xPosition == e.xPosition && r.value.yPosition == e.yPosition
    ensures e.isDead && r.Some? ==>
      r.value == e.(deadLifeTimeLeft := e.deadLifeTimeLeft - dt) && r.value.deadLifeTimeLeft > 0.0
    ensures !e.isDead ==>
      && r.Some?
      && r.value.lifeTime == e.lifeTime - dt
      && r.value.deadLifeTimeLeft == e.deadLifeTimeLeft
      && (r.value.isDead <==> r.value.lifeTime <= 0.0)
  {
    if e.isDead then
      var left := e.deadLifeTimeLeft - dt;
      if left <= 0.0 then None else Some(e.(deadLifeTimeLeft := left))
    else
      var remaining := e.lifeTime - dt;
      Some(e.(lifeTime := remaining, isDead := remaining <= 0.0))
  }

  /** The number of dead entries of `es` whose grace period runs out within `dt`. */
  function Expiring(es: seq<ParticleEffect>, dt: real): nat
  {
    if |es| == 0 then 0
    else (if Age(es[0], dt).None? then 1 else 0) + Expiring(es[1..], dt)
  }

  /** The whole list after an update of `dt` seconds: every entry aged, the expired ones dropped, order kept. */
  function Advance(es: seq<ParticleEffect>, dt: real): (r: seq<ParticleEffect>)
    ensures |r| == |es| - Expiring(es, dt)
    ensures |r| <= |es|
    ensures (forall i :: 0 <= i < |es| ==> !es[i].isDead) ==> |r| == |es|
  {
    if |es| == 0 then []
    else
      match Age(es[0], dt)
      case None => Advance(es[1..], dt)
      case Some(e) => [e] + Advance(es[1..], dt)
  }

  /** Entries are aged independently, so the update of a concatenation is the concatenation of the updates. */
  lemma {:induction false} AdvanceAppend(a: seq<ParticleEffect>, b: seq<ParticleEffect>, dt: real)
    ensures Advance(a + b, dt) == Advance(a, dt) + Advance(b, dt)
    decreases |a|
  {
    if |a| == 0 {
      assert a + b == b;
    } else {
      assert (a + b)[0] == a[0];
      assert (a + b)[1..] == a[1..] + b;
      AdvanceAppend(a[1..], b, dt);
    }
  }

  /** An update removes no live entry: every live entry is kept, aged, in its place. */
  lemma {:induction false} LiveEntriesKept(es: seq<ParticleEffect>, dt: real)
    requires forall i :: 0 <= i < |es| ==> !es[i].isDead
    ensures |Advance(es, dt)| == |es|
    ensures forall i :: 0 <= i < |es| ==> Some(Advance(es, dt)[i]) == Age(es[i], dt)
    decreases |es|
  {
    if |es| > 0 {
      LiveEntriesKept(es[1..], dt);
      var rest := Advance(es[1..], dt);
      assert Advance(es, dt) == [Age(es[0], dt).value] + rest;
      forall i | 0 < i < |es|
        ensures Some(Advance(es, dt)[i]) == Age(es[i], dt)
      {
        assert es[1..][i - 1] == es[i];
      }
    }
  }

  /**
   * A live entry is never removed, wherever it sits in a list of live and
   * dead entries: the update keeps it, aged, between the updates of the
   * entries before and after it.
   */
  lemma LiveEntryKeptInPlace(es: seq<ParticleEffect>, i: nat, dt: real)
    requires i < |es| && !es[i].isDead
    ensures Advance(es, dt) == Advance(es[..i], dt) + [Age(es[i], dt).value] + Advance(es[i + 1..], dt)
  {
    assert es == es[..i] + [es[i]] + es[i + 1..];
    AdvanceAppend(es[..i] + [es[i]], es[i + 1..], dt);
    AdvanceAppend(es[..i], [es[i]], dt);
    assert [es[i]][1..] == [];
  }

  /**
   * No entry is removed in the update that kills it: a freshly spawned
   * effect is still in the list after its first update, whatever its
   * lifetime and the frame length.
   */
  lemma SpawnSurvivesFirstUpdate(es: seq<ParticleEffect>, kind: ParticleType, lifeTime: real, x: real, y: real, dt: real)
    ensures Advance(es + [Spawn(kind, lifeTime, x, y)], dt) == Advance(es, dt) + [Age(Spawn(kind, lifeTime, x, y), dt).value]
  {
    var s := Spawn(kind, lifeTime, x, y);
    AdvanceAppend(es, [s], dt);
    assert [s][1..] == [];
  }

  /** The effect manager. */
  class MainSceneParticlesManager {
    var particleEffects: seq<ParticleEffect>

    constructor ()
      ensures particleEffects == []
    {
      particleEffects := [];
    }

    /** Appends one fresh entry at the end of the list. */
    method PlayEffectAtPosition(effectType: ParticleType, lifeTime: real, xPosition: real, yPosition: real)
      modifies this
      ensures particleEffects == old(particleEffects) + [Spawn(effectType, lifeTime, xPosition, yPosition)]
    {
      var effect := ParticleEffect(effectType, lifeTime, false, ParticleStopDestroyTime, xPosition, yPosition);
      particleEffects := particleEffects + [effect];
    }

    /**
     * Walks the list from the last index down to 0, aging each entry in
     * place and splicing out the dead ones whose grace period ran out.
     * Indices below `i` are untouched so far; the suffix past `i` already
     * holds the updated entries.
     */
    method Update(deltaTime: real)
      modifies this
      ensures particleEffects == Advance(old(particleEffects), deltaTime)
    {
      ghost var es := particleEffects;
      var i := |particleEffects| - 1;
      assert es[i + 1..] == [];
      while i >= 0
        invariant -1 <= i < |es|
        invariant particleEffects == es[..i + 1] + Advance(es[i + 1..], deltaTime)
        decreases i
      {
        ghost var done := Advance(es[i + 1..], deltaTime);
        assert es[i..][1..] == es[i + 1..];
        assert particleEffects[i] == es[i];
        assert particleEffects[..i] == es[..i];
        assert particleEffects[i + 1..] == done;
        var effect := particleEffects[i];

        if effect.isDead {
          effect := effect.(deadLifeTimeLeft := effect.deadLifeTimeLeft - deltaTime);
          if effect.deadLifeTimeLeft <= 0.0 {
            particleEffects := particleEffects[..i] + particleEffects[i + 1..];
          } else {
            particleEffects := particleEffects[..i] + [effect] + particleEffects[i + 1..];
          }
        } else {
          effect := effect.(lifeTime := effect.lifeTime - deltaTime);
          if effect.lifeTime <= 0.0 {
            effect := effect.(isDead := true);
          }
          particleEffects := particleEffects[..i] + [effect] + particleEffects[i + 1..];
        }

        assert es[..i + 1][..i] == es[..i];
        i := i - 1;
      }
      assert es[..0] == [] && es[0..] == es;
    }
  }
}
