# SlowRunShoot player core in Dafny

This project models the player-side logic of the SlowRunShoot platformer, a
small Phaser 3 game. It covers the parts of the game that make decisions and
keep state. The engine's sprites, physics integration, particle emitters and
keyboard are treated as the world outside the model.

- **Squash-and-stretch animator** (`Squisher`, `squisher.dfy`). The
  `PlayerSquisher` class has the same six fields as the original. Each of its
  methods is specified by a pure function on the `Morph` value those fields
  form, such as `Tick` for `update` and `Jumped` for `playerJumped`. The
  lemmas about those functions state:
  - the invariant `WellFormed`: while a morph is in flight, progress lies in [0, 0.99);
  - the lerp never overshoots the target;
  - an idle animator never changes;
  - every triggered morph ends idle at exactly (1, 1) after a bounded number
    of updates, given frame times bounded below.
- **Ground-contact debouncer** (`Collision`, `collision.dfy`). The
  `PlayerCollision` class keeps, as ghost state, every signal it received and
  every call it forwarded to the animator. `Valid()` ties both to the pure
  `Replay` function. The lemmas about `Replay` state:
  - the animator hears "landed" exactly once per landing edge;
  - every jump is forwarded;
  - a run of repeated collisions lands at most once.
- **Input sampler** (`Controller`, `controller.dfy`). Left beats right, right
  beats down, and down beats nothing. A jump flag is set only on the frame
  the space key goes down.
- **Per-frame orchestration** (`PlayerLogic`, `player.dfy`). `Player.Update`
  runs the controller, the animator update, the scale copy, the
  falling/moving blend, the acceleration switch and the jump. The physics
  body is the `Body` record the player code writes.
- **Particle-effect list** (`Particles`, `particles.dfy`). Each effect goes
  through a two-stage countdown: live, then dead, then removed. The manager's
  `Update` is the original reverse loop that splices entries out in place. It
  is proved to compute the pure list update `Advance`.
- **Projectile bookkeeping** (`Projectiles`, `projectile.dfy`). The lifetime
  counts down with no floor, and launch scales the launch vector by 500.
- **Shared helpers** (`Geometry`, `geometry.dfy`). These are 2D vectors,
  `Math.Linear` and the project's `ExtensionFunctions.map`. The source of
  `map` is not part of this model. It is modelled as the usual unclamped
  linear remap `outMin + (outMax - outMin) * (v - inMin) / (inMax - inMin)`,
  and `Linear(a, b, t)` as `a + (b - a) * t`.

Engine floating point is modelled by `real`.

## Model

| member | source | states |
|---|---|---|
| Geometry.Remap | src/GameObjects/Player/PlayerSquisher.ts:109-110 | The remap sends `inMin` to `outMin` and `inMax` to `outMax`. An input inside the input range maps between the two outputs, for either orientation of the range. |
| Geometry.LinearBetween | src/GameObjects/Player/PlayerSquisher.ts:113-114 | `Linear` with a fraction in [0, 1] lands between its two end points. |
| Squisher.PlayerSquisher.constructor | src/GameObjects/Player/PlayerSquisher.ts:28-32 | A new animator is idle, with scale (1, 1) and target (0, 0). |
| Squisher.Tick | src/GameObjects/Player/PlayerSquisher.ts:38-64 | `update(dt)` has the following effects. An idle animator is a fixed point. An active update lerps with the old progress, then adds exactly `rate * dt`. The lerped scale lies between the old scale and the target. Ending the to-target phase flips to rest, resets progress to 0 and sets the target to (1, 1), without a snap. Ending the to-rest phase makes the animator idle with the scale snapped to exactly (1, 1). The rate never changes, and the invariant `WellFormed` is kept for `dt >= 0`. |
| Squisher.TickKeepsTarget | src/GameObjects/Player/PlayerSquisher.ts:43-64 | An update never changes the target while the to-target phase continues, nor during the to-rest phase. |
| Squisher.PlayerSquisher.Update | src/GameObjects/Player/PlayerSquisher.ts:38-64 | The fields after `update` are `Tick` of the fields before. When idle, no field changes at all. |
| Squisher.RunIdle | src/GameObjects/Player/PlayerSquisher.ts:39-41 | Any number of updates leave an idle animator exactly as it was. |
| Squisher.Jumped | src/GameObjects/Player/PlayerSquisher.ts:88-96 | `playerJumped` starts a to-target morph toward (0.8, 1.2) at rate 1.5 from progress 0 and keeps the scale. |
| Squisher.PlayerSquisher.PlayerJumped | src/GameObjects/Player/PlayerSquisher.ts:88-96 | The fields become `Jumped` of the old fields. |
| Squisher.Landed | src/GameObjects/Player/PlayerSquisher.ts:98-106 | `playerLanded` starts a to-target morph toward (1.2, 0.8) at rate 7 from progress 0 and keeps the scale. |
| Squisher.PlayerSquisher.PlayerLanded | src/GameObjects/Player/PlayerSquisher.ts:98-106 | The fields become `Landed` of the old fields. |
| Squisher.TriggersOverwrite | src/GameObjects/Player/PlayerSquisher.ts:78-106 | The result of a discrete trigger depends on the old scale alone. Any morph in flight is overwritten. |
| Squisher.SquishAmount | src/GameObjects/Player/PlayerSquisher.ts:71-72 | The squish factor `map(abs(v), 0, 1, 1, 0.5)` equals `1 - abs(v) / 2`. It is 1 for `v = 0` and lies in [0.5, 1] when `abs(v) <= 1`. |
| Squisher.ForceSquish | src/GameObjects/Player/PlayerSquisher.ts:70-76 | Force-squish sets the scale to the two squish factors and leaves every morph field untouched. |
| Squisher.PlayerSquisher.PlayerForceSquish | src/GameObjects/Player/PlayerSquisher.ts:70-76 | The fields become `ForceSquish` of the old fields. |
| Squisher.ForceSquishComplete | src/GameObjects/Player/PlayerSquisher.ts:78-86 | This starts a to-rest morph at rate 7 from progress 0 with target (1, 1) and keeps the scale. |
| Squisher.PlayerSquisher.PlayerForceSquishComplete | src/GameObjects/Player/PlayerSquisher.ts:78-86 | The fields become `ForceSquishComplete` of the old fields. |
| Squisher.FallTarget | src/GameObjects/Player/PlayerSquisher.ts:109-110 | The falling goal is (1, 1) at rest and (0.8, 1.2) at the maximum fall speed. In between, it is a stretch inside those bounds. |
| Squisher.MoveTarget | src/GameObjects/Player/PlayerSquisher.ts:119-132 | The moving goal is (1, 1) at speed 100 and (1.2, 0.8) at the maximum speed. In between, it is a squash inside those bounds. |
| Squisher.Blend | src/GameObjects/Player/PlayerSquisher.ts:112-115 | A blend acts only while idle and changes only the scale. With `0 <= 7 * dt <= 1` it moves each component between its old value and the goal. A scale already at the goal stays put. |
| Squisher.Falling | src/GameObjects/Player/PlayerSquisher.ts:108-116 | `playerFalling` changes nothing during a morph and touches only the scale. For frames of at most 1/7 s (`0 <= 7 * dt <= 1`), it eases the scale toward `FallTarget` without overshooting. |
| Squisher.PlayerSquisher.PlayerFalling | src/GameObjects/Player/PlayerSquisher.ts:108-116 | The fields become `Falling` of the old fields. |
| Squisher.Moving | src/GameObjects/Player/PlayerSquisher.ts:118-138 | `playerMoving` changes nothing during a morph and touches only the scale. For frames of at most 1/7 s (`0 <= 7 * dt <= 1`), it eases the scale toward `MoveTarget` without overshooting. |
| Squisher.PlayerSquisher.PlayerMoving | src/GameObjects/Player/PlayerSquisher.ts:118-138 | The fields become `Moving` of the old fields. |
| Squisher.LongFrameBlendOvershoots | src/GameObjects/Player/PlayerSquisher.ts:112-115 | A longer frame can overshoot. At the maximum fall speed, one 0.2 s falling blend from (1, 1) gives x-scale 0.72, past the goal of 0.8. |
| Squisher.ToRestStep | src/GameObjects/Player/PlayerSquisher.ts:54-63 | One to-rest update of at least `step` progress either ends idle at exactly (1, 1), or stays in the to-rest phase with the same rate and progress advanced by at least `step`. |
| Squisher.ToTargetStep | src/GameObjects/Player/PlayerSquisher.ts:43-53 | One to-target update keeps the morph in flight with the same rate. It either stays in the to-target phase with progress advanced by at least `step`, or flips to the to-rest phase at progress 0. |
| Squisher.ToRestEnds | src/GameObjects/Player/PlayerSquisher.ts:54-63 | A to-rest morph whose progress can reach 0.99 within the given updates ends idle at exactly (1, 1). |
| Squisher.ToTargetEnds | src/GameObjects/Player/PlayerSquisher.ts:43-63 | A to-target morph whose progress can cover both phases within the given updates ends idle at exactly (1, 1). |
| Squisher.MorphConverges | src/GameObjects/Player/PlayerSquisher.ts:38-64 | Convergence: with every frame time at least `c > 0`, any well-formed morph ends idle at exactly (1, 1) after `UpdatesToRest(rate, c)` updates. |
| Squisher.TriggeredMorphConverges | src/GameObjects/Player/PlayerSquisher.ts:78-106 | Every morph that a jump, a landing or a force-squish completion starts ends idle at exactly (1, 1) after finitely many updates. |
| Squisher.ZeroUpdateStillLerps | src/GameObjects/Player/PlayerSquisher.ts:44-45 | A zero-length update during a morph still moves the scale. At progress 0.5, the scale goes from (1, 1) to (0.9, 1.1). |
| Collision.PlayerCollision.constructor | src/GameObjects/Player/PlayerCollision.ts:9-11 | A new debouncer is not grounded and has received nothing yet. |
| Collision.PlayerCollision.SetPlayerSquisher | src/GameObjects/Player/PlayerCollision.ts:17-19 | This stores the animator and changes nothing else. |
| Collision.PlayerCollision.OnGroundCollision | src/GameObjects/Player/PlayerCollision.ts:21-28 | When already grounded, this is a no-op: nothing is forwarded and the animator is unchanged. Otherwise it sets grounded and forwards exactly one "landed" call. |
| Collision.PlayerCollision.OnPlayerJumped | src/GameObjects/Player/PlayerCollision.ts:30-33 | This always clears grounded and forwards "jumped", even when already airborne. |
| Collision.React | src/GameObjects/Player/PlayerCollision.ts:21-33 | After a signal, the flag is set exactly when the signal was a ground collision. A ground collision forwards "landed" exactly when not already grounded, and nothing otherwise. A jump always forwards "jumped". |
| Collision.ReplayGrounded | src/GameObjects/Player/PlayerCollision.ts:21-33 | The player is grounded exactly when the last signal was a ground collision. |
| Collision.LandingsAreEdges | src/GameObjects/Player/PlayerCollision.ts:21-33 | The number of "landed" calls equals the number of landing edges, for any sequence of signals. |
| Collision.JumpsForwarded | src/GameObjects/Player/PlayerCollision.ts:30-33 | The number of "jumped" calls equals the number of jump signals, counted by the same `Count`. |
| Collision.CollisionRunLandsOnce | src/GameObjects/Player/PlayerCollision.ts:21-28 | A run of `n` ground collisions adds exactly one "landed" call if the player was airborne, and none otherwise. Afterwards the player is grounded. |
| Collision.JumpRearmsLanding | src/GameObjects/Player/PlayerCollision.ts:21-33 | After a jump, the next ground collision lands again. |
| Controller.DirectionFor | src/GameObjects/Player/PlayerController.ts:29-37 | Left exactly when left is held. Right exactly when right is held and left is not. Down exactly when down is held and neither side key is. None exactly when no key is held. |
| Controller.LeftHasPriority | src/GameObjects/Player/PlayerController.ts:29-36 | With left held, the other keys do not matter. With a side key held, down does not matter. |
| Controller.PlayerController.constructor | src/GameObjects/Player/PlayerController.ts:14-20 | The initial direction is None. |
| Controller.PlayerController.Update | src/GameObjects/Player/PlayerController.ts:26-42 | The new direction is `DirectionFor` of this frame's keys, never of the previous direction. The jump flag is true exactly when space went down this frame. |
| PlayerLogic.AccelerationX | src/GameObjects/Player/Player.ts:85-106 | None gives 0. Left and Right give magnitude 400, negative exactly for Left. Down keeps the current acceleration. |
| PlayerLogic.ChooseBlend | src/GameObjects/Player/Player.ts:79-83 | Falling exactly when `vy > 0`, with `vy`. Moving exactly when `vy <= 0` and `vx != 0`, with `abs(vx) > 0`. Never both. |
| PlayerLogic.ApplyBlend | src/GameObjects/Player/Player.ts:79-83 | The chosen blend touches only the scale, and nothing while a morph is in flight. |
| PlayerLogic.FrameMorph | src/GameObjects/Player/Player.ts:75-111 | A frame (update, then blend, then the jump trigger) keeps the animator's invariant for `dt >= 0`. While the update leaves a morph in flight, the frame's scale is the update's, jump or not. Without a jump, the rate is unchanged. |
| PlayerLogic.JumpFrameStartsMorph | src/GameObjects/Player/Player.ts:108-111 | A frame with a jump always ends with a fresh jump morph in flight. |
| PlayerLogic.BlendsWaitForMorph | src/GameObjects/Player/Player.ts:75-83 | While a morph is in flight, a frame without a jump is exactly one animator update. |
| PlayerLogic.Player.constructor | src/GameObjects/Player/Player.ts:47-60 | The velocity cap is (230, 300) and the horizontal drag is 500. A debouncer is wired to a fresh idle animator. |
| PlayerLogic.Player.SetupInput | src/GameObjects/Player/Player.ts:43-45 | This creates a fresh input sampler with direction None. |
| PlayerLogic.Player.Update | src/GameObjects/Player/Player.ts:66-112 | In one frame, the controller samples the keys. The body's scale is the animator's after `update(dt)` and before the blend. The animator ends in `FrameMorph` of its old state. Horizontal acceleration follows `AccelerationX`. A jump sets `vy = -200` and clears grounded through the debouncer. Nothing else on the body changes. |
| PlayerLogic.Player.OnPlayerGrounded | src/GameObjects/Player/Player.ts:118-120 | This forwards exactly one ground collision to the debouncer. |
| Particles.Spawn | src/Managers/MainSceneParticlesManager.ts:58-65 | A new entry is live, has a grace period of 1 second, and carries the given lifetime and position. |
| Particles.Age | src/Managers/MainSceneParticlesManager.ts:25-43 | An entry is removed exactly when it was already dead and its grace period falls to 0 or below. A dead survivor's grace period drops by `dt`. A live entry is always kept, its lifetime drops by `dt`, and it is dead exactly when that lifetime is 0 or below. |
| Particles.Advance | src/Managers/MainSceneParticlesManager.ts:21-45 | The list never grows. It shrinks by exactly the number of expiring dead entries. An all-live list keeps its length. |
| Particles.AdvanceAppend | src/Managers/MainSceneParticlesManager.ts:22-44 | Entries are processed independently and in order, so survivors keep their relative order. |
| Particles.LiveEntriesKept | src/Managers/MainSceneParticlesManager.ts:32-43 | In an all-live list, no entry is removed. Each is kept, aged, at its own index. |
| Particles.LiveEntryKeptInPlace | src/Managers/MainSceneParticlesManager.ts:32-43 | In any list of live and dead entries, a live entry is never removed. The update keeps it, aged, between the updates of the entries before it and after it. |
| Particles.SpawnSurvivesFirstUpdate | src/Managers/MainSceneParticlesManager.ts:25-42 | A freshly spawned entry is still in the list after its first update, whatever its lifetime. |
| Particles.MainSceneParticlesManager.constructor | src/Managers/MainSceneParticlesManager.ts:12-15 | The effect list starts empty. |
| Particles.MainSceneParticlesManager.PlayEffectAtPosition | src/Managers/MainSceneParticlesManager.ts:51-68 | This appends exactly one `Spawn` entry at the end of the list. |
| Particles.MainSceneParticlesManager.Update | src/Managers/MainSceneParticlesManager.ts:21-45 | The reverse loop with in-place splicing leaves exactly `Advance` of the old list. |
| Projectiles.Projectile.constructor | src/GameObjects/Projectiles/Projectile.ts:15-20 | A new projectile has lifetime 3 and keeps the player flag it was given. |
| Projectiles.Projectile.Update | src/GameObjects/Projectiles/Projectile.ts:40-42 | The lifetime drops by exactly `dt` with no floor. After updates `dt1..dtn` it is `3 - (dt1 + ... + dtn)`. |
| Projectiles.SumZeros | src/GameObjects/Projectiles/Projectile.ts:40-42 | Zero-length updates do not change the lifetime. |
| Projectiles.SumNonNegative | src/GameObjects/Projectiles/Projectile.ts:40-42 | Non-negative frame times add up to a non-negative total. |
| Projectiles.LifetimeNeverGrows | src/GameObjects/Projectiles/Projectile.ts:59-61 | With non-negative frame times, the lifetime reported is at most 3. |
| Projectiles.LaunchVelocity | src/GameObjects/Projectiles/Projectile.ts:48-49 | The launch velocity is parallel to the launch vector, with the same sign per component, and 500 times as long. |
| Projectiles.Projectile.LaunchProjectile | src/GameObjects/Projectiles/Projectile.ts:48-53 | This sets the velocity to `LaunchVelocity` of the launch vector and leaves the lifetime alone. |

## Left out

- Engine calls are not modelled. This covers sprite and body creation, world bounds, bounce, tint, display size, the shape rectangle that follows the body, physics integration between frames, the `atan2` rotation set on launch, emitter `stop` and `setPosition`, emitter-manager `destroy`, and `Projectile.destroy`. The particle model keeps only the list bookkeeping those calls accompany.
- `getParticle` is not modelled. It builds emitters by evaluating cached JSON text as code, and an entry's emitter manager is represented by its `ParticleType`.
- `src/Scenes/MainScene.ts`, the world blocks, the asset tables and the game configuration are not part of this model. Nothing in the modelled files defines dash, shooting or projectile collections.
- `Player.updateBetterJump` is private and never called, so `FallMultiplier` is unused.
- Phaser's shared `Vector2.ZERO` and `Vector2.ONE` are not modelled as shared. The animator's constructor stores those shared instances, and `lerp` and the field-wise writes then mutate them in place. Vectors here are values, so writes through them do not reach other users of those constants.
- Keyboard polling (`createCursorKeys`, `addKey`, `JustDown`) is not modelled. The key states of a frame are the `KeyState` input.
- The getters `PlayerScale`, `PlayerDirection`, `PlayerJumped`, `CurrentLifetime` and `IsPlayerProjectile` are read directly as the fields they return.
- Fields the original constructors leave undefined are given initial values in the model. These are the animator's progress, phase and rate, and the controller's jump flag. They get 0 or false, and each is written before it is read.
- The body's initial scale (1, 1) and zero velocity and acceleration are the engine's defaults, not something the player code sets.
- Squisher.PlayerSquisher.Update: requires `dt >= 0`. The original does not check this. The engine's frame delta is never negative, and the in-flight invariant relies on it.
- PlayerLogic.Player.Update: requires `dt >= 0` for the same reason, and requires `SetupInput` to have run first. The original would fail on a missing controller.
- Squisher.FallTarget: requires a non-zero maximum fall speed, where `map` would divide by zero. The player always passes 300.
- Squisher.MoveTarget: requires a maximum speed other than 100, for the same reason. The player always passes 230.
- Squisher.MorphConverges: proves convergence only for frame times bounded below by some `c > 0`, with no trigger during the run. A trigger restarts the morph.

A zero-length update is sometimes read as changing nothing. In the code, `update(0)` still lerps the scale with the old progress while a morph is in flight. The model follows the code, and `Squisher.ZeroUpdateStillLerps` exhibits the difference. The projectile's `update(0)`, by contrast, changes nothing.
