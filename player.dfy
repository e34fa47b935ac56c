/**
 * The per-frame decisions of `Player`: it samples the input, advances the
 * animator, copies the animator's scale onto the physics body, picks the
 * falling or moving blend from the body's velocity, sets the horizontal
 * acceleration from the direction, and handles a jump.
 *
 * The arcade-physics sprite is reduced to the `Body` record of what this
 * code writes to it; the engine integrates it between frames.
 */
module PlayerLogic {
  import opened Geometry
  import opened Squisher
  import opened Collision
  import opened Controller

  const JumpVelocity: real := -200.0
  const MaxFallVelocity: real := 300.0
  const MaxMovementSpeed: real := 230.0
  const MovementSpeedIncrementRate: real := 400.0
  const MovementSpeedDecrementRate: real := 500.0

  /** What the player code reads from and writes to the physics body. */
  datatype Body = Body(velocity: Vec2, acceleration: Vec2, maxVelocity: Vec2, dragX: real, scale: Vec2)

  /** The horizontal acceleration a direction asks for, given the current one. */
  function AccelerationX(direction: PlayerDirection, current: real): (a: real)
    ensures direction == None ==> a == 0.0
    ensures direction == Left || direction == Right ==>
      Abs(a) == MovementSpeedIncrementRate && (a < 0.0 <==> direction == Left)
    ensures direction == Down ==> a == current
  {
    match direction
    case None => 0.0
    case Left => -MovementSpeedIncrementRate
    case Right => MovementSpeedIncrementRate
    case Down => current
  }

  /** Which continuous blend a frame applies to the animator. */
  datatype Blend = FallingBlend(fallVelocity: real) | MovingBlend(speed: real) | NoBlend

  /** Falling when moving down; otherwise moving when there is horizontal speed; never both. */
  function ChooseBlend(velocity: Vec2): (b: Blend)
    ensures b.FallingBlend? <==> velocity.y > 0.0
    ensures b.MovingBlend? <==> velocity.y <= 0.0 && velocity.x != 0.0
    ensures b.FallingBlend? ==> b.fallVelocity == velocity.y
    ensures b.MovingBlend? ==> b.speed == Abs(velocity.x) && b.speed > 0.0
  {
    if velocity.y > 0.0 then FallingBlend(velocity.y)
    else if Abs(velocity.x) > 0.0 then MovingBlend(Abs(velocity.x))
    else NoBlend
  }

  /** The animator state after the chosen blend. */
  function ApplyBlend(m: Morph, b: Blend, dt: real): (r: Morph)
    ensures r.(scale := m.scale) == m
    ensures !m.completed || b == NoBlend ==> r == m
  {
    match b
    case FallingBlend(v) => Falling(m, v, MaxFallVelocity, dt)
    case MovingBlend(v) => Moving(m, v, MaxMovementSpeed, dt)
    case NoBlend => m
  }

  /** The animator state at the end of a frame: update, then blend, then the jump trigger. */
  function FrameMorph(m: Morph, velocity: Vec2, jumped: bool, dt: real): (r: Morph)
    // a frame keeps the animator's invariant
    ensures WellFormed(m) && dt >= 0.0 ==> WellFormed(r)
    // while the update leaves a morph in flight, the frame's scale is the update's, jump or not
    ensures !Tick(m, dt).completed ==> r.scale == Tick(m, dt).scale
    // the blend and the jump never touch the rate unless a jump restarts the morph
    ensures !jumped ==> r.rate == m.rate
  {
    var blended := ApplyBlend(Tick(m, dt), ChooseBlend(velocity), dt);
    if jumped then Jumped(blended) else blended
  }

  /** A frame with a jump always leaves a fresh jump morph in flight, whatever the animator was doing. */
  lemma JumpFrameStartsMorph(m: Morph, velocity: Vec2, dt: real)
    ensures var r := FrameMorph(m, velocity, true, dt);
      !r.completed && r.toTarget && r.progress == 0.0 && r.rate == PlayerJumpScaleChange
  {
  }

  /**
   * While a morph is in flight the blends do nothing, so the frame's
   * animator state is exactly one update of the morph.
   */
  lemma BlendsWaitForMorph(m: Morph, velocity: Vec2, dt: real)
    requires !Tick(m, dt).completed
    ensures FrameMorph(m, velocity, false, dt) == Tick(m, dt)
  {
  }

  class Player {
    var body: Body
    var playerController: PlayerController?
    const playerCollision: PlayerCollision
    const playerSquisher: PlayerSquisher

    ghost predicate Valid()
      reads this, playerCollision, playerSquisher
    {
      && playerCollision.playerSquisher == playerSquisher
      && playerCollision.Valid()
      && playerSquisher.Valid()
    }

    /**
     * Creates the body with the velocity cap (230, 300) and horizontal drag
     * 500, and the debouncer wired to a fresh animator. The body starts at
     * rest with scale (1, 1).
     */
    constructor ()
      ensures Valid() && fresh(playerCollision) && fresh(playerSquisher) && playerController == null
      ensures body.maxVelocity == Vec2(MaxMovementSpeed, MaxFallVelocity)
      ensures body.dragX == MovementSpeedDecrementRate
      ensures body.velocity == Vec2(0.0, 0.0) && body.acceleration == Vec2(0.0, 0.0)
      ensures playerSquisher.State() == Initial
      ensures !playerCollision.isGrounded && playerCollision.history == []
    {
      var b := Body(Vec2(0.0, 0.0), Vec2(0.0, 0.0), Vec2(0.0, 0.0), 0.0, One);
      b := b.(maxVelocity := Vec2(MaxMovementSpeed, MaxFallVelocity));
      b := b.(dragX := MovementSpeedDecrementRate);
      var collision := new PlayerCollision();
      var squisher := new PlayerSquisher();
      collision.SetPlayerSquisher(squisher);
      body := b;
      playerCollision := collision;
      playerSquisher := squisher;
      playerController := null;
    }

    /** Creates the input sampler. */
    method SetupInput()
      modifies this
      ensures fresh(playerController) && playerController.playerDirection == None
      ensures !playerController.jumpPressed
      ensures body == old(body)
    {
      playerController := new PlayerController();
    }

    /** One frame of player logic, `dt` seconds long, with the keys as sampled this frame. */
    method Update(dt: real, keys: KeyState)
      requires Valid() && playerController != null && dt >= 0.0
      modifies this, playerController, playerCollision, playerSquisher
      ensures Valid() && playerController == old(playerController)
      ensures playerController.playerDirection == DirectionFor(keys)
      ensures playerController.jumpPressed == keys.spaceJustDown
      // the scale written to the body is the animator's, after its update and before the blend
      ensures body.scale == Tick(old(playerSquisher.State()), dt).scale
      ensures playerSquisher.State() ==
        FrameMorph(old(playerSquisher.State()), old(body.velocity), keys.spaceJustDown, dt)
      ensures body.acceleration ==
        old(body.acceleration).(x := AccelerationX(DirectionFor(keys), old(body.acceleration.x)))
      ensures body.velocity ==
        if keys.spaceJustDown then old(body.velocity).(y := JumpVelocity) else old(body.velocity)
      ensures body.maxVelocity == old(body.maxVelocity) && body.dragX == old(body.dragX)
      // a jump tells the debouncer, which leaves the ground and forwards the jump
      ensures playerCollision.history == old(playerCollision.history) + if keys.spaceJustDown then [Jump] else []
      ensures playerCollision.calls == old(playerCollision.calls) + if keys.spaceJustDown then [JumpedCall] else []
      ensures playerCollision.isGrounded == (old(playerCollision.isGrounded) && !keys.spaceJustDown)
    {
      playerController.Update(keys);
      var playerDirection := playerController.playerDirection;
      var jumped := playerController.jumpPressed;

      playerSquisher.Update(dt);
      var playerScale := playerSquisher.playerScale;
      body := body.(scale := playerScale);

      if body.velocity.y > 0.0 {
        playerSquisher.PlayerFalling(body.velocity.y, MaxFallVelocity, dt);
      } else if Abs(body.velocity.x) > 0.0 {
        playerSquisher.PlayerMoving(Abs(body.velocity.x), MaxMovementSpeed, dt);
      }

      match playerDirection {
        case None =>
          body := body.(acceleration := body.acceleration.(x := 0.0));
        case Left =>
          body := body.(acceleration := body.acceleration.(x := -MovementSpeedIncrementRate));
        case Right =>
          body := body.(acceleration := body.acceleration.(x := MovementSpeedIncrementRate));
        case Down =>
      }

      if jumped {
        body := body.(velocity := body.velocity.(y := JumpVelocity));
        playerCollision.OnPlayerJumped();
      } else {
        assert playerCollision.history + [] == playerCollision.history;
        assert playerCollision.calls + [] == playerCollision.calls;
      }
    }

    /** The engine's player-ground collider callback: forwards exactly one ground collision. */
    method OnPlayerGrounded()
      requires Valid()
      modifies playerCollision, playerSquisher
      ensures Valid()
      ensures playerCollision.history == old(playerCollision.history) + [Ground]
      ensures playerCollision.isGrounded
      ensures playerCollision.calls ==
        old(playerCollision.calls) + if old(playerCollision.isGrounded) then [] else [LandedCall]
      ensures playerSquisher.State() ==
        if old(playerCollision.isGrounded) then old(playerSquisher.State()) else Landed(old(playerSquisher.State()))
    {
      playerCollision.OnGroundCollision();
    }
  }
}
