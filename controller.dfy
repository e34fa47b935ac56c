/**
 * The input sampler (`PlayerController`). Once per frame it turns the
 * keyboard state into a direction, with priority left > right > down > none,
 * and a jump flag that is set only on the frame the space key goes down.
 * Keyboard polling belongs to the engine, so the key states are inputs.
 */
module Controller {

  datatype PlayerDirection = None | Left | Right | Down

  /**
   * The key states one update reads: the three cursor keys held down, and
   * whether the space key went down this frame (`JustDown`).
   */
  datatype KeyState = KeyState(left: bool, right: bool, down: bool, spaceJustDown: bool)

  /** The direction a key state selects. */
  function DirectionFor(keys: KeyState): (d: PlayerDirection)
    ensures d == Left <==> keys.left
    ensures d == Right <==> !keys.left && keys.right
    ensures d == Down <==> !keys.left && !keys.right && keys.down
    ensures d == None <==> !keys.left && !keys.right && !keys.down
  {
    if keys.left then Left
    else if keys.right then Right
    else if keys.down then Down
    else None
  }

  /** Holding left wins whatever else is held; down only counts with neither side held. */
  lemma LeftHasPriority(keys: KeyState)
    ensures keys.left ==> DirectionFor(keys) == DirectionFor(keys.(right := !keys.right, down := !keys.down))
    ensures keys.left || keys.right ==> DirectionFor(keys) == DirectionFor(keys.(down := !keys.down))
  {
  }

  class PlayerController {
    var playerDirection: PlayerDirection
    var jumpPressed: bool

    constructor ()
      ensures playerDirection == None && !jumpPressed
    {
      playerDirection := None;
      jumpPressed := false;
    }

    /**
     * Sample the keys. The new direction depends on the keys alone, never on
     * the previous direction, and the jump flag is cleared before it is set.
     */
    method Update(keys: KeyState)
      modifies this
      ensures playerDirection == DirectionFor(keys)
      ensures jumpPressed == keys.spaceJustDown
    {
      jumpPressed := false;

      if keys.left {
        playerDirection := Left;
      } else if keys.right {
        playerDirection := Right;
      } else if keys.down {
        playerDirection := Down;
      } else {
        playerDirection := None;
      }

      if keys.spaceJustDown {
        jumpPressed := true;
      }
    }
  }
}
