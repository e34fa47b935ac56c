/**
 * The ground-contact debouncer (`PlayerCollision`).
 *
 * The physics engine may report the player touching the ground many times
 * in a row. One boolean, `isGrounded`, turns that stream into a single
 * "landed" notification to the squash-and-stretch animator per landing;
 * a jump clears it so that the next contact lands again.
 *
 * The object records, as ghost state, every signal it received and every
 * call it forwarded to the animator; `Replay` recomputes both from the
 * signals alone, and the lemmas about `Replay` state the debounce
 * guarantee for any sequence of signals.
 */
module Collision {
  import opened Squisher

  /** What the debouncer is told: a ground collision, or that the player jumped. */
  datatype Signal = Ground | Jump

  /** What the debouncer forwards to the animator. */
  datatype SquisherCall = LandedCall | JumpedCall

  /** The reaction to one signal: the new grounded flag and the calls forwarded. */
  function React(grounded: bool, s: Signal): (r: (bool, seq<SquisherCall>))
    // the flag afterwards says whether the signal was a ground collision
    ensures r.0 <==> s == Ground
    // a ground collision forwards "landed" exactly when not already grounded, and nothing otherwise
    ensures s == Ground ==> (r.1 == [LandedCall] <==> !grounded) && (grounded <==> r.1 == [])
    // a jump forwards "jumped", grounded or not
    ensures s == Jump ==> r.1 == [JumpedCall]
  {
    match s
    case Ground => if grounded then (true, []) else (true, [LandedCall])
    case Jump => (false, [JumpedCall])
  }

  /** The grounded flag and the forwarded calls after the signals `sigs`, starting from `grounded`. */
  function Replay(grounded: bool, sigs: seq<Signal>): (bool, seq<SquisherCall>)
    decreases |sigs|
  {
    if |sigs| == 0 then (grounded, [])
    else
      var before := Replay(grounded, sigs[..|sigs| - 1]);
      var after := React(before.0, sigs[|sigs| - 1]);
      (after.0, before.1 + after.1)
  }

  /** The number of occurrences of `x` in `xs`; counts both forwarded calls and received signals. */
  function Count<T(==)>(xs: seq<T>, x: T): nat
    decreases |xs|
  {
    if |xs| == 0 then 0
    else Count(xs[..|xs| - 1], x) + (if xs[|xs| - 1] == x then 1 else 0)
  }

  /**
   * Signal `i` is a landing edge: a ground collision that directly follows a
   * jump, or that comes first while the player starts airborne.
   */
  predicate LandingEdge(grounded: bool, sigs: seq<Signal>, i: nat)
    requires i < |sigs|
  {
    sigs[i] == Ground && (if i == 0 then !grounded else sigs[i - 1] == Jump)
  }

  /** The number of landing edges in `sigs`. */
  function Edges(grounded: bool, sigs: seq<Signal>): nat
    decreases |sigs|
  {
    if |sigs| == 0 then 0
    else Edges(grounded, sigs[..|sigs| - 1]) + (if LandingEdge(grounded, sigs, |sigs| - 1) then 1 else 0)
  }

  /** `n` ground collisions in a row. */
  function Grounds(n: nat): (r: seq<Signal>)
    ensures |r| == n
    decreases n
  {
    if n == 0 then [] else Grounds(n - 1) + [Ground]
  }

  lemma {:induction false} CountAppend<T>(a: seq<T>, b: seq<T>, c: T)
    ensures Count(a + b, c) == Count(a, c) + Count(b, c)
    decreases |b|
  {
    if |b| > 0 {
      var b' := b[..|b| - 1];
      assert (a + b)[..|a + b| - 1] == a + b';
      assert (a + b)[|a + b| - 1] == b[|b| - 1];
      CountAppend(a, b', c);
    } else {
      assert a + b == a;
    }
  }

  /** After any signals the player is grounded exactly when the last signal was a ground collision. */
  lemma {:induction false} ReplayGrounded(grounded: bool, sigs: seq<Signal>)
    ensures Replay(grounded, sigs).0 == if |sigs| == 0 then grounded else sigs[|sigs| - 1] == Ground
  {
  }

  /**
   * The debounce guarantee: the animator is told "landed" exactly once per
   * landing edge, however many duplicate collisions follow each edge.
   */
  lemma {:induction false} LandingsAreEdges(grounded: bool, sigs: seq<Signal>)
    ensures Count(Replay(grounded, sigs).1, LandedCall) == Edges(grounded, sigs)
    decreases |sigs|
  {
    if |sigs| > 0 {
      var n := |sigs|;
      var prefix := sigs[..n - 1];
      LandingsAreEdges(grounded, prefix);
      ReplayGrounded(grounded, prefix);
      var before := Replay(grounded, prefix);
      var after := React(before.0, sigs[n - 1]);
      CountAppend(before.1, after.1, LandedCall);
      assert Count(after.1, LandedCall) == Count([], LandedCall) + (if after.1 == [LandedCall] then 1 else 0) by {
        if after.1 != [] {
          assert after.1[..0] == [];
        }
      }
      if n > 1 {
        assert prefix[n - 2] == sigs[n - 2];
      }
    }
  }

  /** Every jump is forwarded to the animator, one call per jump, even while already airborne. */
  lemma {:induction false} JumpsForwarded(grounded: bool, sigs: seq<Signal>)
    ensures Count(Replay(grounded, sigs).1, JumpedCall) == Count(sigs, Jump)
    decreases |sigs|
  {
    if |sigs| > 0 {
      var prefix := sigs[..|sigs| - 1];
      JumpsForwarded(grounded, prefix);
      var before := Replay(grounded, prefix);
      var after := React(before.0, sigs[|sigs| - 1]);
      CountAppend(before.1, after.1, JumpedCall);
      if after.1 != [] {
        assert after.1[..0] == [];
      }
    }
  }

  /**
   * A run of `n` consecutive ground collisions adds exactly one "landed"
   * call if the player was airborne before it, and none if grounded.
   */
  lemma {:induction false} CollisionRunLandsOnce(grounded: bool, sigs: seq<Signal>, n: nat)
    ensures Count(Replay(grounded, sigs + Grounds(n)).1, LandedCall) ==
      Count(Replay(grounded, sigs).1, LandedCall) + (if n > 0 && !Replay(grounded, sigs).0 then 1 else 0)
    ensures n > 0 ==> Replay(grounded, sigs + Grounds(n)).0
    decreases n
  {
    if n == 0 {
      assert sigs + Grounds(0) == sigs;
    } else {
      var shorter := sigs + Grounds(n - 1);
      var full := sigs + Grounds(n);
      CollisionRunLandsOnce(grounded, sigs, n - 1);
      assert full[..|full| - 1] == shorter;
      assert full[|full| - 1] == Ground;
      var before := Replay(grounded, shorter);
      var after := React(before.0, Ground);
      assert Replay(grounded, full) == (after.0, before.1 + after.1);
      CountAppend(before.1, after.1, LandedCall);
      assert Count(after.1, LandedCall) == if before.0 then 0 else 1 by {
        if after.1 != [] {
          assert after.1[..0] == [];
        }
      }
      if n == 1 {
        assert shorter == sigs;
      }
    }
  }

  /** After a jump, the next ground collision lands again. */
  lemma JumpRearmsLanding(grounded: bool, sigs: seq<Signal>)
    ensures Count(Replay(grounded, sigs + [Jump, Ground]).1, LandedCall) ==
      Count(Replay(grounded, sigs).1, LandedCall) + 1
  {
    var jumped, full := sigs + [Jump], sigs + [Jump, Ground];
    assert full[..|full| - 1] == jumped && full[|full| - 1] == Ground;
    assert jumped[..|jumped| - 1] == sigs && jumped[|jumped| - 1] == Jump;
    var r0 := Replay(grounded, sigs);
    var r1 := Replay(grounded, jumped);
    assert r1 == (false, r0.1 + [JumpedCall]);
    assert Replay(grounded, full) == (true, r1.1 + [LandedCall]);
    CountAppend(r0.1, [JumpedCall], LandedCall);
    CountAppend(r1.1, [LandedCall], LandedCall);
    assert Count([JumpedCall], LandedCall) == 0 by {
      assert [JumpedCall][..0] == [];
    }
    assert Count([LandedCall], LandedCall) == 1 by {
      assert [LandedCall][..0] == [];
    }
  }

  /** The debouncer object. */
  class PlayerCollision {
    var isGrounded: bool
    var playerSquisher: PlayerSquisher?

    /** Every signal received so far, oldest first. */
    ghost var history: seq<Signal>
    /** Every call forwarded to the animator so far, oldest first. */
    ghost var calls: seq<SquisherCall>

    ghost predicate Valid()
      reads this
    {
      (isGrounded, calls) == Replay(false, history)
    }

    constructor ()
      ensures Valid() && !isGrounded && playerSquisher == null
      ensures history == [] && calls == []
    {
      isGrounded := false;
      playerSquisher := null;
      history := [];
      calls := [];
    }

    method SetPlayerSquisher(squisher: PlayerSquisher)
      modifies this
      ensures playerSquisher == squisher
      ensures isGrounded == old(isGrounded) && history == old(history) && calls == old(calls)
    {
      playerSquisher := squisher;
    }

    /** A ground collision: lands only if not already grounded. */
    method OnGroundCollision()
      requires Valid()
      requires !isGrounded ==> playerSquisher != null
      modifies this, playerSquisher
      ensures Valid() && isGrounded && playerSquisher == old(playerSquisher)
      ensures history == old(history) + [Ground]
      ensures calls == old(calls) + if old(isGrounded) then [] else [LandedCall]
      ensures old(isGrounded) && playerSquisher != null ==> unchanged(playerSquisher)
      ensures !old(isGrounded) ==> playerSquisher.State() == Landed(old(playerSquisher.State()))
    {
      assert (history + [Ground])[..|history|] == history;
      history := history + [Ground];
      if isGrounded {
        assert calls + [] == calls;
        return;
      }

      isGrounded := true;
      playerSquisher.PlayerLanded();
      calls := calls + [LandedCall];
    }

    /** A jump: always leaves the ground and starts the jump morph, even when already airborne. */
    method OnPlayerJumped()
      requires Valid() && playerSquisher != null
      modifies this, playerSquisher
      ensures Valid() && !isGrounded && playerSquisher == old(playerSquisher)
      ensures history == old(history) + [Jump]
      ensures calls == old(calls) + [JumpedCall]
      ensures playerSquisher.State() == Jumped(old(playerSquisher.State()))
    {
      assert (history + [Jump])[..|history|] == history;
      history := history + [Jump];
      isGrounded := false;
      playerSquisher.PlayerJumped();
      calls := calls + [JumpedCall];
    }
  }
}
