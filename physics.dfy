/** The player object and its vertical motion under gravity, with the ground clamp. */
module Physics {
  import opened Geometry

  /** Elapsed time is divided by this nominal frame length before it scales motion. */
  const NominalFrame: real := 16.0

  /** The player's fixed fields. */
  const PlayerX: real := 80.0
  const PlayerW: real := 40.0
  const PlayerH: real := 40.0
  const Gravity: real := 0.9
  const JumpForce: real := -15.0

  /** The player's changing fields. */
  datatype PlayerState = PlayerState(y: real, vy: real, onGround: bool)

  /** The player is above (or on) the ground, and when flagged on the ground it stands still on it. */
  predicate Settled(s: PlayerState, groundY: real)
  {
    s.y + PlayerH <= groundY &&
    (s.onGround ==> s.y == groundY - PlayerH && s.vy == 0.0)
  }

  /** One physics step of delta milliseconds: gravity, integration, then the ground clamp. */
  function Fall(s: PlayerState, delta: real, groundY: real): (r: PlayerState)
    ensures r.y + PlayerH <= groundY
    ensures r.y + PlayerH < groundY ==>
              r.vy == s.vy + Gravity * (delta / NominalFrame) &&
              r.y == s.y + r.vy * (delta / NominalFrame) &&
              r.onGround == s.onGround
    ensures r.y + PlayerH == groundY ==> r.vy == 0.0 && r.onGround
    ensures r.y + PlayerH < groundY <==>
              s.y + (s.vy + Gravity * (delta / NominalFrame)) * (delta / NominalFrame) + PlayerH < groundY
  {
    var vy := s.vy + Gravity * (delta / NominalFrame);
    var y := s.y + vy * (delta / NominalFrame);
    if y + PlayerH >= groundY then PlayerState(groundY - PlayerH, 0.0, true)
    else PlayerState(y, vy, s.onGround)
  }

  /** A player standing on the ground stays exactly where it is, whatever the elapsed time. */
  lemma StandingStill(s: PlayerState, delta: real, groundY: real)
    requires s == PlayerState(groundY - PlayerH, 0.0, true)
    ensures Fall(s, delta, groundY) == s
  {
    var t := delta / NominalFrame;
    assert t * t >= 0.0 by {
      if t < 0.0 {
        assert t * t == (-t) * (-t);
      }
    }
    assert (Gravity * t) * t == Gravity * (t * t);
  }

  /** A physics step keeps the player settled. */
  lemma FallKeepsSettled(s: PlayerState, delta: real, groundY: real)
    requires Settled(s, groundY)
    ensures Settled(Fall(s, delta, groundY), groundY)
  {
    if s.onGround {
      StandingStill(s, delta, groundY);
    }
  }

  /** The player state after n physics steps of delta milliseconds each. */
  function Flight(s: PlayerState, delta: real, groundY: real, n: nat): PlayerState
  {
    if n == 0 then s else Fall(Flight(s, delta, groundY, n - 1), delta, groundY)
  }

  /** The player just after a jump from the ground. */
  function JumpStart(groundY: real): PlayerState
  {
    PlayerState(groundY - PlayerH, JumpForce, false)
  }

  /** How far the jump arc has risen after t nominal frames (negative: above the start). */
  function Rise(t: real): real
  {
    JumpForce * t + Gravity * t * (t + 1.0) / 2.0
  }

  /** Each frame adds the velocity of that frame to the rise. */
  lemma RiseStep(t: real)
    ensures Rise(t - 1.0) + (JumpForce + Gravity * t) == Rise(t)
  {
    assert Gravity * (t - 1.0) * t / 2.0 + Gravity * t == Gravity * t * (t + 1.0) / 2.0;
  }

  /** For 1 <= t <= 32 the arc is still above its starting height. */
  lemma ArcRise(t: real)
    requires 1.0 <= t <= 32.0
    ensures Rise(t) < 0.0
  {
    var below := Gravity * (t + 1.0) / 2.0 + JumpForce;
    assert below < 0.0;
    assert Rise(t) == t * below;
  }

  /** One step of exactly one nominal frame. */
  lemma FallOneFrame(s: PlayerState, groundY: real)
    ensures var vy := s.vy + Gravity;
            Fall(s, NominalFrame, groundY) ==
              if s.y + vy + PlayerH >= groundY then PlayerState(groundY - PlayerH, 0.0, true)
              else PlayerState(s.y + vy, vy, s.onGround)
  {
    assert NominalFrame / NominalFrame == 1.0;
  }

  /**
   * The arc of a jump taken from the ground, at one nominal frame per step: for
   * the first 32 steps the player is in the air, on a parabola.
   */
  lemma {:induction false} JumpArc(groundY: real, k: nat)
    requires k <= 32
    ensures Flight(JumpStart(groundY), NominalFrame, groundY, k)
            == PlayerState(groundY - PlayerH + Rise(k as real), JumpForce + Gravity * (k as real), false)
  {
    if k > 0 {
      JumpArc(groundY, k - 1);
      var t := k as real;
      var prev := Flight(JumpStart(groundY), NominalFrame, groundY, k - 1);
      FallOneFrame(prev, groundY);
      var vy := JumpForce + Gravity * t;
      assert prev.vy + Gravity == vy;
      assert (k - 1) as real == t - 1.0;
      RiseStep(t);
      ArcRise(t);
    }
  }

  /** A jump taken from the ground lands again after exactly 33 nominal frames, at rest. */
  lemma JumpLands(groundY: real)
    ensures forall k: nat :: 1 <= k <= 32 ==> !Flight(JumpStart(groundY), NominalFrame, groundY, k).onGround
    ensures Flight(JumpStart(groundY), NominalFrame, groundY, 33) == PlayerState(groundY - PlayerH, 0.0, true)
  {
    forall k: nat | 1 <= k <= 32
      ensures !Flight(JumpStart(groundY), NominalFrame, groundY, k).onGround
    {
      JumpArc(groundY, k);
    }
    JumpArc(groundY, 32);
    FallOneFrame(Flight(JumpStart(groundY), NominalFrame, groundY, 32), groundY);
  }

  /** The player object of the game, whose position, velocity and flag change in place. */
  class Player {
    var y: real
    var vy: real
    var onGround: bool

    constructor (groundY: real)
      ensures State() == PlayerState(groundY - PlayerH, 0.0, true)
    {
      y := groundY - PlayerH;
      vy := 0.0;
      onGround := true;
    }

    function State(): PlayerState
      reads this
    {
      PlayerState(y, vy, onGround)
    }

    function Box(): Rect
      reads this
    {
      Rect(PlayerX, y, PlayerW, PlayerH)
    }

    /** The player-physics part of one frame of the running game. */
    method ApplyPhysics(delta: real, groundY: real)
      modifies this
      ensures State() == Fall(old(State()), delta, groundY)
    {
      vy := vy + Gravity * (delta / NominalFrame);
      y := y + vy * (delta / NominalFrame);
      if y + PlayerH >= groundY {
        y := groundY - PlayerH;
        vy := 0.0;
        onGround := true;
      }
    }
  }
}
