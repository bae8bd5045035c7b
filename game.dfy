/** The run state of the game and its transitions: reset, jump, and one frame of the loop. */
module GameLoop {
  import opened Geometry
  import opened Obstacles
  import opened Spawner
  import opened Physics

  datatype Option<T> = None | Some(value: T)

  /** The ground line lies this far above the canvas bottom. */
  const GroundMargin: real := 30.0

  /**
   * Elapsed time of a frame given the previous frame's timestamp. A missing
   * previous timestamp, and equally a previous timestamp of 0 (the check is
   * on falsiness), makes the elapsed time 0.
   */
  function Elapsed(last: Option<real>, timestamp: real): (d: real)
    ensures last.None? || last.value == 0.0 ==> d == 0.0
    ensures last == Some(timestamp) ==> d == 0.0
    ensures last.Some? && last.value != 0.0 ==> last.value + d == timestamp
  {
    if last.None? || last.value == 0.0 then 0.0 else timestamp - last.value
  }

  /** The parts of a sequence around its element at |p|. */
  lemma SpliceAround<T>(p: seq<T>, x: T, q: seq<T>)
    ensures |p + [x] + q| == |p| + 1 + |q|
    ensures (p + [x] + q)[|p|] == x
    ensures (p + [x] + q)[..|p|] == p
    ensures (p + [x] + q)[|p| + 1..] == q
  {
  }

  /**
   * Splicing the advanced s[i] into a list made of the untouched s[..i + 1] and
   * the pass over s[i + 1..] gives the untouched s[..i] and the pass over s[i..].
   */
  lemma PassSplice(s: seq<Obstacle>, i: nat, dx: real, px: real, cur: seq<Obstacle>)
    requires i < |s| && cur == s[..i + 1] + Survivors(s[i + 1..], dx, px)
    ensures i < |cur| && cur[i] == s[i]
    ensures var m := Advance(s[i], dx, px);
            cur[..i] + (if m.Gone() then [] else [m]) + cur[i + 1..] == s[..i] + Survivors(s[i..], dx, px)
  {
    var rest := Survivors(s[i + 1..], dx, px);
    var m := Advance(s[i], dx, px);
    var kept := if m.Gone() then [] else [m];
    assert s[..i + 1] == s[..i] + [s[i]];
    SpliceAround(s[..i], s[i], rest);
    UnfoldPass(s, i, dx, px);
    assert s[..i] + kept + rest == s[..i] + (kept + rest);
  }

  /** One step of the pass over s[i..]: the head s[i] followed by the pass over s[i + 1..]. */
  lemma UnfoldPass(s: seq<Obstacle>, i: nat, dx: real, px: real)
    requires i < |s|
    ensures var m := Advance(s[i], dx, px);
            && Survivors(s[i..], dx, px) == (if m.Gone() then [] else [m]) + Survivors(s[i + 1..], dx, px)
            && Scored(s[i..], dx, px) == (if ScoresNow(s[i], dx, px) then 1 else 0) + Scored(s[i + 1..], dx, px)
            && Removed(s[i..], dx, px) == (if m.Gone() then 1 else 0) + Removed(s[i + 1..], dx, px)
  {
    assert s[i..][0] == s[i];
    assert s[i..][1..] == s[i + 1..];
  }

  /** The hit test over s[i..]: the head s[i] or the rest s[i + 1..]. */
  lemma UnfoldHit(s: seq<Obstacle>, i: nat, dx: real, px: real, player: Rect)
    requires i < |s|
    ensures Hit(s[i..], dx, px, player) <==>
            IsColliding(player, Advance(s[i], dx, px).Box()) || Hit(s[i + 1..], dx, px, player)
  {
    assert s[i..][0] == s[i];
    assert s[i..][1..] == s[i + 1..];
  }

  /** How far obstacles move left in a frame of delta milliseconds at the given speed. */
  function Scroll(speed: real, delta: real): real
  {
    speed * (delta / NominalFrame)
  }

  /** Everything a frame of the game may change, except the timestamp cursor. */
  datatype RunState = RunState(
    obstacles: seq<Obstacle>, spawnTimer: real, spawnInterval: int, speed: real,
    score: nat, started: bool, gameOver: bool, player: PlayerState)

  /**
   * The run invariant, given the number of obstacles spawned and retired (removed)
   * in this run.
   */
  predicate Inv(s: RunState, spawns: nat, retired: nat, groundY: real)
  {
    // ground clamp: the player never ends a step below the ground
    && Settled(s.player, groundY)
    // the difficulty ramp is determined by the number of spawns
    && s.spawnInterval == IntervalAfter(spawns)
    && s.speed == InitialSpeed + SpeedStep * (spawns as real)
    // every spawned obstacle is either alive or retired
    && |s.obstacles| + retired == spawns
    // exactly-once scoring: one point per set flag, alive or retired
    && s.score == CountPassed(s.obstacles) + retired
    && (forall o :: o in s.obstacles ==> WellShaped(o, groundY))
    && (s.gameOver ==> s.started)
    && (!s.started ==> s.obstacles == [] && s.spawnTimer == 0.0 && spawns == 0 && retired == 0)
  }

  /** Exactly-once scoring over a whole run: the score never exceeds the obstacles spawned so far. */
  lemma ScoreAtMostSpawns(s: RunState, spawns: nat, retired: nat, groundY: real)
    requires Inv(s, spawns, retired, groundY)
    ensures s.score <= spawns
  {
  }

  /** The spawn timer fires in a frame of delta milliseconds (strictly past the interval). */
  predicate Fires(s: RunState, delta: real)
  {
    s.spawnTimer + delta > s.spawnInterval as real
  }

  /** The speed of a frame, after the ramp-up of a spawn in it. */
  function FrameSpeed(s: RunState, delta: real): real
  {
    if Fires(s, delta) then s.speed + SpeedStep else s.speed
  }

  /** The obstacles the pass of a frame works on: the old ones and the one spawned in it, if any. */
  function Pool(s: RunState, delta: real, width: real, groundY: real, rw: real, rh: real): seq<Obstacle>
    requires 0.0 <= rw < 1.0 && 0.0 <= rh < 1.0
  {
    s.obstacles + (if Fires(s, delta) then [Spawn(width, groundY, rw, rh)] else [])
  }

  /**
   * The run state after a running frame of delta milliseconds, in the source's
   * order: spawn check, player physics, then the obstacle pass against the moved player.
   */
  function Advanced(s: RunState, delta: real, width: real, groundY: real, rw: real, rh: real): (r: RunState)
    requires 0.0 <= rw < 1.0 && 0.0 <= rh < 1.0
    ensures r.started == s.started
    ensures s.gameOver ==> r.gameOver
  {
    var pool := Pool(s, delta, width, groundY, rw, rh);
    var dx := Scroll(FrameSpeed(s, delta), delta);
    var p := Fall(s.player, delta, groundY);
    RunState(
      Survivors(pool, dx, PlayerX),
      if Fires(s, delta) then 0.0 else s.spawnTimer + delta,
      if Fires(s, delta) then NextInterval(s.spawnInterval) else s.spawnInterval,
      FrameSpeed(s, delta),
      s.score + Scored(pool, dx, PlayerX),
      s.started,
      s.gameOver || Hit(pool, dx, PlayerX, Rect(PlayerX, p.y, PlayerW, PlayerH)),
      p)
  }

  /**
   * A running frame never lowers the score, scores at most once per obstacle in
   * its pass, and adds at most one obstacle to the list.
   */
  lemma AdvancedBounds(s: RunState, delta: real, width: real, groundY: real, rw: real, rh: real)
    requires 0.0 <= rw < 1.0 && 0.0 <= rh < 1.0
    ensures var r := Advanced(s, delta, width, groundY, rw, rh);
            && s.score <= r.score <= s.score + |s.obstacles| + 1
            && |r.obstacles| <= |s.obstacles| + 1
  {
  }

  /** A running frame keeps the run invariant, counting the spawned and the removed obstacles. */
  lemma AdvancedKeepsInv(s: RunState, spawns: nat, retired: nat, delta: real,
                         width: real, groundY: real, rw: real, rh: real)
    requires 0.0 <= rw < 1.0 && 0.0 <= rh < 1.0
    requires Inv(s, spawns, retired, groundY) && s.started
    ensures Inv(Advanced(s, delta, width, groundY, rw, rh),
                spawns + (if Fires(s, delta) then 1 else 0),
                retired + Removed(Pool(s, delta, width, groundY, rw, rh), Scroll(FrameSpeed(s, delta), delta), PlayerX),
                groundY)
  {
    var pool := Pool(s, delta, width, groundY, rw, rh);
    var dx := Scroll(FrameSpeed(s, delta), delta);
    var added := pool[|s.obstacles|..];
    assert pool == s.obstacles + added;
    CountPassedAppend(s.obstacles, added);
    assert CountPassed(added) == 0 by {
      if added != [] {
        assert added[1..] == [];
      }
    }
    FallKeepsSettled(s.player, delta, groundY);
    PassBookkeeping(pool, dx, PlayerX);
    forall o | o in Survivors(pool, dx, PlayerX)
      ensures WellShaped(o, groundY)
    {
      SurvivorsMembers(pool, dx, PlayerX, o);
      var i :| 0 <= i < |pool| && o == Advance(pool[i], dx, PlayerX) && !o.Gone();
      assert pool[i] in pool;
    }
  }

  /**
   * A running frame ends the game exactly when it was over already or some obstacle
   * of the pass, once moved, overlaps the moved player; a game once over stays over.
   */
  lemma AdvancedGameOver(s: RunState, delta: real, width: real, groundY: real, rw: real, rh: real)
    requires 0.0 <= rw < 1.0 && 0.0 <= rh < 1.0
    ensures var pool := Pool(s, delta, width, groundY, rw, rh);
            var dx := Scroll(FrameSpeed(s, delta), delta);
            var box := Rect(PlayerX, Fall(s.player, delta, groundY).y, PlayerW, PlayerH);
            Advanced(s, delta, width, groundY, rw, rh).gameOver <==>
              s.gameOver || exists i :: 0 <= i < |pool| && IsColliding(box, Advance(pool[i], dx, PlayerX).Box())
  {
    var pool := Pool(s, delta, width, groundY, rw, rh);
    var dx := Scroll(FrameSpeed(s, delta), delta);
    HitIffSomeCollides(pool, dx, PlayerX, Rect(PlayerX, Fall(s.player, delta, groundY).y, PlayerW, PlayerH));
  }

  class Game {
    const width: real
    const groundY: real
    const player: Player

    var obstacles: seq<Obstacle>
    var spawnTimer: real
    var spawnInterval: int
    var speed: real
    var score: nat
    var started: bool
    var gameOver: bool
    var lastTime: Option<real>

    /** Obstacles spawned in this run. */
    ghost var spawns: nat
    /** Obstacles removed in this run, each of them scored before it went. */
    ghost var retired: nat

    ghost predicate Valid()
      reads this, player
    {
      Inv(State(), spawns, retired, groundY)
    }

    /** The state `resetGame` leaves behind. */
    ghost predicate Initial()
      reads this, player
    {
      && obstacles == []
      && spawnTimer == 0.0
      && spawnInterval == InitialInterval
      && speed == InitialSpeed
      && score == 0
      && !started
      && !gameOver
      && lastTime == None
      && player.State() == PlayerState(groundY - PlayerH, 0.0, true)
    }

    ghost function State(): RunState
      reads this, player
    {
      RunState(obstacles, spawnTimer, spawnInterval, speed, score, started, gameOver, player.State())
    }

    predicate Running()
      reads this
    {
      started && !gameOver
    }

    /** The script's start-up for a canvas of the given size: the initial variables, then `resetGame`. */
    constructor (canvasWidth: nat, canvasHeight: nat)
      ensures width == canvasWidth as real && groundY == canvasHeight as real - GroundMargin
      ensures Valid() && Initial() && fresh(player)
    {
      width := canvasWidth as real;
      groundY := canvasHeight as real - GroundMargin;
      player := new Player(canvasHeight as real - GroundMargin);
      obstacles := [];
      spawnTimer := 0.0;
      spawnInterval := InitialInterval;
      speed := InitialSpeed;
      score := 0;
      started := false;
      gameOver := false;
      lastTime := None;
      spawns := 0;
      retired := 0;
    }

    /** `resetGame`: restores every run variable, from any state. */
    method Reset()
      modifies this, player
      ensures Valid() && Initial()
    {
      obstacles := [];
      spawnTimer := 0.0;
      spawnInterval := InitialInterval;
      speed := InitialSpeed;
      score := 0;
      started := false;
      gameOver := false;
      player.y := groundY - PlayerH;
      player.vy := 0.0;
      player.onGround := true;
      lastTime := None;
      spawns := 0;
      retired := 0;
    }

    /** `jump`: ignored after game over; otherwise starts the run and jumps if on the ground. */
    method Jump()
      requires Valid()
      modifies this`started, player
      ensures Valid()
      ensures old(gameOver) ==> State() == old(State())
      ensures !old(gameOver) ==> started
      ensures !old(gameOver) && old(player.onGround) ==>
                player.State() == PlayerState(old(player.y), JumpForce, false)
      ensures !old(player.onGround) ==> player.State() == old(player.State())
      ensures State() == old(State()).(started := started, player := player.State())
    {
      if gameOver {
        return;
      }
      started := true;
      if player.onGround {
        player.vy := JumpForce;
        player.onGround := false;
      }
    }

    /** `spawnObstacle`: appends one obstacle just right of the canvas. */
    method SpawnObstacle(rw: real, rh: real)
      requires 0.0 <= rw < 1.0 && 0.0 <= rh < 1.0
      modifies this`obstacles, this`spawns
      ensures obstacles == old(obstacles) + [Spawn(width, groundY, rw, rh)]
      ensures spawns == old(spawns) + 1
    {
      obstacles := obstacles + [Spawn(width, groundY, rw, rh)];
      spawns := spawns + 1;
    }

    /** The spawn-timer part of a running frame: accumulate delta and, past the interval, spawn and ramp up. */
    method StepSpawner(delta: real, rw: real, rh: real)
      requires 0.0 <= rw < 1.0 && 0.0 <= rh < 1.0
      modifies this`spawnTimer, this`spawnInterval, this`speed, this`obstacles, this`spawns
      ensures var fires := old(spawnTimer) + delta > old(spawnInterval) as real;
              && spawnTimer == (if fires then 0.0 else old(spawnTimer) + delta)
              && spawnInterval == (if fires then NextInterval(old(spawnInterval)) else old(spawnInterval))
              && speed == (if fires then old(speed) + SpeedStep else old(speed))
              && obstacles == old(obstacles) + (if fires then [Spawn(width, groundY, rw, rh)] else [])
              && spawns == old(spawns) + (if fires then 1 else 0)
    {
      spawnTimer := spawnTimer + delta;
      if spawnTimer > spawnInterval as real {
        spawnTimer := 0.0;
        SpawnObstacle(rw, rh);
        spawnInterval := NextInterval(spawnInterval);
        speed := speed + SpeedStep;
      }
    }

    /**
     * The body of the obstacle pass for index i: move the obstacle, score it if its
     * flag is unset and it is left of the player, splice it out when gone, and test
     * the moved obstacle (spliced out or not) against the player's box.
     */
    method StepObstacle(i: nat, dx: real, box: Rect)
      requires i < |obstacles|
      modifies this`obstacles, this`score, this`gameOver, this`retired
      ensures var m := Advance(old(obstacles)[i], dx, PlayerX);
              && obstacles == old(obstacles)[..i] + (if m.Gone() then [] else [m]) + old(obstacles)[i + 1..]
              && score == old(score) + (if ScoresNow(old(obstacles)[i], dx, PlayerX) then 1 else 0)
              && retired == old(retired) + (if m.Gone() then 1 else 0)
              && gameOver == (old(gameOver) || IsColliding(box, m.Box()))
    {
      var ob := obstacles[i];
      ob := ob.(x := ob.x - dx);
      if !ob.passed && ob.x + ob.w as real < PlayerX {
        ob := ob.(passed := true);
        score := score + 1;
      }
      obstacles := obstacles[i := ob];
      if ob.x + ob.w as real < OffScreenEdge {
        obstacles := obstacles[..i] + obstacles[i + 1..];
        retired := retired + 1;
      }
      if IsColliding(box, ob.Box()) {
        gameOver := true;
      }
    }

    /**
     * The obstacle pass of a running frame: every obstacle in turn, from the last
     * to the first. The pass does not stop at a collision.
     */
    method MoveObstacles(delta: real)
      modifies this`obstacles, this`score, this`gameOver, this`retired
      ensures obstacles == Survivors(old(obstacles), Scroll(speed, delta), PlayerX)
      ensures score == old(score) + Scored(old(obstacles), Scroll(speed, delta), PlayerX)
      ensures gameOver == (old(gameOver) || Hit(old(obstacles), Scroll(speed, delta), PlayerX, player.Box()))
      ensures retired == old(retired) + Removed(old(obstacles), Scroll(speed, delta), PlayerX)
    {
      var dx := Scroll(speed, delta);
      ghost var orig := obstacles;
      var box := player.Box();
      var i := |obstacles|;
      assert obstacles == orig[..i] + Survivors(orig[i..], dx, PlayerX);
      while i > 0
        invariant 0 <= i <= |orig|
        invariant obstacles == orig[..i] + Survivors(orig[i..], dx, PlayerX)
        invariant score == old(score) + Scored(orig[i..], dx, PlayerX)
        invariant gameOver == (old(gameOver) || Hit(orig[i..], dx, PlayerX, box))
        invariant retired == old(retired) + Removed(orig[i..], dx, PlayerX)
      {
        i := i - 1;
        PassSplice(orig, i, dx, PlayerX, obstacles);
        UnfoldPass(orig, i, dx, PlayerX);
        UnfoldHit(orig, i, dx, PlayerX, box);
        StepObstacle(i, dx, box);
      }
      assert orig[..0] == [] && orig[0..] == orig;
    }

    /**
     * One frame of `loop` at the given timestamp, with rw and rh the random draws
     * a spawn in this frame would use. Returns whether the next frame is scheduled.
     */
    method Loop(timestamp: real, rw: real, rh: real) returns (scheduled: bool)
      requires Valid()
      requires 0.0 <= rw < 1.0 && 0.0 <= rh < 1.0
      modifies this, player
      ensures Valid()
      ensures lastTime == Some(timestamp)
      ensures scheduled == !gameOver
      ensures !old(Running()) ==> State() == old(State())
      ensures old(Running()) ==>
                State() == Advanced(old(State()), Elapsed(old(lastTime), timestamp), width, groundY, rw, rh)
    {
      if lastTime.None? || lastTime.value == 0.0 {
        lastTime := Some(timestamp);
      }
      var delta := timestamp - lastTime.value;
      lastTime := Some(timestamp);
      if started && !gameOver {
        Update(delta, rw, rh);
      }
      scheduled := !gameOver;
    }

    /** The `if (started && !gameOver)` block of `loop`, for a frame of delta milliseconds. */
    method Update(delta: real, rw: real, rh: real)
      requires Valid() && Running()
      requires 0.0 <= rw < 1.0 && 0.0 <= rh < 1.0
      modifies this`spawnTimer, this`spawnInterval, this`speed, this`obstacles, this`spawns,
               this`score, this`gameOver, this`retired, player
      ensures Valid()
      ensures State() == Advanced(old(State()), delta, width, groundY, rw, rh)
    {
      ghost var s := State();
      ghost var pool := Pool(s, delta, width, groundY, rw, rh);
      ghost var dx := Scroll(FrameSpeed(s, delta), delta);
      ghost var p := Fall(s.player, delta, groundY);
      ghost var next := Advanced(s, delta, width, groundY, rw, rh);
      assert next.obstacles == Survivors(pool, dx, PlayerX) && next.player == p;
      assert next.score == s.score + Scored(pool, dx, PlayerX);
      assert next.gameOver == (s.gameOver || Hit(pool, dx, PlayerX, Rect(PlayerX, p.y, PlayerW, PlayerH)));
      ghost var spawnsAfter := spawns + (if Fires(s, delta) then 1 else 0);
      ghost var retiredAfter := retired + Removed(pool, dx, PlayerX);
      AdvancedKeepsInv(s, spawns, retired, delta, width, groundY, rw, rh);
      StepSpawner(delta, rw, rh);
      assert obstacles == pool && speed == next.speed && Scroll(speed, delta) == dx;
      assert spawnTimer == next.spawnTimer && spawnInterval == next.spawnInterval && spawns == spawnsAfter;
      player.ApplyPhysics(delta, groundY);
      MoveObstacles(delta);
      assert player.State() == p && retired == retiredAfter;
    }
  }
}
