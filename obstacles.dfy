/** Obstacle records and what one backward pass of the frame loop does to the obstacle list. */
module Obstacles {
  import opened Geometry

  /** An obstacle is dropped once its right edge is left of this line. */
  const OffScreenEdge: real := -50.0

  /** One obstacle; `passed` starts unset and is set when the obstacle is scored. */
  datatype Obstacle = Obstacle(x: real, y: real, w: int, h: int, passed: bool) {

    function Box(): Rect { Rect(x, y, w as real, h as real) }

    /** Far enough left to be removed from the list. */
    predicate Gone() { x + w as real < OffScreenEdge }
  }

  /**
   * One obstacle's step in the pass: it moves left by dx, and is marked passed
   * when its right edge is left of the player's left edge px.
   */
  function Advance(ob: Obstacle, dx: real, px: real): (r: Obstacle)
    ensures r.x == ob.x - dx && r.y == ob.y && r.w == ob.w && r.h == ob.h
    ensures r.passed <==> ob.passed || r.x + r.w as real < px
  {
    var moved := ob.(x := ob.x - dx);
    if !moved.passed && moved.x + moved.w as real < px then moved.(passed := true) else moved
  }

  /** The obstacle earns a point in this step: its flag goes from unset to set. */
  predicate ScoresNow(ob: Obstacle, dx: real, px: real)
  {
    !ob.passed && Advance(ob, dx, px).passed
  }

  /** Number of obstacles of s whose flag is set. */
  function CountPassed(s: seq<Obstacle>): (n: nat)
    ensures n <= |s|
  {
    if s == [] then 0 else (if s[0].passed then 1 else 0) + CountPassed(s[1..])
  }

  /** Number of obstacles of s that score in this pass. */
  function Scored(s: seq<Obstacle>, dx: real, px: real): (n: nat)
    ensures n <= |s|
  {
    if s == [] then 0 else (if ScoresNow(s[0], dx, px) then 1 else 0) + Scored(s[1..], dx, px)
  }

  /** Number of obstacles of s that are removed in this pass. */
  function Removed(s: seq<Obstacle>, dx: real, px: real): (n: nat)
    ensures n <= |s|
  {
    if s == [] then 0 else (if Advance(s[0], dx, px).Gone() then 1 else 0) + Removed(s[1..], dx, px)
  }

  /** The list after the pass: every obstacle advanced, the gone ones dropped, in list order. */
  function Survivors(s: seq<Obstacle>, dx: real, px: real): (r: seq<Obstacle>)
    ensures |r| + Removed(s, dx, px) == |s|
  {
    if s == [] then []
    else
      var m := Advance(s[0], dx, px);
      (if m.Gone() then [] else [m]) + Survivors(s[1..], dx, px)
  }

  /** Some obstacle of s, once advanced, collides with the player's box. */
  predicate Hit(s: seq<Obstacle>, dx: real, px: real, player: Rect)
    ensures Hit(s, dx, px, player) ==> s != []
  {
    s != [] && (IsColliding(player, Advance(s[0], dx, px).Box()) || Hit(s[1..], dx, px, player))
  }

  /** Survivors keep list order: the pass distributes over concatenation. */
  lemma {:induction false} SurvivorsAppend(a: seq<Obstacle>, b: seq<Obstacle>, dx: real, px: real)
    ensures Survivors(a + b, dx, px) == Survivors(a, dx, px) + Survivors(b, dx, px)
  {
    if a != [] {
      assert (a + b)[1..] == a[1..] + b;
      SurvivorsAppend(a[1..], b, dx, px);
    } else {
      assert a + b == b;
    }
  }

  /** An obstacle survives exactly when it is the advanced form of one that is not gone. */
  lemma {:induction false} SurvivorsMembers(s: seq<Obstacle>, dx: real, px: real, o: Obstacle)
    ensures o in Survivors(s, dx, px) <==>
            exists i :: 0 <= i < |s| && o == Advance(s[i], dx, px) && !o.Gone()
  {
    if s != [] {
      SurvivorsMembers(s[1..], dx, px, o);
      if exists i :: 0 <= i < |s| && o == Advance(s[i], dx, px) && !o.Gone() {
        var i :| 0 <= i < |s| && o == Advance(s[i], dx, px) && !o.Gone();
        if i > 0 {
          assert s[1..][i - 1] == s[i];
        }
      }
      if o in Survivors(s[1..], dx, px) {
        var i :| 0 <= i < |s[1..]| && o == Advance(s[1..][i], dx, px) && !o.Gone();
        assert s[i + 1] == s[1..][i];
      }
    }
  }

  /**
   * Exactly-once bookkeeping of one pass: the flags set among the survivors plus
   * the removed obstacles (each of them scored) equal the flags set before plus
   * the points scored, provided removal lies left of the scoring line.
   */
  lemma {:induction false} PassBookkeeping(s: seq<Obstacle>, dx: real, px: real)
    requires px > OffScreenEdge
    ensures CountPassed(Survivors(s, dx, px)) + Removed(s, dx, px) == CountPassed(s) + Scored(s, dx, px)
  {
    if s != [] {
      PassBookkeeping(s[1..], dx, px);
      var m := Advance(s[0], dx, px);
      var rest := Survivors(s[1..], dx, px);
      var kept := if m.Gone() then [] else [m];
      assert Survivors(s, dx, px) == kept + rest;
      CountPassedAppend(kept, rest);
      FlagStep(s[0], dx, px);
      if !m.Gone() {
        assert kept[1..] == [];
      }
    }
  }

  /** One obstacle's share of the bookkeeping: its flag after the step is its flag before plus its point. */
  lemma FlagStep(ob: Obstacle, dx: real, px: real)
    requires px > OffScreenEdge
    ensures Advance(ob, dx, px).Gone() ==> Advance(ob, dx, px).passed
    ensures Advance(ob, dx, px).passed <==> ob.passed || ScoresNow(ob, dx, px)
    ensures !(ob.passed && ScoresNow(ob, dx, px))
  {
  }

  /** No obstacle scores twice: only unset flags score, so points plus set flags never exceed the count. */
  lemma {:induction false} ScoredAtMostOnce(s: seq<Obstacle>, dx: real, px: real)
    ensures CountPassed(s) + Scored(s, dx, px) <= |s|
  {
    if s != [] {
      ScoredAtMostOnce(s[1..], dx, px);
    }
  }

  /** The pass reports a hit exactly when some advanced obstacle collides with the player. */
  lemma {:induction false} HitIffSomeCollides(s: seq<Obstacle>, dx: real, px: real, player: Rect)
    ensures Hit(s, dx, px, player) <==>
            exists i :: 0 <= i < |s| && IsColliding(player, Advance(s[i], dx, px).Box())
  {
    if s != [] {
      HitIffSomeCollides(s[1..], dx, px, player);
      if exists i :: 0 <= i < |s| && IsColliding(player, Advance(s[i], dx, px).Box()) {
        var i :| 0 <= i < |s| && IsColliding(player, Advance(s[i], dx, px).Box());
        if i > 0 {
          assert s[1..][i - 1] == s[i];
        }
      }
      if Hit(s[1..], dx, px, player) {
        var i :| 0 <= i < |s[1..]| && IsColliding(player, Advance(s[1..][i], dx, px).Box());
        assert s[i + 1] == s[1..][i];
      }
    }
  }

  /** Counting set flags distributes over concatenation. */
  lemma {:induction false} CountPassedAppend(a: seq<Obstacle>, b: seq<Obstacle>)
    ensures CountPassed(a + b) == CountPassed(a) + CountPassed(b)
  {
    if a != [] {
      assert (a + b)[1..] == a[1..] + b;
      CountPassedAppend(a[1..], b);
    } else {
      assert a + b == b;
    }
  }
}
