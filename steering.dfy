/**
  The shortest-rotation optimizer of one swerve module (`closestAngle`), as a
  pure function of the previous heading, the goal heading and the angle unit
  of one full turn. Its side effect on the drive direction is returned as the
  `flipped` flag; the module class applies it to its direction factor.
 */
module SteeringOptimizer {
  import opened AngleMath

  /** One optimizer step: the delta to add to the previous heading, and
      whether it aims at the reversed goal (which toggles the direction factor). */
  datatype Steering = Steering(delta: real, flipped: bool)

  /** Difference of the two headings, each normalised to [0, full). */
  function RawDirection(previous: real, goal: real, full: real): (d: real)
    requires full > 0.0
    ensures -full < d < full
    ensures Congruent(previous + d, goal, full)
  {
    var mg, mp := Modulo(goal, full), Modulo(previous, full);
    ModuloDecompose(previous, full);
    CongruentByShift(previous + (mg - mp), mg, full, (previous / full).Floor);
    ModuloUnique(mg, full, mg, 0);
    mg - mp
  }

  /** First step: a move of more than half a turn goes the other way round. */
  function WrapHalfTurn(dir: real, full: real): (w: real)
    requires full > 0.0 && -full < dir < full
    ensures Abs(w) <= full / 2.0
    ensures (w == dir) <==> Abs(dir) <= full / 2.0
    ensures w - dir == 0.0 || w - dir == full || w - dir == -full
  {
    if Abs(dir) > full / 2.0 then -(Signum(dir) * full) + dir else dir
  }

  /** The angular distance between two headings, the short way round,
      defined independently of the optimizer's steps. */
  function ShortestDistance(previous: real, goal: real, full: real): (d: real)
    requires full > 0.0
    ensures 0.0 <= d <= full / 2.0
  {
    var m := Modulo(goal - previous, full);
    if m <= full / 2.0 then m else full - m
  }

  /** The post-wrap direction is the short way round: its size is the
      shortest distance between the headings. */
  lemma WrappedIsShortest(previous: real, goal: real, full: real)
    requires full > 0.0
    ensures Abs(WrapHalfTurn(RawDirection(previous, goal, full), full)) == ShortestDistance(previous, goal, full)
  {
    var d := RawDirection(previous, goal, full);
    var mg, mp := Modulo(goal, full), Modulo(previous, full);
    ModuloDecompose(previous, full);
    ModuloDecompose(goal, full);
    var k := (goal / full).Floor - (previous / full).Floor;
    assert goal - previous == d + k as real * full;
    ModuloShift(d, full, k);
    if d >= 0.0 {
      ModuloUnique(d, full, d, 0);
    } else {
      ModuloUnique(d, full, d + full, -1);
    }
  }

  /** The flip step exactly as the source writes it: the supplement keeps the
      sign of the wrapped direction. */
  function ClosestAngleAsWritten(previous: real, goal: real, full: real): (s: Steering)
    requires full > 0.0
    ensures s.flipped <==> ShortestDistance(previous, goal, full) > full / 4.0
    ensures Abs(s.delta) == MinimalTravel(ShortestDistance(previous, goal, full), full)
    ensures Abs(s.delta) <= full / 4.0
  {
    WrappedIsShortest(previous, goal, full);
    var dir := WrapHalfTurn(RawDirection(previous, goal, full), full);
    if Abs(dir) > full / 4.0 then Steering(Signum(dir) * (full / 2.0 - Abs(dir)), true)
    else Steering(dir, false)
  }

  /** The flip step as intended: turn the other way, by the supplement of the
      wrapped direction, so that the wheel faces the goal reversed. */
  function ClosestAngle(previous: real, goal: real, full: real): (s: Steering)
    requires full > 0.0
    ensures s.flipped <==> ShortestDistance(previous, goal, full) > full / 4.0
    ensures Abs(s.delta) == MinimalTravel(ShortestDistance(previous, goal, full), full)
    ensures Abs(s.delta) <= full / 4.0
  {
    WrappedIsShortest(previous, goal, full);
    var dir := WrapHalfTurn(RawDirection(previous, goal, full), full);
    if Abs(dir) > full / 4.0 then Steering(-Signum(dir) * (full / 2.0 - Abs(dir)), true)
    else Steering(dir, false)
  }

  /** The least steering travel that reaches either the goal heading or the
      goal heading reversed, given the shortest distance d to the goal. */
  function MinimalTravel(d: real, full: real): (t: real)
    requires full > 0.0 && 0.0 <= d <= full / 2.0
    ensures 0.0 <= t <= full / 4.0
    ensures t <= d && t <= full / 2.0 - d
    ensures t == d || t == full / 2.0 - d
  {
    if d > full / 4.0 then full / 2.0 - d else d
  }

  /** The drive direction factor after a step: negated exactly on a flip. */
  function Toggled(factor: real, s: Steering): (f: real)
    ensures s.flipped ==> f == -factor
    ensures !s.flipped ==> f == factor
  {
    if s.flipped then factor * -1.0 else factor
  }

  /** After the wrap step the direction still reaches the goal heading. */
  lemma WrappedReachesGoal(previous: real, goal: real, full: real) returns (k: int)
    requires full > 0.0
    ensures previous + WrapHalfTurn(RawDirection(previous, goal, full), full) == goal + k as real * full
  {
    var d := RawDirection(previous, goal, full);
    var w := WrapHalfTurn(d, full);
    var k0 := CongruentDifference(previous + d, goal, full);
    k := if w - d == 0.0 then k0 else if w - d == full then k0 + 1 else k0 - 1;
  }

  /** The intended flip step moves half a turn back towards the wrapped direction. */
  lemma ClosestAngleFromWrapped(previous: real, goal: real, full: real)
    requires full > 0.0
    ensures var w := WrapHalfTurn(RawDirection(previous, goal, full), full);
      var s := ClosestAngle(previous, goal, full);
      && s.flipped == (Abs(w) > full / 4.0)
      && s.delta == (if !s.flipped then w else if w > 0.0 then w - full / 2.0 else w + full / 2.0)
  {
  }

  /** The corrected optimizer lands on the goal heading when it does not flip
      and on the goal heading reversed when it flips; either way on the goal
      modulo half a turn. */
  lemma ClosestAngleReachesGoal(previous: real, goal: real, full: real)
    requires full > 0.0
    ensures var s := ClosestAngle(previous, goal, full);
      Congruent(previous + s.delta, goal, full / 2.0)
    ensures var s := ClosestAngle(previous, goal, full);
      s.flipped ==> Congruent(previous + s.delta, goal + full / 2.0, full)
    ensures var s := ClosestAngle(previous, goal, full);
      Congruent(previous + s.delta, goal, full) <==> !s.flipped
  {
    var w := WrapHalfTurn(RawDirection(previous, goal, full), full);
    var k := WrappedReachesGoal(previous, goal, full);
    ClosestAngleFromWrapped(previous, goal, full);
    var s := ClosestAngle(previous, goal, full);
    LandingFromWrap(previous, goal, full, w, k, s.delta, s.flipped);
  }

  /** The flip step keeps the landing a whole number of turns from the goal,
      or from the goal reversed. */
  lemma LandingFromWrap(previous: real, goal: real, full: real, w: real, k: int, delta: real, flipped: bool)
    requires full > 0.0 && previous + w == goal + k as real * full
    requires delta == if !flipped then w else if w > 0.0 then w - full / 2.0 else w + full / 2.0
    ensures Congruent(previous + delta, goal, full / 2.0)
    ensures flipped ==> Congruent(previous + delta, goal + full / 2.0, full)
    ensures Congruent(previous + delta, goal, full) <==> !flipped
  {
    var j := if flipped && w > 0.0 then k - 1 else k;
    assert (k - 1) as real * full == k as real * full - full;
    Landing(previous + delta, goal, full, flipped, j);
  }

  /** A heading a whole number of turns from the goal, or from the goal
      reversed, is the goal modulo half a turn, and the goal itself exactly
      when it was not reversed. */
  lemma Landing(x: real, goal: real, full: real, flipped: bool, j: int)
    requires full > 0.0
    requires !flipped ==> x == goal + j as real * full
    requires flipped ==> x == goal + full / 2.0 + j as real * full
    ensures Congruent(x, goal, full / 2.0)
    ensures flipped ==> Congruent(x, goal + full / 2.0, full)
    ensures Congruent(x, goal, full) <==> !flipped
  {
    var half := full / 2.0;
    if !flipped {
      CongruentByShift(x, goal, full, j);
      CongruentByShift(x, goal, half, 2 * j);
    } else {
      CongruentByShift(x, goal + half, full, j);
      CongruentByShift(x, goal, half, 2 * j + 1);
      HalfTurnNotCongruent(goal, full);
    }
  }

  /** A goal already at the previous heading needs no steering and no flip. */
  lemma SameHeadingStaysPut(previous: real, goal: real, full: real)
    requires full > 0.0 && Congruent(previous, goal, full)
    ensures ClosestAngle(previous, goal, full) == Steering(0.0, false)
    ensures ClosestAngleAsWritten(previous, goal, full) == Steering(0.0, false)
  {
  }

  /** The source's flip step is the mirror image of the intended one: the
      same flag, the same size, the opposite sign on a flip. */
  lemma AsWrittenMirrorsIntended(previous: real, goal: real, full: real)
    requires full > 0.0
    ensures ClosestAngleAsWritten(previous, goal, full).flipped == ClosestAngle(previous, goal, full).flipped
    ensures var s := ClosestAngle(previous, goal, full);
      ClosestAngleAsWritten(previous, goal, full).delta == if s.flipped then -s.delta else s.delta
  {
  }

  /** With a turn of 360: from 0 to 200 the source steers -20 and flips, which
      leaves the wheel at 340 (160 reversed) instead of 20 (200 reversed). */
  lemma AsWrittenMissesGoal()
    ensures ClosestAngleAsWritten(0.0, 200.0, 360.0) == Steering(-20.0, true)
    ensures !Congruent(0.0 + ClosestAngleAsWritten(0.0, 200.0, 360.0).delta, 200.0, 180.0)
    ensures !Congruent(0.0 + ClosestAngleAsWritten(0.0, 200.0, 360.0).delta, 200.0 + 180.0, 360.0)
  {
  }

  /** The worked examples with a turn of 360, for the intended optimizer. */
  lemma ClosestAngleExamples()
    ensures ClosestAngle(0.0, 200.0, 360.0) == Steering(20.0, true)
    ensures ClosestAngle(10.0, 40.0, 360.0) == Steering(30.0, false)
    ensures ClosestAngle(0.0, 0.0, 360.0) == Steering(0.0, false)
    ensures ClosestAngleAsWritten(10.0, 40.0, 360.0) == Steering(30.0, false)
  {
  }

  /** Flipping twice restores the drive direction: from 0 to 200 flips, and
      from the heading reached, 20, a further 200 to 220 flips again. */
  lemma TwoFlipsRestoreDirection(factor: real)
    ensures ClosestAngle(0.0, 200.0, 360.0).flipped
    ensures ClosestAngle(0.0 + ClosestAngle(0.0, 200.0, 360.0).delta, 220.0, 360.0).flipped
    ensures Toggled(Toggled(factor, ClosestAngle(0.0, 200.0, 360.0)), ClosestAngle(20.0, 220.0, 360.0)) == factor
  {
  }
}
