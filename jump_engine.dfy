/**
 * The jump engine of PlayerController as a state machine over its fields:
 * jumpByStep starts a jump unless one is in flight, update advances it one
 * frame and snaps to the target once the jump time has run out, reset
 * zeroes the step counter. Time and positions are exact reals.
 */
module JumpEngine {
  import opened Wrappers

  datatype Vec3 = Vec3(x: real, y: real, z: real)

  const Zero: Vec3 := Vec3(0.0, 0.0, 0.0)

  /** Vec3.add */
  function Add(a: Vec3, b: Vec3): Vec3
  {
    Vec3(a.x + b.x, a.y + b.y, a.z + b.z)
  }

  /** _jumpTime: the duration of every jump, in seconds. */
  const JumpTime: real := 0.3

  /** The controller's fields, and the node's position, which the controller reads and sets. */
  datatype Jump = Jump(
    startJump: bool,      // a jump is in flight
    jumpStep: int,        // the step of the current or last jump
    curJumpTime: real,    // time elapsed in the current jump
    curJumpSpeed: real,   // jumpStep / jumpTime
    curPos: Vec3,         // scratch copy of the node's position
    deltaPos: Vec3,       // this frame's displacement; only x is ever set
    targetPos: Vec3,      // where the current jump lands
    curMoveIndex: int,    // total steps jumped since the last reset
    position: Vec3)       // the node's position

  /** The controller's initial field values, its node standing at `position`. */
  function Initial(position: Vec3): (j: Jump)
    ensures !j.startJump && j.curMoveIndex == 0 && j.position == position
  {
    Jump(false, 0, 0.0, 0.0, Zero, Zero, Zero, 0, position)
  }

  /**
   * What every reachable state satisfies: the frame displacement moves along
   * x only, the speed matches the step, and a jump still in flight has not
   * yet run past its duration.
   */
  predicate Consistent(j: Jump)
  {
    && j.deltaPos.y == 0.0 && j.deltaPos.z == 0.0
    && j.curJumpSpeed == j.jumpStep as real / JumpTime
    && (j.startJump ==> j.curJumpTime <= JumpTime)
  }

  /** jumpByStep: ignored while a jump is in flight, otherwise starts one towards position + (step, 0, 0). */
  function JumpByStep(j: Jump, step: int): (k: Jump)
    ensures j.startJump ==> k == j
    ensures !j.startJump ==>
      && k.startJump && k.jumpStep == step && k.curJumpTime == 0.0
      && k.curMoveIndex == j.curMoveIndex + step
      && k.targetPos == Vec3(j.position.x + step as real, j.position.y, j.position.z)
      && k.position == j.position
    ensures Consistent(j) ==> Consistent(k)
  {
    if j.startJump then j
    else
      j.(startJump := true,
         jumpStep := step,
         curJumpTime := 0.0,
         curJumpSpeed := step as real / JumpTime,
         curPos := j.position,
         targetPos := Add(j.position, Vec3(step as real, 0.0, 0.0)),
         curMoveIndex := j.curMoveIndex + step)
  }

  /**
   * update(deltaTime): nothing when no jump is in flight; otherwise the
   * elapsed time grows by deltaTime and, once it exceeds the jump time, the
   * node is put exactly on the target, the flag cleared and the step counter
   * reported (onOnceJumpEnd); before that the node moves speed * deltaTime along x.
   */
  function Update(j: Jump, deltaTime: real): (r: (Jump, Option<int>))
    ensures !j.startJump ==> r == (j, None)
    ensures r.1.Some? <==> j.startJump && j.curJumpTime + deltaTime > JumpTime
    ensures r.1.Some? ==>
      && r.1.value == j.curMoveIndex && !r.0.startJump && r.0.position == j.targetPos
    ensures j.startJump && r.1.None? ==>
      && r.0.startJump && r.0.curJumpTime == j.curJumpTime + deltaTime
    ensures Consistent(j) && j.startJump && r.1.None? ==>
      r.0.position == Vec3(j.position.x + j.curJumpSpeed * deltaTime, j.position.y, j.position.z)
    ensures r.0.curMoveIndex == j.curMoveIndex && r.0.targetPos == j.targetPos
    ensures r.0.jumpStep == j.jumpStep && r.0.curJumpSpeed == j.curJumpSpeed
    ensures Consistent(j) ==> Consistent(r.0)
  {
    if !j.startJump then (j, None)
    else
      var elapsed := j.curJumpTime + deltaTime;
      if elapsed > JumpTime then
        (j.(curJumpTime := elapsed, position := j.targetPos, startJump := false), Some(j.curMoveIndex))
      else
        var delta := j.deltaPos.(x := j.curJumpSpeed * deltaTime);
        var moved := Add(j.position, delta);
        (j.(curJumpTime := elapsed, deltaPos := delta, curPos := moved, position := moved), None)
  }

  /** reset: the step counter goes back to 0; a jump in flight is left alone. */
  function Reset(j: Jump): (k: Jump)
    ensures k.curMoveIndex == 0
    ensures k.(curMoveIndex := j.curMoveIndex) == j
    ensures Consistent(j) ==> Consistent(k)
  {
    j.(curMoveIndex := 0)
  }

  /** onMouseUp's mapping: left button (0) jumps one tile, right button (2) two, any other none. */
  function StepOf(button: int): (step: Option<int>)
    ensures step.Some? <==> button == 0 || button == 2
    ensures step.Some? ==> step.value == button / 2 + 1
  {
    if button == 0 then Some(1)
    else if button == 2 then Some(2)
    else None
  }

  /** onMouseUp */
  function OnMouseUp(j: Jump, button: int): (k: Jump)
    ensures StepOf(button).None? ==> k == j
    ensures StepOf(button).Some? ==> k == JumpByStep(j, StepOf(button).value)
    ensures Consistent(j) ==> Consistent(k)
    ensures k.curMoveIndex >= j.curMoveIndex
  {
    match StepOf(button)
    case Some(step) => JumpByStep(j, step)
    case None => j
  }

  /** A second jump request while the first is in flight changes nothing. */
  lemma RequestDuringJumpIgnored(j: Jump, first: int, second: int)
    requires !j.startJump
    ensures JumpByStep(JumpByStep(j, first), second) == JumpByStep(j, first)
    ensures JumpByStep(JumpByStep(j, first), second).curMoveIndex == j.curMoveIndex + first
  {
  }

  /** Total of a sequence of frame times. */
  function Sum(dts: seq<real>): real
  {
    if dts == [] then 0.0 else dts[0] + Sum(dts[1..])
  }

  /** Frame times the engine delivers are never negative. */
  predicate NonNegative(dts: seq<real>)
  {
    forall i :: 0 <= i < |dts| ==> dts[i] >= 0.0
  }

  lemma {:induction false} SumNonNegative(dts: seq<real>)
    requires NonNegative(dts)
    ensures Sum(dts) >= 0.0
  {
    if dts != [] {
      assert NonNegative(dts[1..]);
      SumNonNegative(dts[1..]);
    }
  }

  /** Frames in order: the final state and the indices reported by onOnceJumpEnd. */
  function Run(j: Jump, dts: seq<real>): (r: (Jump, seq<int>))
    decreases |dts|
  {
    if dts == [] then (j, [])
    else
      var step := Update(j, dts[0]);
      var rest := Run(step.0, dts[1..]);
      (rest.0, (if step.1.Some? then [step.1.value] else []) + rest.1)
  }

  /** With no jump in flight, frames change nothing and report nothing. */
  lemma {:induction false} IdleRun(j: Jump, dts: seq<real>)
    requires !j.startJump
    ensures Run(j, dts) == (j, [])
    decreases |dts|
  {
    if dts != [] {
      IdleRun(j, dts[1..]);
      assert Update(j, dts[0]) == (j, None);
      assert [] + Run(j, dts[1..]).1 == [];
    }
  }

  /**
   * A jump in flight under non-negative frame times lands exactly once,
   * precisely when the elapsed time passes the jump time, on its target, and
   * reports its step counter.
   */
  lemma {:induction false} InFlightRun(j: Jump, dts: seq<real>)
    requires Consistent(j) && j.startJump && NonNegative(dts)
    ensures var r := Run(j, dts);
      && Consistent(r.0)
      && r.0.curMoveIndex == j.curMoveIndex && r.0.targetPos == j.targetPos
      && (r.1 == [] <==> j.curJumpTime + Sum(dts) <= JumpTime)
      && (r.1 != [] ==> r.1 == [j.curMoveIndex] && !r.0.startJump && r.0.position == j.targetPos)
      && (r.1 == [] ==> r.0.startJump && r.0.curJumpTime == j.curJumpTime + Sum(dts))
    decreases |dts|
  {
    if dts != [] {
      var first := Update(j, dts[0]);
      var rest := dts[1..];
      assert NonNegative(rest);
      SumNonNegative(rest);
      if first.1.Some? {
        IdleRun(first.0, rest);
      } else {
        InFlightRun(first.0, rest);
      }
    }
  }

  /** Until it lands, a jump moves along x at its speed: x grows by speed times the elapsed frames. */
  lemma {:induction false} InFlightGlide(j: Jump, dts: seq<real>)
    requires Consistent(j) && j.startJump
    ensures var r := Run(j, dts);
      r.1 == [] ==>
        r.0.position == Vec3(j.position.x + j.curJumpSpeed * Sum(dts), j.position.y, j.position.z)
    decreases |dts|
  {
    if dts != [] {
      var first := Update(j, dts[0]);
      var rest := dts[1..];
      if first.1.None? {
        InFlightGlide(first.0, rest);
        var speed := j.curJumpSpeed;
        assert speed * Sum(dts) == speed * dts[0] + speed * Sum(rest);
      }
    }
  }

  /**
   * A whole jump: starting from rest, a jump of `step` followed by frames
   * reports exactly once, as soon as the frames add up to more than the jump
   * time, the step counter raised by `step`, and leaves the node exactly at
   * position + (step, 0, 0) with no drift.
   */
  lemma JumpLandsOnTarget(j: Jump, step: int, dts: seq<real>)
    requires Consistent(j) && !j.startJump && NonNegative(dts)
    ensures var r := Run(JumpByStep(j, step), dts);
      && |r.1| <= 1
      && (r.1 != [] <==> Sum(dts) > JumpTime)
      && (r.1 != [] ==>
            && r.1[0] == j.curMoveIndex + step && !r.0.startJump
            && r.0.position == Add(j.position, Vec3(step as real, 0.0, 0.0)))
      && r.0.curMoveIndex == j.curMoveIndex + step
  {
    InFlightRun(JumpByStep(j, step), dts);
  }
}
