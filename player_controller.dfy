/**
 * PlayerController: the fields the source updates in place, and methods
 * that update them as the source does. Each method's new state is the
 * JumpEngine function of the old one. Engine input registration is the
 * flag `inputActive`; animation playback is not modelled.
 */
module Player {
  import opened Wrappers
  import opened JumpEngine

  class PlayerController {
    var startJump: bool
    var jumpStep: int
    var curJumpTime: real
    const jumpTime: real := JumpTime
    var curJumpSpeed: real
    var curPos: Vec3
    var deltaPos: Vec3
    var targetPos: Vec3
    var curMoveIndex: int
    /** The node's position (node.getPosition / node.setPosition). */
    var position: Vec3
    /** Whether the mouse-up listener is registered (setInputActive). */
    var inputActive: bool

    /** The fields as a JumpEngine state. */
    function State(): Jump
      reads this
    {
      Jump(startJump, jumpStep, curJumpTime, curJumpSpeed, curPos, deltaPos, targetPos, curMoveIndex, position)
    }

    ghost predicate Valid()
      reads this
    {
      Consistent(State())
    }

    /** The field initialisers; the node stands at `position`, no listener is registered yet. */
    constructor(position: Vec3)
      ensures Valid() && State() == Initial(position) && !inputActive
    {
      startJump := false;
      jumpStep := 0;
      curJumpTime := 0.0;
      curJumpSpeed := 0.0;
      curPos := Zero;
      deltaPos := Zero;
      targetPos := Zero;
      curMoveIndex := 0;
      this.position := position;
      inputActive := false;
    }

    /** reset */
    method Reset()
      requires Valid()
      modifies this
      ensures Valid()
      ensures State() == JumpEngine.Reset(old(State())) && inputActive == old(inputActive)
    {
      curMoveIndex := 0;
    }

    /** setInputActive: registers (true) or removes (false) the mouse-up listener. */
    method SetInputActive(active: bool)
      requires Valid()
      modifies this
      ensures Valid()
      ensures State() == old(State()) && inputActive == active
    {
      inputActive := active;
    }

    /** node.setPosition, as GameManager.init calls it. */
    method SetPosition(p: Vec3)
      requires Valid()
      modifies this
      ensures Valid()
      ensures State() == old(State()).(position := p) && inputActive == old(inputActive)
    {
      position := p;
    }

    /** The engine delivering a mouse-up event: it reaches onMouseUp only while the listener is registered. */
    method DispatchMouseUp(button: int)
      requires Valid()
      modifies this
      ensures Valid()
      ensures State() == (if inputActive then JumpEngine.OnMouseUp(old(State()), button) else old(State()))
      ensures inputActive == old(inputActive)
    {
      if inputActive {
        OnMouseUp(button);
      }
    }

    /** onMouseUp */
    method OnMouseUp(button: int)
      requires Valid()
      modifies this
      ensures Valid()
      ensures State() == JumpEngine.OnMouseUp(old(State()), button) && inputActive == old(inputActive)
    {
      if button == 0 {
        JumpByStep(1);
      } else if button == 2 {
        JumpByStep(2);
      }
    }

    /** jumpByStep */
    method JumpByStep(step: int)
      requires Valid()
      modifies this
      ensures Valid()
      ensures State() == JumpEngine.JumpByStep(old(State()), step) && inputActive == old(inputActive)
    {
      if startJump {
        return;
      }
      startJump := true;
      jumpStep := step;
      curJumpTime := 0.0;
      curJumpSpeed := jumpStep as real / jumpTime;
      curPos := position;
      targetPos := Add(curPos, Vec3(jumpStep as real, 0.0, 0.0));
      curMoveIndex := curMoveIndex + step;
    }

    /**
     * update: one frame; `report` is the JumpEnd event that onOnceJumpEnd
     * emits on landing, which carries the step counter.
     */
    method Update(deltaTime: real) returns (report: Option<int>)
      requires Valid()
      modifies this
      ensures Valid()
      ensures (State(), report) == JumpEngine.Update(old(State()), deltaTime)
      ensures inputActive == old(inputActive)
    {
      report := None;
      ghost var j := State();
      if startJump {
        curJumpTime := curJumpTime + deltaTime;
        if curJumpTime > jumpTime {
          position := targetPos;
          startJump := false;
          report := Some(curMoveIndex);
        } else {
          curPos := position;
          deltaPos := deltaPos.(x := curJumpSpeed * deltaTime);
          curPos := Add(curPos, deltaPos);
          position := curPos;
          assert JumpEngine.Update(j, deltaTime).0 == j.(curJumpTime := curJumpTime, deltaPos := deltaPos, curPos := position, position := position);
          assert (State(), report) == JumpEngine.Update(j, deltaTime);
        }
      }
    }
  }
}
