/**
 * GameManager: owns the track, the steps label, the start menu and the
 * player controller, and moves between the phases INIT, PLAYING and END.
 * The source's curState setter has no backing field, so the phase is never
 * stored there; here `phase` records the last value assigned to it.
 */
module Game {
  import opened Wrappers
  import opened Track
  import opened JumpEngine
  import opened GameRules
  import opened Player

  /** Game_State */
  datatype GameState = GsInit | GsPlaying | GsEnd

  /** The next n bits of the random stream, starting at draw number `from`. */
  function Window(random: nat -> Bit, from: nat, n: nat): (w: seq<Bit>)
    ensures |w| == n
    ensures forall k :: 0 <= k < n ==> w[k] == random(from + k)
  {
    seq(n, k requires 0 <= k < n => random(from + k))
  }

  /**
   * What generateRoad builds when `from` is the next draw: the road and the
   * number of draws it used. Its length is roadLength, or 1 when roadLength
   * is below 1, and it satisfies the track invariant.
   */
  function NewRoad(roadLength: int, random: nat -> Bit, from: nat): (g: (seq<BlockType>, nat))
    ensures |g.0| == RoadSize(roadLength) && WellFormed(g.0)
    ensures g.1 < RoadSize(roadLength)
  {
    var n := RoadSize(roadLength);
    GenerateWellFormed(n, Window(random, from, n - 1));
    Generate(n, Window(random, from, n - 1))
  }

  class GameManager {
    /** roadLength (editor property) */
    const roadLength: int
    /** The injected random source: draw number k yields random(k). */
    const random: nat -> Bit
    /** playerCtrl, assumed wired in the scene. */
    const playerCtrl: PlayerController
    /** _road */
    var road: seq<BlockType>
    /** How many bits have been drawn from `random` so far. */
    var draws: nat
    /** The last value assigned to curState (kept for the model; the source does not store it). */
    var phase: GameState
    /** startMenu.active */
    var startMenuActive: bool
    /** stepsLabel.string */
    var stepsLabel: string
    /** setTimeout callbacks scheduled by entering PLAYING and not yet run. */
    var pendingEnables: nat

    /** The track invariant, and the player's step counter is never negative. */
    ghost predicate TrackValid()
      reads this, playerCtrl
    {
      && playerCtrl.Valid()
      && |road| == RoadSize(roadLength) && WellFormed(road)
      && playerCtrl.curMoveIndex >= 0
    }

    /** Between jumps the player always stands on a stone of the track. */
    ghost predicate Valid()
      reads this, playerCtrl
    {
      && TrackValid()
      && (!playerCtrl.startJump ==>
            playerCtrl.curMoveIndex < |road| && road[playerCtrl.curMoveIndex] == BtStone)
    }

    /** The effects of init(): menu shown, new road, input off, player at the origin with counter 0. */
    twostate predicate EnteredInit()
      reads this, playerCtrl
    {
      && startMenuActive
      && road == NewRoad(roadLength, random, old(draws)).0
      && draws == old(draws) + NewRoad(roadLength, random, old(draws)).1
      && !playerCtrl.inputActive
      && playerCtrl.State() == old(playerCtrl.State()).(position := Zero, curMoveIndex := 0)
      && pendingEnables == old(pendingEnables)
    }

    /** The field initialisers: an empty road, nothing drawn yet. */
    constructor(roadLength: int, random: nat -> Bit, playerCtrl: PlayerController)
      ensures this.roadLength == roadLength && this.random == random && this.playerCtrl == playerCtrl
      ensures road == [] && draws == 0 && phase == GsInit && pendingEnables == 0
    {
      this.roadLength := roadLength;
      this.random := random;
      this.playerCtrl := playerCtrl;
      road := [];
      draws := 0;
      phase := GsInit;
      startMenuActive := false;
      stepsLabel := "";
      pendingEnables := 0;
    }

    /** start: enter INIT. */
    method Start()
      requires playerCtrl.Valid()
      modifies this, playerCtrl
      ensures Valid()
      ensures phase == GsInit && EnteredInit() && stepsLabel == old(stepsLabel)
    {
      SetCurState(GsInit);
    }

    /** init */
    method Init()
      requires playerCtrl.Valid()
      modifies this, playerCtrl
      ensures Valid()
      ensures EnteredInit() && phase == old(phase) && stepsLabel == old(stepsLabel)
    {
      startMenuActive := true;
      GenerateRoad();
      playerCtrl.SetInputActive(false);
      playerCtrl.SetPosition(Zero);
      playerCtrl.Reset();
    }

    /** The curState setter: assigning a phase performs that phase's entry effects. */
    method SetCurState(value: GameState)
      requires playerCtrl.Valid()
      modifies this, playerCtrl
      ensures phase == value
      ensures value == GsInit ==> Valid() && EnteredInit() && stepsLabel == old(stepsLabel)
      ensures value == GsPlaying ==>
        && !startMenuActive && stepsLabel == "0"
        && pendingEnables == old(pendingEnables) + 1
        && road == old(road) && draws == old(draws)
        && unchanged(playerCtrl)
      ensures value == GsEnd ==>
        && unchanged(playerCtrl)
        && road == old(road) && draws == old(draws) && startMenuActive == old(startMenuActive)
        && stepsLabel == old(stepsLabel) && pendingEnables == old(pendingEnables)
      ensures old(Valid()) ==> Valid()
    {
      phase := value;
      match value
      case GsInit =>
        Init();
      case GsPlaying =>
        startMenuActive := false;
        stepsLabel := "0";
        // setTimeout(..., 0.1): the callback runs later, as FireSettleTimer.
        pendingEnables := pendingEnables + 1;
      case GsEnd =>
    }

    /** A scheduled setTimeout callback runs: the player starts listening for input. */
    method FireSettleTimer()
      requires Valid() && pendingEnables > 0
      modifies this`pendingEnables, playerCtrl
      ensures Valid()
      ensures pendingEnables == old(pendingEnables) - 1
      ensures playerCtrl.inputActive && playerCtrl.State() == old(playerCtrl.State())
    {
      pendingEnables := pendingEnables - 1;
      playerCtrl.SetInputActive(true);
    }

    /** generateRoad: the first tile a stone, then one tile per index below roadLength. */
    method GenerateRoad()
      modifies this`road, this`draws
      ensures road == NewRoad(roadLength, random, old(draws)).0
      ensures draws == old(draws) + NewRoad(roadLength, random, old(draws)).1
    {
      ghost var from := draws;
      ghost var bits := Window(random, from, RoadSize(roadLength) - 1);
      road := [BtStone];
      var i := 1;
      while i < roadLength
        invariant 1 <= i <= RoadSize(roadLength)
        invariant road == Generate(i, bits).0 && draws == from + Generate(i, bits).1
      {
        GenerateStep(i + 1, bits);
        if road[i - 1] == BtNone {
          road := road + [BtStone];
        } else {
          assert random(draws) == bits[draws - from];
          road := road + [BlockOfValue(random(draws))];
          draws := draws + 1;
        }
        i := i + 1;
      }
    }

    /** onStartButtonClicked: enter PLAYING. */
    method OnStartButtonClicked()
      requires Valid()
      modifies this, playerCtrl
      ensures Valid()
      ensures phase == GsPlaying && !startMenuActive && stepsLabel == "0"
      ensures pendingEnables == old(pendingEnables) + 1
      ensures road == old(road) && draws == old(draws) && unchanged(playerCtrl)
    {
      SetCurState(GsPlaying);
    }

    /** checkResult: a gap, or the end of the track, sends the game back to INIT. */
    method CheckResult(moveIndex: int)
      requires TrackValid()
      modifies this, playerCtrl
      ensures TrackValid()
      ensures EndsRun(moveIndex, roadLength, old(road)) ==>
        phase == GsInit && EnteredInit() && stepsLabel == old(stepsLabel)
      ensures !EndsRun(moveIndex, roadLength, old(road)) ==> unchanged(this) && unchanged(playerCtrl)
      ensures moveIndex == old(playerCtrl.curMoveIndex) ==> Valid()
    {
      if moveIndex < roadLength {
        if TileAt(road, moveIndex) == Some(BtNone) {
          SetCurState(GsInit);
        }
      } else {
        SetCurState(GsInit);
      }
    }

    /** onPlayerJumpEnd: show the step count, then check the landing. */
    method OnPlayerJumpEnd(moveIndex: int)
      requires TrackValid()
      modifies this, playerCtrl
      ensures TrackValid()
      ensures stepsLabel == StepsLabel(moveIndex, roadLength)
      ensures EndsRun(moveIndex, roadLength, old(road)) ==> phase == GsInit && EnteredInit()
      ensures !EndsRun(moveIndex, roadLength, old(road)) ==>
        && unchanged(playerCtrl)
        && road == old(road) && draws == old(draws) && phase == old(phase)
        && startMenuActive == old(startMenuActive) && pendingEnables == old(pendingEnables)
      ensures moveIndex == old(playerCtrl.curMoveIndex) ==> Valid()
    {
      stepsLabel := StepsLabel(moveIndex, roadLength);
      CheckResult(moveIndex);
    }

    /** One frame: the player's update, and the JumpEnd event delivered to onPlayerJumpEnd. */
    method Tick(deltaTime: real)
      requires Valid()
      modifies this, playerCtrl
      ensures Valid()
      ensures var (j, report) := JumpEngine.Update(old(playerCtrl.State()), deltaTime);
        && (report.None? ==> unchanged(this) && playerCtrl.State() == j && playerCtrl.inputActive == old(playerCtrl.inputActive))
        && (report.Some? ==> stepsLabel == StepsLabel(report.value, roadLength))
        && (report.Some? && EndsRun(report.value, roadLength, old(road)) ==>
              && phase == GsInit && road == NewRoad(roadLength, random, old(draws)).0
              && playerCtrl.State() == j.(position := Zero, curMoveIndex := 0) && !playerCtrl.inputActive
              && startMenuActive && draws == old(draws) + NewRoad(roadLength, random, old(draws)).1
              && pendingEnables == old(pendingEnables))
        && (report.Some? && !EndsRun(report.value, roadLength, old(road)) ==>
              && phase == old(phase) && road == old(road) && draws == old(draws)
              && playerCtrl.State() == j && playerCtrl.inputActive == old(playerCtrl.inputActive)
              && startMenuActive == old(startMenuActive) && pendingEnables == old(pendingEnables))
    {
      var report := playerCtrl.Update(deltaTime);
      if report.Some? {
        OnPlayerJumpEnd(report.value);
      }
    }

    /** The input system delivers a mouse-up event to the player, if it is listening. */
    method MouseUp(button: int)
      requires Valid()
      modifies playerCtrl
      ensures Valid()
      ensures playerCtrl.inputActive == old(playerCtrl.inputActive)
      ensures playerCtrl.State() ==
        if playerCtrl.inputActive then JumpEngine.OnMouseUp(old(playerCtrl.State()), button)
        else old(playerCtrl.State())
    {
      playerCtrl.DispatchMouseUp(button);
    }
  }
}
