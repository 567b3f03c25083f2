/**
 * Runs of the whole game against the model: the two run-ending paths, the
 * jump guard, and the settle delay before input is accepted.
 */
module Scenarios {
  import opened Track
  import opened JumpEngine
  import opened GameRules
  import opened Player
  import opened Game

  /** Bits 0, 1, 0 build the five-tile track stone, gap, stone, stone, gap. */
  lemma FiveTileTrack(random: nat -> Bit)
    requires random(0) == 0 && random(1) == 1 && random(2) == 0
    ensures NewRoad(5, random, 0).0 == [BtStone, BtNone, BtStone, BtStone, BtNone]
  {
    var bits := Window(random, 0, 4);
    assert Generate(1, bits).0 == [BtStone];
    assert Generate(2, bits).0 == [BtStone, BtNone];
    assert Generate(3, bits).0 == [BtStone, BtNone, BtStone];
    assert Generate(4, bits).0 == [BtStone, BtNone, BtStone, BtStone];
  }

  /** Only stones when every bit is 1. */
  lemma AllStoneTrack(random: nat -> Bit)
    requires forall k :: random(k) == 1
    ensures NewRoad(3, random, 0).0 == [BtStone, BtStone, BtStone]
  {
    var bits := Window(random, 0, 2);
    assert Generate(1, bits).0 == [BtStone];
    assert Generate(2, bits).0 == [BtStone, BtStone];
  }

  /** The start button, then the settle timer: the run is on and the player listens for input. */
  method BeginRun(game: GameManager)
    requires game.Valid()
    modifies game, game.playerCtrl
    ensures game.Valid() && game.phase == GsPlaying && game.playerCtrl.inputActive
    ensures game.road == old(game.road) && game.draws == old(game.draws)
    ensures game.playerCtrl.State() == old(game.playerCtrl.State())
  {
    game.OnStartButtonClicked();
    game.FireSettleTimer();
  }

  /**
   * A click and then one frame longer than a jump: the player lands at its
   * index plus the button's step, and the game either carries on with the
   * player exactly on its target or goes back to INIT.
   */
  method ClickAndLand(game: GameManager, button: int, deltaTime: real)
    requires game.Valid() && game.playerCtrl.inputActive && !game.playerCtrl.startJump
    requires StepOf(button).Some? && deltaTime > JumpTime
    modifies game, game.playerCtrl
    ensures game.Valid() && !game.playerCtrl.startJump
    ensures var landed := old(game.playerCtrl.curMoveIndex) + StepOf(button).value;
      && game.stepsLabel == StepsLabel(landed, game.roadLength)
      && (EndsRun(landed, game.roadLength, old(game.road)) ==>
            && game.phase == GsInit && game.playerCtrl.curMoveIndex == 0 && game.playerCtrl.position == Zero
            && !game.playerCtrl.inputActive)
      && (!EndsRun(landed, game.roadLength, old(game.road)) ==>
            && game.phase == old(game.phase) && game.road == old(game.road) && game.draws == old(game.draws)
            && game.playerCtrl.curMoveIndex == landed && game.playerCtrl.inputActive
            && game.playerCtrl.position == Add(old(game.playerCtrl.position), Vec3(StepOf(button).value as real, 0.0, 0.0)))
  {
    game.MouseUp(button);
    game.Tick(deltaTime);
  }

  /** A new game, started and with the settle timer run: the player listens at index 0 of a fresh track. */
  method PlayingGame(roadLength: int, random: nat -> Bit) returns (game: GameManager)
    ensures fresh(game) && fresh(game.playerCtrl)
    ensures game.Valid() && game.phase == GsPlaying
    ensures game.roadLength == roadLength && game.random == random
    ensures game.road == NewRoad(roadLength, random, 0).0
    ensures game.playerCtrl.inputActive && !game.playerCtrl.startJump
    ensures game.playerCtrl.curMoveIndex == 0 && game.playerCtrl.position == Zero
  {
    var player := new PlayerController(Zero);
    game := new GameManager(roadLength, random, player);
    game.Start();
    BeginRun(game);
  }

  /** A playing game on the track stone, gap, stone, stone, gap. */
  method FiveTileGame() returns (game: GameManager)
    ensures fresh(game) && fresh(game.playerCtrl)
    ensures game.Valid() && game.phase == GsPlaying && game.roadLength == 5
    ensures game.road == [BtStone, BtNone, BtStone, BtStone, BtNone]
    ensures game.playerCtrl.inputActive && !game.playerCtrl.startJump
    ensures game.playerCtrl.curMoveIndex == 0 && game.playerCtrl.position == Zero
  {
    var random: nat -> Bit := k => if k == 1 then 1 else 0;
    game := PlayingGame(5, random);
    FiveTileTrack(random);
  }

  /** Two-tile jumps on stone, gap, stone, stone, gap: index 2 is safe, index 4 is a gap and the run restarts. */
  method FallIntoGap()
  {
    var game := FiveTileGame();
    assert !EndsRun(2, 5, game.road);
    ClickAndLand(game, 2, 0.4);
    assert game.phase == GsPlaying && game.playerCtrl.curMoveIndex == 2;
    assert game.playerCtrl.position == Vec3(2.0, 0.0, 0.0);
    assert EndsRun(4, 5, game.road);
    ClickAndLand(game, 2, 0.4);
    assert game.phase == GsInit && game.playerCtrl.curMoveIndex == 0 && game.playerCtrl.position == Zero;
  }

  /** A playing game on three stones. */
  method ThreeStoneGame() returns (game: GameManager)
    ensures fresh(game) && fresh(game.playerCtrl)
    ensures game.Valid() && game.phase == GsPlaying && game.roadLength == 3
    ensures game.road == [BtStone, BtStone, BtStone]
    ensures game.playerCtrl.inputActive && !game.playerCtrl.startJump
    ensures game.playerCtrl.curMoveIndex == 0 && game.playerCtrl.position == Zero
  {
    var random: nat -> Bit := k => 1;
    game := PlayingGame(3, random);
    AllStoneTrack(random);
  }

  /** Two-tile jumps on three stones: index 2 is safe, index 4 is past the end and the run restarts. */
  method ReachTheEnd()
  {
    var game := ThreeStoneGame();
    assert !EndsRun(2, 3, game.road);
    ClickAndLand(game, 2, 0.4);
    assert game.phase == GsPlaying && game.playerCtrl.curMoveIndex == 2;
    assert EndsRun(4, 3, game.road);
    ClickAndLand(game, 2, 0.4);
    assert game.stepsLabel == StepsLabel(4, 3) && DisplayedSteps(4, 3) == 3;
    assert game.phase == GsInit && game.playerCtrl.curMoveIndex == 0;
  }

  /** A second click during a jump is ignored: one step, not two. */
  method DoubleClick()
  {
    var game := ThreeStoneGame();
    var player := game.playerCtrl;
    game.MouseUp(0);
    assert player.startJump && player.curMoveIndex == 1 && player.curJumpTime == 0.0;
    game.Tick(0.1);
    assert player.startJump && player.curJumpTime == 0.1;
    game.MouseUp(0);
    assert player.curMoveIndex == 1 && player.targetPos == Vec3(1.0, 0.0, 0.0);
  }

  /** Until the settle timer has run, clicks after the start button do not move the player. */
  method ClickBeforeSettle()
  {
    var player := new PlayerController(Zero);
    var game := new GameManager(10, k => 0, player);
    game.Start();
    game.OnStartButtonClicked();
    game.MouseUp(0);
    assert player.curMoveIndex == 0 && !player.startJump && game.phase == GsPlaying;
    game.FireSettleTimer();
    game.MouseUp(0);
    assert player.startJump && player.curMoveIndex == 1;
  }
}
