# Mind Your Step — a verified model of the game core

This project models the core of the Cocos Creator game "Mind Your Step".
A player stands on a one-dimensional track of stones and gaps. Each click
jumps forward: one tile with the left mouse button, two with the right.
Landing in a gap sends the game back to its INIT phase, and so does jumping
past the last tile.

The model follows the two script classes of the game.

- `GameManager` is the class `Game.GameManager` in `game_manager.dfy`. It
  builds the track (`generateRoad`) and runs the phase setter (`curState`)
  with its INIT and PLAYING effects. It also checks each landing
  (`checkResult`) and writes the steps label (`onPlayerJumpEnd`).
- `PlayerController` is the class `Player.PlayerController` in
  `player_controller.dfy`. Its fields are updated in place. It covers the
  jump guard (`jumpByStep`), the per-frame motion (`update`) and the counter
  reset. It also covers input registration and the mouse-button mapping.

The model has two kinds of method contract.

- The `PlayerController` methods are proved against pure functions of the
  controller's old state in `JumpEngine`. Each states `State() ==
  JumpEngine.F(old(State()), …)`.
- `GameManager.GenerateRoad` is proved against `Game.NewRoad`, which is built
  from `Track.Generate`.
- The other `GameManager` methods state their effects directly as two-state
  postconditions. These methods are `Init`, `SetCurState`, `FireSettleTimer`,
  `OnStartButtonClicked`, `CheckResult`, `OnPlayerJumpEnd` and `Tick`. Their
  postconditions use the twostate predicate `EnteredInit` for the effects of
  init, and the `GameRules` functions for the landing decision and the label
  text. They also keep the invariant `Valid()`: between jumps the player
  stands on a stone. `CheckResult` and `OnPlayerJumpEnd` establish it only
  when they are given the player's own step counter.

Properties are proved about the pure functions:

- `Track` specifies the track loop.
- `JumpEngine` specifies the controller's state changes.
- `GameRules` specifies the landing decision and the label text.

`Scenarios` drives whole games through the class methods:

- falling into a gap;
- reaching the end;
- a double click during a jump;
- a click before the start delay has run.

Each of these is a chain of asserts.

The random choice `Math.floor(Math.random() * 2)` comes from an injected
stream `random: nat -> Bit`, read at a cursor `draws`. The spec function
`Track.Generate` takes the drawn bits as a sequence. Time and positions are
exact reals.

## Model

| member | source | states |
|---|---|---|
| Track.RoadSize | MindYourStep/assets/Scripts/GameManager.ts:98-102 | The road has max(1, roadLength) tiles: the first stone is pushed before the loop, which adds one tile per index 1..roadLength-1. |
| Track.Value | MindYourStep/assets/Scripts/GameManager.ts:12-16 | An enum value is 0 exactly for BT_NONE. |
| Track.BlockOfValue | MindYourStep/assets/Scripts/GameManager.ts:109 | The number pushed for a random draw is the tile with that value. |
| Track.Generate | MindYourStep/assets/Scripts/GameManager.ts:98-111 | The first n tiles the loop pushes have length n and start with a stone, and at most n-1 bits are drawn. |
| Track.GeneratePrefix | MindYourStep/assets/Scripts/GameManager.ts:102-111 | The loop only appends: the first m tiles of a longer road are the road built with m tiles. |
| Track.GenerateDraws | MindYourStep/assets/Scripts/GameManager.ts:103-110 | A random bit is drawn only after a stone: the number of draws is the number of stones among all tiles but the last. |
| Track.GenerateChoice | MindYourStep/assets/Scripts/GameManager.ts:103-110 | Each tile after the first is a stone when its predecessor is a gap, and otherwise is the tile of the next unused bit. |
| Track.GenerateWellFormed | MindYourStep/assets/Scripts/GameManager.ts:99-111 | Every generated road starts with a stone and never has two gaps in a row. |
| Track.Choices | MindYourStep/assets/Scripts/GameManager.ts:103-110 | A road records at most one free choice per tile after the first. |
| Track.GenerateComplete | MindYourStep/assets/Scripts/GameManager.ts:98-111 | Every road with a stone first and no two gaps in a row is generated from its own choices, whatever bits follow, using exactly those draws. |
| Game.Window | MindYourStep/assets/Scripts/GameManager.ts:109 | The next n draws of the random stream from a cursor, in order. |
| Game.NewRoad | MindYourStep/assets/Scripts/GameManager.ts:95-111 | The road generateRoad builds from a cursor has max(1, roadLength) tiles, satisfies the track invariant and uses fewer draws than tiles. |
| Game.GameManager.GenerateRoad | MindYourStep/assets/Scripts/GameManager.ts:95-111 | The loop replaces `_road` by NewRoad from the current cursor and advances the cursor by the draws it used. |
| Game.GameManager.constructor | MindYourStep/assets/Scripts/GameManager.ts:26-40 | The field initialisers: an empty road and nothing drawn. |
| Game.GameManager.Start | MindYourStep/assets/Scripts/GameManager.ts:42-47 | start enters INIT with all of init's effects. |
| Game.GameManager.Init | MindYourStep/assets/Scripts/GameManager.ts:49-64 | init shows the menu and builds a new road. It turns input off, puts the player at the origin with counter 0 and leaves every other player field as it was. |
| Game.GameManager.SetCurState | MindYourStep/assets/Scripts/GameManager.ts:66-93 | INIT performs init. PLAYING hides the menu, sets the label to "0", schedules one input-enabling callback and touches nothing else. END changes nothing. Every assignment keeps the game invariant. |
| Game.GameManager.FireSettleTimer | MindYourStep/assets/Scripts/GameManager.ts:83-88 | The delayed callback turns player input on and changes no jump state. |
| Game.GameManager.OnStartButtonClicked | MindYourStep/assets/Scripts/GameManager.ts:140-142 | The start button enters PLAYING: menu hidden, label "0", input-enabling callback scheduled, road and player untouched. |
| Game.GameManager.CheckResult | MindYourStep/assets/Scripts/GameManager.ts:144-154 | A landing in a gap before the end, or at or past roadLength, re-enters INIT with its effects. Any other landing changes nothing. Checking the player's own counter leaves them on a stone. |
| Game.GameManager.OnPlayerJumpEnd | MindYourStep/assets/Scripts/GameManager.ts:156-163 | The label becomes StepsLabel(moveIndex, roadLength). Then the landing check either re-enters INIT or leaves everything else unchanged. |
| Game.GameManager.Tick | MindYourStep/assets/Scripts/PlayerController.ts:94-116 | One frame runs the player's update. With no landing, the game is unchanged. On a landing, the JumpEnd event reaches onPlayerJumpEnd (GameManager.ts:46) and the label is written. The game then either re-enters INIT or keeps the player exactly on the landed state. On re-entry the menu is shown, there is a new road, the cursor advances, input is off and the player is at the origin with counter 0. Otherwise phase, road, cursor, menu, pending callbacks and input stay as they were. |
| Game.GameManager.MouseUp | MindYourStep/assets/Scripts/PlayerController.ts:45-62 | A mouse-up reaches onMouseUp only while the player listens for input. |
| GameRules.TileAt | MindYourStep/assets/Scripts/GameManager.ts:146 | Reading `_road[i]` gives a tile exactly for indices inside the array, and undefined otherwise. |
| GameRules.EndsRun | MindYourStep/assets/Scripts/GameManager.ts:144-154 | The run ends if and only if moveIndex >= roadLength, or moveIndex < roadLength and that tile of the road is a gap. |
| GameRules.SurvivorStandsOnStone | MindYourStep/assets/Scripts/GameManager.ts:144-154 | On a generated road, a landing that does not end the run stands on a stone inside the road, and the spawn tile never ends a run. |
| GameRules.NoTwoGapsInARow | MindYourStep/assets/Scripts/GameManager.ts:103-105 | One step past a gap inside the road never ends the run. |
| GameRules.DisplayedSteps | MindYourStep/assets/Scripts/GameManager.ts:159 | The label's number is min(moveIndex, roadLength). |
| GameRules.NatToString | MindYourStep/assets/Scripts/GameManager.ts:159 | A non-negative count is written as decimal digits with no redundant leading zero ("0" only for zero), and reading them back gives the count. |
| GameRules.IntToString | MindYourStep/assets/Scripts/GameManager.ts:159 | Any integer is written in JavaScript's canonical form: no leading zeros, no "-0", and a minus sign exactly when negative. Reading it back gives the same integer. |
| GameRules.DigitsUnique | MindYourStep/assets/Scripts/GameManager.ts:159 | Two digit strings with no redundant leading zero that denote the same number are equal. |
| GameRules.CanonicalUnique | MindYourStep/assets/Scripts/GameManager.ts:159 | Every integer has exactly one canonical text, so the contracts of IntToString and StepsLabel fix the text completely. |
| GameRules.StepsLabel | MindYourStep/assets/Scripts/GameManager.ts:159 | The label is a space followed by the canonical text of min(moveIndex, roadLength), which CanonicalUnique makes the only possible text. |
| JumpEngine.Initial | MindYourStep/assets/Scripts/PlayerController.ts:15-34 | The initial fields: no jump in flight, counter 0. |
| JumpEngine.JumpByStep | MindYourStep/assets/Scripts/PlayerController.ts:64-92 | While a jump is in flight the call is a no-op. Otherwise a jump of `step` starts at time 0, the counter grows by step, the target is position + (step, 0, 0) and the node has not moved yet. |
| JumpEngine.Update | MindYourStep/assets/Scripts/PlayerController.ts:102-116 | With no jump in flight, a frame changes nothing. A landing is reported exactly when the elapsed time passes 0.3. It reports the counter and snaps the node exactly onto the target. Before that, time accumulates and x grows by speed * deltaTime. The counter, target and speed never change. |
| JumpEngine.Reset | MindYourStep/assets/Scripts/PlayerController.ts:41-43 | reset sets the counter to 0 and changes no other field. |
| JumpEngine.StepOf | MindYourStep/assets/Scripts/PlayerController.ts:55-62 | Only buttons 0 and 2 trigger a jump, of 1 and 2 tiles respectively. |
| JumpEngine.OnMouseUp | MindYourStep/assets/Scripts/PlayerController.ts:55-62 | A mapped button requests a jump of its step, any other button changes nothing, and the counter never decreases. |
| JumpEngine.RequestDuringJumpIgnored | MindYourStep/assets/Scripts/PlayerController.ts:64-67 | A second request during a jump changes nothing: a double click counts once. |
| JumpEngine.SumNonNegative | MindYourStep/assets/Scripts/PlayerController.ts:102-104 | Non-negative frame times add up to a non-negative elapsed time. |
| JumpEngine.IdleRun | MindYourStep/assets/Scripts/PlayerController.ts:102-103 | With no jump in flight, any number of frames changes nothing and reports nothing. |
| JumpEngine.InFlightRun | MindYourStep/assets/Scripts/PlayerController.ts:102-116 | Over non-negative frames, a jump in flight reports once, with its counter, exactly when the accumulated time passes 0.3, and then sits exactly on its target. Until then it is still in flight. |
| JumpEngine.InFlightGlide | MindYourStep/assets/Scripts/PlayerController.ts:109-114 | Until it lands, the node's x grows by speed times the total elapsed frame time, and y and z are unchanged. |
| JumpEngine.JumpLandsOnTarget | MindYourStep/assets/Scripts/PlayerController.ts:64-116 | A jump of `step` from rest reports at most once. It reports exactly when the frames add up to more than 0.3, with the counter raised by step, and the node lands exactly at position + (step, 0, 0). |
| Player.PlayerController.constructor | MindYourStep/assets/Scripts/PlayerController.ts:15-34 | The field initialisers, with the listener not registered. |
| Player.PlayerController.Reset | MindYourStep/assets/Scripts/PlayerController.ts:41-43 | The new state is JumpEngine.Reset of the old one. |
| Player.PlayerController.SetInputActive | MindYourStep/assets/Scripts/PlayerController.ts:45-53 | Registers or removes the listener and leaves the jump state unchanged. |
| Player.PlayerController.SetPosition | MindYourStep/assets/Scripts/GameManager.ts:60 | Moves the node and nothing else. |
| Player.PlayerController.DispatchMouseUp | MindYourStep/assets/Scripts/PlayerController.ts:45-62 | A mouse-up event reaches onMouseUp only while the listener is registered. |
| Player.PlayerController.OnMouseUp | MindYourStep/assets/Scripts/PlayerController.ts:55-62 | The new state is JumpEngine.OnMouseUp of the old one. |
| Player.PlayerController.JumpByStep | MindYourStep/assets/Scripts/PlayerController.ts:64-92 | The new state is JumpEngine.JumpByStep of the old one. |
| Player.PlayerController.Update | MindYourStep/assets/Scripts/PlayerController.ts:94-116 | The new state and the reported landing are JumpEngine.Update of the old state. The report is the JumpEnd event that onOnceJumpEnd emits, carrying the step counter. onOnceJumpEnd is inlined at the landing. |
| Scenarios.FiveTileTrack | MindYourStep/assets/Scripts/GameManager.ts:98-111 | Draws 0, 1, 0 build the road stone, gap, stone, stone, gap. |
| Scenarios.AllStoneTrack | MindYourStep/assets/Scripts/GameManager.ts:98-111 | Draws of 1 only build a road of stones. |
| Scenarios.BeginRun | MindYourStep/assets/Scripts/GameManager.ts:140-142 | The start button and then the delayed callback leave the game in PLAYING with input on, and the road and player state unchanged. |
| Scenarios.ClickAndLand | MindYourStep/assets/Scripts/GameManager.ts:156-163 | A click and then one long frame either restart the run or keep it going with the player exactly at the old position + (step, 0, 0). The label shows the landed count. |

## Left out

- Rendering: `spawnBlockType`, the cube prefab and the block nodes that generateRoad lays out (GameManager.ts:113-138). They draw the road and do not change it.
- Animations (`CocosAnim`, `BodyAnim`) are visual only.
- `input.on` / `input.off` are the flag `inputActive`. This assumes that registering the same callback and target again has no further effect. The engine's event system is not part of this model.
- `setTimeout(..., 0.1)` is the counter `pendingEnables` plus `FireSettleTimer`, which runs one pending callback. The delay is 0.1 milliseconds, and the model keeps no clock. Entering INIT does not cancel a pending callback, as in the source.
- `Math.random` becomes the injected stream `random: nat -> Bit`. No distribution is modelled.
- JavaScript numbers are exact reals and unbounded integers. Number-to-text is modelled for integers only. JavaScript switches to exponent notation from 1e21 upward, and the model does not capture that; a step count never gets there. Floating-point rounding of elapsed time and position is not modelled.
- `node.emit('JumpEnd', …)` together with `node.on` in `start` is modelled as `Tick`, which hands the value that `Update` reports to `OnPlayerJumpEnd`.
- The null checks on `startMenu`, `stepsLabel` and `playerCtrl` are not modelled. All three are taken as wired in the scene.
- The `curState` setter has no backing field in the source. `phase` records the last value assigned, and it starts as GsInit.
- The initial values of the menu flag and the label text before `start` are not modelled.
- GS_END is never assigned in the source. The model assigns it only through `SetCurState`, which changes nothing for it.
- Winning and losing both re-enter INIT, as in the source. Nothing tells them apart.
- Track.Generate requires at least n-1 bits. A finite sequence stands in for the stream, and `Game.Window` provides it.
