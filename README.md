# Snake round logic in Dafny

This project models the game logic of a Snake game with a Tkinter front end
(`python_gui.py`). The board is a 20x20 torus. One or two snakes move one cell
per tick, eat food to grow and score 10 points, and crash into their own body or
into the other snake's body. A crash ends the round, which is classified
(Single Player game over, draw, P1 crashed, P2 crashed) and then reset. The
reset records the combined score and raises the high score.

The project has five modules:

- `Board` (`board.dfy`): cells, headings, the head move with wrap-around, and
  the reversal test of a key press.
- `SnakeTurn` (`turn.dfy`): one snake's turn as a pure function.
  - It returns the next head, the new body, the crash flag and the meal flag.
- `Food` (`food.dfy`): rejection sampling of a free cell.
  - The random generator is a stream `draws` of drawn cells, one
    `(randint, randint)` pair per retry.
  - The loop `SampleFreeCell` is proved to return `FirstFree`, the first draw
    outside the occupied cells.
- `Round` (`round.dfy`): the round state as a value (`Snapshot`).
  - The operations on it are pure functions: `Tick`, `Reset`, `Steer`,
    `Classify` and `SwitchMode`.
  - Lemmas state what a tick, a reset and a key press do, and that each keeps
    the invariant `Consistent`.
  - `Consistent` says: every cell is on the board, no snake repeats a cell,
    both scores are multiples of 10, and snake2 is absent in Single Player
    mode.
- `Game` (`game.dfy`): the class `GameState`, whose fields the game logic
  updates in place.
  - `ResetGame`, `GameLoop`, `StartGame`, `ChangeDirection`, `GameOver` and
    `ChangeMode` are proved to leave exactly the state the matching `Round`
    function computes, and to keep `Valid()`.
  - The helper methods (`GenerateFood`, `RecordScore`, `PlaceSnakesAtStart`,
    `ProcessSnakeTurn`, `StopGame`, `PlayTurns`, `CommitTurns`) state their
    field updates directly.

Behaviour of the code that the model reproduces:

- **Food placement aliases snake1.** In Two Player mode, food placement appends
  snake2's cells to snake1's own list.
  - `GameState.GenerateFood` does the same.
  - After a Two Player reset, snake1 is `[(3,5), (16,14)]`
    (`Round.Reset`, `Round.TwoPlayerPhantomSegment`).
  - When snake1 eats, snake2 is then checked against snake1's polluted list.
    This gives the same result as checking against the pre-tick body
    (`SnakeTurn.PollutedOpponentHarmless`).
- **Food is regenerated in the middle of the tick.** When snake1 eats, new food
  is placed before snake2 moves.
  - The new food avoids only the pre-move bodies, so it may land on snake1's
    new head (`Round.FoodMayLandOnNewHead`).
- **Heads can meet without a crash.** Two heads moving into the same free cell
  are not detected as a crash, because each turn is checked against the other
  snake's pre-tick body (`Round.HeadOnMeetingUndetected`).
- **Headings.** North is `y - 1` and South is `y + 1`; West and East change `x`.

## Model

| member | source | states |
|---|---|---|
| Board.NextHead | python_gui.py:216-229 | The new head is on the board when the old one is. Only the coordinate of the heading's axis changes, and it becomes the old one plus the unit step, modulo 20. |
| Board.NextHeadMoves | python_gui.py:216-229 | A head always leaves its cell. |
| Board.NextHeadUndone | python_gui.py:216-229 | Moving back in the opposite heading returns a head on the board to its cell (wrap-around is a bijection). |
| Board.IsReverse | python_gui.py:333-336 | The four listed pairs are exactly the requests for the opposite of the current heading. |
| Board.Steered | python_gui.py:333-342 | The resulting heading is never the opposite of the current one. A non-reverse request replaces it; a reverse request keeps the current heading. |
| Board.SteeredThenReversed | python_gui.py:333-342 | Pressing a heading and then its opposite leaves the heading the first press gave. |
| SnakeTurn.ProcessTurn | python_gui.py:231-264 | An empty snake gives `((0,0), [], no crash, no meal)`. Otherwise the next head is the wrapped move of the old head, and a crash happens iff that head is in the body after the head or in the opponent's body. On a crash the body is unchanged and there is no meal. Otherwise the snake eats iff the head lands on the food, and the body is the new head followed by the old body, one cell longer iff it ate. The cells stay on the board. |
| SnakeTurn.SurvivorLeavesBody | python_gui.py:240-248 | A head that did not crash lies outside the whole old body and the opponent's body. |
| SnakeTurn.TurnPreservesNoDup | python_gui.py:250-264 | A body without repeated cells keeps that property through a turn. |
| SnakeTurn.PollutedOpponentHarmless | python_gui.py:298-301 | Checking a turn against the opponent's cells with the snake's own cells appended gives the same result as checking it against the opponent alone. |
| Food.FirstFree | python_gui.py:49-53 | The accepted cell is one of the draws, is not occupied, and is on the board when the draws are. |
| Food.FirstFreeIsFirst | python_gui.py:49-53 | The accepted cell is the draw at the first index whose cell is free. |
| Food.FirstFreeSameCells | python_gui.py:44-53 | The accepted cell depends only on which cells are occupied, not on their order or repetition. |
| Food.SampleFreeCell | python_gui.py:49-53 | The retry loop returns the first free draw (`FirstFree`). |
| Round.Occupied | python_gui.py:45-47 | The cells food placement avoids are exactly snake1's cells, plus snake2's in Two Player mode. |
| Round.StartCells | python_gui.py:75-88 | Snake1 after a reset is `[(3,5)]`, or `[(3,5), (16,14)]` in Two Player mode, because food placement appends snake2's start cell. |
| Round.Reset | python_gui.py:67-89 | The last score is score1 + score2. The high score becomes the maximum of the old high score and that sum, and is saved iff strictly beaten. Scores go to 0 and the round stops. Snake1 restarts heading East (plus snake2's start cell in Two Player mode, by aliasing). Snake2 restarts at (16,14) heading West, or is empty in Single Player. The new food is outside both snakes. |
| Round.ResetConsistent | python_gui.py:67-89 | A reset leaves a consistent state from any state. |
| Round.Steer | python_gui.py:321-342 | A key press is ignored when stopped, or for snake2 outside Two Player mode. It changes only the pressed snake's heading, never to the opposite of the current one. A request for the opposite heading leaves the state unchanged; any other request replaces the heading. |
| Round.SteerThenReverse | python_gui.py:321-342 | A press followed by its opposite leaves the state as the first press left it. |
| Round.SteerPreservesConsistent | python_gui.py:321-342 | A key press keeps the invariant. |
| Round.Classify | python_gui.py:345-358 | Single Player rounds end as a plain game over. In Two Player mode the outcome is a draw iff both crashed, P1 crashed iff only P1 crashed, and P2 crashed iff only P2 crashed. |
| Round.Hits1 | python_gui.py:287-292 | Snake1 crashes when its next head is in its own body after the head, or, in Two Player mode, in snake2's pre-tick body (a reference definition with no contract of its own). |
| Round.Hits2 | python_gui.py:298-302 | Snake2 crashes only in Two Player mode, when its next head is in its own body after the head or in snake1's pre-tick body (a reference definition with no contract of its own). |
| Round.Turn1 | python_gui.py:287-292 | Snake1's turn crashes iff `Hits1` holds. An empty snake1 stays empty and does not eat. |
| Round.FoodForTurn2 | python_gui.py:254-260 | The food snake2 sees is a fresh free draw outside both pre-tick bodies when snake1 ate, and the old food otherwise. |
| Round.Turn2 | python_gui.py:294-302 | Snake2's turn crashes iff `Hits2` holds. In Single Player mode snake2 keeps its body and does not eat. |
| Round.FoodAfterTick | python_gui.py:254-260 | When snake2 ate, the food is a free draw from snake2's stream outside both pre-tick bodies. When only snake1 ate (every Single Player meal), it is a free draw from snake1's stream outside both pre-tick bodies. When nobody ate, the food is unchanged. |
| Round.Advance | python_gui.py:308-314 | A tick without a crash changes only the bodies, the scores and the food. Each score rises by 10 if that snake ate and by 0 otherwise. |
| Round.EndRound | python_gui.py:304-306 | A crash ends the round with the outcome `Classify` gives. The state is stopped, the mode is kept, and the last score is the pre-tick sum. The high score is saved iff that sum beats it. |
| Round.Tick | python_gui.py:281-319 | A tick is idle iff the round is stopped. It ends the round iff the round is running and a head hits a body. The round keeps running iff the tick continues, and the mode never changes. |
| Round.NoMealNeedsNoDraws | python_gui.py:254-262 | A tick in which nobody eats needs no food draws (only the reset stream a crash would use), so a tick of a board covered by the snakes is modelled. |
| Round.TickWhenStopped | python_gui.py:281-283 | A tick of a stopped round changes nothing. |
| Round.TickCrash | python_gui.py:285-306 | A running tick ends the round iff a head hits a body, both checked on the pre-tick state. Then no move and no meal of the tick counts. The new state is the reset of the stopped pre-tick state: the last score is the pre-tick sum, the high score its running maximum, saved iff beaten. Both snakes return to their start cells and headings, both scores are 0, and the round is stopped. The outcome is classified from the crash flags. |
| Round.TickNoCrash | python_gui.py:285-314 | Without a crash, snake1's head and (in Two Player mode) snake2's head each move one step. Its length grows by one and its score by 10 exactly when it ate. Headings, high score and last score are unchanged, and in Single Player snake2 and score2 are unchanged. After a meal the food lies outside both pre-tick bodies; without one it is unchanged. |
| Round.HeadOnMeetingUndetected | python_gui.py:289-302 | In a running Two Player tick where both heads move into the same cell and no body covers that cell, the tick continues and both new heads are on that cell. |
| Round.FoodMayLandOnNewHead | python_gui.py:256-260 | In a Two Player tick where snake1 eats, the new food can be placed on snake1's new head. |
| Round.TwoPlayerPhantomSegment | python_gui.py:44-47 | After a Two Player reset snake1 is `[(3,5), (16,14)]`. For every reset food cell other than (4,5), snake1's first move (a meal-free move East) keeps two cells: `[(4,5), (3,5)]`. |
| Round.AdvancePreservesConsistent | python_gui.py:308-314 | Writing the new bodies and scores of a tick without a crash keeps the invariant. |
| Round.TickPreservesConsistent | python_gui.py:281-319 | Every tick keeps the invariant. |
| Round.SwitchMode | python_gui.py:116-124 | Choosing the current mode changes nothing. Choosing another mode stops the round and resets it in the new mode. The last score is the old sum, the high score its running maximum, saved iff beaten. The snakes are at their start cells and headings for the new mode, the scores are 0, the food is free, and the state is consistent. |
| Game.GameState.constructor | python_gui.py:27-42 | The initial state has empty snakes, East and West headings, zero scores, no food, is stopped and in Single Player mode, and has the loaded high score. |
| Game.GameState.GenerateFood | python_gui.py:44-53 | Returns the first free draw for snake1 (plus snake2 in Two Player mode), and leaves snake1 extended with snake2's cells in Two Player mode. |
| Game.GameState.RecordScore | python_gui.py:68-73 | The last score becomes the sum. The high score is raised, and the save is flagged, iff the sum beats it. |
| Game.GameState.PlaceSnakesAtStart | python_gui.py:75-86 | Both snakes go to their start cells and headings, with zero scores. |
| Game.GameState.ResetGame | python_gui.py:67-89 | The new state and save flag are those of `Round.Reset`, and the state stays valid. |
| Game.GameState.ProcessSnakeTurn | python_gui.py:231-264 | The result is `ProcessTurn` on the current food. After a meal the food is placed anew and snake1 carries the cells food placement appended to it. |
| Game.GameState.StopGame | python_gui.py:273-279 | The round is stopped. |
| Game.GameState.StartGame | python_gui.py:266-271 | A running round is left alone. A stopped round is started and ticked once, as `Round.Tick` on the started state describes. |
| Game.GameState.PlayTurns | python_gui.py:285-302 | Both turns are those of the pre-tick state, and the food is the one `Round.FoodAfterTick` describes. Snake1's list is left with snake2's cells appended once for each meal in Two Player mode (the in-place aliasing of food placement). |
| Game.GameState.CommitTurns | python_gui.py:308-314 | The bodies are replaced by the turns' bodies, and each score rises by 10 iff that snake ate. |
| Game.GameState.GameLoop | python_gui.py:281-319 | The new state and outcome are those of `Round.Tick`, and the state stays valid. |
| Game.GameState.ChangeDirection | python_gui.py:321-342 | The new state is `Round.Steer` of the old one, and stays valid. |
| Game.GameState.GameOver | python_gui.py:345-358 | The outcome is `Round.Classify` of the crash flags. The new state is the reset of the stopped round, and stays valid. |
| Game.GameState.ChangeMode | python_gui.py:116-124 | The new state and save flag are those of `Round.SwitchMode`, and the state stays valid. |

## Left out

- Tkinter user interface: widgets, styles, canvas drawing, dashboard updates,
  message boxes and key binding. Key bindings only send the four headings, so
  a heading is an enumeration and unrecognised heading strings are not modelled.
- Timer scheduling with `after`/`after_cancel`, and the `game_timer` and `root`
  fields. A tick is one call of `GameLoop`.
- Compiling and running the Verilog tools (`_compile_verilog`, `show_gtkwave`).
  They do not touch the game state.
- Reading and writing the high-score JSON file. The loaded value is the
  constructor's parameter, and a save is the `saved` flag that
  `ResetGame`, `GameOver`, `ChangeMode` and `GameLoop` return.
- `random.randint` is a stream of draws. The unbounded retry loop is bounded by
  a precondition: when a snake eats, some draw in its stream is a free cell. A
  meal on a board with no free cell (the source would loop forever) is not
  modelled.
- The text of the game-over messages. Only their classification is kept.
- Game.GameState.StartGame: does not model the button-state changes that follow
  the first tick.
