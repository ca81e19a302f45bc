/** The game state object and the game-logic methods that update it in place:
    food placement, reset, one snake's turn, the tick, direction changes,
    game over, start, stop and the mode switch. ResetGame, GameLoop,
    StartGame, ChangeDirection, GameOver and ChangeMode are proved to leave
    the state that the matching function of `Round` describes and to keep
    `Valid()`; the helper methods state their field updates directly. */
module Game {
  import opened Board
  import opened SnakeTurn
  import opened Food
  import opened Round

  class GameState {
    var snake1: seq<Pos>
    var direction1: Direction
    var score1: int
    var snake2: seq<Pos>
    var direction2: Direction
    var score2: int
    var food: Option<Pos>
    var isRunning: bool
    var highScore: int
    var lastScore: int
    var mode: Mode

    /** The state as a value. */
    function Snap(): Snapshot
      reads this
    {
      Snapshot(snake1, direction1, score1, snake2, direction2, score2, food, isRunning, highScore, lastScore, mode)
    }

    predicate Valid()
      reads this
    {
      Consistent(Snap())
    }

    /** A fresh state: no snakes, no food yet, Single Player, and the high
        score read from the score file (0 when absent). */
    constructor (loadedHighScore: int)
      ensures Snap() == Snapshot([], East, 0, [], West, 0, None, false, loadedHighScore, 0, SinglePlayer)
      ensures Valid()
    {
      snake1, direction1, score1 := [], East, 0;
      snake2, direction2, score2 := [], West, 0;
      food := None;
      isRunning := false;
      highScore := loadedHighScore;
      lastScore := 0;
      mode := SinglePlayer;
    }

    /** Food placement. The list of cells to avoid is snake1's own list, to
        which snake2's cells are appended in Two Player mode, so snake1 keeps
        them afterwards. */
    method GenerateFood(draws: seq<Pos>) returns (cell: Pos)
      requires SomeDrawFree(draws, Occupied(Snap()))
      modifies this`snake1
      ensures snake1 == old(Occupied(Snap()))
      ensures cell == FirstFree(draws, old(Occupied(Snap())))
      ensures cell !in old(snake1) && (mode == TwoPlayer ==> cell !in snake2)
    {
      if mode == TwoPlayer {
        snake1 := snake1 + snake2;
      }
      cell := SampleFreeCell(draws, snake1);
    }

    /** The score half of a reset: the combined score becomes the last
        score, and the high score is raised (and saved) when beaten. */
    method RecordScore() returns (saved: bool)
      modifies this`lastScore, this`highScore
      ensures lastScore == old(score1 + score2)
      ensures saved <==> old(score1 + score2) > old(highScore)
      ensures highScore == if saved then lastScore else old(highScore)
    {
      var combined := score1 + score2;
      lastScore := combined;
      saved := false;
      if combined > highScore {
        highScore := combined;
        saved := true;
      }
    }

    /** The snake half of a reset: each snake back to its start cell and heading. */
    method PlaceSnakesAtStart()
      modifies this`snake1, this`direction1, this`score1, this`snake2, this`direction2, this`score2
      ensures snake1 == [START1] && direction1 == East && score1 == 0
      ensures snake2 == (if mode == TwoPlayer then [START2] else []) && direction2 == West && score2 == 0
    {
      snake1 := [START1];
      direction1 := East;
      score1 := 0;
      if mode == TwoPlayer {
        snake2 := [START2];
        direction2 := West;
        score2 := 0;
      } else {
        snake2 := [];
        direction2 := West;
        score2 := 0;
      }
    }

    /** The end-of-round reset: record the scores, put both snakes back at
        their start, place food and stop the round. */
    method ResetGame(draws: seq<Pos>) returns (saved: bool)
      requires ResetDraws(mode, draws)
      modifies this
      ensures ResetResult(Snap(), saved) == Reset(old(Snap()), draws)
      ensures Valid()
    {
      ghost var s := Snap();
      saved := RecordScore();
      PlaceSnakesAtStart();
      assert Occupied(Snap()) == StartCells(mode);
      var cell := GenerateFood(draws);
      food := Some(cell);
      isRunning := false;
      ResetConsistent(s, draws);
    }

    /** One snake's turn; after a meal the food is placed anew at once. */
    method ProcessSnakeTurn(current: seq<Pos>, direction: Direction, opponent: seq<Pos>, draws: seq<Pos>)
      returns (r: TurnResult)
      requires ProcessTurn(current, direction, opponent, food).ateFood ==> SomeDrawFree(draws, Occupied(Snap()))
      modifies this`snake1, this`food
      ensures r == ProcessTurn(current, direction, opponent, old(food))
      ensures r.ateFood ==> food == Some(FirstFree(draws, old(Occupied(Snap())))) && snake1 == old(Occupied(Snap()))
      ensures !r.ateFood ==> food == old(food) && snake1 == old(snake1)
    {
      r := ProcessTurn(current, direction, opponent, food);
      if r.ateFood {
        var cell := GenerateFood(draws);
        food := Some(cell);
      }
    }

    method StopGame()
      modifies this`isRunning
      ensures !isRunning
    {
      if isRunning {
        isRunning := false;
      }
    }

    /** Start a stopped round and run its first tick. */
    method StartGame(draws1: seq<Pos>, draws2: seq<Pos>, resetDraws: seq<Pos>) returns (outcome: Outcome)
      requires Valid()
      requires TickDraws(Snap(), draws1, draws2, resetDraws)
      modifies this
      ensures old(isRunning) ==> outcome == Idle && Snap() == old(Snap())
      ensures !old(isRunning) ==>
        TickResult(Snap(), outcome) == Tick(old(Snap()).(isRunning := true), draws1, draws2, resetDraws)
      ensures Valid()
    {
      outcome := Idle;
      if !isRunning {
        isRunning := true;
        outcome := GameLoop(draws1, draws2, resetDraws);
      }
    }

    /** The first half of a tick: snake1's turn, then snake2's in Two
        Player mode. Both are judged against the bodies before the tick. */
    method PlayTurns(draws1: seq<Pos>, draws2: seq<Pos>) returns (p1: TurnResult, p2: TurnResult)
      requires MealDraws(Snap(), draws1, draws2)
      modifies this`snake1, this`food
      ensures p1 == Turn1(old(Snap())) && p2 == Turn2(old(Snap()), draws1)
      ensures snake1 == old(snake1) + (if old(mode) == TwoPlayer && p1.ateFood then old(snake2) else [])
                                    + (if p2.ateFood then old(snake2) else [])
      ensures food == FoodAfterTick(old(Snap()), draws1, draws2)
    {
      ghost var s := Snap();
      var twoPlayer := mode == TwoPlayer;
      var p1Opponent := if twoPlayer then snake2 else [];
      p1 := ProcessSnakeTurn(snake1, direction1, p1Opponent, draws1);
      p2 := TurnResult(Pos(0, 0), snake2, false, false);
      if twoPlayer {
        // snake1's list now also holds snake2's cells if snake1 ate.
        PollutedOpponentHarmless(snake2, direction2, s.snake1, food);
        if Turn2(s, draws1).ateFood {
          FirstFreeSameCells(draws2, Occupied(s), Occupied(Snap()));
        }
        p2 := ProcessSnakeTurn(snake2, direction2, snake1, draws2);
      }
    }

    /** The second half of a tick without a crash: store both new bodies
        and add 10 points for each snake that ate. */
    method CommitTurns(p1: TurnResult, p2: TurnResult)
      modifies this`snake1, this`snake2, this`score1, this`score2
      ensures Snap() == old(Snap()).(snake1 := p1.body, snake2 := p2.body,
                                     score1 := old(score1) + (if p1.ateFood then 10 else 0),
                                     score2 := old(score2) + (if p2.ateFood then 10 else 0))
    {
      snake1 := p1.body;
      snake2 := p2.body;
      if p1.ateFood {
        score1 := score1 + 10;
      }
      if p2.ateFood {
        score2 := score2 + 10;
      }
    }

    /** One tick. Both turns are computed before any body is written; the
        bodies and scores are written only if neither snake crashed. */
    method GameLoop(draws1: seq<Pos>, draws2: seq<Pos>, resetDraws: seq<Pos>) returns (outcome: Outcome)
      requires Valid()
      requires TickDraws(Snap(), draws1, draws2, resetDraws)
      modifies this
      ensures TickResult(Snap(), outcome) == Tick(old(Snap()), draws1, draws2, resetDraws)
      ensures Valid()
    {
      ghost var s := Snap();
      if !isRunning {
        return Idle;
      }
      var p1, p2 := PlayTurns(draws1, draws2);
      if p1.crashed || p2.crashed {
        ghost var mid := Snap();
        var end, saved := GameOver(p1.crashed, p2.crashed, resetDraws);
        outcome := Over(end, saved);
        EndRoundIgnoresBoard(mid, s, p1.crashed, p2.crashed, resetDraws);
        TickEndsRound(s, draws1, draws2, resetDraws);
        return;
      }
      CommitTurns(p1, p2);
      outcome := Continuing;
      TickAdvances(s, draws1, draws2, resetDraws);
      AdvancePreservesConsistent(s, draws1, draws2);
    }

    /** A key press: ignored while stopped, for snake2 outside Two Player
        mode, and when it asks for the reverse of the current heading. */
    method ChangeDirection(id: SnakeId, requested: Direction)
      requires Valid()
      modifies this`direction1, this`direction2
      ensures Snap() == Steer(old(Snap()), id, requested)
      ensures Valid()
    {
      if !isRunning {
        return;
      }
      if id == Snake2 && mode != TwoPlayer {
        return;
      }
      var current := if id == Snake1 then direction1 else direction2;
      if !IsReverse(current, requested) {
        if id == Snake1 {
          direction1 := requested;
        } else {
          direction2 := requested;
        }
      }
    }

    /** Game over: stop the round, classify how it ended, reset. */
    method GameOver(p1Crashed: bool, p2Crashed: bool, draws: seq<Pos>) returns (end: RoundEnd, saved: bool)
      requires ResetDraws(mode, draws)
      modifies this
      ensures end == Classify(old(mode), p1Crashed, p2Crashed)
      ensures TickResult(Snap(), Over(end, saved)) == EndRound(old(Snap()), p1Crashed, p2Crashed, draws)
      ensures Valid()
    {
      StopGame();
      end := Classify(mode, p1Crashed, p2Crashed);
      saved := ResetGame(draws);
    }

    /** Choosing a game mode: a different mode stops the round and resets it. */
    method ChangeMode(newMode: Mode, draws: seq<Pos>) returns (saved: bool)
      requires Valid()
      requires ResetDraws(newMode, draws)
      modifies this
      ensures ResetResult(Snap(), saved) == SwitchMode(old(Snap()), newMode, draws)
      ensures Valid()
    {
      saved := false;
      if mode != newMode {
        StopGame();
        mode := newMode;
        saved := ResetGame(draws);
      }
    }
  }
}
