/** The round state of the game as a value, and the pure specification of
    each operation on it: a tick, a reset, a direction change and a mode
    change. `Game.GameState` performs them in place and is proved to agree. */
module Round {
  import opened Board
  import opened SnakeTurn
  import opened Food

  datatype Mode = SinglePlayer | TwoPlayer

  datatype SnakeId = Snake1 | Snake2

  /** How a round ended, as the game-over message tells it. */
  datatype RoundEnd = SoloOver | Draw | P1Crashed | P2Crashed

  /** What one call of the game loop did. */
  datatype Outcome = Idle | Continuing | Over(end: RoundEnd, savedHighScore: bool)

  /** The fields of the game state that the game logic reads and writes. */
  datatype Snapshot = Snapshot(
    snake1: seq<Pos>, direction1: Direction, score1: int,
    snake2: seq<Pos>, direction2: Direction, score2: int,
    food: Option<Pos>, isRunning: bool,
    highScore: int, lastScore: int, mode: Mode)

  /** The result of a reset: the new state, and whether the high score was saved. */
  datatype ResetResult = ResetResult(state: Snapshot, saved: bool)

  /** The result of one tick: the new state and what happened. */
  datatype TickResult = TickResult(state: Snapshot, outcome: Outcome)

  const START1: Pos := Pos(3, 5)
  const START2: Pos := Pos(BOARD_SIZE - 4, BOARD_SIZE - 6)

  /** The cells food placement avoids: snake1, then snake2 in Two Player mode. */
  function Occupied(s: Snapshot): (cells: seq<Pos>)
    ensures forall p :: p in cells <==> p in s.snake1 || (s.mode == TwoPlayer && p in s.snake2)
  {
    s.snake1 + (if s.mode == TwoPlayer then s.snake2 else [])
  }

  /** Snake1 right after a reset. Food placement appends snake2's cells to
      snake1's own list in Two Player mode, so snake1 keeps snake2's start
      cell as a second segment. */
  function StartCells(mode: Mode): (cells: seq<Pos>)
    ensures |cells| == (if mode == TwoPlayer then 2 else 1) && cells[0] == START1
    ensures mode == TwoPlayer ==> cells[1] == START2
  {
    [START1] + (if mode == TwoPlayer then [START2] else [])
  }

  /** The invariant the game keeps: cells on the board, no snake crossing
      itself, scores in steps of 10, and no second snake in Single Player. */
  predicate Consistent(s: Snapshot) {
    AllOnBoard(s.snake1) && AllOnBoard(s.snake2) &&
    (s.food.Some? ==> OnBoard(s.food.value)) &&
    NoDup(s.snake1) && NoDup(s.snake2) &&
    0 <= s.score1 && s.score1 % 10 == 0 &&
    0 <= s.score2 && s.score2 % 10 == 0 &&
    (s.mode == SinglePlayer ==> s.snake2 == [] && s.score2 == 0)
  }

  /** The random draws a reset needs: some draw avoids the start cells. */
  predicate ResetDraws(mode: Mode, draws: seq<Pos>) {
    DrawsOnBoard(draws) && SomeDrawFree(draws, StartCells(mode))
  }

  /** The end of a round: the combined score becomes the last score and
      raises the high score; both snakes go back to their start. */
  function Reset(s: Snapshot, draws: seq<Pos>): (r: ResetResult)
    requires ResetDraws(s.mode, draws)
    ensures r.state.lastScore == s.score1 + s.score2
    ensures r.state.highScore >= s.highScore && r.state.highScore >= r.state.lastScore
    ensures r.state.highScore == s.highScore || r.state.highScore == r.state.lastScore
    ensures r.saved <==> r.state.highScore > s.highScore
    ensures r.state.score1 == 0 && r.state.score2 == 0 && !r.state.isRunning && r.state.mode == s.mode
    ensures r.state.snake1 == StartCells(s.mode) && r.state.direction1 == East
    ensures r.state.snake2 == (if s.mode == TwoPlayer then [START2] else []) && r.state.direction2 == West
    ensures r.state.food.Some? && r.state.food.value !in r.state.snake1 + r.state.snake2
  {
    var combined := s.score1 + s.score2;
    var high := if combined > s.highScore then combined else s.highScore;
    var food := FirstFree(draws, StartCells(s.mode));
    var snake2 := if s.mode == TwoPlayer then [START2] else [];
    ResetResult(
      Snapshot(StartCells(s.mode), East, 0, snake2, West, 0, Some(food), false, high, combined, s.mode),
      combined > s.highScore)
  }

  /** A reset leaves a consistent state, whatever state it started from. */
  lemma ResetConsistent(s: Snapshot, draws: seq<Pos>)
    requires ResetDraws(s.mode, draws)
    ensures Consistent(Reset(s, draws).state)
  {
  }

  /** A key press asking snake `id` to head `requested`. */
  function Steer(s: Snapshot, id: SnakeId, requested: Direction): (r: Snapshot)
    ensures r.direction1 != Opposite(s.direction1) && r.direction2 != Opposite(s.direction2)
    ensures !s.isRunning ==> r == s
    ensures id == Snake2 && s.mode != TwoPlayer ==> r == s
    ensures r.(direction1 := s.direction1, direction2 := s.direction2) == s
    ensures id == Snake1 ==> r.direction2 == s.direction2
    ensures id == Snake2 ==> r.direction1 == s.direction1
    ensures s.isRunning && id == Snake1 && requested != Opposite(s.direction1) ==> r.direction1 == requested
    ensures s.isRunning && id == Snake2 && s.mode == TwoPlayer && requested != Opposite(s.direction2) ==>
      r.direction2 == requested
    ensures id == Snake1 && requested == Opposite(s.direction1) ==> r == s
    ensures id == Snake2 && requested == Opposite(s.direction2) ==> r == s
  {
    if !s.isRunning then s
    else if id == Snake2 && s.mode != TwoPlayer then s
    else if id == Snake1 then s.(direction1 := Steered(s.direction1, requested))
    else s.(direction2 := Steered(s.direction2, requested))
  }

  /** Pressing a heading and at once its opposite leaves the state as the
      first press left it. */
  lemma SteerThenReverse(s: Snapshot, id: SnakeId, d: Direction)
    ensures Steer(Steer(s, id, d), id, Opposite(d)) == Steer(s, id, d)
  {
  }

  /** The game-over classification: the Single Player message ignores the
      crash flags; in Two Player mode a double crash is a draw. */
  function Classify(mode: Mode, p1Crashed: bool, p2Crashed: bool): (e: RoundEnd)
    ensures mode == SinglePlayer <==> e == SoloOver
    ensures mode == TwoPlayer ==> (e == Draw <==> p1Crashed && p2Crashed)
    ensures mode == TwoPlayer ==> (e == P1Crashed <==> p1Crashed && !p2Crashed)
    ensures mode == TwoPlayer && (p1Crashed || p2Crashed) ==> (e == P2Crashed <==> p2Crashed && !p1Crashed)
  {
    if mode == SinglePlayer then SoloOver
    else if p1Crashed && p2Crashed then Draw
    else if p1Crashed then P1Crashed
    else P2Crashed
  }

  /** The draws snake1's meal needs: a free cell, but only if it eats. */
  predicate Meal1Draws(s: Snapshot, draws1: seq<Pos>) {
    Turn1(s).ateFood ==> SomeDrawFree(draws1, Occupied(s))
  }

  /** The draws the meals of a tick need: each stream must yield a free
      cell only when its snake eats, since only a meal places food. */
  predicate MealDraws(s: Snapshot, draws1: seq<Pos>, draws2: seq<Pos>) {
    Meal1Draws(s, draws1) &&
    (Turn2(s, draws1).ateFood ==> SomeDrawFree(draws2, Occupied(s)))
  }

  /** The random draws a tick may need: one stream for each food placement
      after a meal, one for the reset after a crash. */
  predicate TickDraws(s: Snapshot, draws1: seq<Pos>, draws2: seq<Pos>, resetDraws: seq<Pos>) {
    DrawsOnBoard(draws1) && DrawsOnBoard(draws2) && MealDraws(s, draws1, draws2) &&
    ResetDraws(s.mode, resetDraws)
  }

  /** Snake1's turn: its opponent is snake2 only in Two Player mode. */
  function Turn1(s: Snapshot): (r: TurnResult)
    ensures r.crashed <==> Hits1(s)
    ensures s.snake1 == [] ==> r.body == [] && !r.ateFood
  {
    ProcessTurn(s.snake1, s.direction1, if s.mode == TwoPlayer then s.snake2 else [], s.food)
  }

  /** The food snake2 sees: already replaced if snake1 ate this tick. */
  function FoodForTurn2(s: Snapshot, draws1: seq<Pos>): (food: Option<Pos>)
    requires Meal1Draws(s, draws1)
    ensures Turn1(s).ateFood ==> food.Some? && food.value in draws1 && food.value !in Occupied(s)
    ensures !Turn1(s).ateFood ==> food == s.food
  {
    if Turn1(s).ateFood then Some(FirstFree(draws1, Occupied(s))) else s.food
  }

  /** Snake2's turn, tested against snake1's body before the tick. Outside
      Two Player mode snake2 does not move. */
  function Turn2(s: Snapshot, draws1: seq<Pos>): (r: TurnResult)
    requires Meal1Draws(s, draws1)
    ensures r.crashed <==> Hits2(s)
    ensures s.mode == SinglePlayer ==> r.body == s.snake2 && !r.ateFood
  {
    if s.mode == TwoPlayer then ProcessTurn(s.snake2, s.direction2, s.snake1, FoodForTurn2(s, draws1))
    else TurnResult(Pos(0, 0), s.snake2, false, false)
  }

  /** The food after a tick without a crash: replaced by whichever snake ate last. */
  function FoodAfterTick(s: Snapshot, draws1: seq<Pos>, draws2: seq<Pos>): (food: Option<Pos>)
    requires MealDraws(s, draws1, draws2)
    ensures Turn2(s, draws1).ateFood ==> food.Some? && food.value in draws2 && food.value !in Occupied(s)
    ensures Turn1(s).ateFood && !Turn2(s, draws1).ateFood ==>
      food.Some? && food.value in draws1 && food.value !in Occupied(s)
    ensures !Turn1(s).ateFood && !Turn2(s, draws1).ateFood ==> food == s.food
  {
    if Turn2(s, draws1).ateFood then Some(FirstFree(draws2, Occupied(s))) else FoodForTurn2(s, draws1)
  }

  /** A tick in which nobody crashed: both new bodies, 10 points per meal. */
  function Advance(s: Snapshot, draws1: seq<Pos>, draws2: seq<Pos>): (r: Snapshot)
    requires MealDraws(s, draws1, draws2)
    ensures r.(snake1 := s.snake1, snake2 := s.snake2, score1 := s.score1, score2 := s.score2, food := s.food) == s
    ensures r.score1 - s.score1 == (if Turn1(s).ateFood then 10 else 0)
    ensures r.score2 - s.score2 == (if Turn2(s, draws1).ateFood then 10 else 0)
  {
    var t1 := Turn1(s);
    var t2 := Turn2(s, draws1);
    s.(snake1 := t1.body, snake2 := t2.body,
       score1 := s.score1 + (if t1.ateFood then 10 else 0),
       score2 := s.score2 + (if t2.ateFood then 10 else 0),
       food := FoodAfterTick(s, draws1, draws2))
  }

  /** A tick in which some snake crashed: the round is classified and reset. */
  function EndRound(s: Snapshot, p1Crashed: bool, p2Crashed: bool, resetDraws: seq<Pos>): (r: TickResult)
    requires ResetDraws(s.mode, resetDraws)
    ensures r.outcome.Over? && r.outcome.end == Classify(s.mode, p1Crashed, p2Crashed)
    ensures r.state.lastScore == s.score1 + s.score2 && !r.state.isRunning && r.state.mode == s.mode
    ensures r.outcome.savedHighScore <==> s.score1 + s.score2 > s.highScore
  {
    var reset := Reset(s.(isRunning := false), resetDraws);
    TickResult(reset.state, Over(Classify(s.mode, p1Crashed, p2Crashed), reset.saved))
  }

  /** A tick in which nobody eats places no food, so it needs no food draws
      (only the reset stream a crash would use): a board covered by the
      snakes can still be ticked. */
  lemma NoMealNeedsNoDraws(s: Snapshot, resetDraws: seq<Pos>)
    requires ResetDraws(s.mode, resetDraws)
    requires !Turn1(s).ateFood && !Turn2(s, []).ateFood
    ensures TickDraws(s, [], [], resetDraws)
  {
  }

  /** One call of the game loop. */
  function Tick(s: Snapshot, draws1: seq<Pos>, draws2: seq<Pos>, resetDraws: seq<Pos>): (r: TickResult)
    requires TickDraws(s, draws1, draws2, resetDraws)
    ensures r.outcome == Idle <==> !s.isRunning
    ensures r.outcome.Over? <==> s.isRunning && (Hits1(s) || Hits2(s))
    ensures r.state.isRunning <==> r.outcome == Continuing
    ensures r.state.mode == s.mode
  {
    if !s.isRunning then TickResult(s, Idle)
    else if Turn1(s).crashed || Turn2(s, draws1).crashed then
      EndRound(s, Turn1(s).crashed, Turn2(s, draws1).crashed, resetDraws)
    else
      TickResult(Advance(s, draws1, draws2), Continuing)
  }

  /** How a round ends depends only on the scores, the high score and the
      mode. A proof step for `Game.GameState.GameLoop`. */
  lemma EndRoundIgnoresBoard(s: Snapshot, t: Snapshot, p1Crashed: bool, p2Crashed: bool, resetDraws: seq<Pos>)
    requires ResetDraws(s.mode, resetDraws)
    requires s.score1 == t.score1 && s.score2 == t.score2 && s.highScore == t.highScore && s.mode == t.mode
    ensures EndRound(s, p1Crashed, p2Crashed, resetDraws) == EndRound(t, p1Crashed, p2Crashed, resetDraws)
  {
  }

  /** Unfolds a tick that ends the round. A proof step for `Game.GameState.GameLoop`. */
  lemma TickEndsRound(s: Snapshot, draws1: seq<Pos>, draws2: seq<Pos>, resetDraws: seq<Pos>)
    requires TickDraws(s, draws1, draws2, resetDraws)
    requires s.isRunning && (Turn1(s).crashed || Turn2(s, draws1).crashed)
    ensures Tick(s, draws1, draws2, resetDraws) == EndRound(s, Turn1(s).crashed, Turn2(s, draws1).crashed, resetDraws)
  {
  }

  /** Unfolds a tick that goes on. A proof step for `Game.GameState.GameLoop`. */
  lemma TickAdvances(s: Snapshot, draws1: seq<Pos>, draws2: seq<Pos>, resetDraws: seq<Pos>)
    requires TickDraws(s, draws1, draws2, resetDraws)
    requires s.isRunning && !Turn1(s).crashed && !Turn2(s, draws1).crashed
    ensures Tick(s, draws1, draws2, resetDraws) == TickResult(Advance(s, draws1, draws2), Continuing)
  {
  }

  /** Whether each head hits a body, both judged on the state before the tick. */
  predicate Hits1(s: Snapshot) {
    s.snake1 != [] &&
    var next := NextHead(s.snake1[0], s.direction1);
    next in s.snake1[1..] || (s.mode == TwoPlayer && next in s.snake2)
  }

  predicate Hits2(s: Snapshot) {
    s.mode == TwoPlayer && s.snake2 != [] &&
    var next := NextHead(s.snake2[0], s.direction2);
    next in s.snake2[1..] || next in s.snake1
  }

  /** A stopped round ignores the tick. */
  lemma TickWhenStopped(s: Snapshot, draws1: seq<Pos>, draws2: seq<Pos>, resetDraws: seq<Pos>)
    requires TickDraws(s, draws1, draws2, resetDraws)
    requires !s.isRunning
    ensures Tick(s, draws1, draws2, resetDraws) == TickResult(s, Idle)
  {
  }

  /** A tick ends the round exactly when a head hits a body; then no move and
      no meal of that tick counts: the last score is the score before the
      tick, the high score its running maximum, and the snakes restart. */
  lemma TickCrash(s: Snapshot, draws1: seq<Pos>, draws2: seq<Pos>, resetDraws: seq<Pos>)
    requires TickDraws(s, draws1, draws2, resetDraws)
    requires s.isRunning
    ensures var r := Tick(s, draws1, draws2, resetDraws);
            (r.outcome.Over? <==> Hits1(s) || Hits2(s)) &&
            (r.outcome.Over? ==>
              r.outcome.end == Classify(s.mode, Hits1(s), Hits2(s)) &&
              r.state.lastScore == s.score1 + s.score2 &&
              r.state.highScore == (if s.score1 + s.score2 > s.highScore then s.score1 + s.score2 else s.highScore) &&
              (r.outcome.savedHighScore <==> s.score1 + s.score2 > s.highScore) &&
              r.state == Reset(s.(isRunning := false), resetDraws).state &&
              r.state.snake1 == StartCells(s.mode) &&
              r.state.snake2 == (if s.mode == TwoPlayer then [START2] else []) &&
              r.state.direction1 == East && r.state.direction2 == West &&
              r.state.score1 == 0 && r.state.score2 == 0 && !r.state.isRunning)
  {
  }

  /** Without a crash each snake moves one cell, grows by one exactly when it
      ate, and its score rises by 10 exactly when it ate. */
  lemma TickNoCrash(s: Snapshot, draws1: seq<Pos>, draws2: seq<Pos>, resetDraws: seq<Pos>)
    requires TickDraws(s, draws1, draws2, resetDraws)
    requires s.isRunning && !Hits1(s) && !Hits2(s)
    ensures var r := Tick(s, draws1, draws2, resetDraws);
            var ate1 := s.snake1 != [] && s.food == Some(NextHead(s.snake1[0], s.direction1));
            r.outcome == Continuing && r.state.isRunning &&
            |r.state.snake1| == |s.snake1| + (if ate1 then 1 else 0) &&
            r.state.score1 == s.score1 + (if ate1 then 10 else 0) &&
            (s.snake1 != [] ==> r.state.snake1[0] == NextHead(s.snake1[0], s.direction1)) &&
            (s.mode == TwoPlayer && s.snake2 != [] ==> r.state.snake2[0] == NextHead(s.snake2[0], s.direction2)) &&
            (s.mode == SinglePlayer ==> r.state.snake2 == s.snake2 && r.state.score2 == s.score2) &&
            (r.state.score2 == s.score2 + 10 <==> Turn2(s, draws1).ateFood) &&
            (r.state.score2 == s.score2 <==> !Turn2(s, draws1).ateFood) &&
            |r.state.snake2| == |s.snake2| + (if Turn2(s, draws1).ateFood then 1 else 0) &&
            r.state.direction1 == s.direction1 && r.state.direction2 == s.direction2 &&
            r.state.highScore == s.highScore && r.state.lastScore == s.lastScore &&
            (ate1 || Turn2(s, draws1).ateFood ==> r.state.food.Some? && r.state.food.value !in Occupied(s)) &&
            (!ate1 && !Turn2(s, draws1).ateFood ==> r.state.food == s.food)
  {
  }

  /** Two heads moving into the same cell that neither body covers: each is
      tested only against the other's body before the tick, so the tick goes
      on with both heads on that cell. */
  lemma HeadOnMeetingUndetected(s: Snapshot, draws1: seq<Pos>, draws2: seq<Pos>, resetDraws: seq<Pos>)
    requires TickDraws(s, draws1, draws2, resetDraws)
    requires s.isRunning && s.mode == TwoPlayer && s.snake1 != [] && s.snake2 != []
    requires NextHead(s.snake1[0], s.direction1) == NextHead(s.snake2[0], s.direction2)
    requires NextHead(s.snake1[0], s.direction1) !in s.snake1 + s.snake2
    ensures var r := Tick(s, draws1, draws2, resetDraws);
            r.outcome == Continuing &&
            r.state.snake1[0] == r.state.snake2[0] == NextHead(s.snake1[0], s.direction1)
  {
  }

  /** When snake1 eats in a Two Player tick, the new food is placed before
      snake2 moves and only avoids the old bodies, so it may land on snake1's
      new head, and snake2 is tested against the new food. */
  lemma FoodMayLandOnNewHead()
    ensures var s := Snapshot([START1], East, 0, [START2], West, 0, Some(Pos(4, 5)), true, 0, 0, TwoPlayer);
            var draws := [Pos(4, 5)];
            TickDraws(s, draws, draws, draws) &&
            var r := Tick(s, draws, draws, draws);
            r.outcome == Continuing && r.state.snake1[0] == Pos(4, 5) && r.state.food == Some(Pos(4, 5))
  {
  }

  /** A reset in Two Player mode leaves snake1 with snake2's start cell
      as a second segment, so snake1's first move keeps two cells although
      it ate nothing (in Single Player it keeps one). */
  lemma TwoPlayerPhantomSegment(s: Snapshot, draws: seq<Pos>)
    requires ResetDraws(TwoPlayer, draws) && s.mode == TwoPlayer
    requires Reset(s, draws).state.food != Some(Pos(4, 5))
    ensures var r := Reset(s, draws).state;
            var p1 := Turn1(r.(isRunning := true));
            r.snake1 == [START1, START2] &&
            !p1.crashed && !p1.ateFood && p1.body == [Pos(4, 5), START1]
  {
  }

  /** A tick without a crash keeps the invariant. */
  lemma AdvancePreservesConsistent(s: Snapshot, draws1: seq<Pos>, draws2: seq<Pos>)
    requires DrawsOnBoard(draws1) && DrawsOnBoard(draws2) && MealDraws(s, draws1, draws2)
    requires Consistent(s)
    ensures Consistent(Advance(s, draws1, draws2))
  {
    TurnPreservesNoDup(s.snake1, s.direction1, if s.mode == TwoPlayer then s.snake2 else [], s.food);
    if s.mode == TwoPlayer {
      TurnPreservesNoDup(s.snake2, s.direction2, s.snake1, FoodForTurn2(s, draws1));
    }
  }

  /** A tick keeps the invariant. */
  lemma TickPreservesConsistent(s: Snapshot, draws1: seq<Pos>, draws2: seq<Pos>, resetDraws: seq<Pos>)
    requires TickDraws(s, draws1, draws2, resetDraws)
    requires Consistent(s)
    ensures Consistent(Tick(s, draws1, draws2, resetDraws).state)
  {
    if s.isRunning {
      if Turn1(s).crashed || Turn2(s, draws1).crashed {
        ResetConsistent(s.(isRunning := false), resetDraws);
      } else {
        AdvancePreservesConsistent(s, draws1, draws2);
      }
    }
  }

  /** A direction change keeps the invariant. */
  lemma SteerPreservesConsistent(s: Snapshot, id: SnakeId, requested: Direction)
    requires Consistent(s)
    ensures Consistent(Steer(s, id, requested))
  {
  }

  /** Choosing a game mode: when it differs, the round stops and restarts in
      the new mode. */
  function SwitchMode(s: Snapshot, mode: Mode, draws: seq<Pos>): (r: ResetResult)
    requires ResetDraws(mode, draws)
    ensures s.mode == mode ==> r == ResetResult(s, false)
    ensures s.mode != mode ==> r.state.mode == mode && !r.state.isRunning && Consistent(r.state)
    ensures s.mode != mode ==> r.state.lastScore == s.score1 + s.score2
    ensures s.mode != mode ==>
      r.state.highScore == (if s.score1 + s.score2 > s.highScore then s.score1 + s.score2 else s.highScore) &&
      (r.saved <==> s.score1 + s.score2 > s.highScore)
    ensures s.mode != mode ==>
      r.state.snake1 == StartCells(mode) && r.state.direction1 == East &&
      r.state.snake2 == (if mode == TwoPlayer then [START2] else []) && r.state.direction2 == West &&
      r.state.score1 == 0 && r.state.score2 == 0 &&
      r.state.food.Some? && r.state.food.value !in r.state.snake1 + r.state.snake2
  {
    if s.mode == mode then ResetResult(s, false)
    else Reset(s.(isRunning := false, mode := mode), draws)
  }
}
