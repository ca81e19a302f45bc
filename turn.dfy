/** One snake's move in a tick: the crash test, the new body and whether it ate.
    Regenerating the food after a meal changes the game's state and is done by
    the caller (`Game.GameState.ProcessSnakeTurn`). */
module SnakeTurn {
  import opened Board

  /** The four values a turn hands back to the game loop. */
  datatype TurnResult = TurnResult(nextHead: Pos, body: seq<Pos>, crashed: bool, ateFood: bool)

  /** The turn of `snake` (head first) heading `direction`, checked against
      the cells of `opponent`, with `food` the current food cell if any. */
  function ProcessTurn(snake: seq<Pos>, direction: Direction, opponent: seq<Pos>, food: Option<Pos>): (r: TurnResult)
    ensures snake == [] ==> r == TurnResult(Pos(0, 0), [], false, false)
    ensures snake != [] ==> r.nextHead == NextHead(snake[0], direction)
    ensures snake != [] ==> (r.crashed <==> r.nextHead in snake[1..] || r.nextHead in opponent)
    ensures r.crashed ==> r.body == snake && !r.ateFood
    ensures snake != [] && !r.crashed ==> (r.ateFood <==> food == Some(r.nextHead))
    ensures snake != [] && !r.crashed ==>
      |r.body| == |snake| + (if r.ateFood then 1 else 0) &&
      r.body[0] == r.nextHead && r.body[1..] == snake[..|r.body| - 1]
    ensures AllOnBoard(snake) ==> AllOnBoard(r.body)
  {
    if snake == [] then
      TurnResult(Pos(0, 0), [], false, false)
    else
      var next := NextHead(snake[0], direction);
      if next in snake[1..] || next in opponent then
        TurnResult(next, snake, true, false)
      else if food == Some(next) then
        TurnResult(next, [next] + snake, false, true)
      else
        TurnResult(next, ([next] + snake)[..|snake|], false, false)
  }

  /** A head that did not crash lands outside the whole old body: the
      self-test skips only the old head, which the head always leaves. */
  lemma SurvivorLeavesBody(snake: seq<Pos>, direction: Direction, opponent: seq<Pos>, food: Option<Pos>)
    requires snake != []
    requires !ProcessTurn(snake, direction, opponent, food).crashed
    ensures ProcessTurn(snake, direction, opponent, food).nextHead !in snake
    ensures ProcessTurn(snake, direction, opponent, food).nextHead !in opponent
  {
  }

  /** A snake without repeated cells keeps that property through its turn. */
  lemma TurnPreservesNoDup(snake: seq<Pos>, direction: Direction, opponent: seq<Pos>, food: Option<Pos>)
    requires NoDup(snake)
    ensures NoDup(ProcessTurn(snake, direction, opponent, food).body)
  {
  }

  /** Checking a turn against `opponent + snake` (the opponent list with the
      snake's own cells appended) gives the same result as checking it
      against `opponent` alone. */
  lemma PollutedOpponentHarmless(snake: seq<Pos>, direction: Direction, opponent: seq<Pos>, food: Option<Pos>)
    ensures ProcessTurn(snake, direction, opponent + snake, food) == ProcessTurn(snake, direction, opponent, food)
  {
  }

}
