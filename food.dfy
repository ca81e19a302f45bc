/** Food placement by rejection sampling. The random number generator is a
    stream of drawn cells, one `(randint, randint)` pair per retry. */
module Food {
  import opened Board

  /** Every drawn cell is on the board, as `randint(0, BOARD_SIZE - 1)` gives. */
  predicate DrawsOnBoard(draws: seq<Pos>) {
    forall i :: 0 <= i < |draws| ==> OnBoard(draws[i])
  }

  /** The stream eventually yields a cell outside `occupied`, so the retry loop ends. */
  predicate SomeDrawFree(draws: seq<Pos>, occupied: seq<Pos>) {
    exists i :: 0 <= i < |draws| && draws[i] !in occupied
  }

  /** The cell the retry loop accepts: the first draw outside `occupied`. */
  function FirstFree(draws: seq<Pos>, occupied: seq<Pos>): (cell: Pos)
    requires SomeDrawFree(draws, occupied)
    ensures cell in draws && cell !in occupied
    ensures DrawsOnBoard(draws) ==> OnBoard(cell)
    decreases |draws|
  {
    if draws[0] !in occupied then draws[0]
    else
      var i :| 0 <= i < |draws| && draws[i] !in occupied;
      assert draws[1..][i - 1] == draws[i];
      FirstFree(draws[1..], occupied)
  }

  /** FirstFree returns the draw at the first index whose cell is free. */
  lemma {:induction false} FirstFreeIsFirst(draws: seq<Pos>, occupied: seq<Pos>, k: int)
    requires 0 <= k < |draws| && draws[k] !in occupied
    requires forall j :: 0 <= j < k ==> draws[j] in occupied
    ensures FirstFree(draws, occupied) == draws[k]
  {
    if k > 0 {
      assert draws[1..][k - 1] == draws[k];
      FirstFreeIsFirst(draws[1..], occupied, k - 1);
    }
  }

  /** Only the cells in `occupied` matter, not their order or repetition. */
  lemma {:induction false} FirstFreeSameCells(draws: seq<Pos>, a: seq<Pos>, b: seq<Pos>)
    requires SomeDrawFree(draws, a)
    requires forall p :: p in a <==> p in b
    ensures SomeDrawFree(draws, b)
    ensures FirstFree(draws, a) == FirstFree(draws, b)
  {
    var i :| 0 <= i < |draws| && draws[i] !in a;
    assert draws[i] !in b;
    if draws[0] in a {
      assert draws[1..][i - 1] == draws[i];
      FirstFreeSameCells(draws[1..], a, b);
    }
  }

  /** The `while True` retry loop of food placement. */
  method SampleFreeCell(draws: seq<Pos>, occupied: seq<Pos>) returns (cell: Pos)
    requires SomeDrawFree(draws, occupied)
    ensures cell == FirstFree(draws, occupied)
  {
    var i := 0;
    while draws[i] in occupied
      invariant 0 <= i < |draws|
      invariant SomeDrawFree(draws[i..], occupied)
      invariant FirstFree(draws[i..], occupied) == FirstFree(draws, occupied)
      decreases |draws| - i
    {
      assert draws[i..][1..] == draws[i + 1..];
      i := i + 1;
    }
    cell := draws[i];
  }
}
