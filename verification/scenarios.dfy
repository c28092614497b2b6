/** Concrete games on a 3 × 3 board: the centre and corner moves, the
    two-state view (playing / won) and the move as written against the move
    as described. */
module Scenarios {
  import opened Board

  const Small: Config := Config(3, 3, 0.5)

  const Dark: Grid := [[false, false, false], [false, false, false], [false, false, false]]

  /** The centre move lights a plus sign. */
  const Plus: Grid := [[false, true, false], [true, true, true], [false, true, false]]

  /** The corner move lights three cells. */
  const Corner: Grid := [[true, true, false], [true, false, false], [false, false, false]]

  /** From a dark board, the centre move lights exactly the plus sign, so the
      game is no longer won; making it again restores the dark, won board. */
  lemma CentreMoveOnDarkBoard()
    ensures FlipCellsAround(Small, Dark, Coord(1, 1)) == Plus
    ensures !HasWon(Plus)
    ensures FlipCellsAround(Small, Plus, Coord(1, 1)) == Dark
    ensures HasWon(Dark)
  {
    var once := FlipCellsAround(Small, Dark, Coord(1, 1));
    CellwiseEqual(once, Plus);
    FlipCellsAroundTwice(Small, Dark, Coord(1, 1));
    assert Plus[1][1];
  }

  /** From a dark board, the corner move lights the corner and its two
      on-board neighbours only. */
  lemma CornerMoveOnDarkBoard()
    ensures FlipCellsAround(Small, Dark, Coord(0, 0)) == Corner
    ensures |Neighbourhood(Small, Coord(0, 0))| == 3
    ensures |Neighbourhood(Small, Coord(1, 1))| == 5
  {
    var once := FlipCellsAround(Small, Dark, Coord(0, 0));
    CellwiseEqual(once, Corner);
    assert Neighbourhood(Small, Coord(0, 0)) == {Coord(0, 0), Coord(1, 0), Coord(0, 1)};
    assert Neighbourhood(Small, Coord(1, 1))
        == {Coord(1, 1), Coord(0, 1), Coord(2, 1), Coord(1, 0), Coord(1, 2)};
  }

  /** As written, the centre click on a dark board leaves it dark and won,
      where the described move lights five cells. */
  lemma AsWrittenCentreClickDoesNothing()
    ensures FlipCellsAroundAsWritten(Small, Dark, Coord(1, 1)) == Dark
    ensures HasWon(FlipCellsAroundAsWritten(Small, Dark, Coord(1, 1)))
    ensures FlipCellsAroundAsWritten(Small, Dark, Coord(1, 1)) != FlipCellsAround(Small, Dark, Coord(1, 1))
  {
    CentreMoveOnDarkBoard();
    assert Dark[1][1] != Plus[1][1];
  }
}
