/** The game-state engine of Lights Out: a rectangular grid of lights, its
    random initialisation, the win test, and the move that toggles a light
    together with its four orthogonal neighbours.

    The board is a value (`seq<seq<bool>>`); every operation returns a new
    board, so the copy-on-write discipline of the component is built in. */
module Board {

  /** One sequence of lights per row; `true` is a lit cell. */
  type Grid = seq<seq<bool>>

  /** The component's properties: board height, board width, and the chance
      that a light starts on. They are plain numbers in the component, so a
      non-positive size is representable; it yields no rows (height) or empty
      rows (width). */
  datatype Config = Config(nrows: int, ncols: int, chanceLightStartsOn: real)

  /** A (row, column) position as decoded from a click; it may lie off the board. */
  datatype Coord = Coord(y: int, x: int)

  /** A board dimension as the creation loops see it: a bound `<= 0` runs no iteration. */
  function Extent(n: int): nat
  {
    if n < 0 then 0 else n
  }

  function Abs(n: int): nat
  {
    if n < 0 then -n else n
  }

  /** `g` has exactly `rows` rows, each exactly `cols` cells wide. */
  predicate HasShape(g: Grid, rows: nat, cols: nat)
  {
    |g| == rows && forall i :: 0 <= i < |g| ==> |g[i]| == cols
  }

  /** The board kept by a component with properties `cfg`. */
  predicate Fits(cfg: Config, g: Grid)
  {
    HasShape(g, Extent(cfg.nrows), Extent(cfg.ncols))
  }

  /** The bounds test `flipCell` applies before touching a cell. */
  predicate OnBoard(cfg: Config, y: int, x: int)
  {
    0 <= x < cfg.ncols && 0 <= y < cfg.nrows
  }

  /** `(i, j)` is the clicked cell or one of the cells directly above,
      below, left or right of it. */
  predicate Adjacent(c: Coord, i: int, j: int)
  {
    Abs(i - c.y) + Abs(j - c.x) <= 1
  }

  // ---------------------------------------------------------------------
  // Creation
  // ---------------------------------------------------------------------

  /** One Bernoulli trial: `draw` is the value the random source returned. */
  function MakeChoiceTrueFalse(chanceTrue: real, draw: real): bool
  {
    draw < chanceTrue
  }

  /** Position, in the order the creation loops call the random source, of
      the draw that decides cell `(i, j)` of a board `cols` wide. */
  function DrawIndex(i: nat, j: nat, cols: nat): nat
  {
    i * cols + j
  }

  /** `g` is the board the creation loops build from the random stream
      `draw` (its k-th value is the k-th result of the random source). */
  predicate DrawnFrom(cfg: Config, draw: nat -> real, g: Grid)
  {
    && Fits(cfg, g)
    && forall i, j :: 0 <= i < |g| && 0 <= j < |g[i]| ==>
         g[i][j] == MakeChoiceTrueFalse(cfg.chanceLightStartsOn, draw(DrawIndex(i, j, Extent(cfg.ncols))))
  }

  /** Builds `nrows` rows of `ncols` cells, row by row, consuming one random
      draw per cell. */
  method CreateBoard(cfg: Config, draw: nat -> real) returns (g: Grid)
    ensures DrawnFrom(cfg, draw, g)
  {
    var cols := Extent(cfg.ncols);
    g := [];
    var k: nat := 0;  // draws consumed so far
    var i := 0;
    while i < cfg.nrows
      invariant 0 <= i <= Extent(cfg.nrows)
      invariant |g| == i
      invariant k == i * cols
      invariant forall r :: 0 <= r < i ==> |g[r]| == cols
      invariant forall r, c :: 0 <= r < i && 0 <= c < cols ==>
                  g[r][c] == MakeChoiceTrueFalse(cfg.chanceLightStartsOn, draw(DrawIndex(r, c, cols)))
    {
      var row := [];
      var j := 0;
      while j < cfg.ncols
        invariant 0 <= j <= cols
        invariant |row| == j
        invariant k == i * cols + j
        invariant forall c :: 0 <= c < j ==>
                    row[c] == MakeChoiceTrueFalse(cfg.chanceLightStartsOn, draw(DrawIndex(i, c, cols)))
      {
        row := row + [MakeChoiceTrueFalse(cfg.chanceLightStartsOn, draw(k))];
        k := k + 1;
        j := j + 1;
      }
      assert (i + 1) * cols == i * cols + cols;
      g := g + [row];
      i := i + 1;
    }
  }

  /** With a chance of 0 (or less) and draws that are never negative, the
      game starts already won. */
  lemma ChanceZeroStartsAllOff(cfg: Config, draw: nat -> real, g: Grid)
    requires cfg.chanceLightStartsOn <= 0.0
    requires forall k :: 0.0 <= draw(k)
    requires DrawnFrom(cfg, draw, g)
    ensures forall i, j :: 0 <= i < |g| && 0 <= j < |g[i]| ==> !g[i][j]
    ensures HasWon(g)
  {
  }

  /** With a chance of 1 (or more) and draws below 1, every light starts on. */
  lemma ChanceOneStartsAllLit(cfg: Config, draw: nat -> real, g: Grid)
    requires 1.0 <= cfg.chanceLightStartsOn
    requires forall k :: draw(k) < 1.0
    requires DrawnFrom(cfg, draw, g)
    ensures forall i, j :: 0 <= i < |g| && 0 <= j < |g[i]| ==> g[i][j]
  {
  }

  // ---------------------------------------------------------------------
  // Win test
  // ---------------------------------------------------------------------

  /** Every light of one row is off. */
  function RowAllOff(row: seq<bool>): (r: bool)
    ensures r <==> forall j :: 0 <= j < |row| ==> !row[j]
  {
    |row| == 0 || (row[0] == false && RowAllOff(row[1..]))
  }

  /** The player has won when no light on the board is lit. */
  function HasWon(g: Grid): (r: bool)
    ensures r <==> forall i, j :: 0 <= i < |g| && 0 <= j < |g[i]| ==> !g[i][j]
  {
    |g| == 0 || (RowAllOff(g[0]) && HasWon(g[1..]))
  }

  /** A board of the given size with every light off. */
  function AllOffBoard(rows: nat, cols: nat): (g: Grid)
    ensures HasShape(g, rows, cols)
  {
    seq(rows, _ => seq(cols, _ => false))
  }

  lemma AllOffBoardWins(rows: nat, cols: nat)
    ensures HasWon(AllOffBoard(rows, cols))
  {
  }

  lemma OneLitCellLoses(g: Grid, i: nat, j: nat)
    requires i < |g| && j < |g[i]| && g[i][j]
    ensures !HasWon(g)
  {
  }

  // ---------------------------------------------------------------------
  // Moves
  // ---------------------------------------------------------------------

  /** Inverts the light at `(y, x)` when that position is on the board;
      any other position leaves the board as it was. */
  function FlipCell(cfg: Config, g: Grid, y: int, x: int): (r: Grid)
    requires Fits(cfg, g)
    ensures Fits(cfg, r)
    ensures forall i, j :: 0 <= i < |g| && 0 <= j < |g[i]| ==>
              r[i][j] == (g[i][j] != (i == y && j == x))
    ensures !OnBoard(cfg, y, x) ==> r == g
  {
    if OnBoard(cfg, y, x) then
      g[y := g[y][x := !g[y][x]]]
    else
      g
  }

  /** The row-by-row, cell-by-cell copy taken before a move. */
  function CopyBoard(g: Grid): (r: Grid)
    ensures |r| == |g|
    ensures forall i :: 0 <= i < |r| ==> |r[i]| == |g[i]|
    ensures forall i, j :: 0 <= i < |r| && 0 <= j < |r[i]| ==> r[i][j] == g[i][j]
  {
    seq(|g|, i requires 0 <= i < |g| => seq(|g[i]|, j requires 0 <= j < |g[i]| => g[i][j]))
  }

  /** Two boards of one shape that agree on every cell are the same board. */
  lemma CellwiseEqual(a: Grid, b: Grid)
    requires |a| == |b|
    requires forall i :: 0 <= i < |a| ==> |a[i]| == |b[i]|
    requires forall i, j :: 0 <= i < |a| && 0 <= j < |a[i]| ==> a[i][j] == b[i][j]
    ensures a == b
  {
    forall i | 0 <= i < |a|
      ensures a[i] == b[i]
    {
      assert forall j :: 0 <= j < |a[i]| ==> a[i][j] == b[i][j];
    }
  }

  /** The copy is the board it was taken from. */
  lemma CopyBoardIsIdentity(g: Grid)
    ensures CopyBoard(g) == g
  {
    CellwiseEqual(CopyBoard(g), g);
  }

  /** The move as written: the copy is taken and returned, and the flipping
      step, still marked TODO, never runs. */
  function FlipCellsAroundAsWritten(cfg: Config, g: Grid, c: Coord): (r: Grid)
    ensures r == g
  {
    CopyBoardIsIdentity(g);
    CopyBoard(g)
  }

  /** The move as the component describes it: the clicked light and the
      lights above, below, left and right of it are inverted, skipping any
      of those positions that is off the board. The five `FlipCell` calls
      fill in the step the component leaves as TODO, using its own helper. */
  function FlipCellsAround(cfg: Config, g: Grid, c: Coord): (r: Grid)
    requires Fits(cfg, g)
    ensures Fits(cfg, r)
    ensures forall i, j :: 0 <= i < |g| && 0 <= j < |g[i]| ==>
              r[i][j] == (g[i][j] != Adjacent(c, i, j))
  {
    var copy := CopyBoard(g);
    var g1 := FlipCell(cfg, copy, c.y, c.x);
    var g2 := FlipCell(cfg, g1, c.y - 1, c.x);
    var g3 := FlipCell(cfg, g2, c.y + 1, c.x);
    var g4 := FlipCell(cfg, g3, c.y, c.x - 1);
    FlipCell(cfg, g4, c.y, c.x + 1)
  }

  /** Making the same move twice restores the board: every affected light is
      inverted exactly twice. */
  lemma FlipCellsAroundTwice(cfg: Config, g: Grid, c: Coord)
    requires Fits(cfg, g)
    ensures FlipCellsAround(cfg, FlipCellsAround(cfg, g, c), c) == g
  {
    var once := FlipCellsAround(cfg, g, c);
    var twice := FlipCellsAround(cfg, once, c);
    CellwiseEqual(twice, g);
  }

  /** The clicked cell and its four orthogonal neighbours. */
  function Candidates(c: Coord): set<Coord>
  {
    {c, Coord(c.y - 1, c.x), Coord(c.y + 1, c.x), Coord(c.y, c.x - 1), Coord(c.y, c.x + 1)}
  }

  /** The on-board positions among the clicked cell and its four neighbours. */
  function Neighbourhood(cfg: Config, c: Coord): set<Coord>
  {
    set p | p in Candidates(c) && OnBoard(cfg, p.y, p.x)
  }

  /** The distance form of `Adjacent` names the same five positions. */
  lemma AdjacentIsCandidate(c: Coord, i: int, j: int)
    ensures Adjacent(c, i, j) <==> Coord(i, j) in Candidates(c)
  {
  }

  /** The positions at which two boards of one shape differ. */
  function ChangedCells(a: Grid, b: Grid): set<Coord>
    requires |a| == |b|
    requires forall i :: 0 <= i < |a| ==> |a[i]| == |b[i]|
  {
    set i, j | 0 <= i < |a| && 0 <= j < |a[i]| && a[i][j] != b[i][j] :: Coord(i, j)
  }

  /** A move changes exactly the on-board part of the clicked cell's
      neighbourhood, and nothing else. */
  lemma FlipCellsAroundLocality(cfg: Config, g: Grid, c: Coord)
    requires Fits(cfg, g)
    ensures ChangedCells(g, FlipCellsAround(cfg, g, c)) == Neighbourhood(cfg, c)
  {
    var r := FlipCellsAround(cfg, g, c);
    var changed := ChangedCells(g, r);
    var hood := Neighbourhood(cfg, c);
    forall p | p in changed
      ensures p in hood
    {
      var i, j :| 0 <= i < |g| && 0 <= j < |g[i]| && g[i][j] != r[i][j] && p == Coord(i, j);
      AdjacentIsCandidate(c, i, j);
    }
    forall p | p in hood
      ensures p in changed
    {
      AdjacentIsCandidate(c, p.y, p.x);
      assert g[p.y][p.x] != r[p.y][p.x];
    }
  }
}
