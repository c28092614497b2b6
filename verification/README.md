# Lights Out game engine, in Dafny

A model of the game-state engine of the Lights Out board component
(`src/Board.js`): a rectangular grid of lights, `nrows` rows of `ncols`
booleans, filled at the start by one Bernoulli draw per cell; a win test
that holds when every light is off; a bounds-checked single-cell flip; and
the move that copies the board and inverts the clicked light together with
the lights above, below, left and right of it. The string key a rendered
cell hands to the move (`"<row>-<column>"`, read back with
`split("-").map(Number)`) is modelled too, with its round trip.

Layout:

- `board.dfy`, module `Board`: the board (`Grid = seq<seq<bool>>`), the
  component's properties (`Config`), board creation, the win test, the
  single-cell flip, the copy and the move, with the lemmas for shape,
  locality and involution.
- `coordinates.dfy`, module `Coordinates`: decimal text of a row or column,
  `split`, `Number` on digit strings, the key's encoding and decoding, and
  the full click handler from key to new board.
- `scenarios.dfy`, module `Scenarios`: concrete 3 × 3 games.

The board is an immutable value, so each operation returns a new board and
the board passed in is never changed: the copy-on-write discipline the
component keeps by copying before it writes holds by construction, and
`CopyBoardIsIdentity` states that the copy is cell for cell the old board.

The random source is a parameter: `draw: nat -> real` is the stream of
values the random source returns, the k-th value being the k-th call. The
creation loops consume it row by row, so cell `(i, j)` of a board `ncols`
wide is decided by draw number `i * ncols + j`.

The component leaves the flipping step of the move as a TODO and returns
the unchanged copy. The model keeps that behaviour as
`FlipCellsAroundAsWritten` and defines `FlipCellsAround` as the doc comment
of the move describes it, with five calls to the component's own
`flipCell` helper; see "## Findings".

## Model

| member | source | states |
|---|---|---|
| Board.CreateBoard | src/Board.js:41-54 | the board has exactly `nrows` rows of exactly `ncols` cells (none for a non-positive size), and cell `(i, j)` is lit iff the draw made for it, the `(i * ncols + j)`-th call of the random source, is strictly below `chanceLightStartsOn` |
| Board.MakeChoiceTrueFalse | src/Board.js:36-38 | one Bernoulli trial; its meaning is fixed by `CreateBoard`'s contract, under which a cell is lit iff its draw is strictly below the chance |
| Board.ChanceZeroStartsAllOff | src/Board.js:36-47 | with a chance of 0 or less and draws that are never negative, every created cell is off and the game starts won |
| Board.ChanceOneStartsAllLit | src/Board.js:36-47 | with a chance of 1 or more and draws below 1, every created cell is lit |
| Board.RowAllOff | src/Board.js:61-63 | the scan of one row holds iff no cell of the row is lit |
| Board.HasWon | src/Board.js:56-65 | the win test holds iff no cell of the board is lit |
| Board.AllOffBoardWins | src/Board.js:56-65 | a board of any size with every light off is won |
| Board.OneLitCellLoses | src/Board.js:56-65 | a board with any lit cell is not won |
| Board.FlipCell | src/Board.js:80-86 | the board keeps its shape; when `(y, x)` is on the board exactly that cell is inverted, and otherwise the board is unchanged |
| Board.CopyBoard | src/Board.js:88-91 | the copy has the old board's number of rows, each row its old length, and every cell its old value |
| Board.CopyBoardIsIdentity | src/Board.js:88-91 | the copy equals the board it was taken from |
| Board.FlipCellsAroundAsWritten | src/Board.js:88-96 | the move as written returns the old board unchanged, so a click never changes whether the game is won |
| Board.FlipCellsAround | src/Board.js:67-86 | the board keeps its shape, and a cell is inverted iff it is the clicked cell or directly above, below, left or right of it; every other cell keeps its value |
| Board.FlipCellsAroundTwice | src/Board.js:67-84 | making the same move twice restores the board |
| Board.FlipCellsAroundLocality | src/Board.js:67-86 | the set of cells a move changes is exactly the on-board part of the clicked cell and its four neighbours |
| Coordinates.NatToString | src/Board.js:117 | the text of a row or column index is a non-empty string of decimal digits with no leading zero |
| Coordinates.Split | src/Board.js:78 | `split` gives at least one piece and no piece contains the separator |
| Coordinates.JoinSplit | src/Board.js:78 | joining the pieces of a split with the separator gives back the string |
| Coordinates.DigitsValueOfNatToString | src/Board.js:117 | reading back the decimal text of an index gives the index |
| Coordinates.Encode | src/Board.js:117 | the key of a rendered cell; its meaning is fixed by `DecodeEncode`, under which every key reads back as its own row and column |
| Coordinates.ParseNumber | src/Board.js:78 | `Number` on one piece of the key, for plain digit strings only (see the `Coordinates.ParseNumber` line under "## Left out"); `DigitsValueOfNatToString` fixes its value on every piece a key contains |
| Coordinates.Decode | src/Board.js:78 | splitting a key at the dashes and converting the first two pieces; its meaning is fixed by `DecodeEncode`, under which it inverts `Encode` |
| Coordinates.DecodeEncode | src/Board.js:78 | the key built for the cell at row `nrow`, column `ncol` (line 117) splits and converts back to exactly `(nrow, ncol)` |
| Coordinates.FlipCellsAroundKey | src/Board.js:76-97 | the click handler, with the move completed as `FlipCellsAround` (see "## Findings"), keeps the board's shape; a key that decodes makes that move at the decoded cell, and one that does not leaves the board unchanged |
| Coordinates.ClickRenderedCell | src/Board.js:116-120 | clicking the cell rendered at `(nrow, ncol)`, with the move completed as `FlipCellsAround` (see "## Findings"), makes that move at exactly that cell |
| Scenarios.CentreMoveOnDarkBoard | src/Board.js:67-74 | on a dark 3 × 3 board the centre move lights exactly the plus sign, which is not won, and repeating it restores the dark board, which is won |
| Scenarios.CornerMoveOnDarkBoard | src/Board.js:82-84 | on a dark 3 × 3 board the corner move lights exactly three cells; the corner has three on-board candidates and the centre five |
| Scenarios.AsWrittenCentreClickDoesNothing | src/Board.js:93-96 | as written, the centre click on a dark 3 × 3 board leaves it dark and won, which differs from the described move |

## Findings

| source | as written | input that shows it | evidently intended | confidence | as-written member | corrected member |
|---|---|---|---|---|---|---|
| src/Board.js:93 | the move copies the board and returns the copy; the flipping step is a TODO and `flipCell` is never called | a click on the centre of a dark 3 × 3 board leaves it dark and won | invert the clicked cell and its on-board up, down, left and right neighbours, as the doc comment at lines 67-74 says | high; not executed | Board.FlipCellsAroundAsWritten (shown by Scenarios.AsWrittenCentreClickDoesNothing) | Board.FlipCellsAround (proved by Board.FlipCellsAroundLocality and Board.FlipCellsAroundTwice) |

## Left out

- React state and rendering: `useState`/`setBoard`, the table of `Cell`
  components, the "You won!" view, the stylesheets and `App.js`, which only
  mounts the board as 6 × 6 with chance 0.5. They hold no game logic.
  The two observable states, playing and won, are `HasWon` of the current
  board, recomputed on each render as in the component.
- The random source itself: it is nondeterministic and foreign, so its
  results are the parameter `draw`. Floating-point numbers are `real`;
  the model only compares them with `<`, as the component does.
- Default property values (5 × 5, 0.5): every `Config` is explicit.
  Non-integer sizes are not modelled; sizes are integers.
- Coordinates.ParseNumber: reads only plain digit strings, and the empty
  string as 0. The other strings `Number` accepts, such as whitespace,
  signs, exponents and hexadecimal, are read as `None`, as if they gave NaN.
  The renderer never emits them.
- Board.FlipCell: requires the board to have the shape the properties give
  it (`Fits`), which creation establishes and every move keeps. The JavaScript
  behaviour on a board of another shape is not modelled. That behaviour is
  writing past the end of a short row, or failing on a missing row.
- Board.FlipCellsAround: requires `Fits` for the same reason as `FlipCell`.
- Coordinates.FlipCellsAroundKey: requires `Fits` for the same reason as `FlipCell`.
- Determinism of the move needs no lemma: every operation but creation is a
  function of its arguments.
