/** The string form of a cell position that travels from a rendered cell to
    the move: the renderer writes `"<row>-<column>"` in decimal, and the move
    splits the string at `-` and converts each piece with `Number`. */
module Coordinates {
  import opened Board

  datatype Option<T> = None | Some(value: T)

  const Dash: char := '-'

  predicate IsDigit(ch: char)
  {
    '0' <= ch <= '9'
  }

  predicate IsDigits(s: string)
  {
    forall i :: 0 <= i < |s| ==> IsDigit(s[i])
  }

  function DigitChar(d: nat): (ch: char)
    requires d < 10
    ensures IsDigit(ch)
  {
    (('0' as int) + d) as char
  }

  // ---------------------------------------------------------------------
  // Writing a position
  // ---------------------------------------------------------------------

  /** The decimal text of a non-negative integer, as a template literal
      writes it: no sign, no leading zeros. */
  function NatToString(n: nat): (s: string)
    ensures |s| >= 1 && IsDigits(s)
    ensures s[0] == '0' ==> n == 0 && |s| == 1
  {
    if n < 10 then [DigitChar(n)] else NatToString(n / 10) + [DigitChar(n % 10)]
  }

  /** The key the renderer builds for the cell in row `nrow`, column `ncol`. */
  function Encode(nrow: nat, ncol: nat): string
  {
    NatToString(nrow) + [Dash] + NatToString(ncol)
  }

  // ---------------------------------------------------------------------
  // Reading a position
  // ---------------------------------------------------------------------

  /** The value of a string of decimal digits, most significant first; the
      empty string reads as 0, as `Number("")` does. */
  function DigitsValue(s: string): nat
    requires IsDigits(s)
  {
    if |s| == 0 then 0 else DigitsValue(s[..|s| - 1]) * 10 + (s[|s| - 1] as int - '0' as int)
  }

  /** `Number(s)` on a plain digit string; `None` stands for every other
      piece (NaN for the pieces that can reach it here). */
  function ParseNumber(s: string): Option<nat>
  {
    if IsDigits(s) then Some(DigitsValue(s)) else None
  }

  /** `s.split(sep)`: the pieces between occurrences of `sep`, in order,
      with an empty piece before a leading, after a trailing and between
      two adjacent separators; always at least one piece. */
  function Split(s: string, sep: char): (parts: seq<string>)
    ensures |parts| >= 1
    ensures forall k :: 0 <= k < |parts| ==> sep !in parts[k]
  {
    if |s| == 0 then [""]
    else
      var rest := Split(s[1..], sep);
      if s[0] == sep then [""] + rest else [[s[0]] + rest[0]] + rest[1..]
  }

  /** `parts.join(sep)`, the inverse of `Split`. */
  function Join(parts: seq<string>, sep: char): string
    requires |parts| >= 1
  {
    if |parts| == 1 then parts[0] else parts[0] + [sep] + Join(parts[1..], sep)
  }

  /** Reads a key back into a position: the key is cut at every dash, the
      first piece is the row and the second the column, and any further
      pieces are ignored. A key with no dash, or a first or second piece
      that is not a number, gives `None`. */
  function Decode(coord: string): Option<Coord>
  {
    var parts := Split(coord, Dash);
    if |parts| < 2 then None
    else
      match (ParseNumber(parts[0]), ParseNumber(parts[1]))
      case (Some(y), Some(x)) => Some(Coord(y, x))
      case _ => None
  }

  /** The whole click handler, with the move completed as `FlipCellsAround`
      (the component itself stops at a TODO): decode the key, then make
      the move. A key that does not decode gives a row or column that fails
      every bounds test, so only the copy comes back. */
  function FlipCellsAroundKey(cfg: Config, g: Grid, coord: string): (r: Grid)
    requires Fits(cfg, g)
    ensures Fits(cfg, r)
    ensures Decode(coord).None? ==> r == g
    ensures Decode(coord).Some? ==>
              forall i, j :: 0 <= i < |g| && 0 <= j < |g[i]| ==>
                r[i][j] == (g[i][j] != Adjacent(Decode(coord).value, i, j))
  {
    match Decode(coord)
    case Some(c) => FlipCellsAround(cfg, g, c)
    case None => CopyBoardIsIdentity(g); CopyBoard(g)
  }

  // ---------------------------------------------------------------------
  // Round trips
  // ---------------------------------------------------------------------

  /** Reading back the decimal text of `n` gives `n`. */
  lemma {:induction false} DigitsValueOfNatToString(n: nat)
    ensures DigitsValue(NatToString(n)) == n
  {
    var s := NatToString(n);
    if n >= 10 {
      DigitsValueOfNatToString(n / 10);
      assert s[..|s| - 1] == NatToString(n / 10);
    }
  }

  /** A piece without separators splits into itself. */
  lemma {:induction false} SplitWithoutSeparator(s: string, sep: char)
    requires sep !in s
    ensures Split(s, sep) == [s]
  {
    if |s| > 0 {
      SplitWithoutSeparator(s[1..], sep);
      assert [s[0]] + s[1..] == s;
    }
  }

  /** Splitting at the first separator peels off the piece before it. */
  lemma {:induction false} SplitAtFirstSeparator(a: string, sep: char, b: string)
    requires sep !in a
    ensures Split(a + [sep] + b, sep) == [a] + Split(b, sep)
  {
    var s := a + [sep] + b;
    if |a| == 0 {
      assert s[1..] == b;
    } else {
      assert s[1..] == a[1..] + [sep] + b;
      SplitAtFirstSeparator(a[1..], sep, b);
      assert [a[0]] + a[1..] == a;
    }
  }

  /** Joining the pieces of a split with the same separator restores the string. */
  lemma {:induction false} JoinSplit(s: string, sep: char)
    ensures Join(Split(s, sep), sep) == s
  {
    if |s| > 0 {
      JoinSplit(s[1..], sep);
      var rest := Split(s[1..], sep);
      if s[0] != sep {
        if |rest| == 1 {
          assert Join(rest, sep) == rest[0];
        } else {
          assert Join(rest, sep) == rest[0] + [sep] + Join(rest[1..], sep);
          assert ([[s[0]] + rest[0]] + rest[1..])[1..] == rest[1..];
        }
      } else {
        assert ([""] + rest)[1..] == rest;
      }
    }
  }

  /** The key of every rendered cell decodes to that cell's row and column. */
  lemma DecodeEncode(nrow: nat, ncol: nat)
    ensures Decode(Encode(nrow, ncol)) == Some(Coord(nrow, ncol))
  {
    var a, b := NatToString(nrow), NatToString(ncol);
    assert Dash !in a by {
      forall k | 0 <= k < |a| ensures a[k] != Dash { assert IsDigit(a[k]); }
    }
    assert Dash !in b by {
      forall k | 0 <= k < |b| ensures b[k] != Dash { assert IsDigit(b[k]); }
    }
    SplitAtFirstSeparator(a, Dash, b);
    SplitWithoutSeparator(b, Dash);
    DigitsValueOfNatToString(nrow);
    DigitsValueOfNatToString(ncol);
  }

  /** Clicking the cell rendered at `(nrow, ncol)` makes the completed move,
      `FlipCellsAround`, at that cell. */
  lemma ClickRenderedCell(cfg: Config, g: Grid, nrow: nat, ncol: nat)
    requires Fits(cfg, g)
    ensures FlipCellsAroundKey(cfg, g, Encode(nrow, ncol)) == FlipCellsAround(cfg, g, Coord(nrow, ncol))
  {
    DecodeEncode(nrow, ncol);
  }
}
