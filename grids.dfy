/** Three-by-three colour grids and the numpy operations the cube applies to them:
    quarter and half turns (np.rot90), row and column reads and writes, and
    reversal of a line (np.flip). Grids are values: a write produces a new grid. */
module Grids {

  /** The colour of one facelet (the cube uses the keys 1..6). */
  type Colour = int

  /** A row or a column of a grid. */
  type Line = seq<Colour>

  /** Row-major grid: g[i][j] is row i (top to bottom), column j (left to right). */
  type Grid = seq<seq<Colour>>

  predicate IsGrid(g: Grid) {
    |g| == 3 && forall i | 0 <= i < 3 :: |g[i]| == 3
  }

  /** np.full((3, 3), c): every cell is c. */
  function Filled(c: Colour): (g: Grid)
    ensures IsGrid(g)
    ensures forall i, j | 0 <= i < 3 && 0 <= j < 3 :: g[i][j] == c
  {
    [[c, c, c], [c, c, c], [c, c, c]]
  }

  /** np.rot90(g, 1), a quarter turn counter-clockwise. */
  function RotCcw(g: Grid): (r: Grid)
    requires IsGrid(g)
    ensures IsGrid(r)
  {
    seq(3, i requires 0 <= i < 3 => seq(3, j requires 0 <= j < 3 => g[j][2 - i]))
  }

  /** np.rot90(g, -1), a quarter turn clockwise. */
  function RotCw(g: Grid): (r: Grid)
    requires IsGrid(g)
    ensures IsGrid(r)
  {
    seq(3, i requires 0 <= i < 3 => seq(3, j requires 0 <= j < 3 => g[2 - j][i]))
  }

  /** np.rot90(g, 2), a half turn. */
  function Rot180(g: Grid): (r: Grid)
    requires IsGrid(g)
    ensures IsGrid(r)
  {
    seq(3, i requires 0 <= i < 3 => seq(3, j requires 0 <= j < 3 => g[2 - i][2 - j]))
  }

  /** g[i, :] */
  function Row(g: Grid, i: nat): (line: Line)
    requires IsGrid(g) && i < 3
    ensures |line| == 3
  {
    g[i]
  }

  /** g[:, j] */
  function Col(g: Grid, j: nat): (line: Line)
    requires IsGrid(g) && j < 3
    ensures |line| == 3
  {
    seq(3, k requires 0 <= k < 3 => g[k][j])
  }

  /** g[i, :] = line */
  function WithRow(g: Grid, i: nat, line: Line): (r: Grid)
    requires IsGrid(g) && i < 3 && |line| == 3
    ensures IsGrid(r)
    ensures Row(r, i) == line
    ensures forall k | 0 <= k < 3 && k != i :: r[k] == g[k]
  {
    g[i := line]
  }

  /** g[:, j] = line */
  function WithCol(g: Grid, j: nat, line: Line): (r: Grid)
    requires IsGrid(g) && j < 3 && |line| == 3
    ensures IsGrid(r)
    ensures Col(r, j) == line
    ensures forall i, k | 0 <= i < 3 && 0 <= k < 3 && k != j :: r[i][k] == g[i][k]
  {
    seq(3, k requires 0 <= k < 3 => g[k][j := line[k]])
  }

  /** Cell by cell: column j now holds the line, every other cell is as before. */
  lemma WithColAt(g: Grid, j: nat, line: Line)
    requires IsGrid(g) && j < 3 && |line| == 3
    ensures forall i, k | 0 <= i < 3 && 0 <= k < 3 ::
      WithCol(g, j, line)[i][k] == if k == j then line[i] else g[i][k]
  {
  }

  /** np.flip on a line. */
  function Reverse(line: Line): (r: Line)
    ensures |r| == |line|
  {
    seq(|line|, k requires 0 <= k < |line| => line[|line| - 1 - k])
  }

  /** How many entries of a line have colour c. */
  function Count(line: Line, c: Colour): (n: nat)
  {
    if line == [] then 0 else (if line[0] == c then 1 else 0) + Count(line[1..], c)
  }

  /** How many of the nine cells of a grid have colour c. */
  function Tally(g: Grid, c: Colour): (n: nat)
    requires IsGrid(g)
  {
    Count(g[0], c) + Count(g[1], c) + Count(g[2], c)
  }

  /** Two grids that agree on every cell are the same grid. */
  lemma GridExt(a: Grid, b: Grid)
    requires IsGrid(a) && IsGrid(b)
    requires forall i, j | 0 <= i < 3 && 0 <= j < 3 :: a[i][j] == b[i][j]
    ensures a == b
  {
    forall i | 0 <= i < 3 ensures a[i] == b[i] {
      assert |a[i]| == |b[i]| == 3;
    }
  }

  lemma RotCwThenCcw(g: Grid)
    requires IsGrid(g)
    ensures RotCcw(RotCw(g)) == g
    ensures RotCw(RotCcw(g)) == g
  {
    GridExt(RotCcw(RotCw(g)), g);
    GridExt(RotCw(RotCcw(g)), g);
  }

  /** Two clockwise (or two counter-clockwise) quarter turns make a half turn. */
  lemma TwoQuartersAreHalf(g: Grid)
    requires IsGrid(g)
    ensures RotCw(RotCw(g)) == Rot180(g)
    ensures RotCcw(RotCcw(g)) == Rot180(g)
  {
    GridExt(RotCw(RotCw(g)), Rot180(g));
    GridExt(RotCcw(RotCcw(g)), Rot180(g));
  }

  lemma HalfTurnTwice(g: Grid)
    requires IsGrid(g)
    ensures Rot180(Rot180(g)) == g
  {
    GridExt(Rot180(Rot180(g)), g);
  }

  /** Four quarter turns in one direction restore the grid. */
  lemma QuarterTurnOrderFour(g: Grid)
    requires IsGrid(g)
    ensures RotCw(RotCw(RotCw(RotCw(g)))) == g
    ensures RotCcw(RotCcw(RotCcw(RotCcw(g)))) == g
  {
    TwoQuartersAreHalf(g);
    TwoQuartersAreHalf(RotCw(RotCw(g)));
    TwoQuartersAreHalf(RotCcw(RotCcw(g)));
    HalfTurnTwice(g);
  }

  lemma ReverseTwice(line: Line)
    ensures Reverse(Reverse(line)) == line
  {
  }

  /** Writing back the column that is already there leaves the grid unchanged,
      and a second write of the same column replaces the first. */
  lemma ColWrites(g: Grid, j: nat, x: Line, y: Line)
    requires IsGrid(g) && j < 3 && |x| == 3 && |y| == 3
    ensures WithCol(g, j, Col(g, j)) == g
    ensures WithCol(WithCol(g, j, x), j, y) == WithCol(g, j, y)
  {
    GridExt(WithCol(g, j, Col(g, j)), g);
    GridExt(WithCol(WithCol(g, j, x), j, y), WithCol(g, j, y));
  }

  /** Writing back the row that is already there leaves the grid unchanged,
      and a second write of the same row replaces the first. */
  lemma RowWrites(g: Grid, i: nat, x: Line, y: Line)
    requires IsGrid(g) && i < 3 && |x| == 3 && |y| == 3
    ensures WithRow(g, i, Row(g, i)) == g
    ensures WithRow(WithRow(g, i, x), i, y) == WithRow(g, i, y)
  {
  }

  // ---------------------------------------------------------------------
  // Colour conservation on grids

  /** The count on a line of three, cell by cell. */
  lemma CountThree(x: Line, c: Colour)
    requires |x| == 3
    ensures Count(x, c) == (if x[0] == c then 1 else 0) + (if x[1] == c then 1 else 0) + (if x[2] == c then 1 else 0)
  {
    var t := x[1..];
    var u := t[1..];
    assert u[1..] == [];
    assert Count(x, c) == (if x[0] == c then 1 else 0) + Count(t, c);
    assert Count(t, c) == (if x[1] == c then 1 else 0) + Count(u, c);
    assert Count(u, c) == (if x[2] == c then 1 else 0) + Count(u[1..], c);
  }

  /** Overwriting one entry of a line of three exchanges its colour for the new one. */
  lemma UpdateCount(x: Line, m: nat, v: Colour, c: Colour)
    requires |x| == 3 && m < 3
    ensures Count(x[m := v], c) + (if x[m] == c then 1 else 0) == Count(x, c) + (if v == c then 1 else 0)
  {
    CountThree(x, c);
    CountThree(x[m := v], c);
  }

  /** The tally of a grid, cell by cell. */
  lemma TallyCells(g: Grid, c: Colour)
    requires IsGrid(g)
    ensures Tally(g, c) ==
      (if g[0][0] == c then 1 else 0) + (if g[0][1] == c then 1 else 0) + (if g[0][2] == c then 1 else 0) +
      (if g[1][0] == c then 1 else 0) + (if g[1][1] == c then 1 else 0) + (if g[1][2] == c then 1 else 0) +
      (if g[2][0] == c then 1 else 0) + (if g[2][1] == c then 1 else 0) + (if g[2][2] == c then 1 else 0)
  {
    CountThree(g[0], c);
    CountThree(g[1], c);
    CountThree(g[2], c);
  }

  lemma {:induction false} CountConcat(x: Line, y: Line, c: Colour)
    ensures Count(x + y, c) == Count(x, c) + Count(y, c)
  {
    if x == [] {
      assert x + y == y;
    } else {
      assert (x + y)[1..] == x[1..] + y;
      CountConcat(x[1..], y, c);
    }
  }

  /** np.flip keeps the colours of a line. */
  lemma {:induction false} ReverseCount(x: Line, c: Colour)
    ensures Count(Reverse(x), c) == Count(x, c)
  {
    if x != [] {
      var n := |x| - 1;
      assert Reverse(x) == [x[n]] + Reverse(x[..n]);
      assert x == x[..n] + [x[n]];
      CountConcat([x[n]], Reverse(x[..n]), c);
      CountConcat(x[..n], [x[n]], c);
      ReverseCount(x[..n], c);
    }
  }

  /** A quarter or half turn keeps the nine colours of a grid. */
  lemma RotationTally(g: Grid, c: Colour)
    requires IsGrid(g)
    ensures Tally(RotCw(g), c) == Tally(g, c)
    ensures Tally(RotCcw(g), c) == Tally(g, c)
    ensures Tally(Rot180(g), c) == Tally(g, c)
  {
    TallyCells(g, c);
    TallyCells(RotCw(g), c);
    TallyCells(RotCcw(g), c);
    TallyCells(Rot180(g), c);
  }

  /** Overwriting a row exchanges the colours of the old row for those of the new one. */
  lemma WithRowTally(g: Grid, i: nat, line: Line, c: Colour)
    requires IsGrid(g) && i < 3 && |line| == 3
    ensures Tally(WithRow(g, i, line), c) + Count(Row(g, i), c) == Tally(g, c) + Count(line, c)
  {
  }

  /** Overwriting a column exchanges the colours of the old column for those of the new one. */
  lemma WithColTally(g: Grid, j: nat, line: Line, c: Colour)
    requires IsGrid(g) && j < 3 && |line| == 3
    ensures Tally(WithCol(g, j, line), c) + Count(Col(g, j), c) == Tally(g, c) + Count(line, c)
  {
    var r := WithCol(g, j, line);
    UpdateCount(g[0], j, line[0], c);
    UpdateCount(g[1], j, line[1], c);
    UpdateCount(g[2], j, line[2], c);
    CountThree(line, c);
    CountThree(Col(g, j), c);
    assert r[0] == g[0][j := line[0]] && r[1] == g[1][j := line[1]] && r[2] == g[2][j := line[2]];
  }
}
