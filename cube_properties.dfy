/** What the simulator's operations guarantee: a fresh cube is solved, whole-cube
    reorientations have order four and the adjacency tables undo each other, the front
    rotation is exactly the belt cycle and its two directions undo each other, every move
    is undone by its opposite and has order four, and no operation changes how many
    facelets of each colour there are. */
module CubeProperties {
  import opened Grids
  import opened CubeSpec

  // ---------------------------------------------------------------------
  // The initial state

  /** A freshly built (or reset) cube is solved, each face filled with its colour key. */
  lemma InitialSolved()
    ensures Solved(Initial())
    ensures forall f: Face :: Initial()[f] == Filled(ColourKey(f))
  {
    var s := Initial();
    forall f: Face ensures s[f] == Filled(ColourKey(f)) && Uniform(s[f]) {
      match f
      case F => case B => case U => case D => case R => case L =>
    }
  }

  /** A whole-cube reorientation keeps a solved cube solved. */
  lemma ReorientKeepsSolved(s: State, key: string)
    requires IsState(s) && Solved(s)
    ensures Solved(Reorient(s, key))
  {
    var r := Reorient(s, key);
    forall f: Face ensures Uniform(r[f]) {
      assert Uniform(s[F]) && Uniform(s[B]) && Uniform(s[U]) && Uniform(s[D]) && Uniform(s[R]) && Uniform(s[L]);
      match f
      case F => case B => case U => case D => case R => case L =>
    }
  }

  // ---------------------------------------------------------------------
  // Orientation

  /** Four reorientations about the same axis restore the state; for a key other than
      'h' and 'v' every reorientation already changes nothing. */
  lemma ReorientOrderFour(s: State, key: string)
    requires IsState(s)
    ensures ReorientTimes(s, key, 4) == s
  {
    var s1 := Reorient(s, key);
    var s2 := Reorient(s1, key);
    var s3 := Reorient(s2, key);
    var s4 := Reorient(s3, key);
    assert ReorientTimes(s, key, 1) == s1;
    assert ReorientTimes(s, key, 2) == s2;
    assert ReorientTimes(s, key, 3) == s3;
    assert ReorientTimes(s, key, 4) == s4;
    if key == "h" {
      QuarterTurnOrderFour(s[U]);
      QuarterTurnOrderFour(s[D]);
      StateExt(s4, s);
    } else if key == "v" {
      QuarterTurnOrderFour(s[L]);
      QuarterTurnOrderFour(s[R]);
      HalfTurnTwice(s[F]);
      HalfTurnTwice(s[U]);
      HalfTurnTwice(s[B]);
      HalfTurnTwice(s[D]);
      StateExt(s4, s);
    }
  }

  /** Repeating a reorientation a times and then b times is repeating it a + b times. */
  lemma {:induction false} ReorientTimesAdd(s: State, key: string, a: nat, b: nat)
    requires IsState(s)
    ensures ReorientTimes(ReorientTimes(s, key, a), key, b) == ReorientTimes(s, key, a + b)
  {
    if b > 0 {
      ReorientTimesAdd(s, key, a, b - 1);
    }
  }

  /** Repeating a reorientation k + k + k + k times restores the state, for every k. */
  lemma {:induction false} ReorientTimesMultipleOfFour(s: State, key: string, k: nat)
    requires IsState(s)
    ensures ReorientTimes(s, key, k + k + k + k) == s
  {
    if k > 0 {
      var m := (k - 1) + (k - 1) + (k - 1) + (k - 1);
      ReorientTimesMultipleOfFour(s, key, k - 1);
      ReorientTimesAdd(s, key, m, 4);
      assert m + 4 == k + k + k + k;
      ReorientOrderFour(s, key);
    }
  }

  /** An adjacency list of one turn repeats that turn's key count % 4 times. */
  lemma ApplyOneTurn(s: State, t: Turn)
    requires IsState(s)
    ensures ApplyTurns(s, [t]) == ReorientTimes(s, t.axis, t.count % 4)
  {
    assert [t][..0] == [];
  }

  /** Turns whose repeat counts add up to four restore the state. */
  lemma FullTurnPair(s: State, axis: string, a: int, b: int)
    requires IsState(s) && a % 4 + b % 4 == 4
    ensures ApplyTurns(ApplyTurns(s, [Turn(axis, a)]), [Turn(axis, b)]) == s
  {
    ApplyOneTurn(s, Turn(axis, a));
    ApplyOneTurn(ApplyTurns(s, [Turn(axis, a)]), Turn(axis, b));
    ReorientTimesAdd(s, axis, a % 4, b % 4);
    ReorientOrderFour(s, axis);
  }

  /** backward_set_front undoes forward_set_front for every face, and the other way round:
      the counter-adjacency table inverts the adjacency table. */
  lemma SetFrontRoundTrip(s: State, f: Face)
    requires IsState(s)
    ensures ApplyTurns(ApplyTurns(s, Adjacency(f)), CounterAdjacency(f)) == s
    ensures ApplyTurns(ApplyTurns(s, CounterAdjacency(f)), Adjacency(f)) == s
  {
    match f
    case F =>
    case B =>
      FullTurnPair(s, "h", 2, 2);
    case U =>
      FullTurnPair(s, "v", 1, -1);
      FullTurnPair(s, "v", -1, 1);
    case D =>
      FullTurnPair(s, "v", -1, 1);
      FullTurnPair(s, "v", 1, -1);
    case L =>
      FullTurnPair(s, "h", -1, 1);
      FullTurnPair(s, "h", 1, -1);
    case R =>
      FullTurnPair(s, "h", 1, -1);
      FullTurnPair(s, "h", -1, 1);
  }

  /** Where the front and back faces come from after the single turn of an adjacency
      list, for each axis and each repeat count the tables use. */
  lemma TurnFront(s: State, axis: string, count: int)
    requires IsState(s)
    ensures var r := ApplyTurns(s, [Turn(axis, count)]);
      && (axis == "h" && count % 4 == 1 ==> r[F] == s[R] && r[B] == s[L])
      && (axis == "h" && count % 4 == 2 ==> r[F] == s[B] && r[B] == s[F])
      && (axis == "h" && count % 4 == 3 ==> r[F] == s[L] && r[B] == s[R])
      && (axis == "v" && count % 4 == 1 ==> r[F] == s[U] && r[B] == Rot180(s[D]))
      && (axis == "v" && count % 4 == 3 ==> r[F] == s[D] && r[B] == Rot180(s[U]))
  {
    ApplyOneTurn(s, Turn(axis, count));
    var s1 := Reorient(s, axis);
    var s2 := Reorient(s1, axis);
    var s3 := Reorient(s2, axis);
    assert ReorientTimes(s, axis, 1) == s1;
    assert ReorientTimes(s, axis, 2) == s2;
    assert ReorientTimes(s, axis, 3) == s3;
    if axis == "h" {
      assert s3[F] == s2[R] == s1[B] == s[L];
      assert s3[B] == s2[L] == s1[F] == s[R];
    } else if axis == "v" {
      HalfTurnTwice(s[D]);
      assert s3[F] == s2[U] == Rot180(s1[B]) == s[D];
    }
  }

  /** forward_set_front(f) brings face f to the front, and the face opposite f to the
      back (turned half way when the cube is tipped about 'v'). */
  lemma FrontOf(s: State, f: Face)
    requires IsState(s)
    ensures ApplyTurns(s, Adjacency(f))[F] == s[f]
    ensures ApplyTurns(s, Adjacency(f))[B] ==
      if f == U || f == D then Rot180(s[OppositeFace(f)]) else s[OppositeFace(f)]
  {
    match f
    case F =>
    case B => TurnFront(s, "h", 2);
    case U => TurnFront(s, "v", 1);
    case D => TurnFront(s, "v", -1);
    case L => TurnFront(s, "h", -1);
    case R => TurnFront(s, "h", 1);
  }

  /** backward_set_front(f) takes the front face back to f, and the back face to the face
      opposite f (turned half way back when the cube is tipped about 'v'). */
  lemma BackOf(x: State, f: Face)
    requires IsState(x)
    ensures ApplyTurns(x, CounterAdjacency(f))[f] == x[F]
    ensures ApplyTurns(x, CounterAdjacency(f))[OppositeFace(f)] ==
      if f == U || f == D then Rot180(x[B]) else x[B]
  {
    var y := ApplyTurns(x, CounterAdjacency(f));
    SetFrontRoundTrip(x, f);
    FrontOf(y, f);
    HalfTurnTwice(y[OppositeFace(f)]);
  }

  // ---------------------------------------------------------------------
  // Front rotation

  /** perform_rotation('+') cell by cell: the front turns clockwise, the bottom row of U
      becomes the right column of L reversed, the right column of L becomes the top row
      of D, the top row of D becomes the left column of R reversed, the left column of R
      becomes the bottom row of U; B and every other cell keep their colours. */
  lemma RotateClockwiseCells(s: State)
    requires IsState(s)
    ensures var r := Rotate(s, "+");
      && r[B] == s[B]
      && (forall i, j | 0 <= i < 3 && 0 <= j < 3 :: r[F][i][j] == s[F][2 - j][i])
      && (forall i, j | 0 <= i < 3 && 0 <= j < 3 :: r[U][i][j] == if i == 2 then s[L][2 - j][2] else s[U][i][j])
      && (forall i, j | 0 <= i < 3 && 0 <= j < 3 :: r[L][i][j] == if j == 2 then s[D][0][i] else s[L][i][j])
      && (forall i, j | 0 <= i < 3 && 0 <= j < 3 :: r[D][i][j] == if i == 0 then s[R][2 - j][0] else s[D][i][j])
      && (forall i, j | 0 <= i < 3 && 0 <= j < 3 :: r[R][i][j] == if j == 0 then s[U][2][i] else s[R][i][j])
  {
    WithColAt(s[L], 2, Row(s[D], 0));
    WithColAt(s[R], 0, Row(s[U], 2));
  }

  /** perform_rotation('-') cell by cell: the front turns counter-clockwise, the bottom
      row of U becomes the left column of R, the left column of R becomes the top row of D
      reversed, the top row of D becomes the right column of L, the right column of L
      becomes the bottom row of U reversed; B and every other cell keep their colours. */
  lemma RotateCounterClockwiseCells(s: State)
    requires IsState(s)
    ensures var r := Rotate(s, "-");
      && r[B] == s[B]
      && (forall i, j | 0 <= i < 3 && 0 <= j < 3 :: r[F][i][j] == s[F][j][2 - i])
      && (forall i, j | 0 <= i < 3 && 0 <= j < 3 :: r[U][i][j] == if i == 2 then s[R][j][0] else s[U][i][j])
      && (forall i, j | 0 <= i < 3 && 0 <= j < 3 :: r[R][i][j] == if j == 0 then s[D][0][2 - i] else s[R][i][j])
      && (forall i, j | 0 <= i < 3 && 0 <= j < 3 :: r[D][i][j] == if i == 0 then s[L][j][2] else s[D][i][j])
      && (forall i, j | 0 <= i < 3 && 0 <= j < 3 :: r[L][i][j] == if j == 2 then s[U][2][2 - i] else s[L][i][j])
  {
    WithColAt(s[R], 0, Reverse(Row(s[D], 0)));
    WithColAt(s[L], 2, Reverse(Row(s[U], 2)));
  }

  /** perform_rotation('-') undoes perform_rotation('+') and the other way round; an
      unknown direction key, whose opposite is itself, turns nothing. */
  lemma RotateUndo(s: State, direction: string)
    requires IsState(s)
    ensures Rotate(Rotate(s, direction), Opposite(direction)) == s
  {
    if direction == "+" {
      var r1 := Rotate(s, "+");
      var r2 := Rotate(r1, "-");
      RotCwThenCcw(s[F]);
      ReverseTwice(Col(s[R], 0));
      ReverseTwice(Col(s[L], 2));
      RowWrites(s[U], 2, Reverse(Col(s[L], 2)), Row(s[U], 2));
      RowWrites(s[D], 0, Reverse(Col(s[R], 0)), Row(s[D], 0));
      ColWrites(s[R], 0, Row(s[U], 2), Col(s[R], 0));
      ColWrites(s[L], 2, Row(s[D], 0), Col(s[L], 2));
      StateExt(r2, s);
    } else if direction == "-" {
      var r1 := Rotate(s, "-");
      var r2 := Rotate(r1, "+");
      RotCwThenCcw(s[F]);
      ReverseTwice(Row(s[D], 0));
      ReverseTwice(Row(s[U], 2));
      RowWrites(s[U], 2, Col(s[R], 0), Row(s[U], 2));
      RowWrites(s[D], 0, Col(s[L], 2), Row(s[D], 0));
      ColWrites(s[R], 0, Reverse(Row(s[D], 0)), Col(s[R], 0));
      ColWrites(s[L], 2, Reverse(Row(s[U], 2)), Col(s[L], 2));
      StateExt(r2, s);
    }
  }

  /** Two clockwise front turns equal two counter-clockwise ones (a half turn). */
  lemma HalfTurnBothWays(s: State)
    requires IsState(s)
    ensures Rotate(Rotate(s, "+"), "+") == Rotate(Rotate(s, "-"), "-")
  {
    var p1 := Rotate(s, "+");
    var p2 := Rotate(p1, "+");
    var q1 := Rotate(s, "-");
    var q2 := Rotate(q1, "-");
    TwoQuartersAreHalf(s[F]);
    RowWrites(s[U], 2, Reverse(Col(s[L], 2)), Reverse(Row(s[D], 0)));
    RowWrites(s[U], 2, Col(s[R], 0), Reverse(Row(s[D], 0)));
    RowWrites(s[D], 0, Reverse(Col(s[R], 0)), Reverse(Row(s[U], 2)));
    RowWrites(s[D], 0, Col(s[L], 2), Reverse(Row(s[U], 2)));
    ColWrites(s[L], 2, Row(s[D], 0), Reverse(Col(s[R], 0)));
    ColWrites(s[L], 2, Reverse(Row(s[U], 2)), Reverse(Col(s[R], 0)));
    ColWrites(s[R], 0, Row(s[U], 2), Reverse(Col(s[L], 2)));
    ColWrites(s[R], 0, Reverse(Row(s[D], 0)), Reverse(Col(s[L], 2)));
    StateExt(p2, q2);
  }

  /** Four front turns in the same direction restore the state. */
  lemma RotateOrderFour(s: State, direction: string)
    requires IsState(s)
    ensures Rotate(Rotate(Rotate(Rotate(s, direction), direction), direction), direction) == s
  {
    if direction == "+" || direction == "-" {
      var t := Rotate(Rotate(s, direction), direction);
      HalfTurnBothWays(s);
      HalfTurnBothWays(t);
      var o := Opposite(direction);
      assert Rotate(Rotate(t, direction), direction) == Rotate(Rotate(t, o), o);
      RotateUndo(t, o);
      RotateUndo(Rotate(s, direction), direction);
      RotateUndo(s, direction);
      assert Opposite(o) == direction;
    }
  }

  // ---------------------------------------------------------------------
  // Moves

  /** A move is undone by the opposite move on the same face: move(f, '+') then
      move(f, '-') restores the state, and so does the other order. */
  lemma MoveUndo(s: State, face: Face, direction: string)
    requires IsState(s)
    ensures MoveFace(MoveFace(s, face, direction), face, Opposite(direction)) == s
  {
    var front := ApplyTurns(s, Adjacency(face));
    var turned := Rotate(front, direction);
    SetFrontRoundTrip(turned, face);
    RotateUndo(front, direction);
    SetFrontRoundTrip(s, face);
  }

  /** A move with a direction key other than '+' and '-' leaves the state unchanged:
      the cube is reoriented and then turned straight back. */
  lemma MoveUnknownDirection(s: State, face: Face, direction: string)
    requires IsState(s) && direction != "+" && direction != "-"
    ensures MoveFace(s, face, direction) == s
  {
    SetFrontRoundTrip(s, face);
  }

  /** Moving the front face is rotating the front face. */
  lemma MoveFrontIsRotate(s: State, direction: string)
    requires IsState(s)
    ensures MoveFace(s, F, direction) == Rotate(s, direction)
  {
  }

  /** move(f, '+') turns face f itself clockwise and move(f, '-') counter-clockwise, and
      the face opposite f keeps all its cells. */
  lemma MoveTurnsFace(s: State, f: Face, direction: string)
    requires IsState(s)
    ensures direction == "+" ==> MoveFace(s, f, direction)[f] == RotCw(s[f])
    ensures direction == "-" ==> MoveFace(s, f, direction)[f] == RotCcw(s[f])
    ensures MoveFace(s, f, direction)[OppositeFace(f)] == s[OppositeFace(f)]
  {
    var t := ApplyTurns(s, Adjacency(f));
    var r := Rotate(t, direction);
    FrontOf(s, f);
    BackOf(r, f);
    HalfTurnTwice(s[OppositeFace(f)]);
  }

  /** On a state seen from the face's front frame, a move is a front rotation seen
      from that frame. */
  lemma MoveInFrontFrame(x: State, face: Face, direction: string)
    requires IsState(x)
    ensures MoveFace(ApplyTurns(x, CounterAdjacency(face)), face, direction)
         == ApplyTurns(Rotate(x, direction), CounterAdjacency(face))
  {
    SetFrontRoundTrip(x, face);
  }

  /** The same move four times in a row restores the state. */
  lemma MoveOrderFour(s: State, face: Face, direction: string)
    requires IsState(s)
    ensures MoveFace(MoveFace(MoveFace(MoveFace(s, face, direction), face, direction), face, direction), face, direction) == s
  {
    var a := ApplyTurns(s, Adjacency(face));
    var r1 := Rotate(a, direction);
    var r2 := Rotate(r1, direction);
    var r3 := Rotate(r2, direction);
    var m1 := MoveFace(s, face, direction);
    assert m1 == ApplyTurns(r1, CounterAdjacency(face));
    var m2 := MoveFace(m1, face, direction);
    MoveInFrontFrame(r1, face, direction);
    var m3 := MoveFace(m2, face, direction);
    MoveInFrontFrame(r2, face, direction);
    var m4 := MoveFace(m3, face, direction);
    MoveInFrontFrame(r3, face, direction);
    RotateOrderFour(a, direction);
    assert m4 == ApplyTurns(a, CounterAdjacency(face));
    SetFrontRoundTrip(s, face);
  }

  /** Applying moves a and then b is applying a + b. */
  lemma {:induction false} ApplyMovesConcat(s: State, a: seq<(Face, string)>, b: seq<(Face, string)>)
    requires IsState(s)
    ensures ApplyMoves(s, a + b) == ApplyMoves(ApplyMoves(s, a), b)
  {
    if b == [] {
      assert a + b == a;
    } else {
      var n := |b| - 1;
      assert (a + b)[..|a + b| - 1] == a + b[..n];
      ApplyMovesConcat(s, a, b[..n]);
    }
  }

  /** A shuffle is always reversible: the opposite moves in reverse order take the cube
      back to the state it started from. */
  lemma {:induction false} ShuffleReversible(s: State, moves: seq<(Face, string)>)
    requires IsState(s)
    ensures ApplyMoves(ApplyMoves(s, moves), InverseMoves(moves)) == s
  {
    if moves != [] {
      var n := |moves| - 1;
      var last := moves[n];
      var before := ApplyMoves(s, moves[..n]);
      var undo := [(last.0, Opposite(last.1))];
      ApplyMovesConcat(ApplyMoves(s, moves), undo, InverseMoves(moves[..n]));
      assert undo[..0] == [];
      MoveUndo(before, last.0, last.1);
      ShuffleReversible(s, moves[..n]);
    }
  }

  // ---------------------------------------------------------------------
  // Colour conservation: no operation creates, drops or repaints a facelet

  lemma ReorientTally(s: State, key: string, c: Colour)
    requires IsState(s)
    ensures Tally54(Reorient(s, key), c) == Tally54(s, c)
  {
    RotationTally(s[U], c);
    RotationTally(s[D], c);
    RotationTally(s[L], c);
    RotationTally(s[R], c);
    RotationTally(s[B], c);
  }

  lemma {:induction false} ReorientTimesTally(s: State, key: string, n: nat, c: Colour)
    requires IsState(s)
    ensures Tally54(ReorientTimes(s, key, n), c) == Tally54(s, c)
  {
    if n > 0 {
      var p := ReorientTimes(s, key, n - 1);
      assert ReorientTimes(s, key, n) == Reorient(p, key);
      ReorientTimesTally(s, key, n - 1, c);
      ReorientTally(p, key, c);
    }
  }

  lemma {:induction false} ApplyTurnsTally(s: State, turns: seq<Turn>, c: Colour)
    requires IsState(s)
    ensures Tally54(ApplyTurns(s, turns), c) == Tally54(s, c)
  {
    if turns != [] {
      var n := |turns| - 1;
      ApplyTurnsTally(s, turns[..n], c);
      ReorientTimesTally(ApplyTurns(s, turns[..n]), turns[n].axis, turns[n].count % 4, c);
    }
  }

  lemma RotateTally(s: State, key: string, c: Colour)
    requires IsState(s)
    ensures Tally54(Rotate(s, key), c) == Tally54(s, c)
  {
    RotationTally(s[F], c);
    if key == "+" {
      WithRowTally(s[U], 2, Reverse(Col(s[L], 2)), c);
      WithColTally(s[L], 2, Row(s[D], 0), c);
      WithRowTally(s[D], 0, Reverse(Col(s[R], 0)), c);
      WithColTally(s[R], 0, Row(s[U], 2), c);
      ReverseCount(Col(s[L], 2), c);
      ReverseCount(Col(s[R], 0), c);
    } else if key == "-" {
      WithRowTally(s[U], 2, Col(s[R], 0), c);
      WithColTally(s[R], 0, Reverse(Row(s[D], 0)), c);
      WithRowTally(s[D], 0, Col(s[L], 2), c);
      WithColTally(s[L], 2, Reverse(Row(s[U], 2)), c);
      ReverseCount(Row(s[D], 0), c);
      ReverseCount(Row(s[U], 2), c);
    }
  }

  /** A move keeps, for every colour, the number of facelets of that colour. */
  lemma MoveTally(s: State, face: Face, direction: string, c: Colour)
    requires IsState(s)
    ensures Tally54(MoveFace(s, face, direction), c) == Tally54(s, c)
  {
    var front := ApplyTurns(s, Adjacency(face));
    ApplyTurnsTally(s, Adjacency(face), c);
    RotateTally(front, direction, c);
    ApplyTurnsTally(Rotate(front, direction), CounterAdjacency(face), c);
  }

  /** Any sequence of moves keeps, for every colour, the number of facelets of that colour. */
  lemma {:induction false} ApplyMovesTally(s: State, moves: seq<(Face, string)>, c: Colour)
    requires IsState(s)
    ensures Tally54(ApplyMoves(s, moves), c) == Tally54(s, c)
  {
    if moves != [] {
      var n := |moves| - 1;
      ApplyMovesTally(s, moves[..n], c);
      MoveTally(ApplyMoves(s, moves[..n]), moves[n].0, moves[n].1, c);
    }
  }

  // ---------------------------------------------------------------------
  // A concrete scenario

  /** From the solved cube, move('F', '+') puts the right column of L, reversed (all
      colour 6), on the bottom row of U, leaves the cube unsolved, and move('F', '-')
      brings back the solved cube. */
  lemma FrontTurnFromSolved()
    ensures var s1 := MoveFace(Initial(), F, "+");
      && Row(s1[U], 2) == Reverse(Col(Initial()[L], 2)) == [6, 6, 6]
      && !Solved(s1)
      && MoveFace(s1, F, "-") == Initial()
  {
    var s0 := Initial();
    var s1 := MoveFace(s0, F, "+");
    assert s1 == Rotate(s0, "+");
    assert Reverse(Col(s0[L], 2)) == [6, 6, 6];
    assert s1[U][2][0] == 6 && s1[U][0][0] == 3;
    MoveUndo(s0, F, "+");
  }
}
