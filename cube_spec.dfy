/** The state of a 3×3×3 cube and what each operation of the simulator does to it,
    as functions on state values. The class in module RubiksCubes performs the same
    operations step by step in place and is proved to agree with these definitions. */
module CubeSpec {
  import opened Grids

  datatype Option<T> = None | Some(value: T)

  /** The six face keys 'F', 'B', 'U', 'D', 'R', 'L'. */
  datatype Face = F | B | U | D | R | L

  /** The face keys in the order of the cube's face_keys list, F, B, U, D, R, L; restore_state
      copies the faces in this order. */
  const Faces: seq<Face> := [F, B, U, D, R, L]

  /** The cube's state dictionary: a grid under each face key. */
  type State = map<Face, Grid>

  /** Every face key is present and holds a 3×3 grid. */
  predicate IsState(s: State) {
    forall f: Face :: f in s && IsGrid(s[f])
  }

  /** A map that holds a grid under each of the six keys, named one by one, is a state. */
  lemma SixFaces(s: State)
    requires F in s && B in s && U in s && D in s && R in s && L in s
    requires IsGrid(s[F]) && IsGrid(s[B]) && IsGrid(s[U]) && IsGrid(s[D]) && IsGrid(s[R]) && IsGrid(s[L])
    ensures IsState(s)
  {
    forall f: Face ensures f in s && IsGrid(s[f]) {
      match f
      case F => case B => case U => case D => case R => case L =>
    }
  }

  /** Two states that agree on each of the six faces are the same state. */
  lemma StateExt(a: State, b: State)
    requires IsState(a) && IsState(b)
    requires a[F] == b[F] && a[B] == b[B] && a[U] == b[U] && a[D] == b[D] && a[R] == b[R] && a[L] == b[L]
    ensures a == b
  {
    forall f: Face ensures a[f] == b[f] {
      match f
      case F => case B => case U => case D => case R => case L =>
    }
    assert a.Keys == b.Keys;
  }

  /** The face across the cube from a face. */
  function OppositeFace(f: Face): (g: Face)
    ensures g != f
  {
    match f
    case F => B
    case B => F
    case U => D
    case D => U
    case R => L
    case L => R
  }

  /** The string key of a face. */
  function KeyOf(f: Face): (key: string)
    ensures |key| == 1
  {
    match f
    case F => "F"
    case B => "B"
    case U => "U"
    case D => "D"
    case R => "R"
    case L => "L"
  }

  /** Looks a string up among the face keys, as the adjacency dictionaries do; a
      string that is not a face key is not found. */
  function FaceOfKey(key: string): (r: Option<Face>)
    ensures forall f: Face :: r == Some(f) <==> KeyOf(f) == key
  {
    if key == "F" then Some(F)
    else if key == "B" then Some(B)
    else if key == "U" then Some(U)
    else if key == "D" then Some(D)
    else if key == "R" then Some(R)
    else if key == "L" then Some(L)
    else None
  }

  /** The colour key zipped with each face key: 1..6 in the order F, B, U, D, R, L, so the
      colour key is the face's position in the face key list plus one. */
  function ColourKey(f: Face): (c: Colour)
    ensures 1 <= c <= 6 && Faces[c - 1] == f
  {
    match f
    case F => 1
    case B => 2
    case U => 3
    case D => 4
    case R => 5
    case L => 6
  }

  /** The state built at construction and by reset_state: each face filled with its colour key. */
  function Initial(): (s: State)
    ensures IsState(s)
  {
    var s := map[F := Filled(ColourKey(F)), B := Filled(ColourKey(B)), U := Filled(ColourKey(U)),
                 D := Filled(ColourKey(D)), R := Filled(ColourKey(R)), L := Filled(ColourKey(L))];
    SixFaces(s);
    s
  }

  /** np.all(face == face[0, 0]): all nine cells have the colour of cell (0, 0). */
  function Uniform(g: Grid): (b: bool)
    requires IsGrid(g)
    ensures b <==> Tally(g, g[0][0]) == 9
  {
    TallyCells(g, g[0][0]);
    forall i, j | 0 <= i < 3 && 0 <= j < 3 :: g[i][j] == g[0][0]
  }

  /** is_solved: every face has nine equal cells, nine of the colour of its cell (0, 0). */
  function Solved(s: State): (b: bool)
    requires IsState(s)
    ensures b <==> forall f: Face :: Tally(s[f], s[f][0][0]) == 9
  {
    forall f: Face :: Uniform(s[f])
  }

  // ---------------------------------------------------------------------
  // Orientation

  /** change_orientation: one whole-cube quarter turn about the horizontal axis
      ('h') or the vertical axis ('v'); any other key changes nothing. */
  function Reorient(s: State, key: string): (r: State)
    requires IsState(s)
    ensures IsState(r)
    ensures key != "h" && key != "v" ==> r == s
  {
    if key == "h" then
      s[F := s[R]][R := s[B]][B := s[L]][L := s[F]][U := RotCw(s[U])][D := RotCcw(s[D])]
    else if key == "v" then
      s[F := s[U]][U := Rot180(s[B])][B := Rot180(s[D])][D := s[F]][L := RotCw(s[L])][R := RotCcw(s[R])]
    else
      s
  }

  /** change_orientation applied n times in a row with the same key. */
  function ReorientTimes(s: State, key: string, n: nat): (r: State)
    requires IsState(s)
    ensures IsState(r)
  {
    if n == 0 then s else Reorient(ReorientTimes(s, key, n - 1), key)
  }

  /** One entry of an adjacency list: an orientation key and a repeat count. */
  datatype Turn = Turn(axis: string, count: int)

  /** The adjacency table: the turns that bring each face to the front. */
  function Adjacency(f: Face): (turns: seq<Turn>)
    ensures turns == [] <==> f == F
    ensures |turns| <= 1
    ensures forall t | t in turns :: t.axis == "h" || t.axis == "v"
  {
    match f
    case F => []
    case B => [Turn("h", 2)]
    case U => [Turn("v", 1)]
    case D => [Turn("v", -1)]
    case L => [Turn("h", -1)]
    case R => [Turn("h", 1)]
  }

  /** The counter-adjacency table: the turns that take the cube back after a face
      was brought to the front. */
  function CounterAdjacency(f: Face): (turns: seq<Turn>)
    ensures |turns| == |Adjacency(f)|
    ensures forall k | 0 <= k < |turns| ::
      turns[k].axis == Adjacency(f)[k].axis && (turns[k].count + Adjacency(f)[k].count) % 4 == 0
  {
    match f
    case F => []
    case B => [Turn("h", 2)]
    case U => [Turn("v", -1)]
    case D => [Turn("v", 1)]
    case L => [Turn("h", 1)]
    case R => [Turn("h", -1)]
  }

  /** The loops of forward_set_front / backward_set_front over an adjacency list: each
      turn repeats its orientation key count % 4 times. Dafny's % with divisor 4 yields
      0..3 for a negative count, as Python's does, so a count of -1 means three repeats. */
  function ApplyTurns(s: State, turns: seq<Turn>): (r: State)
    requires IsState(s)
    ensures IsState(r)
  {
    if turns == [] then s
    else
      var last := turns[|turns| - 1];
      ReorientTimes(ApplyTurns(s, turns[..|turns| - 1]), last.axis, last.count % 4)
  }

  // ---------------------------------------------------------------------
  // Front rotation

  /** perform_rotation: a quarter turn of the current front face, clockwise for '+' and
      counter-clockwise for '-', carrying the four lines of the belt around it (the bottom
      row of U, the right column of L, the top row of D and the left column of R); every
      line is read from the state before the turn. Any other key changes nothing. */
  function Rotate(s: State, key: string): (r: State)
    requires IsState(s)
    ensures IsState(r)
    ensures key != "+" && key != "-" ==> r == s
  {
    if key == "+" then
      s[F := RotCw(s[F])]
       [U := WithRow(s[U], 2, Reverse(Col(s[L], 2)))]
       [L := WithCol(s[L], 2, Row(s[D], 0))]
       [D := WithRow(s[D], 0, Reverse(Col(s[R], 0)))]
       [R := WithCol(s[R], 0, Row(s[U], 2))]
    else if key == "-" then
      s[F := RotCcw(s[F])]
       [U := WithRow(s[U], 2, Col(s[R], 0))]
       [R := WithCol(s[R], 0, Reverse(Row(s[D], 0)))]
       [D := WithRow(s[D], 0, Col(s[L], 2))]
       [L := WithCol(s[L], 2, Reverse(Row(s[U], 2)))]
    else
      s
  }

  // ---------------------------------------------------------------------
  // Moves

  /** move(face, direction): bring the face to the front, turn the front, turn the
      cube back. */
  function MoveFace(s: State, face: Face, direction: string): (r: State)
    requires IsState(s)
    ensures IsState(r)
  {
    ApplyTurns(Rotate(ApplyTurns(s, Adjacency(face)), direction), CounterAdjacency(face))
  }

  /** A sequence of moves applied one after another, as shuffle_state applies the
      moves it draws. */
  function ApplyMoves(s: State, moves: seq<(Face, string)>): (r: State)
    requires IsState(s)
    ensures IsState(r)
  {
    if moves == [] then s
    else
      var last := moves[|moves| - 1];
      MoveFace(ApplyMoves(s, moves[..|moves| - 1]), last.0, last.1)
  }

  /** The direction that undoes a direction: '+' and '-' swap; any other key (which
      turns nothing) stays. */
  function Opposite(direction: string): (r: string)
    ensures direction == "+" <==> r == "-"
    ensures direction == "-" <==> r == "+"
  {
    if direction == "+" then "-" else if direction == "-" then "+" else direction
  }

  /** The moves that undo a sequence of moves: the opposite moves in reverse order. */
  function InverseMoves(moves: seq<(Face, string)>): (inv: seq<(Face, string)>)
    ensures |inv| == |moves|
  {
    if moves == [] then []
    else
      var last := moves[|moves| - 1];
      [(last.0, Opposite(last.1))] + InverseMoves(moves[..|moves| - 1])
  }

  // ---------------------------------------------------------------------
  // Colour counts

  /** How many of the 54 facelets have colour c. */
  function Tally54(s: State, c: Colour): (n: nat)
    requires IsState(s)
  {
    Tally(s[F], c) + Tally(s[B], c) + Tally(s[U], c) + Tally(s[D], c) + Tally(s[R], c) + Tally(s[L], c)
  }

  // ---------------------------------------------------------------------
  // restore_state

  /** How many face keys, in the order of Faces, a snapshot holds before the first one it
      lacks: restore_state copies that many faces and then fails on the missing key. */
  function PresentPrefix(snapshot: map<Face, Grid>): (n: nat)
    ensures n <= |Faces|
    ensures forall k | 0 <= k < n :: Faces[k] in snapshot
    ensures n < |Faces| ==> Faces[n] !in snapshot
  {
    PresentFrom(snapshot, 0)
  }

  function PresentFrom(snapshot: map<Face, Grid>, i: nat): (n: nat)
    requires i <= |Faces|
    requires forall k | 0 <= k < i :: Faces[k] in snapshot
    ensures i <= n <= |Faces|
    ensures forall k | 0 <= k < n :: Faces[k] in snapshot
    ensures n < |Faces| ==> Faces[n] !in snapshot
    decreases |Faces| - i
  {
    if i == |Faces| || Faces[i] !in snapshot then i else PresentFrom(snapshot, i + 1)
  }
}
