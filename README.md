# Rubik's cube simulator: a verified model

This project models `RubiksCube` from `rubiks-sim/cube.py`. It simulates a 3×3×3 cube as six 3×3
colour grids stored under the face keys `F, B, U, D, R, L`. The only face it can turn is the
current front face. To turn any other face, a move reorients the whole cube so that face is at the
front, turns it, and reorients back.

Layout:

- `grids.dfy` (module `Grids`): 3×3 grids as values and the numpy operations the cube uses on
  them. These are `np.rot90` with turn counts 1, -1 and 2, row and column reads and writes, and
  `np.flip` on a line. It also proves the algebra of these operations and their colour counts.
- `cube_spec.dfy` (module `CubeSpec`): the state dictionary as a `map<Face, Grid>`, and what each
  operation does to it, as functions. `Reorient` models `change_orientation`, `Rotate` models
  `perform_rotation`, and `ApplyTurns` over the adjacency tables models `forward_set_front` and
  `backward_set_front`. `MoveFace` models `move`, `ApplyMoves` a shuffle, and `Solved` models
  `is_solved`.
- `cube_properties.dfy` (module `CubeProperties`): lemmas about those functions.
- `rubiks_cube.dfy` (module `RubiksCubes`): the class `RubiksCube`, whose field `state` is the
  dictionary. Its methods change the state step by step, as the Python methods do: the temporary
  grid of `change_orientation`, the single buffered line of `perform_rotation`, the nested loops
  over the adjacency lists, the face-by-face copy of `restore_state`, and the early return of
  `is_solved`. Each method is proved to leave exactly the state the matching `CubeSpec` function
  gives.

Modelling choices:

- Colours are `int`. A new cube holds 1 to 6 on `F, B, U, D, R, L`, in that order.
- Grids are immutable values. A numpy in-place row or column write becomes a new grid stored back
  under its key. After every operation, each face key of the source holds its own buffer, so value
  semantics loses no behaviour.
- Orientation keys (`'h'`, `'v'`) and direction keys (`'+'`, `'-'`) are strings. As in the code,
  any other key falls through every branch and changes nothing.
- Counts in the adjacency tables are reduced with `% 4`. A negative count then means that many
  repeats modulo 4, so `-1` means three repeats. Dafny's `%` with divisor 4 and Python's `%` agree
  here.
- A face key missing from the adjacency table raises `KeyError` in `move` before anything changes.
  The model returns `ok == false` with the state unchanged.
- A snapshot missing a face key makes `restore_state` raise `KeyError` at that key, after the
  earlier faces (in the order of `face_keys`: F, B, U, D, R, L) were already copied. The model returns `ok == false` with
  exactly that partial update.
- The model follows the code as written:
  - Unknown keys fall through every branch and change nothing.
  - `reset_state` keeps its `scramble_moves` parameter, which it ignores.
  - The comment on line 41 says the front becomes the old left face, but the code assigns the old
    right face (`F ← R`).

## Model

| member | source | states |
|---|---|---|
| `CubeSpec.FaceOfKey` | rubiks-sim/cube.py:28-29 | looking a string up in the adjacency tables finds face `f` exactly when the string is `f`'s key; any other string is not found |
| `CubeSpec.Reorient` | rubiks-sim/cube.py:35-56 | the result is again six 3×3 grids; a key other than `'h'` or `'v'` leaves the state unchanged (no `else` branch) |
| `CubeSpec.Rotate` | rubiks-sim/cube.py:58-77 | the result is again six 3×3 grids; a key other than `'+'` or `'-'` leaves the state unchanged |
| `CubeSpec.MoveFace` | rubiks-sim/cube.py:89-97 | a move keeps every face a 3×3 grid |
| `CubeSpec.PresentPrefix` | rubiks-sim/cube.py:121-122 | the number of faces `restore_state` copies: every face before it is in the snapshot, and the face at that position (if any) is missing |
| `CubeSpec.ColourKey` | rubiks-sim/cube.py:20-21 | the colour zipped with a face is its position in the face key list plus one: colours 1 to 6, a different one for each face |
| `CubeSpec.Initial` | rubiks-sim/cube.py:32 | the initial state holds a 3×3 grid under every face key; `InitialSolved` proves each face is filled with its colour key and the cube is solved |
| `CubeSpec.Adjacency` | rubiks-sim/cube.py:28 | only `F` has an empty list (it is already at the front); every other list is one turn about `'h'` or `'v'`; `FrontOf` proves the list brings its face to the front |
| `CubeSpec.CounterAdjacency` | rubiks-sim/cube.py:29 | each face's list has the same length and axes as its adjacency list, and each count cancels the adjacency count modulo 4; `SetFrontRoundTrip` proves the two tables undo each other |
| `CubeSpec.ReorientTimes` | rubiks-sim/cube.py:81-82 | repeating `change_orientation` keeps a state of six 3×3 grids; `ReorientOrderFour` and `ReorientTimesAdd` prove four repeats are the identity and repeat counts add |
| `CubeSpec.ApplyTurns` | rubiks-sim/cube.py:80-87 | the loops over an adjacency list keep a state of six 3×3 grids; `SetFrontRoundTrip` and `ApplyTurnsTally` prove the tables undo each other and colours are kept |
| `CubeSpec.ApplyMoves` | rubiks-sim/cube.py:131-135 | a sequence of moves keeps a state of six 3×3 grids; `ApplyMovesConcat`, `ShuffleReversible` and `ApplyMovesTally` prove it composes, can be undone and keeps colours |
| `CubeSpec.Uniform` | rubiks-sim/cube.py:139 | a face passes the `np.all` test exactly when all nine of its cells have the colour of cell (0, 0) |
| `CubeSpec.Solved` | rubiks-sim/cube.py:137-141 | the cube is solved exactly when every face holds nine cells of the colour of its cell (0, 0) |
| `Grids.Filled` | rubiks-sim/cube.py:129 | `np.full((3, 3), c)` is a 3×3 grid with every cell `c` |
| `Grids.RotCw` | rubiks-sim/cube.py:65 | `np.rot90(·, -1)` gives a 3×3 grid; `RotCwThenCcw`, `QuarterTurnOrderFour` and `RotationTally` prove it is undone by `np.rot90(·, 1)`, has order four and keeps colours |
| `Grids.RotCcw` | rubiks-sim/cube.py:72 | `np.rot90(·, 1)` gives a 3×3 grid; `RotCwThenCcw`, `QuarterTurnOrderFour` and `RotationTally` prove it is undone by `np.rot90(·, -1)`, has order four and keeps colours |
| `Grids.Rot180` | rubiks-sim/cube.py:52-53 | `np.rot90(·, 2)` gives a 3×3 grid; `TwoQuartersAreHalf` and `HalfTurnTwice` prove it is two quarter turns and its own inverse |
| `Grids.Reverse` | rubiks-sim/cube.py:67-77 | `np.flip` keeps the length of a line; `ReverseTwice` and `ReverseCount` prove it is its own inverse and keeps colours |
| `Grids.Row` | rubiks-sim/cube.py:66 | the slice `g[i, :]` is a line of three |
| `Grids.Col` | rubiks-sim/cube.py:67 | the slice `g[:, j]` is a line of three |
| `Grids.WithRow` | rubiks-sim/cube.py:67 | after `g[i, :] = line`, row `i` reads back as the line and every other row is unchanged |
| `Grids.WithCol` | rubiks-sim/cube.py:68 | after `g[:, j] = line`, column `j` reads back as the line and every cell of the other columns is unchanged |
| `Grids.RotCwThenCcw` | rubiks-sim/cube.py:65-72 | `np.rot90(·, 1)` and `np.rot90(·, -1)` undo each other |
| `Grids.QuarterTurnOrderFour` | rubiks-sim/cube.py:47-56 | four quarter turns in one direction restore a grid |
| `Grids.HalfTurnTwice` | rubiks-sim/cube.py:52-53 | two half turns restore a grid |
| `Grids.ReverseCount` | rubiks-sim/cube.py:67-77 | `np.flip` keeps the number of entries of each colour in a line |
| `Grids.RotationTally` | rubiks-sim/cube.py:47-72 | quarter and half turns keep the number of cells of each colour in a grid |
| `Grids.WithRowTally` | rubiks-sim/cube.py:67-76 | writing a row swaps the colours of the old row for those of the new line, and nothing else |
| `Grids.WithColTally` | rubiks-sim/cube.py:68-77 | writing a column swaps the colours of the old column for those of the new line, and nothing else |
| `CubeProperties.InitialSolved` | rubiks-sim/cube.py:32 | a new cube is solved, and each face is filled with its colour key (F 1, B 2, U 3, D 4, R 5, L 6) |
| `CubeProperties.ReorientKeepsSolved` | rubiks-sim/cube.py:35-56 | reorienting a solved cube leaves it solved |
| `CubeProperties.ReorientOrderFour` | rubiks-sim/cube.py:35-56 | four `change_orientation` calls with the same key restore the state, for `'h'`, `'v'` and every other key |
| `CubeProperties.ReorientTimesAdd` | rubiks-sim/cube.py:81-82 | `a` repeats followed by `b` repeats are `a + b` repeats |
| `CubeProperties.ReorientTimesMultipleOfFour` | rubiks-sim/cube.py:81-82 | any multiple of four repeats of one orientation key restores the state |
| `CubeProperties.TurnFront` | rubiks-sim/cube.py:41-56 | after one, two or three `'h'` turns, or one or three `'v'` turns, the front and back grids are the named faces of the state before (the back one turned half way for `'v'`) |
| `CubeProperties.FrontOf` | rubiks-sim/cube.py:79-82 | `forward_set_front(f)` puts face `f`'s grid at the front and the opposite face's grid at the back (turned half way for `U` and `D`) |
| `CubeProperties.BackOf` | rubiks-sim/cube.py:84-87 | `backward_set_front(f)` puts the front grid back under `f` and the back grid under the face opposite `f` (turned half way for `U` and `D`) |
| `CubeProperties.SetFrontRoundTrip` | rubiks-sim/cube.py:28-29 | for every face, `backward_set_front` after `forward_set_front` restores the state, and so does the opposite order |
| `CubeProperties.RotateClockwiseCells` | rubiks-sim/cube.py:64-70 | `perform_rotation('+')` cell by cell: F turns clockwise; U's bottom row gets L's right column reversed; L's right column gets D's top row; D's top row gets R's left column reversed; R's left column gets U's bottom row; B and every other cell are unchanged |
| `CubeProperties.RotateCounterClockwiseCells` | rubiks-sim/cube.py:71-77 | `perform_rotation('-')` cell by cell: F turns counter-clockwise; U's bottom row gets R's left column; R's left column gets D's top row reversed; D's top row gets L's right column; L's right column gets U's old bottom row reversed; B and every other cell are unchanged |
| `CubeProperties.RotateUndo` | rubiks-sim/cube.py:58-77 | `perform_rotation('-')` undoes `perform_rotation('+')` and the other way round; an unknown key is its own (trivial) inverse |
| `CubeProperties.HalfTurnBothWays` | rubiks-sim/cube.py:58-77 | two clockwise front turns give the same state as two counter-clockwise ones |
| `CubeProperties.RotateOrderFour` | rubiks-sim/cube.py:58-77 | four front turns in the same direction restore the state |
| `CubeProperties.MoveUndo` | rubiks-sim/cube.py:89-97 | for every face, `move(f, '+')` then `move(f, '-')` restores the state, and so does the opposite order |
| `CubeProperties.MoveUnknownDirection` | rubiks-sim/cube.py:89-97 | a move with a direction key other than `'+'` or `'-'` leaves the state unchanged |
| `CubeProperties.MoveFrontIsRotate` | rubiks-sim/cube.py:28-29 | moving `F` needs no reorientation: it is the front rotation itself |
| `CubeProperties.MoveInFrontFrame` | rubiks-sim/cube.py:89-97 | a move conjugates the front rotation by the adjacency turns |
| `CubeProperties.MoveTurnsFace` | rubiks-sim/cube.py:89-97 | `move(f, '+')` turns face `f` itself clockwise and `move(f, '-')` counter-clockwise, and the face opposite `f` keeps every cell |
| `CubeProperties.MoveOrderFour` | rubiks-sim/cube.py:89-97 | the same move four times in a row restores the state |
| `CubeProperties.ApplyMovesConcat` | rubiks-sim/cube.py:131-135 | applying moves `a` and then moves `b` is applying `a + b` |
| `CubeProperties.ShuffleReversible` | rubiks-sim/cube.py:131-135 | after any shuffle, the opposite moves in reverse order bring back the starting state |
| `CubeProperties.ReorientTally` | rubiks-sim/cube.py:35-56 | a reorientation keeps, for every colour, the number of facelets of that colour |
| `CubeProperties.ApplyTurnsTally` | rubiks-sim/cube.py:79-87 | the set-front reorientations keep the number of facelets of each colour |
| `CubeProperties.RotateTally` | rubiks-sim/cube.py:58-77 | a front turn keeps the number of facelets of each colour |
| `CubeProperties.MoveTally` | rubiks-sim/cube.py:89-97 | a move keeps the number of facelets of each colour |
| `CubeProperties.ApplyMovesTally` | rubiks-sim/cube.py:131-135 | any sequence of moves keeps the number of facelets of each colour |
| `CubeProperties.FrontTurnFromSolved` | rubiks-sim/cube.py:64-77 | on a new cube, `move('F', '+')` puts L's right column reversed (colour 6) on U's bottom row and leaves the cube unsolved; `move('F', '-')` then restores the new cube |
| `RubiksCubes.RubiksCube.constructor` | rubiks-sim/cube.py:13-33 | a new cube holds the initial state and is solved |
| `RubiksCubes.RubiksCube.ChangeOrientation` | rubiks-sim/cube.py:35-56 | the in-place reassignments, with the temporary front grid, leave exactly `Reorient` of the old state |
| `RubiksCubes.RubiksCube.PerformRotation` | rubiks-sim/cube.py:58-77 | the line-by-line writes through one temporary line leave exactly `Rotate` of the old state: every line ends up as read from the state before the turn |
| `RubiksCubes.RubiksCube.RunTurns` | rubiks-sim/cube.py:80-87 | the nested loops over an adjacency list leave exactly `ApplyTurns` of the old state |
| `RubiksCubes.RubiksCube.ForwardSetFront` | rubiks-sim/cube.py:79-82 | the new state is the old one reoriented by the face's adjacency entry, and the front now holds the chosen face's grid |
| `RubiksCubes.RubiksCube.BackwardSetFront` | rubiks-sim/cube.py:84-87 | the new state is the old one reoriented by the face's counter-adjacency entry, and the chosen face now holds the old front grid |
| `RubiksCubes.RubiksCube.Move` | rubiks-sim/cube.py:89-97 | succeeds exactly for a known face key and then leaves `MoveFace` of the old state; an unknown face key changes nothing |
| `RubiksCubes.RubiksCube.ShuffleState` | rubiks-sim/cube.py:131-135 | the given moves are applied in order: the new state is `ApplyMoves` of the old one |
| `RubiksCubes.RubiksCube.CopyState` | rubiks-sim/cube.py:109-114 | the copy equals the state and is a state value no later move can change |
| `RubiksCubes.SnapshotRoundTrip` | rubiks-sim/cube.py:109-122 | for every valid cube, `copy_state` followed by `restore_state` succeeds and leaves the state as it was |
| `RubiksCubes.RubiksCube.RestoreState` | rubiks-sim/cube.py:116-122 | succeeds exactly when the snapshot holds all six faces, and then the state equals the snapshot; otherwise the faces before the first missing one are copied and the rest unchanged |
| `RubiksCubes.RubiksCube.ResetState` | rubiks-sim/cube.py:124-129 | the state becomes the initial one, whatever the scramble count, and the cube is solved |
| `RubiksCubes.RubiksCube.IsSolved` | rubiks-sim/cube.py:137-141 | the result is true exactly when every face has all nine cells equal to its cell (0, 0) |

## Left out

- `apply_random_move` (rubiks-sim/cube.py:99-107): it draws from `random.choice`, and it calls
  `self.action`, which the class does not define, so every call fails.
- The random draws of `shuffle_state`: `ShuffleState` takes the drawn `(face, direction)` pairs as
  a parameter.
- `solved_state` (an alias of the live dictionary that nothing reads), `piece_positions` and
  `move_keys` (never used), and the key lists `face_keys`, `color_keys`, `direction_keys`,
  `orientation_key`, which become `Faces`, `ColourKey` and the key literals.
- numpy mechanics: `dtype=object` cells (modelled as `int`) and the views that `np.rot90` returns.
  Grids are independent values, so the model does not track aliasing between buffers.
- `RubiksCubes.RubiksCube.RestoreState`: requires every grid in the snapshot to be 3×3. The source
  copies grids of any shape, and a later move would then fail or misbehave. A snapshot with extra
  keys (which the source ignores) cannot be written as a `map<Face, Grid>`.
- `CubeProperties.MoveTally`: colour conservation is stated as "for every colour, the number of
  facelets of that colour is unchanged" (`Tally54`). This is equivalent to equality of the
  multisets of the 54 colours, but is not written with Dafny's `multiset` type. The same holds for
  `ReorientTally`, `RotateTally`, `ApplyTurnsTally` and `ApplyMovesTally`.
- That every operation permutes facelet positions is shown through inverses (`RotateUndo`,
  `ReorientOrderFour`, `MoveUndo`) and the cell-by-cell description of the front turn. No separate
  position-to-position bijection is written down.
- The commented-out example usage and printing (rubiks-sim/cube.py:143-161).
