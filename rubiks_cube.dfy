/** The simulator object: a cube whose state dictionary its methods update in place.
    Each method does what the simulator does, step by step (the temporary grid of
    change_orientation, the one buffered line of perform_rotation, the nested loops over
    the adjacency lists, the loop with an early return of is_solved), and is proved to
    leave the state that the matching function of CubeSpec describes. */
module RubiksCubes {
  import opened Grids
  import opened CubeSpec
  import CubeProperties

  class RubiksCube {
    /** The state dictionary: a 3×3 grid under each face key. */
    var state: State

    ghost predicate Valid()
      reads this
    {
      IsState(state)
    }

    /** A new cube is solved, each face filled with its colour key. */
    constructor ()
      ensures Valid() && state == Initial()
      ensures Solved(state)
    {
      state := Initial();
      CubeProperties.InitialSolved();
    }

    /** One whole-cube quarter turn about the axis named by the key; an unknown key
        changes nothing. */
    method ChangeOrientation(key: string)
      requires Valid()
      modifies this
      ensures Valid() && state == Reorient(old(state), key)
    {
      if key == "h" {
        var temp := state[F];
        state := state[F := state[R]];
        state := state[R := state[B]];
        state := state[B := state[L]];
        state := state[L := temp];
        state := state[U := RotCw(state[U])];
        state := state[D := RotCcw(state[D])];
      } else if key == "v" {
        var temp := state[F];
        state := state[F := state[U]];
        state := state[U := Rot180(state[B])];
        state := state[B := Rot180(state[D])];
        state := state[D := temp];
        state := state[L := RotCw(state[L])];
        state := state[R := RotCcw(state[R])];
      }
    }

    /** Turns the current front face a quarter turn and carries the belt lines around it,
        writing one line at a time and keeping the first line overwritten in a temporary. */
    method PerformRotation(key: string)
      requires Valid()
      modifies this
      ensures Valid() && state == Rotate(old(state), key)
    {
      if key == "+" {
        state := state[F := RotCw(state[F])];
        var temp := Row(state[U], 2);
        state := state[U := WithRow(state[U], 2, Reverse(Col(state[L], 2)))];
        state := state[L := WithCol(state[L], 2, Row(state[D], 0))];
        state := state[D := WithRow(state[D], 0, Reverse(Col(state[R], 0)))];
        state := state[R := WithCol(state[R], 0, temp)];
      } else if key == "-" {
        state := state[F := RotCcw(state[F])];
        var temp := Row(state[U], 2);
        state := state[U := WithRow(state[U], 2, Col(state[R], 0))];
        state := state[R := WithCol(state[R], 0, Reverse(Row(state[D], 0)))];
        state := state[D := WithRow(state[D], 0, Col(state[L], 2))];
        state := state[L := WithCol(state[L], 2, Reverse(temp))];
      }
    }

    /** The nested loops of forward_set_front and backward_set_front: for each entry of
        an adjacency list, count % 4 reorientations with its key. */
    method RunTurns(turns: seq<Turn>)
      requires Valid()
      modifies this
      ensures Valid() && state == ApplyTurns(old(state), turns)
    {
      for i := 0 to |turns|
        invariant Valid() && state == ApplyTurns(old(state), turns[..i])
      {
        var t := turns[i];
        ghost var before := state;
        for k := 0 to t.count % 4
          invariant Valid() && state == ReorientTimes(before, t.axis, k)
        {
          ChangeOrientation(t.axis);
        }
        assert turns[..i + 1][..i] == turns[..i];
      }
      assert turns[..|turns|] == turns;
    }

    /** Reorients the cube so that the given face is at the front. */
    method ForwardSetFront(face: Face)
      requires Valid()
      modifies this
      ensures Valid() && state == ApplyTurns(old(state), Adjacency(face))
      ensures state[F] == old(state)[face]
    {
      RunTurns(Adjacency(face));
      CubeProperties.FrontOf(old(state), face);
    }

    /** Reorients the cube back after ForwardSetFront on the same face. */
    method BackwardSetFront(face: Face)
      requires Valid()
      modifies this
      ensures Valid() && state == ApplyTurns(old(state), CounterAdjacency(face))
      ensures state[face] == old(state)[F]
    {
      RunTurns(CounterAdjacency(face));
      CubeProperties.BackOf(old(state), face);
    }

    /** Turns the face with the given key in the given direction. A face key that is not in
        the adjacency table fails the lookup before anything changes (ok is false). */
    method Move(faceKey: string, directionKey: string) returns (ok: bool)
      requires Valid()
      modifies this
      ensures Valid()
      ensures ok <==> FaceOfKey(faceKey).Some?
      ensures ok ==> state == MoveFace(old(state), FaceOfKey(faceKey).value, directionKey)
      ensures !ok ==> state == old(state)
    {
      var found := FaceOfKey(faceKey);
      if found.None? {
        return false;
      }
      var face := found.value;
      ForwardSetFront(face);
      PerformRotation(directionKey);
      BackwardSetFront(face);
      return true;
    }

    /** shuffle_state with the moves it draws given: each move is applied in turn. */
    method ShuffleState(moves: seq<(Face, string)>)
      requires Valid()
      modifies this
      ensures Valid() && state == ApplyMoves(old(state), moves)
    {
      for i := 0 to |moves|
        invariant Valid() && state == ApplyMoves(old(state), moves[..i])
      {
        var ok := Move(KeyOf(moves[i].0), moves[i].1);
        assert FaceOfKey(KeyOf(moves[i].0)) == Some(moves[i].0);
        assert moves[..i + 1][..i] == moves[..i];
      }
      assert moves[..|moves|] == moves;
    }

    /** A copy of the state. Grids are values, so later moves cannot reach the copy. */
    method CopyState() returns (snapshot: State)
      requires Valid()
      ensures snapshot == state
      ensures IsState(snapshot)
    {
      snapshot := map f | f in Faces :: state[f];
      assert Faces[0] == F && Faces[1] == B && Faces[2] == U && Faces[3] == D && Faces[4] == R && Faces[5] == L;
      SixFaces(snapshot);
      StateExt(snapshot, state);
    }

    /** Copies the faces of a snapshot into the state, in the order of face_keys (F, B, U, D,
        R, L). A snapshot
        that lacks a face key fails at that key (ok is false), after the faces before it
        have been copied. */
    method RestoreState(snapshot: map<Face, Grid>) returns (ok: bool)
      requires Valid()
      requires forall f | f in snapshot :: IsGrid(snapshot[f])
      modifies this
      ensures Valid()
      ensures ok <==> PresentPrefix(snapshot) == |Faces|
      ensures ok ==> state == snapshot
      ensures forall k | 0 <= k < |Faces| ::
        state[Faces[k]] == if k < PresentPrefix(snapshot) then snapshot[Faces[k]] else old(state)[Faces[k]]
    {
      var n := PresentPrefix(snapshot);
      for i := 0 to |Faces|
        invariant Valid() && i <= n
        invariant forall k | 0 <= k < |Faces| ::
          state[Faces[k]] == if k < i then snapshot[Faces[k]] else old(state)[Faces[k]]
      {
        if Faces[i] !in snapshot {
          return false;
        }
        state := state[Faces[i] := snapshot[Faces[i]]];
      }
      SixFaces(snapshot);
      StateExt(state, snapshot);
      return true;
    }

    /** Puts the cube back to the state it was built with. The scramble count is
        accepted and ignored. */
    method ResetState(scrambleMoves: int)
      modifies this
      ensures Valid() && state == Initial()
      ensures Solved(state)
    {
      state := Initial();
      CubeProperties.InitialSolved();
    }

    /** Whether every face has nine equal cells; returns at the first face that has not. */
    method IsSolved() returns (solved: bool)
      requires Valid()
      ensures solved == Solved(state)
    {
      for i := 0 to |Faces|
        invariant forall k | 0 <= k < i :: Uniform(state[Faces[k]])
      {
        if !Uniform(state[Faces[i]]) {
          return false;
        }
      }
      assert Faces[0] == F && Faces[1] == B && Faces[2] == U && Faces[3] == D && Faces[4] == R && Faces[5] == L;
      forall f: Face ensures Uniform(state[f]) {
        match f
        case F => case B => case U => case D => case R => case L =>
      }
      return true;
    }
  }

  /** copy_state followed by restore_state on any valid cube succeeds and leaves the state
      as it was. */
  method SnapshotRoundTrip(cube: RubiksCube) returns (ok: bool)
    requires cube.Valid()
    modifies cube
    ensures cube.Valid()
    ensures ok && cube.state == old(cube.state)
  {
    var snapshot := cube.CopyState();
    ok := cube.RestoreState(snapshot);
  }

  /** Snapshot isolation and the scenario of a front turn: after move('F', '+') on a new
      cube the bottom row of U is the old right column of L reversed, the snapshot taken
      before the move still holds the solved cube, restoring it brings the solved cube
      back, and the cube then reports itself solved. */
  method SnapshotScenario()
  {
    var cube := new RubiksCube();
    var snapshot := cube.CopyState();
    var ok := cube.Move("F", "+");
    assert ok;
    CubeProperties.FrontTurnFromSolved();
    assert Row(cube.state[U], 2) == Reverse(Col(snapshot[L], 2));
    assert snapshot == Initial();
    var restored := cube.RestoreState(snapshot);
    assert restored && cube.state == Initial();
    var solved := cube.IsSolved();
    assert solved;
  }
}
