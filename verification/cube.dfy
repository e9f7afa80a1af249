/**
 * The cube object: six faces of nine colour labels, a list of lists that
 * the face rotations and the twelve moves update.
 */
module CubeEngine {
  import opened Facelets
  import opened Moves
  import opened MoveLaws
  import opened MoveCycles
  import opened MoveNames
  import opened Edges

  class RubiksCube {
    /** faces[f][p] is the label at position p of face f. */
    var faces: seq<seq<char>>

    ghost predicate Valid()
      reads this
    {
      WellFormed(faces)
    }

    /** A fresh cube: every face holds nine copies of its own colour. */
    constructor()
      ensures Valid() && faces == Solved()
    {
      faces := ["ggggggggg", "rrrrrrrrr", "bbbbbbbbb", "ooooooooo", "wwwwwwwww", "yyyyyyyyy"];
      new;
      GridExt(faces, Solved());
    }

    /** The labels of all faces in face order, nine per face: label p of face f sits at 9 * f + p. */
    function CubeString(): (s: string)
      reads this
      requires Valid()
      ensures |s| == 54
      ensures forall f, p :: 0 <= f < 6 && 0 <= p < 9 ==> s[9 * f + p] == faces[f][p]
      ensures Deserialize(s) == faces
    {
      DeserializeSerialize(faces);
      Serialize(faces)
    }

    /** A new cube holding the same labels; it shares nothing with this one. */
    method Clone() returns (newCube: RubiksCube)
      requires Valid()
      ensures fresh(newCube) && newCube.Valid()
      ensures newCube.faces == faces
    {
      newCube := new RubiksCube();
      newCube.faces := faces;
    }

    /** Quarter rotation of one face's own nine labels, clockwise; the other faces are untouched. */
    method RotateFaceClockwise(faceIndex: int)
      requires Valid() && 0 <= faceIndex < 6
      modifies this
      ensures Valid()
      ensures faces == RotateFace(old(faces), faceIndex, true)
    {
      var face := faces[faceIndex];
      var temp := face;
      face := face[0 := temp[6]];
      face := face[1 := temp[3]];
      face := face[2 := temp[0]];
      face := face[3 := temp[7]];
      face := face[4 := temp[4]];
      face := face[5 := temp[1]];
      face := face[6 := temp[8]];
      face := face[7 := temp[5]];
      face := face[8 := temp[2]];
      assert face == RotateFace(faces, faceIndex, true)[faceIndex];
      faces := faces[faceIndex := face];
    }

    /** Quarter rotation of one face's own nine labels, counter-clockwise; the other faces are untouched. */
    method RotateFaceCounterClockwise(faceIndex: int)
      requires Valid() && 0 <= faceIndex < 6
      modifies this
      ensures Valid()
      ensures faces == RotateFace(old(faces), faceIndex, false)
    {
      var face := faces[faceIndex];
      var temp := face;
      face := face[0 := temp[2]];
      face := face[1 := temp[5]];
      face := face[2 := temp[8]];
      face := face[3 := temp[1]];
      face := face[4 := temp[4]];
      face := face[5 := temp[7]];
      face := face[6 := temp[0]];
      face := face[7 := temp[3]];
      face := face[8 := temp[6]];
      assert face == RotateFace(faces, faceIndex, false)[faceIndex];
      faces := faces[faceIndex := face];
    }

    /** Clockwise quarter turn of the front face: the face rotates, the ring of twelve facelets around it moves one strip along. */
    method F()
      requires Valid()
      modifies this
      ensures Valid()
      ensures faces == Apply(Turn(FRONT, false), old(faces))
    {
      ghost var before := faces;
      RotateFaceClockwise(0);
      ghost var rotated := faces;
      var grid := faces;
      var temp := [grid[4][6], grid[4][7], grid[4][8]];
      grid := grid[4 := grid[4][6 := grid[3][8]]];
      grid := grid[4 := grid[4][7 := grid[3][5]]];
      grid := grid[4 := grid[4][8 := grid[3][2]]];
      grid := grid[3 := grid[3][8 := grid[5][2]]];
      grid := grid[3 := grid[3][5 := grid[5][1]]];
      grid := grid[3 := grid[3][2 := grid[5][0]]];
      grid := grid[5 := grid[5][2 := grid[1][0]]];
      grid := grid[5 := grid[5][1 := grid[1][3]]];
      grid := grid[5 := grid[5][0 := grid[1][6]]];
      grid := grid[1 := grid[1][0 := temp[0]]];
      grid := grid[1 := grid[1][3 := temp[1]]];
      grid := grid[1 := grid[1][6 := temp[2]]];
      CycleF(rotated, grid);
      ApplyAfterCopies(Turn(FRONT, false), before, rotated, grid);
      faces := grid;
    }

    /** Counter-clockwise quarter turn of the front face: the face rotates, the ring of twelve facelets around it moves one strip along. */
    method Fi()
      requires Valid()
      modifies this
      ensures Valid()
      ensures faces == Apply(Turn(FRONT, true), old(faces))
    {
      ghost var before := faces;
      RotateFaceCounterClockwise(0);
      ghost var rotated := faces;
      var grid := faces;
      var temp := [grid[4][6], grid[4][7], grid[4][8]];
      grid := grid[4 := grid[4][6 := grid[1][0]]];
      grid := grid[4 := grid[4][7 := grid[1][3]]];
      grid := grid[4 := grid[4][8 := grid[1][6]]];
      grid := grid[1 := grid[1][0 := grid[5][2]]];
      grid := grid[1 := grid[1][3 := grid[5][1]]];
      grid := grid[1 := grid[1][6 := grid[5][0]]];
      grid := grid[5 := grid[5][2 := grid[3][8]]];
      grid := grid[5 := grid[5][1 := grid[3][5]]];
      grid := grid[5 := grid[5][0 := grid[3][2]]];
      grid := grid[3 := grid[3][8 := temp[0]]];
      grid := grid[3 := grid[3][5 := temp[1]]];
      grid := grid[3 := grid[3][2 := temp[2]]];
      CycleFi(rotated, grid);
      ApplyAfterCopies(Turn(FRONT, true), before, rotated, grid);
      faces := grid;
    }

    /** Clockwise quarter turn of the right face: the face rotates, the ring of twelve facelets around it moves one strip along. */
    method R()
      requires Valid()
      modifies this
      ensures Valid()
      ensures faces == Apply(Turn(RIGHT, false), old(faces))
    {
      ghost var before := faces;
      RotateFaceClockwise(1);
      ghost var rotated := faces;
      var grid := faces;
      var temp := [grid[4][2], grid[4][5], grid[4][8]];
      grid := grid[4 := grid[4][2 := grid[0][2]]];
      grid := grid[4 := grid[4][5 := grid[0][5]]];
      grid := grid[4 := grid[4][8 := grid[0][8]]];
      grid := grid[0 := grid[0][2 := grid[5][2]]];
      grid := grid[0 := grid[0][5 := grid[5][5]]];
      grid := grid[0 := grid[0][8 := grid[5][8]]];
      grid := grid[5 := grid[5][2 := grid[2][6]]];
      grid := grid[5 := grid[5][5 := grid[2][3]]];
      grid := grid[5 := grid[5][8 := grid[2][0]]];
      grid := grid[2 := grid[2][6 := temp[0]]];
      grid := grid[2 := grid[2][3 := temp[1]]];
      grid := grid[2 := grid[2][0 := temp[2]]];
      CycleR(rotated, grid);
      ApplyAfterCopies(Turn(RIGHT, false), before, rotated, grid);
      faces := grid;
    }

    /** Counter-clockwise quarter turn of the right face: the face rotates, the ring of twelve facelets around it moves one strip along. */
    method Ri()
      requires Valid()
      modifies this
      ensures Valid()
      ensures faces == Apply(Turn(RIGHT, true), old(faces))
    {
      ghost var before := faces;
      RotateFaceCounterClockwise(1);
      ghost var rotated := faces;
      var grid := faces;
      var temp := [grid[4][2], grid[4][5], grid[4][8]];
      grid := grid[4 := grid[4][2 := grid[2][6]]];
      grid := grid[4 := grid[4][5 := grid[2][3]]];
      grid := grid[4 := grid[4][8 := grid[2][0]]];
      grid := grid[2 := grid[2][6 := grid[5][2]]];
      grid := grid[2 := grid[2][3 := grid[5][5]]];
      grid := grid[2 := grid[2][0 := grid[5][8]]];
      grid := grid[5 := grid[5][2 := grid[0][2]]];
      grid := grid[5 := grid[5][5 := grid[0][5]]];
      grid := grid[5 := grid[5][8 := grid[0][8]]];
      grid := grid[0 := grid[0][2 := temp[0]]];
      grid := grid[0 := grid[0][5 := temp[1]]];
      grid := grid[0 := grid[0][8 := temp[2]]];
      CycleRi(rotated, grid);
      ApplyAfterCopies(Turn(RIGHT, true), before, rotated, grid);
      faces := grid;
    }

    /** Clockwise quarter turn of the up face: the face rotates, the ring of twelve facelets around it moves one strip along. */
    method U()
      requires Valid()
      modifies this
      ensures Valid()
      ensures faces == Apply(Turn(UP, false), old(faces))
    {
      ghost var before := faces;
      RotateFaceClockwise(4);
      ghost var rotated := faces;
      var grid := faces;
      var temp := [grid[0][0], grid[0][1], grid[0][2]];
      grid := grid[0 := grid[0][0 := grid[1][0]]];
      grid := grid[0 := grid[0][1 := grid[1][1]]];
      grid := grid[0 := grid[0][2 := grid[1][2]]];
      grid := grid[1 := grid[1][0 := grid[2][0]]];
      grid := grid[1 := grid[1][1 := grid[2][1]]];
      grid := grid[1 := grid[1][2 := grid[2][2]]];
      grid := grid[2 := grid[2][0 := grid[3][0]]];
      grid := grid[2 := grid[2][1 := grid[3][1]]];
      grid := grid[2 := grid[2][2 := grid[3][2]]];
      grid := grid[3 := grid[3][0 := temp[0]]];
      grid := grid[3 := grid[3][1 := temp[1]]];
      grid := grid[3 := grid[3][2 := temp[2]]];
      CycleU(rotated, grid);
      ApplyAfterCopies(Turn(UP, false), before, rotated, grid);
      faces := grid;
    }

    /** Counter-clockwise quarter turn of the up face: the face rotates, the ring of twelve facelets around it moves one strip along. */
    method Ui()
      requires Valid()
      modifies this
      ensures Valid()
      ensures faces == Apply(Turn(UP, true), old(faces))
    {
      ghost var before := faces;
      RotateFaceCounterClockwise(4);
      ghost var rotated := faces;
      var grid := faces;
      var temp := [grid[0][0], grid[0][1], grid[0][2]];
      grid := grid[0 := grid[0][0 := grid[3][0]]];
      grid := grid[0 := grid[0][1 := grid[3][1]]];
      grid := grid[0 := grid[0][2 := grid[3][2]]];
      grid := grid[3 := grid[3][0 := grid[2][0]]];
      grid := grid[3 := grid[3][1 := grid[2][1]]];
      grid := grid[3 := grid[3][2 := grid[2][2]]];
      grid := grid[2 := grid[2][0 := grid[1][0]]];
      grid := grid[2 := grid[2][1 := grid[1][1]]];
      grid := grid[2 := grid[2][2 := grid[1][2]]];
      grid := grid[1 := grid[1][0 := temp[0]]];
      grid := grid[1 := grid[1][1 := temp[1]]];
      grid := grid[1 := grid[1][2 := temp[2]]];
      CycleUi(rotated, grid);
      ApplyAfterCopies(Turn(UP, true), before, rotated, grid);
      faces := grid;
    }

    /** Clockwise quarter turn of the down face: the face rotates, the ring of twelve facelets around it moves one strip along. */
    method D()
      requires Valid()
      modifies this
      ensures Valid()
      ensures faces == Apply(Turn(DOWN, false), old(faces))
    {
      ghost var before := faces;
      RotateFaceClockwise(5);
      ghost var rotated := faces;
      var grid := faces;
      var temp := [grid[0][6], grid[0][7], grid[0][8]];
      grid := grid[0 := grid[0][6 := grid[3][6]]];
      grid := grid[0 := grid[0][7 := grid[3][7]]];
      grid := grid[0 := grid[0][8 := grid[3][8]]];
      grid := grid[3 := grid[3][6 := grid[2][6]]];
      grid := grid[3 := grid[3][7 := grid[2][7]]];
      grid := grid[3 := grid[3][8 := grid[2][8]]];
      grid := grid[2 := grid[2][6 := grid[1][6]]];
      grid := grid[2 := grid[2][7 := grid[1][7]]];
      grid := grid[2 := grid[2][8 := grid[1][8]]];
      grid := grid[1 := grid[1][6 := temp[0]]];
      grid := grid[1 := grid[1][7 := temp[1]]];
      grid := grid[1 := grid[1][8 := temp[2]]];
      CycleD(rotated, grid);
      ApplyAfterCopies(Turn(DOWN, false), before, rotated, grid);
      faces := grid;
    }

    /** Counter-clockwise quarter turn of the down face: the face rotates, the ring of twelve facelets around it moves one strip along. */
    method Di()
      requires Valid()
      modifies this
      ensures Valid()
      ensures faces == Apply(Turn(DOWN, true), old(faces))
    {
      ghost var before := faces;
      RotateFaceCounterClockwise(5);
      ghost var rotated := faces;
      var grid := faces;
      var temp := [grid[0][6], grid[0][7], grid[0][8]];
      grid := grid[0 := grid[0][6 := grid[1][6]]];
      grid := grid[0 := grid[0][7 := grid[1][7]]];
      grid := grid[0 := grid[0][8 := grid[1][8]]];
      grid := grid[1 := grid[1][6 := grid[2][6]]];
      grid := grid[1 := grid[1][7 := grid[2][7]]];
      grid := grid[1 := grid[1][8 := grid[2][8]]];
      grid := grid[2 := grid[2][6 := grid[3][6]]];
      grid := grid[2 := grid[2][7 := grid[3][7]]];
      grid := grid[2 := grid[2][8 := grid[3][8]]];
      grid := grid[3 := grid[3][6 := temp[0]]];
      grid := grid[3 := grid[3][7 := temp[1]]];
      grid := grid[3 := grid[3][8 := temp[2]]];
      CycleDi(rotated, grid);
      ApplyAfterCopies(Turn(DOWN, true), before, rotated, grid);
      faces := grid;
    }

    /** Clockwise quarter turn of the left face: the face rotates, the ring of twelve facelets around it moves one strip along. */
    method L()
      requires Valid()
      modifies this
      ensures Valid()
      ensures faces == Apply(Turn(LEFT, false), old(faces))
    {
      ghost var before := faces;
      RotateFaceClockwise(3);
      ghost var rotated := faces;
      var grid := faces;
      var temp := [grid[4][0], grid[4][3], grid[4][6]];
      grid := grid[4 := grid[4][0 := grid[2][8]]];
      grid := grid[4 := grid[4][3 := grid[2][5]]];
      grid := grid[4 := grid[4][6 := grid[2][2]]];
      grid := grid[2 := grid[2][8 := grid[5][0]]];
      grid := grid[2 := grid[2][5 := grid[5][3]]];
      grid := grid[2 := grid[2][2 := grid[5][6]]];
      grid := grid[5 := grid[5][0 := grid[0][0]]];
      grid := grid[5 := grid[5][3 := grid[0][3]]];
      grid := grid[5 := grid[5][6 := grid[0][6]]];
      grid := grid[0 := grid[0][0 := temp[0]]];
      grid := grid[0 := grid[0][3 := temp[1]]];
      grid := grid[0 := grid[0][6 := temp[2]]];
      CycleL(rotated, grid);
      ApplyAfterCopies(Turn(LEFT, false), before, rotated, grid);
      faces := grid;
    }

    /** Counter-clockwise quarter turn of the left face: the face rotates, the ring of twelve facelets around it moves one strip along. */
    method Li()
      requires Valid()
      modifies this
      ensures Valid()
      ensures faces == Apply(Turn(LEFT, true), old(faces))
    {
      ghost var before := faces;
      RotateFaceCounterClockwise(3);
      ghost var rotated := faces;
      var grid := faces;
      var temp := [grid[4][0], grid[4][3], grid[4][6]];
      grid := grid[4 := grid[4][0 := grid[0][0]]];
      grid := grid[4 := grid[4][3 := grid[0][3]]];
      grid := grid[4 := grid[4][6 := grid[0][6]]];
      grid := grid[0 := grid[0][0 := grid[5][0]]];
      grid := grid[0 := grid[0][3 := grid[5][3]]];
      grid := grid[0 := grid[0][6 := grid[5][6]]];
      grid := grid[5 := grid[5][0 := grid[2][8]]];
      grid := grid[5 := grid[5][3 := grid[2][5]]];
      grid := grid[5 := grid[5][6 := grid[2][2]]];
      grid := grid[2 := grid[2][8 := temp[0]]];
      grid := grid[2 := grid[2][5 := temp[1]]];
      grid := grid[2 := grid[2][2 := temp[2]]];
      CycleLi(rotated, grid);
      ApplyAfterCopies(Turn(LEFT, true), before, rotated, grid);
      faces := grid;
    }

    /** Clockwise quarter turn of the back face: the face rotates, the ring of twelve facelets around it moves one strip along. */
    method B()
      requires Valid()
      modifies this
      ensures Valid()
      ensures faces == Apply(Turn(BACK, false), old(faces))
    {
      ghost var before := faces;
      RotateFaceClockwise(2);
      ghost var rotated := faces;
      var grid := faces;
      var temp := [grid[4][0], grid[4][1], grid[4][2]];
      grid := grid[4 := grid[4][0 := grid[1][2]]];
      grid := grid[4 := grid[4][1 := grid[1][5]]];
      grid := grid[4 := grid[4][2 := grid[1][8]]];
      grid := grid[1 := grid[1][2 := grid[5][8]]];
      grid := grid[1 := grid[1][5 := grid[5][7]]];
      grid := grid[1 := grid[1][8 := grid[5][6]]];
      grid := grid[5 := grid[5][8 := grid[3][6]]];
      grid := grid[5 := grid[5][7 := grid[3][3]]];
      grid := grid[5 := grid[5][6 := grid[3][0]]];
      grid := grid[3 := grid[3][6 := temp[0]]];
      grid := grid[3 := grid[3][3 := temp[1]]];
      grid := grid[3 := grid[3][0 := temp[2]]];
      CycleB(rotated, grid);
      ApplyAfterCopies(Turn(BACK, false), before, rotated, grid);
      faces := grid;
    }

    /** Counter-clockwise quarter turn of the back face: the face rotates, the ring of twelve facelets around it moves one strip along. */
    method Bi()
      requires Valid()
      modifies this
      ensures Valid()
      ensures faces == Apply(Turn(BACK, true), old(faces))
    {
      ghost var before := faces;
      RotateFaceCounterClockwise(2);
      ghost var rotated := faces;
      var grid := faces;
      var temp := [grid[4][0], grid[4][1], grid[4][2]];
      grid := grid[4 := grid[4][0 := grid[3][6]]];
      grid := grid[4 := grid[4][1 := grid[3][3]]];
      grid := grid[4 := grid[4][2 := grid[3][0]]];
      grid := grid[3 := grid[3][6 := grid[5][8]]];
      grid := grid[3 := grid[3][3 := grid[5][7]]];
      grid := grid[3 := grid[3][0 := grid[5][6]]];
      grid := grid[5 := grid[5][8 := grid[1][2]]];
      grid := grid[5 := grid[5][7 := grid[1][5]]];
      grid := grid[5 := grid[5][6 := grid[1][8]]];
      grid := grid[1 := grid[1][2 := temp[0]]];
      grid := grid[1 := grid[1][5 := temp[1]]];
      grid := grid[1 := grid[1][8 := temp[2]]];
      CycleBi(rotated, grid);
      ApplyAfterCopies(Turn(BACK, true), before, rotated, grid);
      faces := grid;
    }

    /** executeMove: the named move, and nothing at all for any other name. */
    method ExecuteMove(move: string)
      requires Valid()
      modifies this
      ensures Valid()
      ensures faces == Execute(move, old(faces))
    {
      if move == "F" {
        F();
      } else if move == "F'" {
        Fi();
      } else if move == "R" {
        R();
      } else if move == "R'" {
        Ri();
      } else if move == "U" {
        U();
      } else if move == "U'" {
        Ui();
      } else if move == "D" {
        D();
      } else if move == "D'" {
        Di();
      } else if move == "L" {
        L();
      } else if move == "L'" {
        Li();
      } else if move == "B" {
        B();
      } else if move == "B'" {
        Bi();
      }
    }

    /**
     * scramble: `moves` moves, each drawn from the move list and executed in
     * turn; picks[i] is the index the random draw of step i yields.
     */
    method Scramble(moves: int, picks: seq<int>) returns (scrambleMoves: seq<string>)
      requires Valid()
      requires moves <= |picks|
      requires forall i :: 0 <= i < |picks| ==> 0 <= picks[i] < 12
      modifies this
      ensures Valid()
      ensures |scrambleMoves| == if moves < 0 then 0 else moves
      ensures forall i :: 0 <= i < |scrambleMoves| ==> scrambleMoves[i] == MOVE_LIST[picks[i]]
      ensures faces == ExecuteAll(scrambleMoves, old(faces))
    {
      var moveList := MOVE_LIST;
      scrambleMoves := [];
      var i := 0;
      while i < moves
        invariant Valid()
        invariant 0 <= i && (moves >= 0 ==> i <= moves) && (moves < 0 ==> i == 0)
        invariant |scrambleMoves| == i
        invariant forall k :: 0 <= k < i ==> scrambleMoves[k] == MOVE_LIST[picks[k]]
        invariant faces == ExecuteAll(scrambleMoves, old(faces))
      {
        var move := moveList[picks[i]];
        ExecuteMove(move);
        ExecuteAllSnoc(scrambleMoves, move, old(faces));
        scrambleMoves := scrambleMoves + [move];
        i := i + 1;
      }
    }

    /** isSolved: every label of every face equals that face's centre label. */
    function IsSolved(): (b: bool)
      reads this
      requires Valid()
      ensures b <==> forall f: FaceId, p: Pos, q: Pos :: At(faces, Cell(f, p)) == At(faces, Cell(f, q))
    {
      SolvedIffUniform(faces);
      IsSolvedGrid(faces)
    }

    /** getColor: the label at one position of one face, as it appears in the cube string. */
    function GetColor(face: int, position: int): (c: char)
      reads this
      requires Valid() && 0 <= face < 6 && 0 <= position < 9
      ensures c == CubeString()[9 * face + position]
    {
      faces[face][position]
    }

    /**
     * findEdge: scan the edge positions in order and return the first whose
     * edge piece shows color1 and color2, in either order; None when none does.
     */
    method FindEdge(color1: string, color2: string) returns (r: Option<Cell>)
      requires Valid()
      ensures r == Edges.FindEdge(faces, color1, color2)
      ensures r.Some? ==> EdgeMatches(faces, r.value, color1, color2)
      ensures r.None? <==> forall c: Cell :: !EdgeMatches(faces, c, color1, color2)
    {
      FindEdgeFirstMatch(faces, color1, color2);
      var i := 0;
      while i < 24
        invariant 0 <= i <= 24
        invariant forall j :: 0 <= j < i ==> !EdgeMatches(faces, EdgePosition(j), color1, color2)
      {
        var pos := EdgePosition(i);
        var adjacentPos := AdjacentEdge(pos.face, pos.pos);
        if adjacentPos.Some? {
          var c1 := [GetColor(pos.face, pos.pos)];
          var c2 := [GetColor(adjacentPos.value.face, adjacentPos.value.pos)];
          if (c1 == color1 && c2 == color2) || (c1 == color2 && c2 == color1) {
            FindEdgeAt(faces, color1, color2, i);
            return Some(pos);
          }
        }
        i := i + 1;
      }
      return None;
    }
  }
}
