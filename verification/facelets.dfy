/** The facelet grid: six faces of nine colour labels each. */
module Facelets {

  datatype Option<T> = None | Some(value: T)

  /** Face index: 0 Front, 1 Right, 2 Back, 3 Left, 4 Up, 5 Down. */
  type FaceId = f: int | 0 <= f < 6

  /** Position on a face, row-major: 0 1 2 / 3 4 5 / 6 7 8. */
  type Pos = p: int | 0 <= p < 9

  const FRONT: FaceId := 0
  const RIGHT: FaceId := 1
  const BACK: FaceId := 2
  const LEFT: FaceId := 3
  const UP: FaceId := 4
  const DOWN: FaceId := 5

  /** The position every face rotation leaves in place. */
  const CENTRE: Pos := 4

  /** One facelet (sticker) of the cube. */
  datatype Cell = Cell(face: FaceId, pos: Pos)

  /** faces[f][p] is the colour label at position p of face f. */
  type Grid = seq<seq<char>>

  predicate WellFormed(g: Grid) {
    |g| == 6 && forall f :: 0 <= f < 6 ==> |g[f]| == 9
  }

  function At(g: Grid, c: Cell): char
    requires WellFormed(g)
  {
    g[c.face][c.pos]
  }

  /** Two grids that agree on every facelet are the same grid. */
  lemma GridExt(a: Grid, b: Grid)
    requires WellFormed(a) && WellFormed(b)
    requires forall c: Cell :: At(a, c) == At(b, c)
    ensures a == b
  {
    forall f | 0 <= f < 6 ensures a[f] == b[f] {
      forall p | 0 <= p < 9 ensures a[f][p] == b[f][p] {
        assert At(a, Cell(f, p)) == At(b, Cell(f, p));
      }
    }
  }

  /** The colour of each face on a fresh cube. */
  function FaceColor(f: FaceId): char {
    ['g', 'r', 'b', 'o', 'w', 'y'][f]
  }

  /** The grid the constructor builds: face f holds nine copies of FaceColor(f). */
  function Solved(): (g: Grid)
    ensures WellFormed(g)
    ensures forall c: Cell :: At(g, c) == FaceColor(c.face)
  {
    seq(6, f requires 0 <= f < 6 => seq(9, p => FaceColor(f)))
  }

  /** The source's solved check: every facelet of a face equals that face's position 4. */
  predicate IsSolvedGrid(g: Grid)
    requires WellFormed(g)
  {
    forall f, p :: 0 <= f < 6 && 0 <= p < 9 ==> g[f][p] == g[f][CENTRE]
  }

  /** Solved means every face is uniform; the centre plays no special role. */
  lemma SolvedIffUniform(g: Grid)
    requires WellFormed(g)
    ensures IsSolvedGrid(g) <==>
      forall f: FaceId, p: Pos, q: Pos :: At(g, Cell(f, p)) == At(g, Cell(f, q))
  {
    if IsSolvedGrid(g) {
      forall f: FaceId, p: Pos, q: Pos ensures At(g, Cell(f, p)) == At(g, Cell(f, q)) {
        assert At(g, Cell(f, p)) == At(g, Cell(f, CENTRE));
        assert At(g, Cell(f, q)) == At(g, Cell(f, CENTRE));
      }
    } else {
      var f, p :| 0 <= f < 6 && 0 <= p < 9 && g[f][p] != g[f][CENTRE];
      assert At(g, Cell(f, p)) != At(g, Cell(f, CENTRE));
    }
  }

  /** A fresh cube is solved. */
  lemma FreshIsSolved()
    ensures IsSolvedGrid(Solved())
  {
    forall c: Cell ensures At(Solved(), c) == At(Solved(), Cell(c.face, CENTRE)) {
      assert At(Solved(), Cell(c.face, CENTRE)) == FaceColor(c.face);
    }
  }

  /** The flat serialisation: the faces' labels joined in face order. */
  function Serialize(g: Grid): (s: string)
    requires forall f :: 0 <= f < |g| ==> |g[f]| == 9
    ensures |s| == 9 * |g|
    ensures forall f, p :: 0 <= f < |g| && 0 <= p < 9 ==> s[9 * f + p] == g[f][p]
  {
    if g == [] then [] else g[0] + Serialize(g[1..])
  }

  /** Reads a 54-label string back into six faces of nine labels. */
  function Deserialize(s: string): (g: Grid)
    requires |s| == 54
    ensures WellFormed(g)
  {
    seq(6, f requires 0 <= f < 6 => s[9 * f .. 9 * f + 9])
  }

  lemma DeserializeSerialize(g: Grid)
    requires WellFormed(g)
    ensures Deserialize(Serialize(g)) == g
  {
    var s := Serialize(g);
    forall c: Cell ensures At(Deserialize(s), c) == At(g, c) {
      assert At(Deserialize(s), c) == s[9 * c.face + c.pos];
    }
    GridExt(Deserialize(s), g);
  }

  lemma SerializeDeserialize(s: string)
    requires |s| == 54
    ensures Serialize(Deserialize(s)) == s
  {
    var t := Serialize(Deserialize(s));
    forall i | 0 <= i < 54 ensures t[i] == s[i] {
      var f, p := i / 9, i % 9;
      assert i == 9 * f + p;
      assert t[9 * f + p] == Deserialize(s)[f][p];
    }
  }

  /** The facelets that carry colour c. */
  function CellsWith(g: Grid, c: char): set<Cell>
    requires WellFormed(g)
  {
    set f: int, p: int | 0 <= f < 6 && 0 <= p < 9 && g[f][p] == c :: Cell(f, p)
  }

  lemma InCellsWith(g: Grid, c: char, x: Cell)
    requires WellFormed(g)
    ensures x in CellsWith(g, c) <==> At(g, x) == c
  {
    if At(g, x) == c {
      assert x == Cell(x.face, x.pos);
    }
  }

  /** How many facelets carry colour c. */
  function Count(g: Grid, c: char): nat
    requires WellFormed(g)
  {
    |CellsWith(g, c)|
  }

  /** The nine facelets of face f. */
  function FaceCells(f: FaceId): set<Cell> {
    {Cell(f, 0), Cell(f, 1), Cell(f, 2), Cell(f, 3), Cell(f, 4),
     Cell(f, 5), Cell(f, 6), Cell(f, 7), Cell(f, 8)}
  }

  lemma FaceCellsSize(f: FaceId)
    ensures |FaceCells(f)| == 9
  {
  }

  /** On a fresh cube the facelets coloured like face f are exactly face f's. */
  lemma FreshCellsWith(f: FaceId)
    ensures CellsWith(Solved(), FaceColor(f)) == FaceCells(f)
  {
    var g := Solved();
    forall x ensures x in CellsWith(g, FaceColor(f)) <==> x in FaceCells(f) {
      InCellsWith(g, FaceColor(f), x);
    }
  }

  /** A fresh cube shows each of its six colours on exactly nine facelets, and nothing else. */
  lemma FreshPopulation(c: char)
    ensures Count(Solved(), c) == if c in "grbowy" then 9 else 0
  {
    var g := Solved();
    if c in "grbowy" {
      var f: FaceId := if c == 'g' then 0 else if c == 'r' then 1 else if c == 'b' then 2
                       else if c == 'o' then 3 else if c == 'w' then 4 else 5;
      assert FaceColor(f) == c;
      FreshCellsWith(f);
      FaceCellsSize(f);
    } else {
      forall x | x in CellsWith(g, c) ensures false {
        InCellsWith(g, c, x);
      }
      assert CellsWith(g, c) == {};
    }
  }
}
