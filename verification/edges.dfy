/**
 * Edge pieces: the fixed table pairing the two facelets of each of the
 * twelve edge pieces, and the search for the edge showing two colours.
 */
module Edges {
  import opened Facelets

  /** The four edge positions of a face: the middles of its sides. */
  predicate IsEdgePos(p: int) {
    p == 1 || p == 3 || p == 5 || p == 7
  }

  /**
   * getAdjacentEdgePosition: the facelet on the same edge piece as position
   * `position` of face `face`; None for any key the table does not hold.
   */
  function AdjacentEdge(face: int, position: int): (r: Option<Cell>)
    ensures r.Some? <==> 0 <= face < 6 && IsEdgePos(position)
    ensures r.Some? ==> r.value.face != face && IsEdgePos(r.value.pos)
  {
    match (face, position)
    case (0, 1) => Some(Cell(4, 7))
    case (0, 3) => Some(Cell(3, 5))
    case (0, 5) => Some(Cell(1, 3))
    case (0, 7) => Some(Cell(5, 1))
    case (1, 1) => Some(Cell(4, 5))
    case (1, 3) => Some(Cell(0, 5))
    case (1, 5) => Some(Cell(2, 3))
    case (1, 7) => Some(Cell(5, 5))
    case (2, 1) => Some(Cell(4, 1))
    case (2, 3) => Some(Cell(1, 5))
    case (2, 5) => Some(Cell(3, 3))
    case (2, 7) => Some(Cell(5, 7))
    case (3, 1) => Some(Cell(4, 3))
    case (3, 3) => Some(Cell(2, 5))
    case (3, 5) => Some(Cell(0, 3))
    case (3, 7) => Some(Cell(5, 3))
    case (4, 1) => Some(Cell(2, 1))
    case (4, 3) => Some(Cell(3, 1))
    case (4, 5) => Some(Cell(1, 1))
    case (4, 7) => Some(Cell(0, 1))
    case (5, 1) => Some(Cell(0, 7))
    case (5, 3) => Some(Cell(3, 7))
    case (5, 5) => Some(Cell(1, 7))
    case (5, 7) => Some(Cell(2, 7))
    case _ => None
  }

  /** The table pairs facelets two by two: looking up the partner leads back, and no facelet is its own partner. */
  lemma AdjacentInvolution(face: int, position: int)
    requires AdjacentEdge(face, position).Some?
    ensures var a := AdjacentEdge(face, position).value;
      AdjacentEdge(a.face, a.pos) == Some(Cell(face, position)) && a != Cell(face, position)
  {
  }

  /** Entry i of findEdge's scan list: faces in order, positions 1, 3, 5, 7 within a face. */
  function EdgePosition(i: int): (c: Cell)
    requires 0 <= i < 24
    ensures IsEdgePos(c.pos)
  {
    var f := if i < 4 then 0 else if i < 8 then 1 else if i < 12 then 2 else if i < 16 then 3 else if i < 20 then 4 else 5;
    Cell(f, 2 * (i - 4 * f) + 1)
  }

  /** The scan list holds every edge facelet exactly once. */
  lemma EdgePositionsEnumerate(c: Cell)
    ensures IsEdgePos(c.pos) <==> exists i :: 0 <= i < 24 && EdgePosition(i) == c
    ensures forall i, j :: 0 <= i < 24 && 0 <= j < 24 && EdgePosition(i) == EdgePosition(j) ==> i == j
  {
    if IsEdgePos(c.pos) {
      var i := 4 * c.face + (c.pos - 1) / 2;
      assert EdgePosition(i) == c;
    }
    forall i, j | 0 <= i < 24 && 0 <= j < 24 && EdgePosition(i) == EdgePosition(j) ensures i == j {
      assert i == 4 * (i / 4) + i % 4;
      assert j == 4 * (j / 4) + j % 4;
    }
  }

  /** findEdge's test of one facelet: it has a partner, and the pair shows color1 and color2 in either order. */
  predicate EdgeMatches(g: Grid, c: Cell, color1: string, color2: string)
    requires WellFormed(g)
  {
    match AdjacentEdge(c.face, c.pos)
    case None => false
    case Some(a) =>
      var c1, c2 := [At(g, c)], [At(g, a)];
      (c1 == color1 && c2 == color2) || (c1 == color2 && c2 == color1)
  }

  /** The first index, from `from` on, of the scan list whose facelet matches; -1 when none does. */
  function EdgeScan(g: Grid, color1: string, color2: string, from: nat): (i: int)
    requires WellFormed(g) && from <= 24
    ensures -1 <= i < 24
    ensures 0 <= i ==> from <= i && EdgeMatches(g, EdgePosition(i), color1, color2)
    ensures 0 <= i ==> forall j :: from <= j < i ==> !EdgeMatches(g, EdgePosition(j), color1, color2)
    ensures i == -1 <==> forall j :: from <= j < 24 ==> !EdgeMatches(g, EdgePosition(j), color1, color2)
    decreases 24 - from
  {
    if from == 24 then -1
    else if EdgeMatches(g, EdgePosition(from), color1, color2) then from
    else EdgeScan(g, color1, color2, from + 1)
  }

  /** findEdge on a grid: the first scanned facelet whose edge shows the two colours, or None. */
  function FindEdge(g: Grid, color1: string, color2: string): Option<Cell>
    requires WellFormed(g)
  {
    var i := EdgeScan(g, color1, color2, 0);
    if i < 0 then None else Some(EdgePosition(i))
  }

  /** findEdge's answer is the first facelet, in scan order, on an edge showing the two colours; null only when there is none. */
  lemma FindEdgeFirstMatch(g: Grid, color1: string, color2: string)
    requires WellFormed(g)
    ensures FindEdge(g, color1, color2).Some? ==>
      exists i :: 0 <= i < 24 && EdgePosition(i) == FindEdge(g, color1, color2).value &&
        EdgeMatches(g, EdgePosition(i), color1, color2) &&
        forall j :: 0 <= j < i ==> !EdgeMatches(g, EdgePosition(j), color1, color2)
    ensures FindEdge(g, color1, color2).None? <==>
      forall c: Cell :: !EdgeMatches(g, c, color1, color2)
  {
    var i := EdgeScan(g, color1, color2, 0);
    if i >= 0 {
      assert EdgePosition(i) == FindEdge(g, color1, color2).value;
    } else {
      forall c: Cell ensures !EdgeMatches(g, c, color1, color2) {
        if IsEdgePos(c.pos) {
          EdgePositionsEnumerate(c);
        }
      }
    }
  }

  /** The scan stops at the first match: a match at i after none before it is findEdge's answer. */
  lemma FindEdgeAt(g: Grid, color1: string, color2: string, i: int)
    requires WellFormed(g) && 0 <= i < 24
    requires forall j :: 0 <= j < i ==> !EdgeMatches(g, EdgePosition(j), color1, color2)
    requires EdgeMatches(g, EdgePosition(i), color1, color2)
    ensures FindEdge(g, color1, color2) == Some(EdgePosition(i))
  {
    assert EdgeScan(g, color1, color2, 0) == i;
  }

  /** The order of the two colours does not matter. */
  lemma {:induction false} EdgeScanSymmetric(g: Grid, color1: string, color2: string, from: nat)
    requires WellFormed(g) && from <= 24
    ensures EdgeScan(g, color1, color2, from) == EdgeScan(g, color2, color1, from)
    decreases 24 - from
  {
    if from < 24 {
      EdgeScanSymmetric(g, color1, color2, from + 1);
    }
  }

  lemma FindEdgeSymmetric(g: Grid, color1: string, color2: string)
    requires WellFormed(g)
    ensures FindEdge(g, color1, color2) == FindEdge(g, color2, color1)
  {
    EdgeScanSymmetric(g, color1, color2, 0);
  }

  /** Facelet colours are single labels, so a colour argument of any other length is never found. */
  lemma FindEdgeNeedsLabels(g: Grid, color1: string, color2: string)
    requires WellFormed(g) && (|color1| != 1 || |color2| != 1)
    ensures FindEdge(g, color1, color2) == None
  {
    forall c: Cell ensures !EdgeMatches(g, c, color1, color2) {
    }
    FindEdgeFirstMatch(g, color1, color2);
  }

  /** On a fresh cube the green-white edge is found first at Front 1, whose partner is Up 7. */
  lemma FreshGreenWhite()
    ensures FindEdge(Solved(), "g", "w") == Some(Cell(FRONT, 1))
  {
    assert EdgeMatches(Solved(), EdgePosition(0), "g", "w");
  }

  /** On a fresh cube the green-yellow edge is found at Front 7, whose partner is Down 1. */
  lemma FreshGreenYellow()
    ensures FindEdge(Solved(), "g", "y") == Some(Cell(FRONT, 7))
  {
    var g := Solved();
    assert !EdgeMatches(g, EdgePosition(0), "g", "y");
    assert !EdgeMatches(g, EdgePosition(1), "g", "y");
    assert !EdgeMatches(g, EdgePosition(2), "g", "y");
    assert EdgeMatches(g, EdgePosition(3), "g", "y");
  }

  /** On a fresh cube no edge shows green and blue: Front and Back share no edge. */
  lemma FreshGreenBlueAbsent()
    ensures FindEdge(Solved(), "g", "b") == None
  {
    var g := Solved();
    forall c: Cell ensures !EdgeMatches(g, c, "g", "b") {
    }
    FindEdgeFirstMatch(g, "g", "b");
  }
}
