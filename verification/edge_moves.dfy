/**
 * The edge table against the turns: every turn carries the two facelets of
 * an edge piece onto the two facelets of an edge piece, so colours that
 * share an edge keep sharing one.
 */
module EdgeMoves {
  import opened Facelets
  import opened Moves
  import opened MoveLaws
  import opened Edges

  /**
   * The edge position of face f that borders strip k of the ring around f.
   * Up's ring starts at its bottom side (the Front strip); every other ring
   * starts at the face's top side.
   */
  function StripEdge(f: FaceId, k: int): (p: Pos)
    requires 0 <= k < 4
    ensures IsEdgePos(p)
  {
    if f == UP then
      (match k
      case 0 => 7
      case 1 => 5
      case 2 => 1
      case _ => 3)
    else
      (match k
      case 0 => 1
      case 1 => 3
      case 2 => 7
      case _ => 5)
  }

  /** Which strip an edge position of face f borders. */
  function EdgeStrip(f: FaceId, p: Pos): (k: int)
    requires IsEdgePos(p)
    ensures 0 <= k < 4 && StripEdge(f, k) == p
  {
    if f == UP then
      (if p == 7 then 0 else if p == 5 then 1 else if p == 1 then 2 else 3)
    else
      (if p == 1 then 0 else if p == 3 then 1 else if p == 7 then 2 else 3)
  }

  /** The table pairs the edge position bordering strip k with the middle facelet of that strip. */
  lemma StripEdgePartner(f: FaceId, k: int)
    requires 0 <= k < 4
    ensures AdjacentEdge(f, StripEdge(f, k)) == Some(RingTable(f, 3 * k + 1))
  {
  }

  /** The only edge facelets on a ring are the middles of its strips. */
  lemma RingEdgeSlots(f: FaceId, j: int)
    requires 0 <= j < 12 && IsEdgePos(RingTable(f, j).pos)
    ensures j == 3 * StripIndex(j) + 1
  {
  }

  /**
   * A turn reads the middle of strip k from the middle of another strip k', and
   * the face's rotation reads the edge bordering strip k from the edge bordering
   * the same k'.
   */
  lemma StripEdgeTurns(m: Move, k: int)
    requires 0 <= k < 4
    ensures var j := Advance(3 * k + 1, Shift(m));
      j == 3 * StripIndex(j) + 1 &&
      RotationSource(StripEdge(m.face, k), !m.prime) == StripEdge(m.face, StripIndex(j))
  {
  }

  /** The partner of the middle of strip k is the face edge bordering it. */
  lemma StripMiddlePartner(f: FaceId, k: int)
    requires 0 <= k < 4
    ensures AdjacentEdge(RingTable(f, 3 * k + 1).face, RingTable(f, 3 * k + 1).pos) == Some(Cell(f, StripEdge(f, k)))
  {
    StripEdgePartner(f, k);
    AdjacentInvolution(f, StripEdge(f, k));
  }

  /** A turn carries the edge pair (face edge of strip k, middle of strip k) onto another such pair. */
  lemma TurnedStripPair(m: Move, k: int)
    requires 0 <= k < 4
    ensures var k' := StripIndex(Advance(3 * k + 1, Shift(m)));
      Source(m, Cell(m.face, StripEdge(m.face, k))) == Cell(m.face, StripEdge(m.face, k')) &&
      Source(m, RingTable(m.face, 3 * k + 1)) == RingTable(m.face, 3 * k' + 1)
  {
    var j := Advance(3 * k + 1, Shift(m));
    StripEdgeTurns(m, k);
    SourceOnFace(m, StripEdge(m.face, k));
    RingTableIsRing(m.face, 3 * k + 1);
    RingTableIsRing(m.face, j);
    RingCellShape(m.face, 3 * k + 1);
    SourceOnRing(m, 3 * k + 1);
  }

  /** An edge facelet whose partner is off face f is not on the ring around f. */
  lemma EdgeOffRing(f: FaceId, c: Cell)
    requires AdjacentEdge(c.face, c.pos).Some? && AdjacentEdge(c.face, c.pos).value.face != f
    ensures Slot(f, c, 0) == -1
  {
    forall j | 0 <= j < 12 ensures RingCell(f, j) != c {
      RingTableIsRing(f, j);
      if IsEdgePos(RingTable(f, j).pos) {
        RingEdgeSlots(f, j);
        StripMiddlePartner(f, StripIndex(j));
      }
    }
  }

  /**
   * Every turn keeps edge pieces whole: if c and a are the two facelets of an
   * edge piece, the facelets the turn moves onto them are again the two
   * facelets of one edge piece.
   */
  lemma MoveKeepsEdgePairs(m: Move, c: Cell)
    requires AdjacentEdge(c.face, c.pos).Some?
    ensures var a := AdjacentEdge(c.face, c.pos).value;
      var s := Source(m, c);
      AdjacentEdge(s.face, s.pos) == Some(Source(m, a))
  {
    var f := m.face;
    var a := AdjacentEdge(c.face, c.pos).value;
    AdjacentInvolution(c.face, c.pos);
    if c.face == f {
      var k := EdgeStrip(f, c.pos);
      var k' := StripIndex(Advance(3 * k + 1, Shift(m)));
      StripEdgePartner(f, k);
      TurnedStripPair(m, k);
      StripEdgePartner(f, k');
    } else if a.face == f {
      var k := EdgeStrip(f, a.pos);
      var k' := StripIndex(Advance(3 * k + 1, Shift(m)));
      StripEdgePartner(f, k);
      TurnedStripPair(m, k);
      StripMiddlePartner(f, k');
    } else {
      EdgeOffRing(f, c);
      EdgeOffRing(f, a);
      SourceOffRing(m, c);
      SourceOffRing(m, a);
    }
  }

  /** After a turn, the two colours on any edge piece are the two colours some edge piece showed before it. */
  lemma MoveKeepsEdgeColours(m: Move, g: Grid, c: Cell)
    requires WellFormed(g) && AdjacentEdge(c.face, c.pos).Some?
    ensures var a := AdjacentEdge(c.face, c.pos).value;
      var s := Source(m, c);
      AdjacentEdge(s.face, s.pos).Some? &&
      At(Apply(m, g), c) == At(g, s) &&
      At(Apply(m, g), a) == At(g, AdjacentEdge(s.face, s.pos).value)
  {
    MoveKeepsEdgePairs(m, c);
    ApplyAt(m, g, c);
    ApplyAt(m, g, AdjacentEdge(c.face, c.pos).value);
  }
}
