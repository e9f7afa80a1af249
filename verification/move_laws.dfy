/**
 * Algebraic laws of the quarter turns: each is undone by its prime, has
 * order four, keeps every colour's population, and turns of opposite faces
 * commute.
 */
module MoveLaws {
  import opened Facelets
  import opened Moves

  // ---- The ring around a face ----

  lemma {:induction false} RingCellShape(f: FaceId, j: int)
    requires 0 <= j < 12
    ensures RingCell(f, j).face != f && RingCell(f, j).pos != CENTRE
  {
    StripShape(f, StripIndex(j));
  }

  /** The written-out ring is the ring the strips describe. */
  lemma RingTableIsRing(f: FaceId, j: int)
    requires 0 <= j < 12
    ensures RingTable(f, j) == RingCell(f, j)
  {
    assert j == 0 || j == 1 || j == 2 || j == 3 || j == 4 || j == 5 ||
           j == 6 || j == 7 || j == 8 || j == 9 || j == 10 || j == 11;
  }

  /** The twelve slots of a ring are twelve different facelets. */
  lemma {:induction false} RingCellInjective(f: FaceId, a: int, b: int)
    requires 0 <= a < 12 && 0 <= b < 12
    requires RingCell(f, a) == RingCell(f, b)
    ensures a == b
  {
    if StripIndex(a) < StripIndex(b) {
      StripFacesDistinct(f, StripIndex(a), StripIndex(b));
    } else if StripIndex(b) < StripIndex(a) {
      StripFacesDistinct(f, StripIndex(b), StripIndex(a));
    } else {
      StripShape(f, StripIndex(a));
    }
  }

  /** Strips of opposite faces that meet on a common face use different facelets of it. */
  lemma OppositeStripsDisjoint(f: FaceId, k: int, t: int, l: int, u: int)
    requires 0 <= k < 4 && 0 <= t < 3 && 0 <= l < 4 && 0 <= u < 3
    ensures StripCell(f, k, t) != StripCell(Opposite(f), l, u)
  {
  }

  /** The rings around opposite faces share no facelet, and neither touches the other face. */
  lemma OppositeRingsDisjoint(f: FaceId, i: int, j: int)
    requires 0 <= i < 12 && 0 <= j < 12
    ensures RingCell(f, i) != RingCell(Opposite(f), j)
    ensures RingCell(f, i).face != Opposite(f)
  {
    OppositeStripsDisjoint(f, StripIndex(i), i - 3 * StripIndex(i), StripIndex(j), j - 3 * StripIndex(j));
    StripShape(f, StripIndex(i));
  }

  lemma SlotOfRing(f: FaceId, j: int)
    requires 0 <= j < 12
    ensures Slot(f, RingCell(f, j), 0) == j
  {
    var i := Slot(f, RingCell(f, j), 0);
    if i != -1 {
      RingCellInjective(f, i, j);
    }
  }

  // ---- Where a single turn reads each facelet from ----

  lemma SourceOnFace(m: Move, p: Pos)
    ensures Source(m, Cell(m.face, p)) == Cell(m.face, RotationSource(p, !m.prime))
  {
  }

  lemma SourceOnRing(m: Move, j: int)
    requires 0 <= j < 12
    ensures Source(m, RingCell(m.face, j)) == RingCell(m.face, Advance(j, Shift(m)))
  {
    RingCellShape(m.face, j);
    SlotOfRing(m.face, j);
  }

  lemma SourceOffRing(m: Move, c: Cell)
    requires c.face != m.face && Slot(m.face, c, 0) == -1
    ensures Source(m, c) == c
  {
  }

  lemma RotationInverse(p: Pos, clockwise: bool)
    ensures RotationSource(RotationSource(p, clockwise), !clockwise) == p
  {
  }

  lemma RotationOrder4(p: Pos, clockwise: bool)
    ensures RotationSource(RotationSource(RotationSource(RotationSource(p, clockwise),
      clockwise), clockwise), clockwise) == p
  {
  }

  lemma InverseOnFace(m: Move, p: Pos)
    ensures Source(Inverse(m), Source(m, Cell(m.face, p))) == Cell(m.face, p)
  {
    var q := RotationSource(p, !m.prime);
    SourceOnFace(m, p);
    assert Source(m, Cell(m.face, p)) == Cell(m.face, q);
    SourceOnFace(Inverse(m), q);
    RotationInverse(p, !m.prime);
  }

  lemma InverseOnRing(m: Move, i: int)
    requires 0 <= i < 12
    ensures Source(Inverse(m), Source(m, RingCell(m.face, i))) == RingCell(m.face, i)
  {
    var m' := Inverse(m);
    var j := Advance(i, Shift(m));
    assert Advance(j, Shift(m')) == i;
    SourceOnRing(m, i);
    assert Source(m, RingCell(m.face, i)) == RingCell(m.face, j);
    SourceOnRing(m', j);
  }

  /** Reading through m and then through its prime leads every facelet back to itself. */
  lemma {:induction false} SourceInverse(m: Move, c: Cell)
    ensures Source(Inverse(m), Source(m, c)) == c
  {
    if c.face == m.face {
      InverseOnFace(m, c.pos);
    } else {
      var i := Slot(m.face, c, 0);
      if i == -1 {
        SourceOffRing(m, c);
        SourceOffRing(Inverse(m), c);
      } else {
        InverseOnRing(m, i);
      }
    }
  }

  lemma Order4OnFace(m: Move, p: Pos)
    ensures Source(m, Source(m, Source(m, Source(m, Cell(m.face, p))))) == Cell(m.face, p)
  {
    var cw := !m.prime;
    var p1 := RotationSource(p, cw);
    var p2 := RotationSource(p1, cw);
    var p3 := RotationSource(p2, cw);
    SourceOnFace(m, p);
    SourceOnFace(m, p1);
    SourceOnFace(m, p2);
    SourceOnFace(m, p3);
    RotationOrder4(p, cw);
  }

  lemma Order4OnRing(m: Move, i: int)
    requires 0 <= i < 12
    ensures Source(m, Source(m, Source(m, Source(m, RingCell(m.face, i))))) == RingCell(m.face, i)
  {
    var k := Shift(m);
    var i1 := Advance(i, k);
    var i2 := Advance(i1, k);
    var i3 := Advance(i2, k);
    assert Advance(i3, k) == i;
    SourceOnRing(m, i);
    assert Source(m, RingCell(m.face, i)) == RingCell(m.face, i1);
    SourceOnRing(m, i1);
    assert Source(m, RingCell(m.face, i1)) == RingCell(m.face, i2);
    SourceOnRing(m, i2);
    assert Source(m, RingCell(m.face, i2)) == RingCell(m.face, i3);
    SourceOnRing(m, i3);
  }

  /** Reading through the same turn four times leads every facelet back to itself. */
  lemma {:induction false} SourceOrder4(m: Move, c: Cell)
    ensures Source(m, Source(m, Source(m, Source(m, c)))) == c
  {
    if c.face == m.face {
      Order4OnFace(m, c.pos);
    } else {
      var i := Slot(m.face, c, 0);
      if i == -1 {
        SourceOffRing(m, c);
      } else {
        Order4OnRing(m, i);
      }
    }
  }

  // ---- The laws on grids ----

  lemma ApplyAt(m: Move, g: Grid, c: Cell)
    requires WellFormed(g)
    ensures At(Apply(m, g), c) == At(g, Source(m, c))
  {
  }

  /** A turn leaves every facelet that is neither on its face nor on the ring around it where it was. */
  lemma MoveFrame(m: Move, g: Grid, c: Cell)
    requires WellFormed(g)
    requires c.face != m.face && forall j | 0 <= j < 12 :: RingCell(m.face, j) != c
    ensures At(Apply(m, g), c) == At(g, c)
  {
    ApplyAt(m, g, c);
    SourceOffRing(m, c);
  }

  /** A turn followed by its prime restores the exact prior grid. */
  lemma InverseRestores(m: Move, g: Grid)
    requires WellFormed(g)
    ensures Apply(Inverse(m), Apply(m, g)) == g
  {
    var h := Apply(Inverse(m), Apply(m, g));
    forall c: Cell ensures At(h, c) == At(g, c) {
      ApplyAt(Inverse(m), Apply(m, g), c);
      ApplyAt(m, g, Source(Inverse(m), c));
      SourceInverse(Inverse(m), c);
      assert Inverse(Inverse(m)) == m;
    }
    GridExt(h, g);
  }

  /** A prime turn followed by the turn restores the exact prior grid. */
  lemma InverseRestoresPrime(m: Move, g: Grid)
    requires WellFormed(g)
    ensures Apply(m, Apply(Inverse(m), g)) == g
  {
    InverseRestores(Inverse(m), g);
    assert Inverse(Inverse(m)) == m;
  }

  /** Any turn applied four times restores the exact prior grid. */
  lemma Order4(m: Move, g: Grid)
    requires WellFormed(g)
    ensures Apply(m, Apply(m, Apply(m, Apply(m, g)))) == g
  {
    var g1 := Apply(m, g);
    var g2 := Apply(m, g1);
    var g3 := Apply(m, g2);
    var g4 := Apply(m, g3);
    forall c: Cell ensures At(g4, c) == At(g, c) {
      var c1 := Source(m, c);
      var c2 := Source(m, c1);
      var c3 := Source(m, c2);
      ApplyAt(m, g3, c);
      ApplyAt(m, g2, c1);
      ApplyAt(m, g1, c2);
      ApplyAt(m, g, c3);
      SourceOrder4(m, c);
    }
    GridExt(g4, g);
  }

  /** A prime turn is three quarter turns the other way. */
  lemma PrimeIsThreeTurns(m: Move, g: Grid)
    requires WellFormed(g)
    ensures Apply(Inverse(m), g) == Apply(m, Apply(m, Apply(m, g)))
  {
    var g3 := Apply(m, Apply(m, Apply(m, g)));
    Order4(m, g);
    assert g == Apply(m, g3);
    InverseRestores(m, g3);
  }

  // ---- Opposite faces commute ----

  /** A turn moves nothing on the opposite face and nothing on the opposite face's ring. */
  lemma {:induction false} SourceAwayFromOpposite(m: Move, c: Cell)
    requires c.face == Opposite(m.face) || Slot(Opposite(m.face), c, 0) >= 0
    ensures Source(m, c) == c
  {
    var f := m.face;
    assert Opposite(f) != f;
    if c.face != Opposite(f) {
      var j := Slot(Opposite(f), c, 0);
      assert Opposite(Opposite(f)) == f;
      OppositeRingsDisjoint(Opposite(f), j, 0);
    }
    var i := Slot(f, c, 0);
    if i >= 0 {
      if c.face == Opposite(f) {
        OppositeRingsDisjoint(f, i, 0);
      } else {
        OppositeRingsDisjoint(f, i, Slot(Opposite(f), c, 0));
      }
    }
    SourceOffRing(m, c);
  }

  lemma {:induction false} SourceCommutesOpposite(m1: Move, m2: Move, c: Cell)
    requires m2.face == Opposite(m1.face)
    ensures Source(m1, Source(m2, c)) == Source(m2, Source(m1, c))
  {
    var f1, f2 := m1.face, m2.face;
    assert Opposite(f2) == f1;
    if c.face == f1 {
      SourceOnFace(m1, c.pos);
      SourceAwayFromOpposite(m2, c);
      SourceAwayFromOpposite(m2, Source(m1, c));
    } else if c.face == f2 {
      SourceOnFace(m2, c.pos);
      SourceAwayFromOpposite(m1, c);
      SourceAwayFromOpposite(m1, Source(m2, c));
    } else if Slot(f1, c, 0) >= 0 {
      var i := Slot(f1, c, 0);
      SourceOnRing(m1, i);
      SlotOfRing(f1, Advance(i, Shift(m1)));
      SourceAwayFromOpposite(m2, c);
      SourceAwayFromOpposite(m2, Source(m1, c));
    } else if Slot(f2, c, 0) >= 0 {
      var i := Slot(f2, c, 0);
      SourceOnRing(m2, i);
      SlotOfRing(f2, Advance(i, Shift(m2)));
      SourceAwayFromOpposite(m1, c);
      SourceAwayFromOpposite(m1, Source(m2, c));
    } else {
      SourceOffRing(m1, c);
      SourceOffRing(m2, c);
    }
  }

  /**
   * Turns of opposite faces (F and B, R and L, U and D, either direction)
   * commute: their facelet sets are disjoint.
   */
  lemma OppositeTurnsCommute(m1: Move, m2: Move, g: Grid)
    requires WellFormed(g) && m2.face == Opposite(m1.face)
    ensures Apply(m1, Apply(m2, g)) == Apply(m2, Apply(m1, g))
  {
    var a := Apply(m1, Apply(m2, g));
    var b := Apply(m2, Apply(m1, g));
    forall c: Cell ensures At(a, c) == At(b, c) {
      ApplyAt(m1, Apply(m2, g), c);
      ApplyAt(m2, g, Source(m1, c));
      ApplyAt(m2, Apply(m1, g), c);
      ApplyAt(m1, g, Source(m2, c));
      SourceCommutesOpposite(m1, m2, c);
    }
    GridExt(a, b);
  }

  // ---- Colour population ----

  /** A map that some other map undoes keeps the size of every set it is applied to. */
  lemma {:induction false} ImageSize(S: set<Cell>, m: Move)
    ensures |set x | x in S :: Source(m, x)| == |S|
    decreases |S|
  {
    if S != {} {
      var x :| x in S;
      var R := S - {x};
      ImageSize(R, m);
      var img := set y | y in S :: Source(m, y);
      var imgR := set y | y in R :: Source(m, y);
      assert img == imgR + {Source(m, x)};
      if Source(m, x) in imgR {
        var y :| y in R && Source(m, y) == Source(m, x);
        SourceInverse(m, x);
        SourceInverse(m, y);
      }
    }
  }

  /** Every turn keeps the number of facelets of every colour. */
  lemma Population(m: Move, g: Grid, c: char)
    requires WellFormed(g)
    ensures Count(Apply(m, g), c) == Count(g, c)
  {
    var h := Apply(m, g);
    var S := CellsWith(g, c);
    var T := CellsWith(h, c);
    var m' := Inverse(m);
    var img := set x | x in S :: Source(m', x);
    forall y | y in T ensures y in img {
      var x := Source(m, y);
      InCellsWith(h, c, y);
      ApplyAt(m, g, y);
      InCellsWith(g, c, x);
      SourceInverse(m, y);
    }
    forall x | x in S ensures Source(m', x) in T {
      var y := Source(m', x);
      SourceInverse(m', x);
      assert Inverse(m') == m;
      InCellsWith(g, c, x);
      ApplyAt(m, g, y);
      InCellsWith(h, c, y);
    }
    assert T == img;
    ImageSize(S, m');
  }

  /** Any sequence of turns keeps every colour's population. */
  lemma {:induction false} ApplyAllPopulation(ms: seq<Move>, g: Grid, c: char)
    requires WellFormed(g)
    ensures Count(ApplyAll(ms, g), c) == Count(g, c)
    decreases |ms|
  {
    if ms != [] {
      Population(ms[0], g, c);
      ApplyAllPopulation(ms[1..], Apply(ms[0], g), c);
    }
  }

  /** Any sequence of move names, recognised or not, keeps every colour's population. */
  lemma {:induction false} ExecuteAllPopulation(names: seq<string>, g: Grid, c: char)
    requires WellFormed(g)
    ensures Count(ExecuteAll(names, g), c) == Count(g, c)
    decreases |names|
  {
    if names != [] {
      match ParseMove(names[0]) {
        case Some(m) => Population(m, g, c);
        case None =>
      }
      ExecuteAllPopulation(names[1..], Execute(names[0], g), c);
    }
  }

  /** Every state reachable from a fresh cube shows each of the six colours exactly nine times. */
  lemma ReachablePopulation(names: seq<string>, c: char)
    ensures Count(ExecuteAll(names, Solved()), c) == if c in "grbowy" then 9 else 0
  {
    ExecuteAllPopulation(names, Solved(), c);
    FreshPopulation(c);
  }

  // ---- A single turn unsolves a fresh cube ----

  lemma FaceColorInjective(a: FaceId, b: FaceId)
    requires FaceColor(a) == FaceColor(b)
    ensures a == b
  {
  }

  /** After any one of the twelve turns, a fresh cube is no longer solved. */
  lemma OneTurnUnsolves(m: Move)
    ensures !IsSolvedGrid(Apply(m, Solved()))
  {
    var f := m.face;
    var g := Apply(m, Solved());
    var y := RingCell(f, 0);
    var h := y.face;
    var j := Advance(0, Shift(m));
    var x := RingCell(f, j);
    StripFacesDistinct(f, 0, StripIndex(j));
    SourceOnRing(m, 0);
    ApplyAt(m, Solved(), y);
    assert At(g, y) == FaceColor(x.face);
    RingCellShape(f, 0);
    var centre := Cell(h, CENTRE);
    assert Slot(f, centre, 0) == -1 by {
      var i := Slot(f, centre, 0);
      if i >= 0 {
        RingCellShape(f, i);
      }
    }
    SourceOffRing(m, centre);
    ApplyAt(m, Solved(), centre);
    assert At(g, centre) == FaceColor(h);
    if FaceColor(x.face) == FaceColor(h) {
      FaceColorInjective(x.face, h);
    }
    assert g[h][y.pos] != g[h][CENTRE];
  }

  // ---- The face rotation primitive ----

  /** Rotating a face one way and then the other restores the grid. */
  lemma RotateFaceRoundTrip(g: Grid, f: FaceId, clockwise: bool)
    requires WellFormed(g)
    ensures RotateFace(RotateFace(g, f, clockwise), f, !clockwise) == g
  {
    var r := RotateFace(RotateFace(g, f, clockwise), f, !clockwise);
    forall c: Cell ensures At(r, c) == At(g, c) {
      if c.face == f {
        RotationInverse(c.pos, !clockwise);
      }
    }
    GridExt(r, g);
  }

  /** On the turning face, a move is the face rotation primitive (clockwise for an unprimed turn). */
  lemma ApplyRotatesFace(m: Move, g: Grid)
    requires WellFormed(g)
    ensures Apply(m, g)[m.face] == RotateFace(g, m.face, !m.prime)[m.face]
  {
    forall p | 0 <= p < 9 ensures Apply(m, g)[m.face][p] == RotateFace(g, m.face, !m.prime)[m.face][p] {
      ApplyAt(m, g, Cell(m.face, p));
    }
  }

  // ---- Establishing a move facelet by facelet ----

  /** Ring slot j around m's face holds, in r, what g held in the slot m reads it from. */
  predicate SlotMoved(m: Move, g: Grid, r: Grid, j: int)
    requires WellFormed(g) && WellFormed(r) && 0 <= j < 12
  {
    At(r, RingCell(m.face, j)) == At(g, RingCell(m.face, Advance(j, Shift(m))))
  }

  /**
   * r is the result of m on g as soon as the turning face is rotated, each of
   * the twelve ring slots holds its source's colour and every other facelet is
   * unchanged: the form in which the move methods carry out a move.
   */
  lemma ApplyByRing(m: Move, g: Grid, r: Grid)
    requires WellFormed(g) && WellFormed(r)
    requires r[m.face] == RotateFace(g, m.face, !m.prime)[m.face]
    requires forall j | 0 <= j < 12 :: SlotMoved(m, g, r, j)
    requires forall c: Cell :: c.face != m.face && Slot(m.face, c, 0) == -1 ==> At(r, c) == At(g, c)
    ensures r == Apply(m, g)
  {
    forall c: Cell ensures At(r, c) == At(Apply(m, g), c) {
      ApplyAt(m, g, c);
      if c.face == m.face {
        SourceOnFace(m, c.pos);
      } else {
        var i := Slot(m.face, c, 0);
        if i >= 0 {
          SourceOnRing(m, i);
          assert SlotMoved(m, g, r, i);
        } else {
          SourceOffRing(m, c);
        }
      }
    }
    GridExt(r, Apply(m, g));
  }

  /** Slot j of the written-out ring around m's face holds, in r, what g held in the slot m reads it from. */
  predicate SlotCopied(m: Move, g: Grid, r: Grid, j: int)
    requires WellFormed(g) && WellFormed(r) && 0 <= j < 12
  {
    At(r, RingTable(m.face, j)) == At(g, RingTable(m.face, Advance(j, Shift(m))))
  }

  /**
   * c is none of the twelve slots of the written-out ring around f: the same
   * test as Slot(f, c, 0) == -1 (OffRingNoSlot), spelt out only to keep the
   * per-move proofs cheap.
   */
  predicate OffRing(f: FaceId, c: Cell) {
    c != RingTable(f, 0) && c != RingTable(f, 1) && c != RingTable(f, 2) && c != RingTable(f, 3) &&
    c != RingTable(f, 4) && c != RingTable(f, 5) && c != RingTable(f, 6) && c != RingTable(f, 7) &&
    c != RingTable(f, 8) && c != RingTable(f, 9) && c != RingTable(f, 10) && c != RingTable(f, 11)
  }

  lemma OffRingNoSlot(f: FaceId, c: Cell)
    ensures OffRing(f, c) <==> Slot(f, c, 0) == -1
  {
    forall j | 0 <= j < 12 {
      RingTableIsRing(f, j);
    }
  }

  /** The twelve written-out slots, checked one by one, give every slot of the ring. */
  lemma SlotsCopied(m: Move, h: Grid, r: Grid)
    requires WellFormed(h) && WellFormed(r)
    requires SlotCopied(m, h, r, 0) && SlotCopied(m, h, r, 1) && SlotCopied(m, h, r, 2) && SlotCopied(m, h, r, 3)
    requires SlotCopied(m, h, r, 4) && SlotCopied(m, h, r, 5) && SlotCopied(m, h, r, 6) && SlotCopied(m, h, r, 7)
    requires SlotCopied(m, h, r, 8) && SlotCopied(m, h, r, 9) && SlotCopied(m, h, r, 10) && SlotCopied(m, h, r, 11)
    ensures forall j | 0 <= j < 12 :: SlotMoved(m, h, r, j)
  {
    forall j | 0 <= j < 12 ensures SlotMoved(m, h, r, j) {
      assert j == 0 || j == 1 || j == 2 || j == 3 || j == 4 || j == 5 ||
             j == 6 || j == 7 || j == 8 || j == 9 || j == 10 || j == 11;
      assert SlotCopied(m, h, r, j);
      RingTableIsRing(m.face, j);
      RingTableIsRing(m.face, Advance(j, Shift(m)));
    }
  }

  /** Agreement off the written-out ring is agreement wherever the ring search finds no slot. */
  lemma KeptOffRing(m: Move, h: Grid, r: Grid)
    requires WellFormed(h) && WellFormed(r)
    requires forall c: Cell :: OffRing(m.face, c) ==> At(r, c) == At(h, c)
    ensures forall c: Cell :: Slot(m.face, c, 0) == -1 ==> At(r, c) == At(h, c)
  {
    forall c: Cell | Slot(m.face, c, 0) == -1 ensures At(r, c) == At(h, c) {
      OffRingNoSlot(m.face, c);
    }
  }

  /**
   * A move is its face rotation followed by the ring shift: r is m applied to g
   * when h is g with m's face rotated, each ring slot of r holds what h held in
   * the slot m reads it from, and r agrees with h everywhere off the ring.
   */
  lemma ApplyAfterRotation(m: Move, g: Grid, h: Grid, r: Grid)
    requires WellFormed(g) && WellFormed(h) && WellFormed(r)
    requires h == RotateFace(g, m.face, !m.prime)
    requires forall j | 0 <= j < 12 :: SlotMoved(m, h, r, j)
    requires forall c: Cell :: Slot(m.face, c, 0) == -1 ==> At(r, c) == At(h, c)
    ensures r == Apply(m, g)
  {
    forall j | 0 <= j < 12 ensures SlotMoved(m, g, r, j) {
      RingCellShape(m.face, Advance(j, Shift(m)));
      assert SlotMoved(m, h, r, j);
    }
    forall p | 0 <= p < 9 ensures r[m.face][p] == h[m.face][p] {
      var c := Cell(m.face, p);
      var i := Slot(m.face, c, 0);
      if i >= 0 {
        RingCellShape(m.face, i);
      }
      assert At(r, c) == At(h, c);
    }
    forall c: Cell | c.face != m.face && Slot(m.face, c, 0) == -1 ensures At(r, c) == At(g, c) {
    }
    ApplyByRing(m, g, r);
  }

  /** ApplyAfterRotation with the ring and the rest given on the written-out ring. */
  lemma ApplyAfterCopies(m: Move, g: Grid, h: Grid, r: Grid)
    requires WellFormed(g) && WellFormed(h) && WellFormed(r)
    requires h == RotateFace(g, m.face, !m.prime)
    requires SlotCopied(m, h, r, 0) && SlotCopied(m, h, r, 1) && SlotCopied(m, h, r, 2) && SlotCopied(m, h, r, 3)
    requires SlotCopied(m, h, r, 4) && SlotCopied(m, h, r, 5) && SlotCopied(m, h, r, 6) && SlotCopied(m, h, r, 7)
    requires SlotCopied(m, h, r, 8) && SlotCopied(m, h, r, 9) && SlotCopied(m, h, r, 10) && SlotCopied(m, h, r, 11)
    requires forall c: Cell :: OffRing(m.face, c) ==> At(r, c) == At(h, c)
    ensures r == Apply(m, g)
  {
    SlotsCopied(m, h, r);
    KeptOffRing(m, h, r);
    ApplyAfterRotation(m, g, h, r);
  }
}
