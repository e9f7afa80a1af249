/**
 * The twelve quarter turns as permutations of the 54 facelets.
 *
 * A turn is described by where each facelet takes its new colour from:
 * the turning face is rotated a quarter turn, and the twelve facelets of
 * the four neighbouring three-cell strips move one strip along a fixed ring.
 */
module Moves {
  import opened Facelets

  /** A quarter turn of one face; `prime` is the counter-clockwise turn (the source's `Fi`, `Ri`, ...). */
  datatype Move = Turn(face: FaceId, prime: bool)

  function Inverse(m: Move): (r: Move)
    ensures r.face == m.face && r.prime != m.prime
  {
    Turn(m.face, !m.prime)
  }

  /**
   * The position a quarter rotation of a face reads position p from:
   * clockwise 0<-6 1<-3 2<-0 3<-7 4<-4 5<-1 6<-8 7<-5 8<-2,
   * counter-clockwise 0<-2 1<-5 2<-8 3<-1 4<-4 5<-7 6<-0 7<-3 8<-6.
   */
  function RotationSource(p: Pos, clockwise: bool): Pos {
    if clockwise then [6, 3, 0, 7, 4, 1, 8, 5, 2][p]
    else [2, 5, 8, 1, 4, 7, 0, 3, 6][p]
  }

  /** The face rotation primitive: face f rotated a quarter turn, every other face as it was. */
  function RotateFace(g: Grid, f: FaceId, clockwise: bool): (r: Grid)
    requires WellFormed(g)
    ensures WellFormed(r)
    ensures forall h :: 0 <= h < 6 && h != f ==> r[h] == g[h]
    ensures r[f][CENTRE] == g[f][CENTRE]
  {
    g[f := seq(9, p requires 0 <= p < 9 => g[f][RotationSource(p, clockwise)])]
  }

  /** Three facelets of one face: start, start + step, start + 2 * step. */
  datatype Strip = Strip(face: FaceId, start: Pos, step: int)

  /**
   * The four three-cell strips around face f, in ring order A, B, C, D.
   * A clockwise turn fills A from B, B from C, C from D and D from the old A,
   * cell by cell; a counter-clockwise turn runs the same ring the other way.
   */
  function StripOf(f: FaceId, k: int): Strip
    requires 0 <= k < 4
  {
    match f
    case 0 =>
      (match k
      case 0 => Strip(4, 6, 1)
      case 1 => Strip(3, 8, -3)
      case 2 => Strip(5, 2, -1)
      case _ => Strip(1, 0, 3))
    case 1 =>
      (match k
      case 0 => Strip(4, 2, 3)
      case 1 => Strip(0, 2, 3)
      case 2 => Strip(5, 2, 3)
      case _ => Strip(2, 6, -3))
    case 2 =>
      (match k
      case 0 => Strip(4, 0, 1)
      case 1 => Strip(1, 2, 3)
      case 2 => Strip(5, 8, -1)
      case _ => Strip(3, 6, -3))
    case 3 =>
      (match k
      case 0 => Strip(4, 0, 3)
      case 1 => Strip(2, 8, -3)
      case 2 => Strip(5, 0, 3)
      case _ => Strip(0, 0, 3))
    case 4 =>
      (match k
      case 0 => Strip(0, 0, 1)
      case 1 => Strip(1, 0, 1)
      case 2 => Strip(2, 0, 1)
      case _ => Strip(3, 0, 1))
    case _ =>
      (match k
      case 0 => Strip(0, 6, 1)
      case 1 => Strip(3, 6, 1)
      case 2 => Strip(2, 6, 1)
      case _ => Strip(1, 6, 1))
  }

  /** The face across the cube from f: Front-Back, Right-Left, Up-Down. */
  function Opposite(f: FaceId): FaceId {
    match f
    case 0 => 2
    case 1 => 3
    case 2 => 0
    case 3 => 1
    case 4 => 5
    case _ => 4
  }

  /**
   * Every strip lies on a face other than f, runs along a row or a column
   * (step 1 or 3, either way), stays on its face and misses the centre.
   */
  lemma StripShape(f: FaceId, k: int)
    requires 0 <= k < 4
    ensures var s := StripOf(f, k);
      s.face != f && s.face != Opposite(f) && (s.step == 1 || s.step == -1 || s.step == 3 || s.step == -3) &&
      0 <= s.start + 2 * s.step < 9 &&
      s.start != CENTRE && s.start + s.step != CENTRE && s.start + 2 * s.step != CENTRE
  {
  }

  /** The four strips around a face lie on four different faces. */
  lemma StripFacesDistinct(f: FaceId, k: int, l: int)
    requires 0 <= k < l < 4
    ensures StripOf(f, k).face != StripOf(f, l).face
  {
  }

  /** Cell t (0, 1 or 2) of strip k around face f. */
  function StripCell(f: FaceId, k: int, t: int): Cell
    requires 0 <= k < 4 && 0 <= t < 3
  {
    var s := StripOf(f, k);
    StripShape(f, k);
    Cell(s.face, if t == 0 then s.start else if t == 1 then s.start + s.step else s.start + 2 * s.step)
  }

  /** The strip that slot j of a ring belongs to: j / 3, written out. */
  function StripIndex(j: int): (k: int)
    requires 0 <= j < 12
    ensures 0 <= k < 4 && 3 * k <= j < 3 * k + 3
  {
    if j < 3 then 0 else if j < 6 then 1 else if j < 9 then 2 else 3
  }

  /** Slot j of the twelve-facelet ring around face f: cell j % 3 of strip j / 3. */
  function RingCell(f: FaceId, j: int): Cell
    requires 0 <= j < 12
  {
    var k := StripIndex(j);
    StripCell(f, k, j - 3 * k)
  }

  /**
   * The same twelve ring slots written out cell by cell, as the move bodies
   * name them (MoveLaws.RingTableIsRing shows the two agree). This is not a
   * second definition of the ring: it is a copy of RingCell that the solver
   * evaluates cheaply, and it exists only to keep the per-move proofs small.
   */
  function RingTable(f: FaceId, j: int): Cell
    requires 0 <= j < 12
  {
    match f
    case 0 =>
      (match j
      case 0 => Cell(4, 6)
      case 1 => Cell(4, 7)
      case 2 => Cell(4, 8)
      case 3 => Cell(3, 8)
      case 4 => Cell(3, 5)
      case 5 => Cell(3, 2)
      case 6 => Cell(5, 2)
      case 7 => Cell(5, 1)
      case 8 => Cell(5, 0)
      case 9 => Cell(1, 0)
      case 10 => Cell(1, 3)
      case _ => Cell(1, 6))
    case 1 =>
      (match j
      case 0 => Cell(4, 2)
      case 1 => Cell(4, 5)
      case 2 => Cell(4, 8)
      case 3 => Cell(0, 2)
      case 4 => Cell(0, 5)
      case 5 => Cell(0, 8)
      case 6 => Cell(5, 2)
      case 7 => Cell(5, 5)
      case 8 => Cell(5, 8)
      case 9 => Cell(2, 6)
      case 10 => Cell(2, 3)
      case _ => Cell(2, 0))
    case 2 =>
      (match j
      case 0 => Cell(4, 0)
      case 1 => Cell(4, 1)
      case 2 => Cell(4, 2)
      case 3 => Cell(1, 2)
      case 4 => Cell(1, 5)
      case 5 => Cell(1, 8)
      case 6 => Cell(5, 8)
      case 7 => Cell(5, 7)
      case 8 => Cell(5, 6)
      case 9 => Cell(3, 6)
      case 10 => Cell(3, 3)
      case _ => Cell(3, 0))
    case 3 =>
      (match j
      case 0 => Cell(4, 0)
      case 1 => Cell(4, 3)
      case 2 => Cell(4, 6)
      case 3 => Cell(2, 8)
      case 4 => Cell(2, 5)
      case 5 => Cell(2, 2)
      case 6 => Cell(5, 0)
      case 7 => Cell(5, 3)
      case 8 => Cell(5, 6)
      case 9 => Cell(0, 0)
      case 10 => Cell(0, 3)
      case _ => Cell(0, 6))
    case 4 =>
      (match j
      case 0 => Cell(0, 0)
      case 1 => Cell(0, 1)
      case 2 => Cell(0, 2)
      case 3 => Cell(1, 0)
      case 4 => Cell(1, 1)
      case 5 => Cell(1, 2)
      case 6 => Cell(2, 0)
      case 7 => Cell(2, 1)
      case 8 => Cell(2, 2)
      case 9 => Cell(3, 0)
      case 10 => Cell(3, 1)
      case _ => Cell(3, 2))
    case _ =>
      (match j
      case 0 => Cell(0, 6)
      case 1 => Cell(0, 7)
      case 2 => Cell(0, 8)
      case 3 => Cell(3, 6)
      case 4 => Cell(3, 7)
      case 5 => Cell(3, 8)
      case 6 => Cell(2, 6)
      case 7 => Cell(2, 7)
      case 8 => Cell(2, 8)
      case 9 => Cell(1, 6)
      case 10 => Cell(1, 7)
      case _ => Cell(1, 8))
  }

  /** The first slot, from slot `from` on, of the ring around f that holds c; -1 when there is none. */
  function Slot(f: FaceId, c: Cell, from: nat): (i: int)
    requires from <= 12
    ensures -1 <= i < 12
    ensures 0 <= i ==> from <= i && RingCell(f, i) == c
    ensures i == -1 <==> forall j :: from <= j < 12 ==> RingCell(f, j) != c
    decreases 12 - from
  {
    if from == 12 then -1
    else if RingCell(f, from) == c then from
    else Slot(f, c, from + 1)
  }

  /** How many slots along the ring a turn reads from: the next strip, or the previous one. */
  function Shift(m: Move): int {
    if m.prime then 9 else 3
  }

  /** Slot i moved k slots along the twelve-slot ring. */
  function Advance(i: int, k: int): (j: int)
    requires 0 <= i < 12 && 0 <= k < 12
    ensures 0 <= j < 12 && j == (i + k) % 12
  {
    if i + k < 12 then i + k else i + k - 12
  }

  /**
   * The facelet whose colour m moves onto c. A clockwise turn takes ring slot i
   * from slot i + 3 (the next strip), a counter-clockwise one from slot i + 9
   * (the previous strip); facelets off the turning face and off its ring stay.
   */
  function Source(m: Move, c: Cell): Cell {
    if c.face == m.face then
      Cell(c.face, RotationSource(c.pos, !m.prime))
    else
      var i := Slot(m.face, c, 0);
      if i < 0 then c else RingCell(m.face, Advance(i, Shift(m)))
  }

  /** The grid after move m: every facelet takes the colour of its source facelet. */
  function Apply(m: Move, g: Grid): (r: Grid)
    requires WellFormed(g)
    ensures WellFormed(r)
  {
    seq(6, f requires 0 <= f < 6 =>
      seq(9, p requires 0 <= p < 9 => At(g, Source(m, Cell(f, p)))))
  }

  /** The grid after the moves of ms, first to last. */
  function ApplyAll(ms: seq<Move>, g: Grid): (r: Grid)
    requires WellFormed(g)
    ensures WellFormed(r)
  {
    if ms == [] then g else ApplyAll(ms[1..], Apply(ms[0], g))
  }

  /** The face letters in face-index order: Front, Right, Back, Left, Up, Down. */
  function FaceLetter(f: FaceId): char {
    "FRBLUD"[f]
  }

  /** The source's move name: the face letter, then a quote mark for a counter-clockwise turn. */
  function MoveName(m: Move): (s: string)
    ensures 1 <= |s| <= 2
  {
    [FaceLetter(m.face)] + if m.prime then "'" else ""
  }

  /** The move-name dispatch of executeMove; any other name is ignored. */
  function ParseMove(name: string): Option<Move> {
    if name == "F" then Some(Turn(FRONT, false))
    else if name == "F'" then Some(Turn(FRONT, true))
    else if name == "R" then Some(Turn(RIGHT, false))
    else if name == "R'" then Some(Turn(RIGHT, true))
    else if name == "U" then Some(Turn(UP, false))
    else if name == "U'" then Some(Turn(UP, true))
    else if name == "D" then Some(Turn(DOWN, false))
    else if name == "D'" then Some(Turn(DOWN, true))
    else if name == "L" then Some(Turn(LEFT, false))
    else if name == "L'" then Some(Turn(LEFT, true))
    else if name == "B" then Some(Turn(BACK, false))
    else if name == "B'" then Some(Turn(BACK, true))
    else None
  }

  /** executeMove on a grid: the named move, or nothing for an unknown name. */
  function Execute(name: string, g: Grid): (r: Grid)
    requires WellFormed(g)
    ensures WellFormed(r)
  {
    match ParseMove(name)
    case Some(m) => Apply(m, g)
    case None => g
  }

  /** The grid after executing the named moves of names, first to last. */
  function ExecuteAll(names: seq<string>, g: Grid): (r: Grid)
    requires WellFormed(g)
    ensures WellFormed(r)
  {
    if names == [] then g else ExecuteAll(names[1..], Execute(names[0], g))
  }

  /** The list scramble draws its moves from, in the source's order. */
  const MOVE_LIST: seq<string> := ["F", "F'", "R", "R'", "U", "U'", "D", "D'", "L", "L'", "B", "B'"]
}
