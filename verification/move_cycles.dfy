/**
 * The twelve move bodies' own assignment cycles: each lists, cell by cell,
 * which facelet the move copies into which, and each is exactly one step of
 * the ring shift that Moves.Apply describes for that move.
 */
module MoveCycles {
  import opened Facelets
  import opened Moves
  import opened MoveLaws

  /** F's twelve assignments move each slot of the ring around the front face one strip on. */
  lemma CycleF(h: Grid, r: Grid)
    requires WellFormed(h) && WellFormed(r)
    requires r[4][6] == h[3][8] && r[4][7] == h[3][5] && r[4][8] == h[3][2]
    requires r[3][8] == h[5][2] && r[3][5] == h[5][1] && r[3][2] == h[5][0]
    requires r[5][2] == h[1][0] && r[5][1] == h[1][3] && r[5][0] == h[1][6]
    requires r[1][0] == h[4][6] && r[1][3] == h[4][7] && r[1][6] == h[4][8]
    ensures SlotCopied(Turn(FRONT, false), h, r, 0) && SlotCopied(Turn(FRONT, false), h, r, 1) && SlotCopied(Turn(FRONT, false), h, r, 2) && SlotCopied(Turn(FRONT, false), h, r, 3)
    ensures SlotCopied(Turn(FRONT, false), h, r, 4) && SlotCopied(Turn(FRONT, false), h, r, 5) && SlotCopied(Turn(FRONT, false), h, r, 6) && SlotCopied(Turn(FRONT, false), h, r, 7)
    ensures SlotCopied(Turn(FRONT, false), h, r, 8) && SlotCopied(Turn(FRONT, false), h, r, 9) && SlotCopied(Turn(FRONT, false), h, r, 10) && SlotCopied(Turn(FRONT, false), h, r, 11)
  {
  }

  /** Fi's twelve assignments move each slot of the ring around the front face one strip back. */
  lemma CycleFi(h: Grid, r: Grid)
    requires WellFormed(h) && WellFormed(r)
    requires r[4][6] == h[1][0] && r[4][7] == h[1][3] && r[4][8] == h[1][6]
    requires r[1][0] == h[5][2] && r[1][3] == h[5][1] && r[1][6] == h[5][0]
    requires r[5][2] == h[3][8] && r[5][1] == h[3][5] && r[5][0] == h[3][2]
    requires r[3][8] == h[4][6] && r[3][5] == h[4][7] && r[3][2] == h[4][8]
    ensures SlotCopied(Turn(FRONT, true), h, r, 0) && SlotCopied(Turn(FRONT, true), h, r, 1) && SlotCopied(Turn(FRONT, true), h, r, 2) && SlotCopied(Turn(FRONT, true), h, r, 3)
    ensures SlotCopied(Turn(FRONT, true), h, r, 4) && SlotCopied(Turn(FRONT, true), h, r, 5) && SlotCopied(Turn(FRONT, true), h, r, 6) && SlotCopied(Turn(FRONT, true), h, r, 7)
    ensures SlotCopied(Turn(FRONT, true), h, r, 8) && SlotCopied(Turn(FRONT, true), h, r, 9) && SlotCopied(Turn(FRONT, true), h, r, 10) && SlotCopied(Turn(FRONT, true), h, r, 11)
  {
  }

  /** R's twelve assignments move each slot of the ring around the right face one strip on. */
  lemma CycleR(h: Grid, r: Grid)
    requires WellFormed(h) && WellFormed(r)
    requires r[4][2] == h[0][2] && r[4][5] == h[0][5] && r[4][8] == h[0][8]
    requires r[0][2] == h[5][2] && r[0][5] == h[5][5] && r[0][8] == h[5][8]
    requires r[5][2] == h[2][6] && r[5][5] == h[2][3] && r[5][8] == h[2][0]
    requires r[2][6] == h[4][2] && r[2][3] == h[4][5] && r[2][0] == h[4][8]
    ensures SlotCopied(Turn(RIGHT, false), h, r, 0) && SlotCopied(Turn(RIGHT, false), h, r, 1) && SlotCopied(Turn(RIGHT, false), h, r, 2) && SlotCopied(Turn(RIGHT, false), h, r, 3)
    ensures SlotCopied(Turn(RIGHT, false), h, r, 4) && SlotCopied(Turn(RIGHT, false), h, r, 5) && SlotCopied(Turn(RIGHT, false), h, r, 6) && SlotCopied(Turn(RIGHT, false), h, r, 7)
    ensures SlotCopied(Turn(RIGHT, false), h, r, 8) && SlotCopied(Turn(RIGHT, false), h, r, 9) && SlotCopied(Turn(RIGHT, false), h, r, 10) && SlotCopied(Turn(RIGHT, false), h, r, 11)
  {
  }

  /** Ri's twelve assignments move each slot of the ring around the right face one strip back. */
  lemma CycleRi(h: Grid, r: Grid)
    requires WellFormed(h) && WellFormed(r)
    requires r[4][2] == h[2][6] && r[4][5] == h[2][3] && r[4][8] == h[2][0]
    requires r[2][6] == h[5][2] && r[2][3] == h[5][5] && r[2][0] == h[5][8]
    requires r[5][2] == h[0][2] && r[5][5] == h[0][5] && r[5][8] == h[0][8]
    requires r[0][2] == h[4][2] && r[0][5] == h[4][5] && r[0][8] == h[4][8]
    ensures SlotCopied(Turn(RIGHT, true), h, r, 0) && SlotCopied(Turn(RIGHT, true), h, r, 1) && SlotCopied(Turn(RIGHT, true), h, r, 2) && SlotCopied(Turn(RIGHT, true), h, r, 3)
    ensures SlotCopied(Turn(RIGHT, true), h, r, 4) && SlotCopied(Turn(RIGHT, true), h, r, 5) && SlotCopied(Turn(RIGHT, true), h, r, 6) && SlotCopied(Turn(RIGHT, true), h, r, 7)
    ensures SlotCopied(Turn(RIGHT, true), h, r, 8) && SlotCopied(Turn(RIGHT, true), h, r, 9) && SlotCopied(Turn(RIGHT, true), h, r, 10) && SlotCopied(Turn(RIGHT, true), h, r, 11)
  {
  }

  /** U's twelve assignments move each slot of the ring around the up face one strip on. */
  lemma CycleU(h: Grid, r: Grid)
    requires WellFormed(h) && WellFormed(r)
    requires r[0][0] == h[1][0] && r[0][1] == h[1][1] && r[0][2] == h[1][2]
    requires r[1][0] == h[2][0] && r[1][1] == h[2][1] && r[1][2] == h[2][2]
    requires r[2][0] == h[3][0] && r[2][1] == h[3][1] && r[2][2] == h[3][2]
    requires r[3][0] == h[0][0] && r[3][1] == h[0][1] && r[3][2] == h[0][2]
    ensures SlotCopied(Turn(UP, false), h, r, 0) && SlotCopied(Turn(UP, false), h, r, 1) && SlotCopied(Turn(UP, false), h, r, 2) && SlotCopied(Turn(UP, false), h, r, 3)
    ensures SlotCopied(Turn(UP, false), h, r, 4) && SlotCopied(Turn(UP, false), h, r, 5) && SlotCopied(Turn(UP, false), h, r, 6) && SlotCopied(Turn(UP, false), h, r, 7)
    ensures SlotCopied(Turn(UP, false), h, r, 8) && SlotCopied(Turn(UP, false), h, r, 9) && SlotCopied(Turn(UP, false), h, r, 10) && SlotCopied(Turn(UP, false), h, r, 11)
  {
  }

  /** Ui's twelve assignments move each slot of the ring around the up face one strip back. */
  lemma CycleUi(h: Grid, r: Grid)
    requires WellFormed(h) && WellFormed(r)
    requires r[0][0] == h[3][0] && r[0][1] == h[3][1] && r[0][2] == h[3][2]
    requires r[3][0] == h[2][0] && r[3][1] == h[2][1] && r[3][2] == h[2][2]
    requires r[2][0] == h[1][0] && r[2][1] == h[1][1] && r[2][2] == h[1][2]
    requires r[1][0] == h[0][0] && r[1][1] == h[0][1] && r[1][2] == h[0][2]
    ensures SlotCopied(Turn(UP, true), h, r, 0) && SlotCopied(Turn(UP, true), h, r, 1) && SlotCopied(Turn(UP, true), h, r, 2) && SlotCopied(Turn(UP, true), h, r, 3)
    ensures SlotCopied(Turn(UP, true), h, r, 4) && SlotCopied(Turn(UP, true), h, r, 5) && SlotCopied(Turn(UP, true), h, r, 6) && SlotCopied(Turn(UP, true), h, r, 7)
    ensures SlotCopied(Turn(UP, true), h, r, 8) && SlotCopied(Turn(UP, true), h, r, 9) && SlotCopied(Turn(UP, true), h, r, 10) && SlotCopied(Turn(UP, true), h, r, 11)
  {
  }

  /** D's twelve assignments move each slot of the ring around the down face one strip on. */
  lemma CycleD(h: Grid, r: Grid)
    requires WellFormed(h) && WellFormed(r)
    requires r[0][6] == h[3][6] && r[0][7] == h[3][7] && r[0][8] == h[3][8]
    requires r[3][6] == h[2][6] && r[3][7] == h[2][7] && r[3][8] == h[2][8]
    requires r[2][6] == h[1][6] && r[2][7] == h[1][7] && r[2][8] == h[1][8]
    requires r[1][6] == h[0][6] && r[1][7] == h[0][7] && r[1][8] == h[0][8]
    ensures SlotCopied(Turn(DOWN, false), h, r, 0) && SlotCopied(Turn(DOWN, false), h, r, 1) && SlotCopied(Turn(DOWN, false), h, r, 2) && SlotCopied(Turn(DOWN, false), h, r, 3)
    ensures SlotCopied(Turn(DOWN, false), h, r, 4) && SlotCopied(Turn(DOWN, false), h, r, 5) && SlotCopied(Turn(DOWN, false), h, r, 6) && SlotCopied(Turn(DOWN, false), h, r, 7)
    ensures SlotCopied(Turn(DOWN, false), h, r, 8) && SlotCopied(Turn(DOWN, false), h, r, 9) && SlotCopied(Turn(DOWN, false), h, r, 10) && SlotCopied(Turn(DOWN, false), h, r, 11)
  {
  }

  /** Di's twelve assignments move each slot of the ring around the down face one strip back. */
  lemma CycleDi(h: Grid, r: Grid)
    requires WellFormed(h) && WellFormed(r)
    requires r[0][6] == h[1][6] && r[0][7] == h[1][7] && r[0][8] == h[1][8]
    requires r[1][6] == h[2][6] && r[1][7] == h[2][7] && r[1][8] == h[2][8]
    requires r[2][6] == h[3][6] && r[2][7] == h[3][7] && r[2][8] == h[3][8]
    requires r[3][6] == h[0][6] && r[3][7] == h[0][7] && r[3][8] == h[0][8]
    ensures SlotCopied(Turn(DOWN, true), h, r, 0) && SlotCopied(Turn(DOWN, true), h, r, 1) && SlotCopied(Turn(DOWN, true), h, r, 2) && SlotCopied(Turn(DOWN, true), h, r, 3)
    ensures SlotCopied(Turn(DOWN, true), h, r, 4) && SlotCopied(Turn(DOWN, true), h, r, 5) && SlotCopied(Turn(DOWN, true), h, r, 6) && SlotCopied(Turn(DOWN, true), h, r, 7)
    ensures SlotCopied(Turn(DOWN, true), h, r, 8) && SlotCopied(Turn(DOWN, true), h, r, 9) && SlotCopied(Turn(DOWN, true), h, r, 10) && SlotCopied(Turn(DOWN, true), h, r, 11)
  {
  }

  /** L's twelve assignments move each slot of the ring around the left face one strip on. */
  lemma CycleL(h: Grid, r: Grid)
    requires WellFormed(h) && WellFormed(r)
    requires r[4][0] == h[2][8] && r[4][3] == h[2][5] && r[4][6] == h[2][2]
    requires r[2][8] == h[5][0] && r[2][5] == h[5][3] && r[2][2] == h[5][6]
    requires r[5][0] == h[0][0] && r[5][3] == h[0][3] && r[5][6] == h[0][6]
    requires r[0][0] == h[4][0] && r[0][3] == h[4][3] && r[0][6] == h[4][6]
    ensures SlotCopied(Turn(LEFT, false), h, r, 0) && SlotCopied(Turn(LEFT, false), h, r, 1) && SlotCopied(Turn(LEFT, false), h, r, 2) && SlotCopied(Turn(LEFT, false), h, r, 3)
    ensures SlotCopied(Turn(LEFT, false), h, r, 4) && SlotCopied(Turn(LEFT, false), h, r, 5) && SlotCopied(Turn(LEFT, false), h, r, 6) && SlotCopied(Turn(LEFT, false), h, r, 7)
    ensures SlotCopied(Turn(LEFT, false), h, r, 8) && SlotCopied(Turn(LEFT, false), h, r, 9) && SlotCopied(Turn(LEFT, false), h, r, 10) && SlotCopied(Turn(LEFT, false), h, r, 11)
  {
  }

  /** Li's twelve assignments move each slot of the ring around the left face one strip back. */
  lemma CycleLi(h: Grid, r: Grid)
    requires WellFormed(h) && WellFormed(r)
    requires r[4][0] == h[0][0] && r[4][3] == h[0][3] && r[4][6] == h[0][6]
    requires r[0][0] == h[5][0] && r[0][3] == h[5][3] && r[0][6] == h[5][6]
    requires r[5][0] == h[2][8] && r[5][3] == h[2][5] && r[5][6] == h[2][2]
    requires r[2][8] == h[4][0] && r[2][5] == h[4][3] && r[2][2] == h[4][6]
    ensures SlotCopied(Turn(LEFT, true), h, r, 0) && SlotCopied(Turn(LEFT, true), h, r, 1) && SlotCopied(Turn(LEFT, true), h, r, 2) && SlotCopied(Turn(LEFT, true), h, r, 3)
    ensures SlotCopied(Turn(LEFT, true), h, r, 4) && SlotCopied(Turn(LEFT, true), h, r, 5) && SlotCopied(Turn(LEFT, true), h, r, 6) && SlotCopied(Turn(LEFT, true), h, r, 7)
    ensures SlotCopied(Turn(LEFT, true), h, r, 8) && SlotCopied(Turn(LEFT, true), h, r, 9) && SlotCopied(Turn(LEFT, true), h, r, 10) && SlotCopied(Turn(LEFT, true), h, r, 11)
  {
  }

  /** B's twelve assignments move each slot of the ring around the back face one strip on. */
  lemma CycleB(h: Grid, r: Grid)
    requires WellFormed(h) && WellFormed(r)
    requires r[4][0] == h[1][2] && r[4][1] == h[1][5] && r[4][2] == h[1][8]
    requires r[1][2] == h[5][8] && r[1][5] == h[5][7] && r[1][8] == h[5][6]
    requires r[5][8] == h[3][6] && r[5][7] == h[3][3] && r[5][6] == h[3][0]
    requires r[3][6] == h[4][0] && r[3][3] == h[4][1] && r[3][0] == h[4][2]
    ensures SlotCopied(Turn(BACK, false), h, r, 0) && SlotCopied(Turn(BACK, false), h, r, 1) && SlotCopied(Turn(BACK, false), h, r, 2) && SlotCopied(Turn(BACK, false), h, r, 3)
    ensures SlotCopied(Turn(BACK, false), h, r, 4) && SlotCopied(Turn(BACK, false), h, r, 5) && SlotCopied(Turn(BACK, false), h, r, 6) && SlotCopied(Turn(BACK, false), h, r, 7)
    ensures SlotCopied(Turn(BACK, false), h, r, 8) && SlotCopied(Turn(BACK, false), h, r, 9) && SlotCopied(Turn(BACK, false), h, r, 10) && SlotCopied(Turn(BACK, false), h, r, 11)
  {
  }

  /** Bi's twelve assignments move each slot of the ring around the back face one strip back. */
  lemma CycleBi(h: Grid, r: Grid)
    requires WellFormed(h) && WellFormed(r)
    requires r[4][0] == h[3][6] && r[4][1] == h[3][3] && r[4][2] == h[3][0]
    requires r[3][6] == h[5][8] && r[3][3] == h[5][7] && r[3][0] == h[5][6]
    requires r[5][8] == h[1][2] && r[5][7] == h[1][5] && r[5][6] == h[1][8]
    requires r[1][2] == h[4][0] && r[1][5] == h[4][1] && r[1][8] == h[4][2]
    ensures SlotCopied(Turn(BACK, true), h, r, 0) && SlotCopied(Turn(BACK, true), h, r, 1) && SlotCopied(Turn(BACK, true), h, r, 2) && SlotCopied(Turn(BACK, true), h, r, 3)
    ensures SlotCopied(Turn(BACK, true), h, r, 4) && SlotCopied(Turn(BACK, true), h, r, 5) && SlotCopied(Turn(BACK, true), h, r, 6) && SlotCopied(Turn(BACK, true), h, r, 7)
    ensures SlotCopied(Turn(BACK, true), h, r, 8) && SlotCopied(Turn(BACK, true), h, r, 9) && SlotCopied(Turn(BACK, true), h, r, 10) && SlotCopied(Turn(BACK, true), h, r, 11)
  {
  }
}
