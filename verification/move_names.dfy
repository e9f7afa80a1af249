/** The move names executeMove and scramble use. */
module MoveNames {
  import opened Facelets
  import opened Moves

  /** The name of a move, read back by executeMove's dispatch, is that move. */
  lemma ParseMoveName(m: Move)
    ensures MoveName(m) in MOVE_LIST
    ensures ParseMove(MoveName(m)) == Some(m)
  {
    var n := MoveName(m);
    match m.face
    case 0 => assert n == if m.prime then "F'" else "F";
    case 1 => assert n == if m.prime then "R'" else "R";
    case 2 => assert n == if m.prime then "B'" else "B";
    case 3 => assert n == if m.prime then "L'" else "L";
    case 4 => assert n == if m.prime then "U'" else "U";
    case 5 => assert n == if m.prime then "D'" else "D";
  }

  /** executeMove recognises exactly the twelve move names. */
  lemma ParseMoveIff(name: string, m: Move)
    ensures ParseMove(name) == Some(m) <==> name == MoveName(m)
  {
    ParseMoveName(m);
  }

  lemma MoveListNames()
    ensures |MOVE_LIST| == 12
    ensures forall i :: 0 <= i < 12 ==> ParseMove(MOVE_LIST[i]).Some?
  {
  }

  lemma ExecuteUnknown(name: string, g: Grid)
    requires WellFormed(g) && name !in MOVE_LIST
    ensures Execute(name, g) == g
  {
  }

  lemma {:induction false} ExecuteAllSnoc(names: seq<string>, name: string, g: Grid)
    requires WellFormed(g)
    ensures ExecuteAll(names + [name], g) == Execute(name, ExecuteAll(names, g))
    decreases |names|
  {
    if names != [] {
      assert (names + [name])[1..] == names[1..] + [name];
      ExecuteAllSnoc(names[1..], name, Execute(names[0], g));
    }
  }
}
