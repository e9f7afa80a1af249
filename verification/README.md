# Rubik's cube engine — a Dafny model

This project models the `RubiksCube` class of `rubiks-cube-solver.tsx`.
The class keeps a 3×3×3 cube as six faces of nine colour labels:

- Faces: 0 Front, 1 Right, 2 Back, 3 Left, 4 Up, 5 Down.
- Positions: 0–8, row-major.
- Colours: the single letters `g r b o w y`.

The model covers:
- the constructor's solved cube;
- the 54-letter state string, `clone`, and the two face rotations;
- the twelve quarter turns and their string dispatch `executeMove`;
- `scramble`, `isSolved` and `getColor`;
- the edge table `getAdjacentEdgePosition` and the search `findEdge`.

The class is modelled as a class. `CubeEngine.RubiksCube` has a `faces` field. Its methods update that field and follow the source's statements:
- the face rotation's nine copies from a saved `temp`;
- each turn's rotation call followed by its twelve facelet copies around the ring;
- `executeMove`'s switch;
- `scramble`'s loop;
- `findEdge`'s loop over its 24-entry scan list.

Each method is proved against pure specification functions. The laws of the cube are then proved about those functions:
- `Moves.RotateFace` is the face rotation primitive.
- `Moves.Apply` is one turn, given as a permutation of facelets. `Moves.Source` names, for each facelet, the facelet the turn reads its colour from.
- `Moves.Execute` and `Moves.ExecuteAll` dispatch move names.
- `Facelets.Serialize` is the state string.
- `Edges.AdjacentEdge` is the edge table, and `Edges.FindEdge` is the edge search.

Each turn is described by four three-facelet strips around the turning face (`Moves.StripOf`). Together they form a twelve-slot ring. A clockwise turn fills each strip from the next one; a counter-clockwise turn fills it from the previous one. The `MoveCycles` lemmas tie each method's twelve assignments, as written in the source, to that ring. `MoveLaws.ApplyAfterCopies` then concludes that the method computed `Apply`.

On a fresh cube, `findEdge("g", "y")` finds Front position 7, because the table pairs Front 7 with Down 1 (`Edges.FreshGreenYellow`).

## Model

| member | source | states |
|---|---|---|
| Facelets.Solved | rubiks-cube-solver.tsx:13-23 | the fresh grid has six faces of nine, and every facelet of face f carries that face's colour (g r b o w y) |
| Facelets.FreshPopulation | rubiks-cube-solver.tsx:13-23 | a fresh cube shows each of g r b o w y on exactly nine facelets and no other label at all |
| Facelets.FreshCellsWith | rubiks-cube-solver.tsx:13-23 | on a fresh cube the facelets of face f's colour are exactly the nine facelets of face f |
| Facelets.Serialize | rubiks-cube-solver.tsx:26-28 | the joined string has 9 letters per face, and letter 9·f+p is position p of face f |
| Facelets.DeserializeSerialize | rubiks-cube-solver.tsx:26-28 | cutting the state string back into nines recovers the exact grid, so the string loses nothing |
| Facelets.SerializeDeserialize | rubiks-cube-solver.tsx:26-28 | every 54-letter string is the state string of the grid cut from it |
| Facelets.SolvedIffUniform | rubiks-cube-solver.tsx:340-342 | the check "every square equals the face's position 4" holds iff every face is a single colour |
| Facelets.FreshIsSolved | rubiks-cube-solver.tsx:340-342 | a freshly constructed cube is solved |
| Moves.RotateFace | rubiks-cube-solver.tsx:38-65 | a rotation keeps the grid's shape, writes no face but the rotated one, and leaves position 4 in place |
| Moves.Apply | rubiks-cube-solver.tsx:68-281 | a turn keeps six faces of nine; what it moves is stated by the MoveLaws lemmas below |
| Moves.Execute | rubiks-cube-solver.tsx:284-323 | executing a name keeps the grid's shape; MoveNames states which names turn what |
| MoveLaws.RotationInverse | rubiks-cube-solver.tsx:38-65 | the clockwise and counter-clockwise position tables undo each other |
| MoveLaws.RotationOrder4 | rubiks-cube-solver.tsx:38-50 | four applications of a rotation table bring every position back |
| MoveLaws.RotateFaceRoundTrip | rubiks-cube-solver.tsx:38-65 | rotating a face clockwise and then counter-clockwise (or the other way) restores the grid exactly |
| MoveLaws.RingTableIsRing | rubiks-cube-solver.tsx:68-281 | the ring cells written out as the move bodies name them are the cells of the four strips |
| MoveLaws.ApplyRotatesFace | rubiks-cube-solver.tsx:68-69 | on its own face a turn is the face rotation, clockwise for an unprimed turn |
| MoveLaws.MoveFrame | rubiks-cube-solver.tsx:68-281 | a turn leaves every facelet off its face and off the ring around it unchanged |
| MoveLaws.InverseRestores | rubiks-cube-solver.tsx:68-281 | X followed by X' restores the exact prior grid, for all six faces |
| MoveLaws.InverseRestoresPrime | rubiks-cube-solver.tsx:68-281 | X' followed by X restores the exact prior grid |
| MoveLaws.Order4 | rubiks-cube-solver.tsx:68-281 | any turn applied four times restores the exact prior grid |
| MoveLaws.PrimeIsThreeTurns | rubiks-cube-solver.tsx:68-281 | X' equals X applied three times |
| MoveLaws.OppositeTurnsCommute | rubiks-cube-solver.tsx:68-281 | turns of opposite faces (F/B, R/L, U/D) commute |
| MoveLaws.Population | rubiks-cube-solver.tsx:68-281 | a turn keeps the number of facelets of every colour |
| MoveLaws.ApplyAllPopulation | rubiks-cube-solver.tsx:68-281 | any sequence of turns keeps the number of facelets of every colour |
| MoveLaws.ExecuteAllPopulation | rubiks-cube-solver.tsx:284-323 | any sequence of executed names, known or not, keeps every colour's count |
| MoveLaws.ReachablePopulation | rubiks-cube-solver.tsx:326-337 | every state reachable from a fresh cube shows each colour on exactly nine facelets |
| MoveLaws.OneTurnUnsolves | rubiks-cube-solver.tsx:340-342 | after any single turn a fresh cube is no longer solved |
| MoveLaws.ApplyByRing | rubiks-cube-solver.tsx:68-281 | a grid whose turning face is rotated, whose ring slots hold their sources' colours and which is unchanged elsewhere is the turn's result |
| MoveLaws.ApplyAfterRotation | rubiks-cube-solver.tsx:68-281 | rotating the face first and then copying the ring one strip along yields the turn's result |
| MoveLaws.ApplyAfterCopies | rubiks-cube-solver.tsx:68-281 | the same, with the ring copies given cell by cell as in the move bodies |
| MoveLaws.OffRingNoSlot | rubiks-cube-solver.tsx:68-281 | a facelet is missing from the written-out ring exactly when the ring has no slot for it |
| MoveCycles.CycleF | rubiks-cube-solver.tsx:68-83 | F's twelve copies move each slot of the ring around Front from the next strip |
| MoveCycles.CycleFi | rubiks-cube-solver.tsx:86-101 | F''s twelve copies move each slot of the ring around Front from the previous strip |
| MoveCycles.CycleR | rubiks-cube-solver.tsx:104-119 | R's copies move each slot of the ring around Right from the next strip |
| MoveCycles.CycleRi | rubiks-cube-solver.tsx:122-137 | R''s copies move each slot of the ring around Right from the previous strip |
| MoveCycles.CycleU | rubiks-cube-solver.tsx:140-155 | U's copies move each slot of the ring around Up from the next strip |
| MoveCycles.CycleUi | rubiks-cube-solver.tsx:158-173 | U''s copies move each slot of the ring around Up from the previous strip |
| MoveCycles.CycleD | rubiks-cube-solver.tsx:176-191 | D's copies move each slot of the ring around Down from the next strip |
| MoveCycles.CycleDi | rubiks-cube-solver.tsx:194-209 | D''s copies move each slot of the ring around Down from the previous strip |
| MoveCycles.CycleL | rubiks-cube-solver.tsx:212-227 | L's copies move each slot of the ring around Left from the next strip |
| MoveCycles.CycleLi | rubiks-cube-solver.tsx:230-245 | L''s copies move each slot of the ring around Left from the previous strip |
| MoveCycles.CycleB | rubiks-cube-solver.tsx:248-263 | B's copies move each slot of the ring around Back from the next strip |
| MoveCycles.CycleBi | rubiks-cube-solver.tsx:266-281 | B''s copies move each slot of the ring around Back from the previous strip |
| MoveNames.ParseMoveName | rubiks-cube-solver.tsx:284-323 | every turn's name is in the move list and dispatches to exactly that turn |
| MoveNames.ParseMoveIff | rubiks-cube-solver.tsx:284-323 | a name dispatches to a turn if and only if it is that turn's name |
| MoveNames.MoveListNames | rubiks-cube-solver.tsx:327 | the move list has twelve entries, each of which names a turn |
| MoveNames.ExecuteUnknown | rubiks-cube-solver.tsx:284-323 | a name outside the twelve leaves the grid unchanged |
| MoveNames.ExecuteAllSnoc | rubiks-cube-solver.tsx:330-334 | executing a list and then one more name is executing the extended list |
| Edges.AdjacentEdge | rubiks-cube-solver.tsx:392-420 | the table answers exactly for faces 0–5 at positions 1, 3, 5, 7, always with an edge position on another face |
| Edges.AdjacentInvolution | rubiks-cube-solver.tsx:393-418 | the table pairs facelets two by two: the partner's partner is the facelet itself, and no facelet is its own partner |
| Edges.EdgePosition | rubiks-cube-solver.tsx:351-376 | every scan-list entry is an edge position |
| Edges.EdgePositionsEnumerate | rubiks-cube-solver.tsx:351-376 | the scan list holds every edge facelet of every face, each exactly once |
| Edges.EdgeScan | rubiks-cube-solver.tsx:378-388 | the scan returns the first matching index from its start, or -1 exactly when none matches |
| Edges.FindEdgeFirstMatch | rubiks-cube-solver.tsx:350-389 | a found facelet matches and no earlier one does; null exactly when no facelet of the cube matches |
| Edges.FindEdgeAt | rubiks-cube-solver.tsx:378-388 | a match at scan index i with none before it is the search's answer |
| Edges.EdgeScanSymmetric | rubiks-cube-solver.tsx:383 | swapping the two colours does not change the scan |
| Edges.FindEdgeSymmetric | rubiks-cube-solver.tsx:383 | findEdge(a, b) and findEdge(b, a) agree |
| Edges.FindEdgeNeedsLabels | rubiks-cube-solver.tsx:380-384 | a colour argument that is not a single letter is never found |
| Edges.FreshGreenWhite | rubiks-cube-solver.tsx:350-389 | on a fresh cube the green-white edge is found at Front position 1 |
| Edges.FreshGreenYellow | rubiks-cube-solver.tsx:350-389 | on a fresh cube the green-yellow edge is found at Front position 7 |
| Edges.FreshGreenBlueAbsent | rubiks-cube-solver.tsx:350-389 | on a fresh cube no edge shows green and blue |
| EdgeMoves.StripEdgePartner | rubiks-cube-solver.tsx:392-420 | the table pairs each face's edge next to a turning strip with that strip's middle facelet |
| EdgeMoves.StripMiddlePartner | rubiks-cube-solver.tsx:392-420 | the middle facelet of each strip is paired with the face edge it borders |
| EdgeMoves.RingEdgeSlots | rubiks-cube-solver.tsx:68-281 | the only edge facelets on a turning ring are the middles of its strips |
| EdgeMoves.StripEdgeTurns | rubiks-cube-solver.tsx:38-65 | a face rotation carries the face edges in the same direction as the turn carries the strips |
| EdgeMoves.TurnedStripPair | rubiks-cube-solver.tsx:68-281 | a turn carries each (face edge, strip middle) pair onto another such pair |
| EdgeMoves.EdgeOffRing | rubiks-cube-solver.tsx:392-420 | an edge facelet whose partner is off face f lies off the ring around f |
| EdgeMoves.MoveKeepsEdgePairs | rubiks-cube-solver.tsx:68-281 | every turn moves the two facelets of an edge piece onto the two facelets of one edge piece: the move bodies agree with the edge table |
| EdgeMoves.MoveKeepsEdgeColours | rubiks-cube-solver.tsx:68-281 | after a turn, every edge piece shows the two colours that some edge piece showed before |
| CubeEngine.RubiksCube.constructor | rubiks-cube-solver.tsx:13-23 | a new cube holds the solved grid |
| CubeEngine.RubiksCube.CubeString | rubiks-cube-solver.tsx:26-28 | the state string has 54 letters, letter 9·f+p is position p of face f, and it reads back to the grid |
| CubeEngine.RubiksCube.Clone | rubiks-cube-solver.tsx:31-35 | the clone is a new object with the same faces |
| CubeEngine.RubiksCube.RotateFaceClockwise | rubiks-cube-solver.tsx:38-50 | after the nine copies the faces are the clockwise rotation of the old ones |
| CubeEngine.RubiksCube.RotateFaceCounterClockwise | rubiks-cube-solver.tsx:53-65 | after the nine copies the faces are the counter-clockwise rotation of the old ones |
| CubeEngine.RubiksCube.F | rubiks-cube-solver.tsx:68-83 | the new faces are the F turn of the old faces |
| CubeEngine.RubiksCube.Fi | rubiks-cube-solver.tsx:86-101 | the new faces are the F' turn of the old faces |
| CubeEngine.RubiksCube.R | rubiks-cube-solver.tsx:104-119 | the new faces are the R turn of the old faces |
| CubeEngine.RubiksCube.Ri | rubiks-cube-solver.tsx:122-137 | the new faces are the R' turn of the old faces |
| CubeEngine.RubiksCube.U | rubiks-cube-solver.tsx:140-155 | the new faces are the U turn of the old faces |
| CubeEngine.RubiksCube.Ui | rubiks-cube-solver.tsx:158-173 | the new faces are the U' turn of the old faces |
| CubeEngine.RubiksCube.D | rubiks-cube-solver.tsx:176-191 | the new faces are the D turn of the old faces |
| CubeEngine.RubiksCube.Di | rubiks-cube-solver.tsx:194-209 | the new faces are the D' turn of the old faces |
| CubeEngine.RubiksCube.L | rubiks-cube-solver.tsx:212-227 | the new faces are the L turn of the old faces |
| CubeEngine.RubiksCube.Li | rubiks-cube-solver.tsx:230-245 | the new faces are the L' turn of the old faces |
| CubeEngine.RubiksCube.B | rubiks-cube-solver.tsx:248-263 | the new faces are the B turn of the old faces |
| CubeEngine.RubiksCube.Bi | rubiks-cube-solver.tsx:266-281 | the new faces are the B' turn of the old faces |
| CubeEngine.RubiksCube.ExecuteMove | rubiks-cube-solver.tsx:284-323 | the switch turns the named face for each of the twelve names and leaves the cube as it was for any other string |
| CubeEngine.RubiksCube.Scramble | rubiks-cube-solver.tsx:326-337 | returns one name per step (none for a count of zero or less), each the move-list entry chosen at that step, and the cube ends as those names applied in order |
| CubeEngine.RubiksCube.IsSolved | rubiks-cube-solver.tsx:340-342 | true exactly when every face shows a single colour |
| CubeEngine.RubiksCube.GetColor | rubiks-cube-solver.tsx:345-347 | the colour at (face, position) is letter 9·face+position of the state string |
| CubeEngine.RubiksCube.FindEdge | rubiks-cube-solver.tsx:350-389 | the loop returns the search's answer: a facelet whose edge shows the two colours, or null exactly when no facelet does |

## Left out

- `RubiksSolver`, `getCubeSvg` and the React user interface are not part of this model.
- `Math.random` in `scramble` is replaced by a `picks` parameter. Its entries are the indices in [0, 12) that the random draw would produce. The default argument `moves = 20` is not modelled; the count is always passed.
- CubeEngine.RubiksCube.RotateFaceClockwise: requires a face index in 0–5. The source would throw on other indices; that path is not modelled. The same holds for `RotateFaceCounterClockwise`.
- CubeEngine.RubiksCube.GetColor: requires a face in 0–5 and a position in 0–8. The source returns `undefined` or throws outside that range; that path is not modelled.
- CubeEngine.RubiksCube.Scramble: requires at least `moves` picks, each in [0, 12), which is what the random draw guarantees. The count is modelled as an integer. The source's `moves` is a JavaScript number, and its loop `i < moves` runs 3 steps for 2.5, none for NaN, and never ends for Infinity; those counts are not modelled. The one caller in the file passes 15.
- Aliasing of the inner face arrays is not modelled. The faces are a value of type `seq<seq<char>>`. Each move edits a local copy, statement by statement, and stores it back once. No other reference to the inner arrays exists, because `clone` copies every face. So this gives the same final state as the source's in-place writes, but it does not model sharing.
- Colour labels are `char`. The source compares one-letter strings, so `findEdge` receives strings and compares `[label]` with them.
- The adjacency table's string keys (`"f-p"`) are modelled as a match on the pair (face, position).
- Longer move identities such as `(R U R' U')^6` being the identity are not proved.
