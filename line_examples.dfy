/**
 * Worked cases of the line detector on a small board, with minLength 3 as
 * the game uses it.
 */
module LineExamples {
  import opened GameTypes
  import opened LineDetector

  const Red: string := "#FF0000"
  const RedCell: Cell := Cell(GameItem("", ""), Some(Red), false)

  /** One row of five red cells. */
  const FiveRed: Board := [[RedCell, RedCell, RedCell, RedCell, RedCell]]

  const FiveRun: seq<Coord> := [Coord(0, 0), Coord(0, 1), Coord(0, 2), Coord(0, 3), Coord(0, 4)]
  const FirstThree: seq<Coord> := [Coord(0, 0), Coord(0, 1), Coord(0, 2)]
  const MiddleThree: seq<Coord> := [Coord(0, 1), Coord(0, 2), Coord(0, 3)]
  const LastThree: seq<Coord> := [Coord(0, 2), Coord(0, 3), Coord(0, 4)]

  lemma FiveRunHorizontal()
    ensures RunThrough(FiveRed, 0, 2, Red, Directions[0]) == FiveRun
  {
    var d := Directions[0];
    assert RunStart(FiveRed, Red, 0, 0, d, 8) == Coord(0, 0);
    assert RunStart(FiveRed, Red, 0, 1, d, 9) == Coord(0, 0);
    assert RunStart(FiveRed, Red, 0, 2, d, 10) == Coord(0, 0);
    assert RunFrom(FiveRed, Red, 0, 5, d, 5) == [];
    assert RunFrom(FiveRed, Red, 0, 4, d, 6) == [Coord(0, 4)];
    assert RunFrom(FiveRed, Red, 0, 3, d, 7) == [Coord(0, 3), Coord(0, 4)];
    assert RunFrom(FiveRed, Red, 0, 2, d, 8) == [Coord(0, 2), Coord(0, 3), Coord(0, 4)];
    assert RunFrom(FiveRed, Red, 0, 1, d, 9) == FiveRun[1..];
  }

  lemma FiveRunOthers(q: nat)
    requires 1 <= q < |Directions|
    ensures RunThrough(FiveRed, 0, 2, Red, Directions[q]) == [Coord(0, 2)]
  {
    var d := Directions[q];
    assert RunStart(FiveRed, Red, 0, 2, d, MaxSteps) == Coord(0, 2);
    assert RunFrom(FiveRed, Red, 1, 2 + d.dy, d, MaxSteps - 1) == [];
  }

  lemma MiddleRefused()
    ensures !Compatible(MiddleThree, Directions[0], Red, WinningLine(FirstThree, Red))
  {
    assert Common(MiddleThree[2..], FirstThree) == [];
    assert Common(MiddleThree[1..], FirstThree) == [Coord(0, 2)];
    assert Common(MiddleThree, FirstThree) == [Coord(0, 1), Coord(0, 2)];
  }

  lemma LastAccepted()
    ensures Compatible(LastThree, Directions[0], Red, WinningLine(FirstThree, Red))
  {
    assert Common(LastThree[2..], FirstThree) == [];
    assert Common(LastThree[1..], FirstThree) == [];
    assert Common(LastThree, FirstThree) == [Coord(0, 2)];
  }

  const FirstClaim: seq<WinningLine> := [WinningLine(FirstThree, Red)]
  const BothClaims: seq<WinningLine> := [WinningLine(FirstThree, Red), WinningLine(LastThree, Red)]

  lemma FirstWindow()
    ensures AcceptWindows(FiveRun, 0, 3, Directions[0], Red, []) == AcceptWindows(FiveRun, 1, 3, Directions[0], Red, FirstClaim)
  {
    assert Window(FiveRun, 0, 3) == FirstThree;
    assert AllCompatible(FirstThree, Directions[0], Red, []);
  }

  lemma MiddleWindow()
    ensures AcceptWindows(FiveRun, 1, 3, Directions[0], Red, FirstClaim)
            == AcceptWindows(FiveRun, 2, 3, Directions[0], Red, FirstClaim)
  {
    assert Window(FiveRun, 1, 3) == MiddleThree;
    MiddleRefused();
    assert FirstClaim[0] == WinningLine(FirstThree, Red);
    assert !AllCompatible(MiddleThree, Directions[0], Red, FirstClaim);
  }

  lemma LastWindow()
    ensures AcceptWindows(FiveRun, 2, 3, Directions[0], Red, FirstClaim) == BothClaims
  {
    assert Window(FiveRun, 2, 3) == LastThree;
    LastAccepted();
    assert forall l :: l in FirstClaim ==> l == WinningLine(FirstThree, Red);
    assert AllCompatible(LastThree, Directions[0], Red, FirstClaim);
    assert FirstClaim + [WinningLine(LastThree, Red)] == BothClaims;
    assert AcceptWindows(FiveRun, 3, 3, Directions[0], Red, BothClaims) == BothClaims;
  }

  lemma FiveWindows()
    ensures AcceptWindows(FiveRun, 0, 3, Directions[0], Red, []) == BothClaims
  {
    FirstWindow();
    MiddleWindow();
    LastWindow();
  }

  /**
   * Five red cells in a row, the middle one coloured last: the windows at
   * 0 and 2 are claimed (they meet tip to tip at the middle cell) and the
   * window at 1 is refused (it shares two cells with the first claim).
   */
  lemma FiveInARow()
    ensures WinningLines(FiveRed, 0, 2, Red, 3, []) == BothClaims
  {
    var found := BothClaims;
    FiveRunHorizontal();
    FiveWindows();
    assert ScanDirection(FiveRed, 0, 2, Red, 3, Directions[0], []) == found;
    forall q | 1 <= q < |Directions|
      ensures ScanDirection(FiveRed, 0, 2, Red, 3, Directions[q], found) == found
    {
      FiveRunOthers(q);
    }
    assert ScanDirections(FiveRed, 0, 2, Red, 3, 4, found) == found;
    assert ScanDirections(FiveRed, 0, 2, Red, 3, 3, found) == found;
    assert ScanDirections(FiveRed, 0, 2, Red, 3, 2, found) == found;
    assert ScanDirections(FiveRed, 0, 2, Red, 3, 1, found) == found;
  }
}
