/**
 * The line detector (checkWinningLines): from a just-coloured cell it scans
 * four directions, collects the same-coloured run through the cell and
 * claims every window of `minLength` cells that does not clash with a line
 * already claimed.
 *
 * The recursive functions below are the specification; the method
 * CheckWinningLines is the loop-based procedure, proved equal to them.
 */
module LineDetector {
  import opened GameTypes

  /** A scan direction: `dx` is the row step, `dy` the column step. */
  datatype Dir = Dir(dx: int, dy: int)

  /** Horizontal, vertical, down-right diagonal, down-left diagonal, in scan order. */
  const Directions: seq<Dir> := [Dir(0, 1), Dir(1, 0), Dir(1, 1), Dir(1, -1)]

  /** Both walks are cut off after this many steps. */
  const MaxSteps: nat := 10

  /** Math.sign on integers. */
  function Sign(x: int): (s: int)
    ensures s == 0 <==> x == 0
    ensures s == 1 <==> x > 0
    ensures s == -1 <==> x < 0
  {
    if x > 0 then 1 else if x < 0 then -1 else 0
  }

  /** `board[r][c]?.color === color`: the cell exists and has the colour. */
  predicate HasColor(board: Board, r: int, c: int, color: string)
  {
    0 <= r < |board| && 0 <= c < |board[r]| && board[r][c].color == Some(color)
  }

  /** The neighbour of `p` one step along `d`. */
  function Step(p: Coord, d: Dir): Coord
  {
    Coord(p.row + d.dx, p.col + d.dy)
  }

  /** Consecutive cells of `cells` are one step `d` apart. */
  ghost predicate IsRun(cells: seq<Coord>, d: Dir)
  {
    forall i, j :: 0 <= i < |cells| && j == i + 1 && j < |cells| ==> cells[j] == Step(cells[i], d)
  }

  /**
   * The backward walk: from (r, c), step against `d` while the neighbour is
   * on the board and has the colour, at most `steps` times.
   */
  function RunStart(board: Board, color: string, r: int, c: int, d: Dir, steps: nat): Coord
    requires |board| > 0
    decreases steps
  {
    if steps > 0 && r - d.dx >= 0 && c - d.dy >= 0 && c - d.dy < |board[0]|
       && HasColor(board, r - d.dx, c - d.dy, color)
    then RunStart(board, color, r - d.dx, c - d.dy, d, steps - 1)
    else Coord(r, c)
  }

  /**
   * The forward walk: the cells from (r, c) along `d` that are on the board
   * and have the colour, at most `steps` of them.
   */
  function RunFrom(board: Board, color: string, r: int, c: int, d: Dir, steps: nat): (cells: seq<Coord>)
    requires |board| > 0
    ensures |cells| <= steps
    decreases steps
  {
    if steps > 0 && r < |board| && c >= 0 && c < |board[0]| && HasColor(board, r, c, color)
    then [Coord(r, c)] + RunFrom(board, color, r + d.dx, c + d.dy, d, steps - 1)
    else []
  }

  /** The run scanned along `d` through (row, col). */
  function RunThrough(board: Board, row: int, col: int, color: string, d: Dir): seq<Coord>
    requires |board| > 0
  {
    var start := RunStart(board, color, row, col, d, MaxSteps);
    RunFrom(board, color, start.row, start.col, d, MaxSteps)
  }

  /** The cells of `sub` that also lie on `cells`, in the order of `sub` (a filter). */
  function Common(sub: seq<Coord>, cells: seq<Coord>): (common: seq<Coord>)
    ensures |common| <= |sub|
    ensures forall p :: p in common <==> p in sub && p in cells
  {
    if sub == [] then []
    else (if sub[0] in cells then [sub[0]] else []) + Common(sub[1..], cells)
  }

  /** Lines of `color` in `lines` have at least one cell (the test reads their ends). */
  ghost predicate ColorLinesNonEmpty(lines: seq<WinningLine>, color: string)
  {
    forall l :: l in lines && l.color == color ==> |l.cells| > 0
  }

  /**
   * May the window `sub`, scanned along `d` in `color`, be claimed next to
   * the already claimed `line`? Yes when the colours differ, when the
   * line's sign direction differs from `d`'s, when they share no cell, or
   * when they share exactly one cell which is the window's first and the
   * line's last, or the window's last and the line's first.
   */
  predicate Compatible(sub: seq<Coord>, d: Dir, color: string, line: WinningLine)
    requires line.color == color ==> |line.cells| > 0
    ensures !Compatible(sub, d, color, line) ==>
              && line.color == color
              && Sign(d.dx) == Sign(line.cells[|line.cells| - 1].row - line.cells[0].row)
              && Sign(d.dy) == Sign(line.cells[|line.cells| - 1].col - line.cells[0].col)
              && exists p :: p in sub && p in line.cells
    ensures Compatible(sub, d, color, line) && line.color == color
            && Sign(d.dx) == Sign(line.cells[|line.cells| - 1].row - line.cells[0].row)
            && Sign(d.dy) == Sign(line.cells[|line.cells| - 1].col - line.cells[0].col)
            ==> |Common(sub, line.cells)| <= 1
  {
    if line.color != color then true
    else
      var first := line.cells[0];
      var last := line.cells[|line.cells| - 1];
      if Sign(d.dx) != Sign(last.row - first.row) || Sign(d.dy) != Sign(last.col - first.col) then true
      else
        var common := Common(sub, line.cells);
        if |common| == 0 then true
        else
          assert common[0] in common;
          if |common| > 1 then false
          else
            var cell := common[0];
            (sub[0] == cell && last == cell) || (sub[|sub| - 1] == cell && first == cell)
  }

  /** The window is compatible with every line claimed so far. */
  predicate AllCompatible(sub: seq<Coord>, d: Dir, color: string, lines: seq<WinningLine>)
    requires ColorLinesNonEmpty(lines, color)
  {
    forall l :: l in lines ==> Compatible(sub, d, color, l)
  }

  /** The window of `minLength` cells starting at index `i` (cells.slice(i, i + minLength)). */
  function Window(cells: seq<Coord>, i: nat, minLength: nat): (w: seq<Coord>)
    requires i + minLength <= |cells|
    ensures |w| == minLength
    ensures forall t :: 0 <= t < minLength ==> w[t] == cells[i + t]
  {
    cells[i..i + minLength]
  }

  /**
   * Tests the windows of `cells` from start index `i` on, in ascending
   * order, each against the growing list, and appends those accepted.
   */
  function AcceptWindows(cells: seq<Coord>, i: nat, minLength: int, d: Dir, color: string,
                         lines: seq<WinningLine>): (r: seq<WinningLine>)
    requires minLength >= 1
    requires ColorLinesNonEmpty(lines, color)
    ensures lines <= r
    ensures ColorLinesNonEmpty(r, color)
    ensures |r| <= |lines| + (if i + minLength <= |cells| then |cells| - i - minLength + 1 else 0)
    decreases |cells| - i
  {
    if i + minLength <= |cells| then
      var sub := Window(cells, i, minLength);
      var next := if AllCompatible(sub, d, color, lines) then lines + [WinningLine(sub, color)] else lines;
      AcceptWindows(cells, i + 1, minLength, d, color, next)
    else lines
  }

  /** One direction of the scan. */
  function ScanDirection(board: Board, row: int, col: int, color: string, minLength: int, d: Dir,
                         lines: seq<WinningLine>): seq<WinningLine>
    requires |board| > 0 && minLength >= 1
    requires ColorLinesNonEmpty(lines, color)
  {
    AcceptWindows(RunThrough(board, row, col, color, d), 0, minLength, d, color, lines)
  }

  /** The directions from index `k` on, in order. */
  function ScanDirections(board: Board, row: int, col: int, color: string, minLength: int, k: nat,
                          lines: seq<WinningLine>): (r: seq<WinningLine>)
    requires |board| > 0 && minLength >= 1 && k <= |Directions|
    requires ColorLinesNonEmpty(lines, color)
    ensures lines <= r
    ensures ColorLinesNonEmpty(r, color)
    decreases |Directions| - k
  {
    if k == |Directions| then lines
    else
      var next := ScanDirection(board, row, col, color, minLength, Directions[k], lines);
      ScanDirections(board, row, col, color, minLength, k + 1, next)
  }

  /** The result of checkWinningLines. */
  function WinningLines(board: Board, row: int, col: int, color: string, minLength: int,
                        existing: seq<WinningLine>): seq<WinningLine>
    requires 0 <= row < |board| && minLength >= 1
    requires ColorLinesNonEmpty(existing, color)
  {
    ScanDirections(board, row, col, color, minLength, 0, existing)
  }

  /**
   * checkWinningLines: for each direction in turn, collect the run through
   * (row, col) and test its windows against the growing list.
   */
  method CheckWinningLines(board: Board, row: int, col: int, color: string, minLength: int,
                           existingLines: seq<WinningLine>) returns (newLines: seq<WinningLine>)
    requires 0 <= row < |board| && minLength >= 1
    requires ColorLinesNonEmpty(existingLines, color)
    ensures newLines == WinningLines(board, row, col, color, minLength, existingLines)
  {
    newLines := existingLines;
    var k := 0;
    while k < |Directions|
      invariant 0 <= k <= |Directions|
      invariant ColorLinesNonEmpty(newLines, color)
      invariant ScanDirections(board, row, col, color, minLength, k, newLines)
                == WinningLines(board, row, col, color, minLength, existingLines)
    {
      var d := Directions[k];
      var start := WalkBack(board, row, col, color, d);
      var cells := WalkForward(board, start, color, d);
      newLines := TestWindows(cells, minLength, d, color, newLines);
      k := k + 1;
    }
  }

  /** The backward walk of one direction, with its step budget. */
  method WalkBack(board: Board, row: int, col: int, color: string, d: Dir) returns (start: Coord)
    requires 0 <= row < |board|
    ensures start == RunStart(board, color, row, col, d, MaxSteps)
  {
    var startRow, startCol := row, col;
    var maxBackSteps: nat := MaxSteps;
    while maxBackSteps > 0 && startRow - d.dx >= 0 && startCol - d.dy >= 0 && startCol - d.dy < |board[0]|
          && HasColor(board, startRow - d.dx, startCol - d.dy, color)
      invariant RunStart(board, color, startRow, startCol, d, maxBackSteps)
                == RunStart(board, color, row, col, d, MaxSteps)
    {
      startRow, startCol := startRow - d.dx, startCol - d.dy;
      maxBackSteps := maxBackSteps - 1;
    }
    start := Coord(startRow, startCol);
  }

  /** The forward walk of one direction, collecting the run's cells. */
  method WalkForward(board: Board, start: Coord, color: string, d: Dir) returns (cells: seq<Coord>)
    requires |board| > 0
    ensures cells == RunFrom(board, color, start.row, start.col, d, MaxSteps)
  {
    var currentRow, currentCol := start.row, start.col;
    cells := [];
    var maxForwardSteps: nat := MaxSteps;
    while maxForwardSteps > 0 && currentRow < |board| && currentCol >= 0 && currentCol < |board[0]|
          && HasColor(board, currentRow, currentCol, color)
      invariant cells + RunFrom(board, color, currentRow, currentCol, d, maxForwardSteps)
                == RunFrom(board, color, start.row, start.col, d, MaxSteps)
    {
      cells := cells + [Coord(currentRow, currentCol)];
      currentRow, currentCol := currentRow + d.dx, currentCol + d.dy;
      maxForwardSteps := maxForwardSteps - 1;
    }
  }

  /** The window loop of one direction: each window in ascending order, appended if accepted. */
  method TestWindows(cells: seq<Coord>, minLength: int, d: Dir, color: string, lines: seq<WinningLine>)
    returns (newLines: seq<WinningLine>)
    requires minLength >= 1
    requires ColorLinesNonEmpty(lines, color)
    ensures newLines == AcceptWindows(cells, 0, minLength, d, color, lines)
  {
    newLines := lines;
    var i := 0;
    while i + minLength <= |cells|
      invariant ColorLinesNonEmpty(newLines, color)
      invariant AcceptWindows(cells, i, minLength, d, color, newLines)
                == AcceptWindows(cells, 0, minLength, d, color, lines)
      decreases |cells| - i
    {
      var subLine := Window(cells, i, minLength);
      if AllCompatible(subLine, d, color, newLines) {
        newLines := newLines + [WinningLine(subLine, color)];
      }
      i := i + 1;
    }
  }
}
