/**
 * What checkWinningLines guarantees: it only appends; every appended line is
 * a same-coloured straight window of minLength cells on the board; lines of
 * one colour and one direction overlap only tip to tip; re-running it on its
 * own result adds nothing; and each direction adds a bounded number of lines.
 */
module LineProperties {
  import opened GameTypes
  import opened LineDetector

  // ---------------------------------------------------------------- runs

  /** The forward walk yields a straight run of coloured on-board cells starting at (r, c). */
  lemma {:induction false} RunFromShape(board: Board, color: string, r: int, c: int, d: Dir, steps: nat)
    requires |board| > 0
    ensures var cells := RunFrom(board, color, r, c, d, steps);
      && (|cells| > 0 ==> cells[0] == Coord(r, c))
      && IsRun(cells, d)
      && forall p :: p in cells ==> HasColor(board, p.row, p.col, color) && p.col < |board[0]|
    decreases steps
  {
    if steps > 0 && r < |board| && c >= 0 && c < |board[0]| && HasColor(board, r, c, color) {
      RunFromShape(board, color, r + d.dx, c + d.dy, d, steps - 1);
    }
  }

  /** The cells of a run along `d` are `d`-multiples away from its head. */
  lemma {:induction false} RunOffset(cells: seq<Coord>, d: Dir, i: nat)
    requires IsRun(cells, d) && i < |cells|
    ensures cells[i] == Coord(cells[0].row + i * d.dx, cells[0].col + i * d.dy)
  {
    if i > 0 {
      RunOffset(cells, d, i - 1);
      assert cells[i] == Step(cells[i - 1], d);
    }
  }

  /** No cell repeats in a sequence. */
  ghost predicate Distinct(s: seq<Coord>)
  {
    forall i, j :: 0 <= i < j < |s| ==> s[i] != s[j]
  }

  /** A run along one of the four scan directions never revisits a cell. */
  lemma RunDistinct(cells: seq<Coord>, d: Dir)
    requires d in Directions && IsRun(cells, d)
    ensures Distinct(cells)
  {
    forall i, j | 0 <= i < j < |cells|
      ensures cells[i] != cells[j]
    {
      RunOffset(cells, d, i);
      RunOffset(cells, d, j);
    }
  }

  /** The first-to-last sign direction of a run of two or more cells. */
  function SignDir(cells: seq<Coord>): (int, int)
    requires |cells| > 0
  {
    (Sign(cells[|cells| - 1].row - cells[0].row), Sign(cells[|cells| - 1].col - cells[0].col))
  }

  /** A run of at least two cells along a scan direction points the way of that direction. */
  lemma RunSignDir(cells: seq<Coord>, d: Dir)
    requires d in Directions && IsRun(cells, d) && |cells| >= 2
    ensures SignDir(cells) == (Sign(d.dx), Sign(d.dy))
  {
    RunOffset(cells, d, |cells| - 1);
  }

  /** The forward walk may enter `p`: it is on the board, within the first row's width, and has the colour. */
  predicate Enterable(board: Board, color: string, p: Coord)
    requires |board| > 0
  {
    p.row < |board| && 0 <= p.col < |board[0]| && HasColor(board, p.row, p.col, color)
  }

  /** `k` forward steps along `d` lead from `p` to `q` through enterable cells. */
  ghost predicate Walk(board: Board, color: string, p: Coord, q: Coord, d: Dir, k: nat)
    requires |board| > 0
    decreases k
  {
    if k == 0 then p == q else Enterable(board, color, p) && Walk(board, color, Step(p, d), q, d, k - 1)
  }

  /** A walk extended by one more enterable cell. */
  lemma {:induction false} WalkSnoc(board: Board, color: string, p: Coord, q: Coord, d: Dir, k: nat)
    requires |board| > 0 && Walk(board, color, p, q, d, k) && Enterable(board, color, q)
    ensures Walk(board, color, p, Step(q, d), d, k + 1)
    decreases k
  {
    if k > 0 {
      WalkSnoc(board, color, Step(p, d), q, d, k - 1);
    }
  }

  /** The number of steps the backward walk takes. */
  ghost function BackSteps(board: Board, color: string, r: int, c: int, d: Dir, steps: nat): (s: nat)
    requires |board| > 0
    ensures s <= steps
    decreases steps
  {
    if steps > 0 && r - d.dx >= 0 && c - d.dy >= 0 && c - d.dy < |board[0]|
       && HasColor(board, r - d.dx, c - d.dy, color)
    then 1 + BackSteps(board, color, r - d.dx, c - d.dy, d, steps - 1)
    else 0
  }

  /** The backward walk ends where a forward walk of BackSteps steps leads back to the start cell. */
  lemma {:induction false} RunStartWalk(board: Board, color: string, r: int, c: int, d: Dir, steps: nat)
    requires |board| > 0
    ensures Walk(board, color, RunStart(board, color, r, c, d, steps), Coord(r, c), d,
                 BackSteps(board, color, r, c, d, steps))
    decreases steps
  {
    if steps > 0 && r - d.dx >= 0 && c - d.dy >= 0 && c - d.dy < |board[0]|
       && HasColor(board, r - d.dx, c - d.dy, color) {
      var prev := Coord(r - d.dx, c - d.dy);
      RunStartWalk(board, color, prev.row, prev.col, d, steps - 1);
      WalkSnoc(board, color, RunStart(board, color, r, c, d, steps), prev, d,
               BackSteps(board, color, prev.row, prev.col, d, steps - 1));
    }
  }

  /** A walk lands where the step count times the direction says. */
  lemma {:induction false} WalkOffset(board: Board, color: string, p: Coord, q: Coord, d: Dir, k: nat)
    requires |board| > 0 && Walk(board, color, p, q, d, k)
    ensures q == Coord(p.row + k * d.dx, p.col + k * d.dy)
    ensures k > 0 ==> Enterable(board, color, p)
    decreases k
  {
    if k > 0 {
      WalkOffset(board, color, Step(p, d), q, d, k - 1);
      var m := k - 1;
      assert m * d.dx + d.dx == k * d.dx && m * d.dy + d.dy == k * d.dy;
    }
  }

  /** The forward walk from `p` with budget `m` passes every enterable cell that fewer than `m` steps reach. */
  lemma {:induction false} WalkInRun(board: Board, color: string, p: Coord, q: Coord, d: Dir, k: nat, m: nat)
    requires |board| > 0 && Walk(board, color, p, q, d, k) && Enterable(board, color, q) && k < m
    ensures q in RunFrom(board, color, p.row, p.col, d, m)
    decreases k
  {
    if k > 0 {
      WalkInRun(board, color, Step(p, d), q, d, k - 1, m - 1);
    }
  }

  /**
   * On a board of at most MaxSteps rows and columns, the run scanned along
   * any direction contains the clicked cell (once it has the colour): the
   * backward walk cannot use up its whole budget.
   */
  lemma ClickedOnRun(board: Board, row: int, col: int, color: string, d: Dir)
    requires d in Directions && |board| > 0
    requires |board| <= MaxSteps && |board[0]| <= MaxSteps
    requires HasColor(board, row, col, color) && col < |board[0]|
    ensures Coord(row, col) in RunThrough(board, row, col, color, d)
  {
    var start := RunStart(board, color, row, col, d, MaxSteps);
    var s := BackSteps(board, color, row, col, d, MaxSteps);
    RunStartWalk(board, color, row, col, d, MaxSteps);
    WalkOffset(board, color, start, Coord(row, col), d, s);
    WalkInRun(board, color, start, Coord(row, col), d, s, MaxSteps);
  }

  // ------------------------------------------------ the compatibility test

  /** The cells two sequences share. */
  function Shared(a: seq<Coord>, b: seq<Coord>): set<Coord>
  {
    set p | p in a && p in b
  }

  /**
   * The only overlaps allowed between a newer and an older line of the same
   * colour and direction: none at all, or exactly one cell that is the
   * newer line's head and the older line's tail, or the newer line's tail
   * and the older line's head.
   */
  ghost predicate MayCoexist(newer: seq<Coord>, older: seq<Coord>)
    requires |newer| > 0 && |older| > 0
  {
    var s := Shared(newer, older);
    || s == {}
    || (s == {newer[0]} && newer[0] == older[|older| - 1])
    || (s == {newer[|newer| - 1]} && newer[|newer| - 1] == older[0])
  }

  lemma {:induction false} CommonDistinct(sub: seq<Coord>, cells: seq<Coord>)
    requires Distinct(sub)
    ensures Distinct(Common(sub, cells))
  {
    if sub != [] {
      CommonDistinct(sub[1..], cells);
      var rest := Common(sub[1..], cells);
      assert sub[0] !in sub[1..];
      assert sub[0] !in rest;
    }
  }

  /**
   * For a window along a scan direction and a line of its colour pointing the
   * same way, the source's filter-and-count test accepts exactly the overlaps
   * MayCoexist allows.
   */
  lemma CompatibleIff(sub: seq<Coord>, d: Dir, color: string, line: WinningLine)
    requires d in Directions && IsRun(sub, d) && |sub| > 0
    requires line.color == color && |line.cells| > 0
    requires SignDir(line.cells) == (Sign(d.dx), Sign(d.dy))
    ensures Compatible(sub, d, color, line) <==> MayCoexist(sub, line.cells)
  {
    var common := Common(sub, line.cells);
    var s := Shared(sub, line.cells);
    assert forall p :: p in s <==> p in common;
    if |common| == 1 {
      assert s == {common[0]};
    } else if |common| > 1 {
      RunDistinct(sub, d);
      CommonDistinct(sub, line.cells);
      assert common[0] in s && common[1] in s && common[0] != common[1];
    }
  }

  // ---------------------------------------------------------- soundness

  /**
   * Line `k` of `lines` is a run along `d` that passed the test against
   * every line before it (the list as it stood when line `k` was examined).
   */
  ghost predicate ClaimedAlong(lines: seq<WinningLine>, k: nat, d: Dir, color: string)
    requires k < |lines| && ColorLinesNonEmpty(lines, color)
  {
    IsRun(lines[k].cells, d) && AllCompatible(lines[k].cells, d, color, lines[..k])
  }

  /** Every cell is one the forward walk may enter: on the board and in the colour. */
  ghost predicate OnBoardIn(board: Board, color: string, cells: seq<Coord>)
    requires |board| > 0
  {
    forall p :: p in cells ==> Enterable(board, color, p)
  }

  /**
   * Line `k` is a sound claim of `color` on `board`: it has the colour,
   * minLength cells on the board in that colour, and was claimed along one
   * of the four directions.
   */
  ghost predicate SoundLine(board: Board, color: string, minLength: int, lines: seq<WinningLine>, k: nat)
    requires |board| > 0 && k < |lines| && ColorLinesNonEmpty(lines, color)
  {
    && lines[k].color == color
    && |lines[k].cells| == minLength
    && OnBoardIn(board, color, lines[k].cells)
    && exists q :: 0 <= q < |Directions| && ClaimedAlong(lines, k, Directions[q], color)
  }

  /** Every line from index `n` on is a sound claim. */
  ghost predicate SoundFrom(board: Board, color: string, minLength: int, lines: seq<WinningLine>, n: nat)
    requires |board| > 0 && ColorLinesNonEmpty(lines, color)
  {
    forall k :: n <= k < |lines| ==> SoundLine(board, color, minLength, lines, k)
  }

  /** `sub` is one of the windows of `minLength` cells of `cells`. */
  ghost predicate IsWindowOf(cells: seq<Coord>, minLength: nat, sub: seq<Coord>)
  {
    exists j: nat :: j + minLength <= |cells| && sub == Window(cells, j, minLength)
  }

  /** Every line of `r` past the prefix `lines` is a window of `cells` in `color`. */
  ghost predicate AppendedWindows(cells: seq<Coord>, minLength: nat, color: string,
                                  lines: seq<WinningLine>, r: seq<WinningLine>)
  {
    forall k :: |lines| <= k < |r| ==> r[k].color == color && IsWindowOf(cells, minLength, r[k].cells)
  }

  /** Every line of `r` past the prefix `lines` passed the test against the lines before it. */
  ghost predicate AppendedChecked(d: Dir, color: string, lines: seq<WinningLine>, r: seq<WinningLine>)
    requires ColorLinesNonEmpty(r, color)
  {
    forall k :: |lines| <= k < |r| ==> AllCompatible(r[k].cells, d, color, r[..k])
  }

  /** Every line the window loop appends is one of the run's windows, in the scanned colour. */
  lemma {:induction false} AcceptWindowsShape(cells: seq<Coord>, i: nat, minLength: int, d: Dir, color: string,
                                               lines: seq<WinningLine>)
    requires minLength >= 1 && ColorLinesNonEmpty(lines, color)
    ensures AppendedWindows(cells, minLength, color, lines, AcceptWindows(cells, i, minLength, d, color, lines))
    decreases |cells| - i
  {
    if i + minLength <= |cells| {
      var sub := Window(cells, i, minLength);
      var next := if AllCompatible(sub, d, color, lines) then lines + [WinningLine(sub, color)] else lines;
      AcceptWindowsShape(cells, i + 1, minLength, d, color, next);
      var r := AcceptWindows(cells, i + 1, minLength, d, color, next);
      if next != lines {
        assert r[|lines|] == WinningLine(sub, color);
      }
    }
  }

  /** Every line the window loop appends passed the test against the list as it stood before it. */
  lemma {:induction false} AcceptWindowsChecked(cells: seq<Coord>, i: nat, minLength: int, d: Dir, color: string,
                                                lines: seq<WinningLine>)
    requires minLength >= 1 && ColorLinesNonEmpty(lines, color)
    ensures AppendedChecked(d, color, lines, AcceptWindows(cells, i, minLength, d, color, lines))
    decreases |cells| - i
  {
    if i + minLength <= |cells| {
      var sub := Window(cells, i, minLength);
      var next := if AllCompatible(sub, d, color, lines) then lines + [WinningLine(sub, color)] else lines;
      AcceptWindowsChecked(cells, i + 1, minLength, d, color, next);
      if |next| > |lines| {
        var r := AcceptWindows(cells, i + 1, minLength, d, color, next);
        assert r[|lines|] == WinningLine(sub, color);
        assert r[..|lines|] == lines;
      }
    }
  }

  /** A window of a run is a run along the same direction, made of the run's cells. */
  lemma WindowOfRun(cells: seq<Coord>, minLength: nat, sub: seq<Coord>, d: Dir)
    requires IsWindowOf(cells, minLength, sub) && IsRun(cells, d)
    ensures IsRun(sub, d) && |sub| == minLength
    ensures forall p :: p in sub ==> p in cells
  {
    var j: nat :| j + minLength <= |cells| && sub == Window(cells, j, minLength);
    forall t, u | 0 <= t < |sub| && u == t + 1 && u < |sub| ensures sub[u] == Step(sub[t], d) {
      assert sub[t] == cells[j + t] && sub[u] == cells[j + t + 1];
    }
    forall p | p in sub ensures p in cells {
      var t :| 0 <= t < |sub| && sub[t] == p;
      assert cells[j + t] == p;
    }
  }

  /** A sound line stays sound when lines are appended after it. */
  lemma SoundLineGrows(board: Board, color: string, minLength: int, lines: seq<WinningLine>,
                       more: seq<WinningLine>, k: nat)
    requires |board| > 0 && k < |lines| && lines <= more
    requires ColorLinesNonEmpty(lines, color) && ColorLinesNonEmpty(more, color)
    requires SoundLine(board, color, minLength, lines, k)
    ensures SoundLine(board, color, minLength, more, k)
  {
    var q :| 0 <= q < |Directions| && ClaimedAlong(lines, k, Directions[q], color);
    assert more[k] == lines[k] && more[..k] == lines[..k];
    assert ClaimedAlong(more, k, Directions[q], color);
  }

  /** Every line one direction's scan appends is a sound claim. */
  lemma ScanDirectionSound(board: Board, row: int, col: int, color: string, minLength: int, q: nat,
                           lines: seq<WinningLine>, t: nat)
    requires |board| > 0 && minLength >= 1 && q < |Directions|
    requires ColorLinesNonEmpty(lines, color)
    requires |lines| <= t < |ScanDirection(board, row, col, color, minLength, Directions[q], lines)|
    ensures SoundLine(board, color, minLength, ScanDirection(board, row, col, color, minLength, Directions[q], lines), t)
  {
    var d := Directions[q];
    var cells := RunThrough(board, row, col, color, d);
    var next := AcceptWindows(cells, 0, minLength, d, color, lines);
    var start := RunStart(board, color, row, col, d, MaxSteps);
    RunFromShape(board, color, start.row, start.col, d, MaxSteps);
    AcceptWindowsShape(cells, 0, minLength, d, color, lines);
    AcceptWindowsChecked(cells, 0, minLength, d, color, lines);
    assert next[t].color == color && IsWindowOf(cells, minLength, next[t].cells);
    WindowOfRun(cells, minLength, next[t].cells, d);
    assert ClaimedAlong(next, t, d, color);
  }

  lemma {:induction false} ScanDirectionsSound(board: Board, row: int, col: int, color: string, minLength: int,
                                               k: nat, lines: seq<WinningLine>)
    requires |board| > 0 && minLength >= 1 && k <= |Directions|
    requires ColorLinesNonEmpty(lines, color)
    ensures SoundFrom(board, color, minLength, ScanDirections(board, row, col, color, minLength, k, lines), |lines|)
    decreases |Directions| - k
  {
    if k < |Directions| {
      var next := ScanDirection(board, row, col, color, minLength, Directions[k], lines);
      var r := ScanDirections(board, row, col, color, minLength, k + 1, next);
      ScanDirectionsSound(board, row, col, color, minLength, k + 1, next);
      forall t | |lines| <= t < |next|
        ensures SoundLine(board, color, minLength, r, t)
      {
        ScanDirectionSound(board, row, col, color, minLength, k, lines, t);
        SoundLineGrows(board, color, minLength, next, r, t);
      }
    }
  }

  /**
   * Every line checkWinningLines appends has the scanned colour, exactly
   * minLength cells, all on the board and of that colour, lies along one of
   * the four directions and passed the test against every line before it.
   */
  lemma WinningLinesSound(board: Board, row: int, col: int, color: string, minLength: int,
                          existing: seq<WinningLine>)
    requires 0 <= row < |board| && minLength >= 1
    requires ColorLinesNonEmpty(existing, color)
    ensures var r := WinningLines(board, row, col, color, minLength, existing);
      && existing <= r
      && SoundFrom(board, color, minLength, r, |existing|)
  {
    ScanDirectionsSound(board, row, col, color, minLength, 0, existing);
  }

  // ------------------------------------------------ the chain invariant

  /** Every line has a cell. */
  ghost predicate AllNonEmpty(lines: seq<WinningLine>)
  {
    forall l :: l in lines ==> |l.cells| > 0
  }

  /**
   * Lines of the same colour and the same sign direction overlap at most
   * in one tip-to-tip junction.
   */
  ghost predicate ChainedOnly(lines: seq<WinningLine>)
    requires AllNonEmpty(lines)
  {
    forall j, k ::
      (0 <= j < k < |lines| && lines[j].color == lines[k].color
       && SignDir(lines[j].cells) == SignDir(lines[k].cells)) ==>
      MayCoexist(lines[k].cells, lines[j].cells)
  }

  /**
   * A line of two or more cells claimed along a scan direction overlaps any
   * earlier line of its colour and sign direction only tip to tip.
   */
  lemma ClaimedChains(lines: seq<WinningLine>, j: nat, k: nat, d: Dir, color: string)
    requires j < k < |lines| && ColorLinesNonEmpty(lines, color)
    requires d in Directions && ClaimedAlong(lines, k, d, color) && |lines[k].cells| >= 2
    requires lines[j].color == color && SignDir(lines[j].cells) == SignDir(lines[k].cells)
    ensures MayCoexist(lines[k].cells, lines[j].cells)
  {
    RunSignDir(lines[k].cells, d);
    assert lines[j] in lines[..k];
    CompatibleIff(lines[k].cells, d, color, lines[j]);
  }

  /**
   * With minLength >= 2, checkWinningLines keeps the chain invariant: if the
   * lines it is given overlap only tip to tip, so do the lines it returns.
   */
  lemma ChainPreserved(board: Board, row: int, col: int, color: string, minLength: int,
                       existing: seq<WinningLine>)
    requires 0 <= row < |board| && minLength >= 2
    requires AllNonEmpty(existing) && ChainedOnly(existing)
    ensures AllNonEmpty(WinningLines(board, row, col, color, minLength, existing))
    ensures ChainedOnly(WinningLines(board, row, col, color, minLength, existing))
  {
    var r := WinningLines(board, row, col, color, minLength, existing);
    WinningLinesSound(board, row, col, color, minLength, existing);
    assert forall k :: 0 <= k < |existing| ==> r[k] == existing[k];
    forall l | l in r ensures |l.cells| > 0 {
      var k :| 0 <= k < |r| && r[k] == l;
      if k < |existing| {
        assert existing[k] in existing;
      } else {
        assert SoundLine(board, color, minLength, r, k);
      }
    }
    forall j, k | 0 <= j < k < |r| && r[j].color == r[k].color && SignDir(r[j].cells) == SignDir(r[k].cells)
      ensures MayCoexist(r[k].cells, r[j].cells)
    {
      if k >= |existing| {
        assert SoundLine(board, color, minLength, r, k);
        var q :| 0 <= q < |Directions| && ClaimedAlong(r, k, Directions[q], color);
        ClaimedChains(r, j, k, Directions[q], color);
      } else {
        assert r[j] == existing[j] && r[k] == existing[k];
      }
    }
  }

  // ---------------------------------------------------------- idempotence

  lemma {:induction false} CommonSelf(sub: seq<Coord>, cells: seq<Coord>)
    requires forall p :: p in sub ==> p in cells
    ensures Common(sub, cells) == sub
  {
    if sub != [] {
      CommonSelf(sub[1..], cells);
    }
  }

  /** A window of two or more cells clashes with the line made of itself. */
  lemma SelfBlocks(sub: seq<Coord>, d: Dir, color: string)
    requires d in Directions && IsRun(sub, d) && |sub| >= 2
    ensures !Compatible(sub, d, color, WinningLine(sub, color))
  {
    RunSignDir(sub, d);
    CommonSelf(sub, sub);
  }

  /** Every window of `cells` from `from` on clashes with some line of `lines`. */
  ghost predicate WindowsBlocked(cells: seq<Coord>, from: nat, minLength: int, d: Dir, color: string,
                                 lines: seq<WinningLine>)
    requires minLength >= 1 && ColorLinesNonEmpty(lines, color)
  {
    forall j :: from <= j && j + minLength <= |cells| ==> !AllCompatible(Window(cells, j, minLength), d, color, lines)
  }

  /** A clash with some line persists when lines are appended. */
  lemma ClashGrows(sub: seq<Coord>, d: Dir, color: string, lines: seq<WinningLine>, more: seq<WinningLine>)
    requires ColorLinesNonEmpty(lines, color) && ColorLinesNonEmpty(more, color)
    requires lines <= more && !AllCompatible(sub, d, color, lines)
    ensures !AllCompatible(sub, d, color, more)
  {
    var l :| l in lines && !Compatible(sub, d, color, l);
    var t :| 0 <= t < |lines| && lines[t] == l;
    assert more[t] == l;
  }

  /** After the window loop, every window it examined clashes with some line of the result. */
  lemma {:induction false} AcceptWindowsBlocks(cells: seq<Coord>, i: nat, minLength: int, d: Dir, color: string,
                                               lines: seq<WinningLine>)
    requires minLength >= 2 && d in Directions && IsRun(cells, d)
    requires ColorLinesNonEmpty(lines, color)
    ensures WindowsBlocked(cells, i, minLength, d, color, AcceptWindows(cells, i, minLength, d, color, lines))
    decreases |cells| - i
  {
    if i + minLength <= |cells| {
      var sub := Window(cells, i, minLength);
      var next := if AllCompatible(sub, d, color, lines) then lines + [WinningLine(sub, color)] else lines;
      var r := AcceptWindows(cells, i + 1, minLength, d, color, next);
      AcceptWindowsBlocks(cells, i + 1, minLength, d, color, next);
      assert !AllCompatible(sub, d, color, next) by {
        if AllCompatible(sub, d, color, lines) {
          SelfBlocks(sub, d, color);
          assert WinningLine(sub, color) in next;
        } else {
          ClashGrows(sub, d, color, lines, next);
        }
      }
      ClashGrows(sub, d, color, next, r);
    }
  }

  /** Clashes persist when lines are appended, for every window at once. */
  lemma BlockedGrows(cells: seq<Coord>, from: nat, minLength: int, d: Dir, color: string,
                     lines: seq<WinningLine>, more: seq<WinningLine>)
    requires minLength >= 1 && ColorLinesNonEmpty(lines, color) && ColorLinesNonEmpty(more, color)
    requires lines <= more && WindowsBlocked(cells, from, minLength, d, color, lines)
    ensures WindowsBlocked(cells, from, minLength, d, color, more)
  {
    forall j | from <= j && j + minLength <= |cells|
      ensures !AllCompatible(Window(cells, j, minLength), d, color, more)
    {
      ClashGrows(Window(cells, j, minLength), d, color, lines, more);
    }
  }

  /** When every remaining window clashes, the window loop appends nothing. */
  lemma {:induction false} AcceptWindowsStable(cells: seq<Coord>, i: nat, minLength: int, d: Dir, color: string,
                                               lines: seq<WinningLine>)
    requires minLength >= 1 && ColorLinesNonEmpty(lines, color)
    requires WindowsBlocked(cells, i, minLength, d, color, lines)
    ensures AcceptWindows(cells, i, minLength, d, color, lines) == lines
    decreases |cells| - i
  {
    if i + minLength <= |cells| {
      AcceptWindowsStable(cells, i + 1, minLength, d, color, lines);
    }
  }

  /** The run scanned along a direction is a run along it. */
  lemma RunThroughIsRun(board: Board, row: int, col: int, color: string, d: Dir)
    requires |board| > 0
    ensures IsRun(RunThrough(board, row, col, color, d), d)
  {
    var start := RunStart(board, color, row, col, d, MaxSteps);
    RunFromShape(board, color, start.row, start.col, d, MaxSteps);
  }

  /** Every window of every run scanned from direction `k` on clashes with some line of `lines`. */
  ghost predicate RunsBlocked(board: Board, row: int, col: int, color: string, minLength: int, k: nat,
                              lines: seq<WinningLine>)
    requires |board| > 0 && minLength >= 1 && ColorLinesNonEmpty(lines, color)
  {
    forall q :: k <= q < |Directions| ==>
      WindowsBlocked(RunThrough(board, row, col, color, Directions[q]), 0, minLength, Directions[q], color, lines)
  }

  /** After scanning directions `k` onwards, each of their windows clashes with the result. */
  lemma {:induction false} ScanDirectionsBlocks(board: Board, row: int, col: int, color: string, minLength: int,
                                                k: nat, lines: seq<WinningLine>)
    requires |board| > 0 && minLength >= 2 && k <= |Directions|
    requires ColorLinesNonEmpty(lines, color)
    ensures RunsBlocked(board, row, col, color, minLength, k, ScanDirections(board, row, col, color, minLength, k, lines))
    decreases |Directions| - k
  {
    if k < |Directions| {
      var d := Directions[k];
      var cells := RunThrough(board, row, col, color, d);
      var next := ScanDirection(board, row, col, color, minLength, d, lines);
      var r := ScanDirections(board, row, col, color, minLength, k + 1, next);
      ScanDirectionsBlocks(board, row, col, color, minLength, k + 1, next);
      RunThroughIsRun(board, row, col, color, d);
      AcceptWindowsBlocks(cells, 0, minLength, d, color, lines);
      BlockedGrows(cells, 0, minLength, d, color, next, r);
      forall q | k <= q < |Directions|
        ensures WindowsBlocked(RunThrough(board, row, col, color, Directions[q]), 0, minLength, Directions[q], color, r)
      {
        if q == k {
          assert Directions[q] == d;
        }
      }
    }
  }

  /** When every window of the remaining directions clashes, the scan appends nothing. */
  lemma {:induction false} ScanDirectionsStable(board: Board, row: int, col: int, color: string, minLength: int,
                                                k: nat, lines: seq<WinningLine>)
    requires |board| > 0 && minLength >= 1 && k <= |Directions|
    requires ColorLinesNonEmpty(lines, color)
    requires RunsBlocked(board, row, col, color, minLength, k, lines)
    ensures ScanDirections(board, row, col, color, minLength, k, lines) == lines
    decreases |Directions| - k
  {
    if k < |Directions| {
      var d := Directions[k];
      AcceptWindowsStable(RunThrough(board, row, col, color, d), 0, minLength, d, color, lines);
      ScanDirectionsStable(board, row, col, color, minLength, k + 1, lines);
    }
  }

  /**
   * With minLength >= 2, checking the same cell again on the same board adds
   * no line: checkWinningLines is idempotent.
   */
  lemma WinningLinesIdempotent(board: Board, row: int, col: int, color: string, minLength: int,
                               existing: seq<WinningLine>)
    requires 0 <= row < |board| && minLength >= 2
    requires ColorLinesNonEmpty(existing, color)
    ensures WinningLines(board, row, col, color, minLength, WinningLines(board, row, col, color, minLength, existing))
            == WinningLines(board, row, col, color, minLength, existing)
  {
    var r := WinningLines(board, row, col, color, minLength, existing);
    ScanDirectionsBlocks(board, row, col, color, minLength, 0, existing);
    ScanDirectionsStable(board, row, col, color, minLength, 0, r);
  }

  // ---------------------------------------------------------- how many lines

  /** `w` lines for each of `n` directions. */
  function Budget(n: nat, w: nat): nat
  {
    if n == 0 then 0 else w + Budget(n - 1, w)
  }

  /** The windows one run can offer: a run has at most MaxSteps cells. */
  function WindowsPerRun(minLength: int): nat
  {
    Max0(MaxSteps - minLength + 1)
  }

  /** One direction appends at most the windows of a run of MaxSteps cells. */
  lemma ScanDirectionBound(board: Board, row: int, col: int, color: string, minLength: int, d: Dir,
                           lines: seq<WinningLine>)
    requires |board| > 0 && minLength >= 1
    requires ColorLinesNonEmpty(lines, color)
    ensures |ScanDirection(board, row, col, color, minLength, d, lines)| <= |lines| + WindowsPerRun(minLength)
  {
    var cells := RunThrough(board, row, col, color, d);
    assert |cells| <= MaxSteps;
  }

  lemma {:induction false} ScanDirectionsBound(board: Board, row: int, col: int, color: string, minLength: int,
                                               k: nat, lines: seq<WinningLine>)
    requires |board| > 0 && minLength >= 1 && k <= |Directions|
    requires ColorLinesNonEmpty(lines, color)
    ensures |ScanDirections(board, row, col, color, minLength, k, lines)|
            <= |lines| + Budget(|Directions| - k, WindowsPerRun(minLength))
    decreases |Directions| - k
  {
    if k < |Directions| {
      var next := ScanDirection(board, row, col, color, minLength, Directions[k], lines);
      ScanDirectionsBound(board, row, col, color, minLength, k + 1, next);
      ScanDirectionBound(board, row, col, color, minLength, Directions[k], lines);
    }
  }

  /**
   * One call appends at most four times the number of windows a run of
   * MaxSteps cells holds; with minLength 3 that is at most 32 lines.
   */
  lemma WinningLinesBound(board: Board, row: int, col: int, color: string, minLength: int,
                          existing: seq<WinningLine>)
    requires 0 <= row < |board| && minLength >= 1
    requires ColorLinesNonEmpty(existing, color)
    ensures |WinningLines(board, row, col, color, minLength, existing)| <= |existing| + 4 * WindowsPerRun(minLength)
    ensures minLength > MaxSteps ==> WinningLines(board, row, col, color, minLength, existing) == existing
  {
    ScanDirectionsBound(board, row, col, color, minLength, 0, existing);
    WinningLinesSound(board, row, col, color, minLength, existing);
    var w := WindowsPerRun(minLength);
    assert Budget(1, w) == w;
    assert Budget(2, w) == 2 * w;
    assert Budget(3, w) == 3 * w;
    assert Budget(|Directions|, w) == 4 * w;
  }
}
