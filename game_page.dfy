/**
 * The game page: the session state (board, teams, whose turn, claimed lines,
 * winner) and the two handlers that change it, handleCellUpdate and
 * resetGame, with the colour count and the winner selection a move runs.
 */
module GamePage {
  import opened GameTypes
  import opened BoardGenerator
  import opened LineDetector
  import opened LineProperties

  const BoardRows: int := 8
  const BoardCols: int := 10
  /** The minLength the page passes to checkWinningLines. */
  const LineLength: int := 3
  /** Lines of one colour needed to win. */
  const WinThreshold: nat := 3

  /** The teams a session starts with. */
  const DefaultTeams: seq<Team> :=
    [Team("Ekipa 1", "#FF0000"), Team("Ekipa 2", "#00FF00"), Team("Ekipa 3", "#0000FF")]

  /** JavaScript truthiness of an optional string: `undefined` and `""` are falsy, every other string is truthy. */
  predicate Truthy(s: Option<string>)
    ensures Truthy(s) <==> s.Some? && |s.value| > 0
  {
    s.Some? && s.value != ""
  }

  /** The board has the page's 8 x 10 shape. */
  ghost predicate IsGrid(board: Board)
  {
    |board| == BoardRows && forall i :: 0 <= i < |board| ==> |board[i]| == BoardCols
  }

  // ---------------------------------------------------------- the cell write

  /**
   * The board after writing `color` into cell (row, col): only that cell
   * changes, and it keeps its item and its lock flag.
   */
  function Paint(board: Board, row: int, col: int, color: Option<string>): (b: Board)
    requires 0 <= row < |board| && 0 <= col < |board[row]|
    ensures |b| == |board|
    ensures forall i :: 0 <= i < |b| ==> |b[i]| == |board[i]|
    ensures forall i, j :: 0 <= i < |b| && 0 <= j < |b[i]| && (i != row || j != col) ==> b[i][j] == board[i][j]
    ensures b[row][col].item == board[row][col].item && b[row][col].locked == board[row][col].locked
    ensures b[row][col].color == color
  {
    board[row := board[row][col := board[row][col].(color := color)]]
  }

  // ---------------------------------------------------------- the colour count

  /** One entry of the colour count: a colour and how many lines have it. */
  datatype Tally = Tally(color: string, count: nat)

  /** The colours of the lines, in order. */
  function ColorsOf(lines: seq<WinningLine>): (colors: seq<string>)
    ensures |colors| == |lines|
    ensures forall k :: 0 <= k < |lines| ==> colors[k] == lines[k].color
  {
    seq(|lines|, k requires 0 <= k < |lines| => lines[k].color)
  }

  /** The keys of the count, in insertion order. */
  function Keys(counts: seq<Tally>): (keys: seq<string>)
    ensures |keys| == |counts|
    ensures forall i :: 0 <= i < |counts| ==> keys[i] == counts[i].color
  {
    if counts == [] then [] else [counts[0].color] + Keys(counts[1..])
  }

  /** The sum of the counts. */
  function Total(counts: seq<Tally>): nat
  {
    if counts == [] then 0 else counts[0].count + Total(counts[1..])
  }

  /**
   * `counts[color] = (counts[color] || 0) + 1`: bump an existing key or add
   * it at the end. One more is counted, the colour is a key afterwards, and
   * at most one key is added.
   */
  function Bump(counts: seq<Tally>, color: string): (r: seq<Tally>)
    ensures Total(r) == Total(counts) + 1
    ensures color in Keys(r)
    ensures |counts| <= |r| <= |counts| + 1
  {
    if counts == [] then [Tally(color, 1)]
    else if counts[0].color == color then
      var r := [Tally(color, counts[0].count + 1)] + counts[1..];
      assert r[1..] == counts[1..];
      r
    else
      var rest := Bump(counts[1..], color);
      var r := [counts[0]] + rest;
      assert r[1..] == rest;
      r
  }

  /**
   * The `reduce` over the lines, from the empty record: the counts add up
   * to the number of lines, and there are no more keys than lines.
   */
  function CountColors(lines: seq<WinningLine>): (counts: seq<Tally>)
    ensures Total(counts) == |lines|
    ensures |counts| <= |lines|
  {
    if lines == [] then [] else Bump(CountColors(lines[..|lines| - 1]), lines[|lines| - 1].color)
  }

  /** The distinct elements of `s` in the order of their first appearance. */
  function FirstAppearances(s: seq<string>): seq<string>
  {
    if s == [] then []
    else
      var prefix := FirstAppearances(s[..|s| - 1]);
      if s[|s| - 1] in s[..|s| - 1] then prefix else prefix + [s[|s| - 1]]
  }

  /** No element repeats. */
  ghost predicate NoDuplicates(s: seq<string>)
  {
    forall i, j :: 0 <= i < j < |s| ==> s[i] != s[j]
  }

  lemma {:induction false} FirstAppearancesFacts(s: seq<string>)
    ensures NoDuplicates(FirstAppearances(s))
    ensures forall x :: x in FirstAppearances(s) <==> x in s
  {
    if s != [] {
      FirstAppearancesFacts(s[..|s| - 1]);
      assert s == s[..|s| - 1] + [s[|s| - 1]];
    }
  }

  /** `counts` is the count of `colors`: keys in first-appearance order, each with its number of occurrences. */
  ghost predicate CountOf(counts: seq<Tally>, colors: seq<string>)
  {
    && Keys(counts) == FirstAppearances(colors)
    && forall i :: 0 <= i < |counts| ==> counts[i].count == multiset(colors)[counts[i].color]
  }

  /** Bumping a key adds the colour at its first appearance, or increments it. */
  lemma {:induction false} BumpKeys(counts: seq<Tally>, color: string)
    ensures Keys(Bump(counts, color)) == if color in Keys(counts) then Keys(counts) else Keys(counts) + [color]
  {
    var b := Bump(counts, color);
    if counts != [] && counts[0].color == color {
      assert b[1..] == counts[1..];
    } else if counts != [] {
      BumpKeys(counts[1..], color);
      assert b[1..] == Bump(counts[1..], color);
    }
  }

  /** With distinct keys, bumping increments exactly the colour's entry. */
  lemma {:induction false} BumpCounts(counts: seq<Tally>, color: string)
    requires NoDuplicates(Keys(counts))
    ensures forall i :: 0 <= i < |Bump(counts, color)| ==>
      Bump(counts, color)[i].count
        == (if i < |counts| then counts[i].count else 0) + (if Bump(counts, color)[i].color == color then 1 else 0)
  {
    if counts != [] && counts[0].color != color {
      BumpCounts(counts[1..], color);
      assert NoDuplicates(Keys(counts[1..])) by {
        assert forall i :: 0 <= i < |counts| - 1 ==> Keys(counts[1..])[i] == Keys(counts)[i + 1];
      }
      BumpKeys(counts[1..], color);
    } else if counts != [] {
      forall i | 1 <= i < |counts| ensures counts[i].color != color {
        assert Keys(counts)[0] != Keys(counts)[i];
      }
    }
  }

  lemma {:induction false} BumpPreserves(counts: seq<Tally>, colors: seq<string>, color: string)
    requires CountOf(counts, colors)
    ensures CountOf(Bump(counts, color), colors + [color])
  {
    var b := Bump(counts, color);
    FirstAppearancesFacts(colors);
    BumpKeys(counts, color);
    BumpCounts(counts, color);
    assert (colors + [color])[..|colors|] == colors;
    assert multiset(colors + [color]) == multiset(colors) + multiset{color};
    forall i | 0 <= i < |b| ensures b[i].count == multiset(colors + [color])[b[i].color] {
      if i < |counts| {
        assert Keys(b)[i] == Keys(counts)[i];
      } else {
        assert Keys(b)[i] == color && color !in colors;
      }
    }
  }

  /** The colours of all lines are those of all but the last, then the last's. */
  lemma ColorsOfSnoc(lines: seq<WinningLine>)
    requires lines != []
    ensures ColorsOf(lines) == ColorsOf(lines[..|lines| - 1]) + [lines[|lines| - 1].color]
  {
  }

  /**
   * The colour count of the lines: its keys are the lines' colours, each
   * once, in the order they first appear, and each key's count is the
   * number of lines of that colour.
   */
  lemma {:induction false} CountColorsCorrect(lines: seq<WinningLine>)
    ensures CountOf(CountColors(lines), ColorsOf(lines))
  {
    if lines != [] {
      var prefix := lines[..|lines| - 1];
      CountColorsCorrect(prefix);
      ColorsOfSnoc(lines);
      BumpPreserves(CountColors(prefix), ColorsOf(prefix), lines[|lines| - 1].color);
    }
  }

  // ---------------------------------------------------------- the winner

  /** `teams.find(team => team.color === color)`: the first team with the colour. */
  function FindTeam(teams: seq<Team>, color: string): (t: Option<Team>)
    ensures t.None? <==> forall k :: 0 <= k < |teams| ==> teams[k].color != color
    ensures t.Some? ==> exists k :: 0 <= k < |teams| && teams[k] == t.value && t.value.color == color
                                    && forall j :: 0 <= j < k ==> teams[j].color != color
  {
    if teams == [] then None
    else if teams[0].color == color then Some(teams[0])
    else FindTeam(teams[1..], color)
  }

  /** A count entry names a winner: the threshold is reached and a team has the colour. */
  predicate Qualifies(t: Tally, teams: seq<Team>)
  {
    t.count >= WinThreshold && FindTeam(teams, t.color).Some?
  }

  /** Some count entry names a winner. */
  ghost predicate AnyQualifies(counts: seq<Tally>, teams: seq<Team>)
  {
    exists i :: 0 <= i < |counts| && Qualifies(counts[i], teams)
  }

  /** `w` is the name of the first team with the colour of some qualifying entry. */
  ghost predicate NamesQualifier(counts: seq<Tally>, teams: seq<Team>, w: Option<string>)
  {
    exists i :: 0 <= i < |counts| && Qualifies(counts[i], teams) && w == Some(FindTeam(teams, counts[i].color).value.name)
  }

  /**
   * The winner after the forEach over the count's entries: every qualifying
   * entry in turn overwrites it with its team's name.
   */
  function DeclaredWinner(counts: seq<Tally>, teams: seq<Team>, winner: Option<string>): (w: Option<string>)
    ensures w == winner || NamesQualifier(counts, teams, w)
  {
    if counts == [] then winner
    else
      var next := if Qualifies(counts[0], teams) then Some(FindTeam(teams, counts[0].color).value.name) else winner;
      assert forall i :: 0 <= i < |counts| - 1 ==> counts[1..][i] == counts[i + 1];
      DeclaredWinner(counts[1..], teams, next)
  }

  /** One iteration of the forEach: entry `i` may overwrite the winner. */
  lemma DeclaredStep(counts: seq<Tally>, teams: seq<Team>, w: Option<string>, i: nat)
    requires i < |counts|
    ensures DeclaredWinner(counts[i..], teams, w)
            == DeclaredWinner(counts[i + 1..], teams,
                              if Qualifies(counts[i], teams) then Some(FindTeam(teams, counts[i].color).value.name) else w)
  {
    assert counts[i..][1..] == counts[i + 1..];
  }

  /** Some entry of the first i + 1 qualifies exactly when one of the first i does or entry i does. */
  lemma AnyQualifiesSnoc(counts: seq<Tally>, teams: seq<Team>, i: nat)
    requires i < |counts|
    ensures AnyQualifies(counts[..i + 1], teams) <==> AnyQualifies(counts[..i], teams) || Qualifies(counts[i], teams)
  {
    assert counts[..i + 1][i] == counts[i];
    assert forall j :: 0 <= j < i ==> counts[..i + 1][j] == counts[..i][j];
  }

  /** The forEach over the count's entries, setting the winner and opening the dialog. */
  method SelectWinner(counts: seq<Tally>, teams: seq<Team>, winner: Option<string>)
    returns (newWinner: Option<string>, announced: bool)
    ensures newWinner == DeclaredWinner(counts, teams, winner)
    ensures announced <==> AnyQualifies(counts, teams)
  {
    newWinner, announced := winner, false;
    var i := 0;
    while i < |counts|
      invariant 0 <= i <= |counts|
      invariant DeclaredWinner(counts[i..], teams, newWinner) == DeclaredWinner(counts, teams, winner)
      invariant announced <==> AnyQualifies(counts[..i], teams)
    {
      DeclaredStep(counts, teams, newWinner, i);
      AnyQualifiesSnoc(counts, teams, i);
      if counts[i].count >= WinThreshold {
        var winningTeam := FindTeam(teams, counts[i].color);
        if winningTeam.Some? {
          newWinner := Some(winningTeam.value.name);
          announced := true;
        }
      }
      i := i + 1;
    }
    assert counts[..i] == counts;
  }

  /** Without a qualifying entry the winner stays what it was. */
  lemma {:induction false} WinnerUnchanged(counts: seq<Tally>, teams: seq<Team>, winner: Option<string>)
    requires !AnyQualifies(counts, teams)
    ensures DeclaredWinner(counts, teams, winner) == winner
  {
    if counts != [] {
      assert !Qualifies(counts[0], teams);
      assert !AnyQualifies(counts[1..], teams) by {
        forall i | 0 <= i < |counts| - 1 ensures !Qualifies(counts[1..][i], teams) {
          assert counts[1..][i] == counts[i + 1];
        }
      }
      WinnerUnchanged(counts[1..], teams, winner);
    }
  }

  /** Otherwise the winner is the first team with the colour of the last qualifying entry. */
  lemma {:induction false} WinnerIsLastQualifying(counts: seq<Tally>, teams: seq<Team>, winner: Option<string>, i: nat)
    requires i < |counts| && Qualifies(counts[i], teams)
    requires forall j :: i < j < |counts| ==> !Qualifies(counts[j], teams)
    ensures DeclaredWinner(counts, teams, winner) == Some(FindTeam(teams, counts[i].color).value.name)
  {
    var next := if Qualifies(counts[0], teams) then Some(FindTeam(teams, counts[0].color).value.name) else winner;
    if i == 0 {
      assert !AnyQualifies(counts[1..], teams) by {
        forall j | 0 <= j < |counts| - 1 ensures !Qualifies(counts[1..][j], teams) {
          assert counts[1..][j] == counts[j + 1];
        }
      }
      WinnerUnchanged(counts[1..], teams, next);
    } else {
      WinnerIsLastQualifying(counts[1..], teams, next, i - 1);
    }
  }

  /**
   * A move's lines announce a winner exactly when some colour has at least
   * WinThreshold lines and some team has that colour.
   */
  lemma WinnerAnnouncedIff(lines: seq<WinningLine>, teams: seq<Team>)
    ensures AnyQualifies(CountColors(lines), teams)
            <==> exists c :: multiset(ColorsOf(lines))[c] >= WinThreshold && FindTeam(teams, c).Some?
  {
    var counts := CountColors(lines);
    var colors := ColorsOf(lines);
    CountColorsCorrect(lines);
    FirstAppearancesFacts(colors);
    if c :| multiset(colors)[c] >= WinThreshold && FindTeam(teams, c).Some? {
      assert c in colors;
      assert c in Keys(counts);
      var i :| 0 <= i < |counts| && Keys(counts)[i] == c;
      assert Qualifies(counts[i], teams);
    }
  }

  // ---------------------------------------------------------- the session

  /** `(currentTeam + 1) % teams.length`: the next team's index, wrapping to 0 after the last. */
  function NextTurn(current: int, n: int): (next: int)
    requires 0 <= current < n
    ensures 0 <= next < n
    ensures next == if current + 1 < n then current + 1 else 0
  {
    (current + 1) % n
  }

  /** The page's session state. */
  class Session {
    var board: Board
    var teams: seq<Team>
    var currentTeam: int
    var winningLines: seq<WinningLine>
    var winner: Option<string>
    var showWinDialog: bool
    /** The item catalogue boards are dealt from. */
    const items: seq<GameItem>

    /**
     * The state every handler keeps: an 8 x 10 board, a valid turn index,
     * lines of three cells that overlap only tip to tip.
     */
    ghost predicate Valid()
      reads this
    {
      && IsGrid(board)
      && |teams| > 0
      && 0 <= currentTeam < |teams|
      && LinesValid(winningLines)
    }

    /** Mounting the page: the default teams and a freshly dealt board. */
    constructor(items: seq<GameItem>, pool: seq<GameItem>)
      requires IsShuffleOf(pool, items)
      ensures Valid()
      ensures this.items == items && DealtBoard(board, pool, BoardRows, BoardCols)
      ensures teams == DefaultTeams && currentTeam == 0
      ensures winningLines == [] && winner == None && !showWinDialog
    {
      this.items := items;
      teams := DefaultTeams;
      currentTeam := 0;
      winningLines := [];
      winner := None;
      showWinDialog := false;
      new;
      board := CreateBoard(items, BoardRows, BoardCols, pool);
    }

    /**
     * handleCellUpdate: write the colour into the cell; when a colour is
     * given, recompute the lines with minLength 3, count them by colour and
     * declare a winner; rotate the turn unless a winner was already set.
     */
    method HandleCellUpdate(row: int, col: int, color: Option<string>)
      requires Valid() && 0 <= row < |board| && 0 <= col < |board[row]|
      modifies this
      ensures Valid()
      ensures board == Paint(old(board), row, col, color)
      ensures teams == old(teams)
      ensures winningLines == if Truthy(color)
                              then WinningLines(board, row, col, color.value, LineLength, old(winningLines))
                              else old(winningLines)
      ensures old(winningLines) <= winningLines
      ensures winner == if Truthy(color)
                        then DeclaredWinner(CountColors(winningLines), teams, old(winner))
                        else old(winner)
      ensures showWinDialog == (old(showWinDialog) || (Truthy(color) && AnyQualifies(CountColors(winningLines), teams)))
      ensures currentTeam == if Truthy(old(winner)) then old(currentTeam) else NextTurn(old(currentTeam), |teams|)
    {
      var previousWinner := winner;
      var newBoard := Paint(board, row, col, color);
      assert IsGrid(newBoard);
      board := newBoard;
      if Truthy(color) {
        var lines, w, announced := ScoreMove(newBoard, row, col, color.value, winningLines, teams, winner);
        winningLines := lines;
        winner := w;
        if announced {
          showWinDialog := true;
        }
      }
      if !Truthy(previousWinner) {
        currentTeam := NextTurn(currentTeam, |teams|);
      }
    }

    /** resetGame: a freshly dealt board, no lines, no winner, the first team's turn. */
    method ResetGame(pool: seq<GameItem>)
      requires Valid() && IsShuffleOf(pool, items)
      modifies this
      ensures Valid()
      ensures DealtBoard(board, pool, BoardRows, BoardCols)
      ensures teams == old(teams)
      ensures winningLines == [] && winner == None && currentTeam == 0 && !showWinDialog
    {
      var newBoard := CreateBoard(items, BoardRows, BoardCols, pool);
      board := newBoard;
      winningLines := [];
      winner := None;
      currentTeam := 0;
      showWinDialog := false;
    }

    /** setTeams as the team editor calls it: the same number of teams, renamed or recoloured. */
    method SetTeams(newTeams: seq<Team>)
      requires Valid() && |newTeams| == |teams|
      modifies this
      ensures Valid()
      ensures teams == newTeams
      ensures board == old(board) && currentTeam == old(currentTeam) && winningLines == old(winningLines)
      ensures winner == old(winner) && showWinDialog == old(showWinDialog)
    {
      teams := newTeams;
    }
  }

  /** Lines of LineLength cells overlapping only tip to tip. */
  ghost predicate LinesValid(lines: seq<WinningLine>)
  {
    && AllNonEmpty(lines)
    && (forall l :: l in lines ==> |l.cells| == LineLength)
    && ChainedOnly(lines)
  }

  /**
   * The scoring half of a move that sets a colour: recompute the lines,
   * count them by colour and run the winner selection.
   */
  method ScoreMove(board: Board, row: int, col: int, color: string, lines: seq<WinningLine>,
                   teams: seq<Team>, winner: Option<string>)
    returns (newLines: seq<WinningLine>, newWinner: Option<string>, announced: bool)
    requires 0 <= row < |board| && LinesValid(lines)
    ensures newLines == WinningLines(board, row, col, color, LineLength, lines)
    ensures LinesValid(newLines) && lines <= newLines
    ensures newWinner == DeclaredWinner(CountColors(newLines), teams, winner)
    ensures announced <==> AnyQualifies(CountColors(newLines), teams)
  {
    newLines := CheckWinningLines(board, row, col, color, LineLength, lines);
    ChainPreserved(board, row, col, color, LineLength, lines);
    LinesKeepLength(board, row, col, color, lines);
    WinningLinesSound(board, row, col, color, LineLength, lines);
    var counts := CountColors(newLines);
    newWinner, announced := SelectWinner(counts, teams, winner);
  }

  /** Lines of minLength cells stay so after checkWinningLines with that minLength. */
  lemma LinesKeepLength(board: Board, row: int, col: int, color: string, existing: seq<WinningLine>)
    requires 0 <= row < |board|
    requires AllNonEmpty(existing) && forall l :: l in existing ==> |l.cells| == LineLength
    ensures forall l :: l in WinningLines(board, row, col, color, LineLength, existing) ==> |l.cells| == LineLength
  {
    var r := WinningLines(board, row, col, color, LineLength, existing);
    WinningLinesSound(board, row, col, color, LineLength, existing);
    forall l | l in r ensures |l.cells| == LineLength {
      var k :| 0 <= k < |r| && r[k] == l;
      if k < |existing| {
        assert existing[k] in existing;
      } else {
        assert SoundLine(board, color, LineLength, r, k);
      }
    }
  }
}
