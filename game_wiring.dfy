/**
 * The page and the board component together: the board's handlers feed
 * their cell updates to the page's handleCellUpdate. Because locked cells
 * cannot be selected, every cell of every claimed line keeps the colour of
 * its line for as long as the line stands.
 */
module GameWiring {
  import opened GameTypes
  import opened BoardGenerator
  import opened LineDetector
  import opened LineProperties
  import opened GamePage
  import opened GameBoard

  /** Every cell of every line has the line's colour on the board. */
  ghost predicate LinesPainted(board: Board, lines: seq<WinningLine>)
  {
    forall l, p :: l in lines && p in l.cells ==> HasColor(board, p.row, p.col, l.color)
  }

  /** Writing an unlocked cell leaves every line painted. */
  lemma PaintKeepsLines(board: Board, lines: seq<WinningLine>, row: int, col: int, color: Option<string>)
    requires 0 <= row < |board| && 0 <= col < |board[row]|
    requires LinesPainted(board, lines) && !IsCellInWinningLine(lines, row, col)
    ensures LinesPainted(Paint(board, row, col, color), lines)
  {
    var b := Paint(board, row, col, color);
    forall l, p | l in lines && p in l.cells ensures HasColor(b, p.row, p.col, l.color) {
      assert p != Coord(row, col);
    }
  }

  /** The lines checkWinningLines appends are painted on the board it scanned. */
  lemma NewLinesPainted(board: Board, row: int, col: int, color: string, existing: seq<WinningLine>)
    requires 0 <= row < |board| && LinesValid(existing) && LinesPainted(board, existing)
    ensures LinesPainted(board, WinningLines(board, row, col, color, LineLength, existing))
  {
    var r := WinningLines(board, row, col, color, LineLength, existing);
    WinningLinesSound(board, row, col, color, LineLength, existing);
    forall l, p | l in r && p in l.cells ensures HasColor(board, p.row, p.col, l.color) {
      var k :| 0 <= k < |r| && r[k] == l;
      if k < |existing| {
        assert existing[k] in existing;
      } else {
        assert SoundLine(board, color, LineLength, r, k);
      }
    }
  }

  /** The page's session with the board component's selection. */
  class Game {
    const session: Session
    const selection: Selection

    /**
     * The session is valid, every claimed line is painted in its colour,
     * and a selected cell is an unlocked cell of the board.
     */
    ghost predicate Valid()
      reads this, session, selection
    {
      && session.Valid()
      && LinesPainted(session.board, session.winningLines)
      && (selection.selectedCell.Some? ==>
            var c := selection.selectedCell.value;
            && 0 <= c.row < |session.board| && 0 <= c.col < |session.board[c.row]|
            && !IsCellInWinningLine(session.winningLines, c.row, c.col))
    }

    constructor(items: seq<GameItem>, pool: seq<GameItem>)
      requires IsShuffleOf(pool, items)
      ensures Valid()
      ensures session.items == items && DealtBoard(session.board, pool, BoardRows, BoardCols)
      ensures session.teams == DefaultTeams && session.currentTeam == 0
      ensures session.winningLines == [] && session.winner == None && !session.showWinDialog
      ensures selection.selectedCell == None
    {
      session := new Session(items, pool);
      selection := new Selection();
    }

    /** A click on board cell (row, col). */
    method ClickCell(row: int, col: int)
      requires Valid() && 0 <= row < |session.board| && 0 <= col < |session.board[row]|
      modifies selection
      ensures Valid()
      ensures IsCellInWinningLine(session.winningLines, row, col) ==> selection.selectedCell == old(selection.selectedCell)
      ensures !IsCellInWinningLine(session.winningLines, row, col) && old(selection.selectedCell) == Some(Coord(row, col))
              ==> selection.selectedCell == None
      ensures !IsCellInWinningLine(session.winningLines, row, col) && old(selection.selectedCell) != Some(Coord(row, col))
              ==> selection.selectedCell == Some(Coord(row, col))
    {
      selection.HandleCellClick(row, col, session.winningLines);
    }

    /** Choosing a colour in the menu: the selected cell, if any, is painted and scored. */
    method ChooseColor(color: string)
      requires Valid()
      modifies session, selection
      ensures Valid()
      ensures selection.selectedCell == None
      ensures old(selection.selectedCell).None? ==> unchanged(session)
      ensures old(selection.selectedCell).Some? ==>
                var c := old(selection.selectedCell).value;
                && session.board == Paint(old(session.board), c.row, c.col, Some(color))
                && session.winningLines
                     == (if Truthy(Some(color))
                         then WinningLines(session.board, c.row, c.col, color, LineLength, old(session.winningLines))
                         else old(session.winningLines))
                && session.winner
                     == (if Truthy(Some(color))
                         then DeclaredWinner(CountColors(session.winningLines), session.teams, old(session.winner))
                         else old(session.winner))
                && session.showWinDialog
                     == (old(session.showWinDialog)
                         || (Truthy(Some(color)) && AnyQualifies(CountColors(session.winningLines), session.teams)))
                && session.currentTeam
                     == if Truthy(old(session.winner)) then old(session.currentTeam)
                        else NextTurn(old(session.currentTeam), |old(session.teams)|)
      ensures session.teams == old(session.teams)
      ensures old(session.winningLines) <= session.winningLines
    {
      var update := selection.HandleColorSelect(color);
      if update.Some? {
        var u := update.value;
        PaintKeepsLines(session.board, session.winningLines, u.row, u.col, u.color);
        if Truthy(u.color) {
          NewLinesPainted(Paint(session.board, u.row, u.col, u.color), u.row, u.col, u.color.value,
                          session.winningLines);
        }
        session.HandleCellUpdate(u.row, u.col, u.color);
      }
    }

    /** Clearing the selected cell in the menu. */
    method ClearCell()
      requires Valid()
      modifies session, selection
      ensures Valid()
      ensures selection.selectedCell == None
      ensures old(selection.selectedCell).None? ==> unchanged(session)
      ensures old(selection.selectedCell).Some? ==>
                var c := old(selection.selectedCell).value;
                && session.board == Paint(old(session.board), c.row, c.col, None)
                && session.currentTeam
                     == if Truthy(old(session.winner)) then old(session.currentTeam)
                        else NextTurn(old(session.currentTeam), |old(session.teams)|)
      ensures session.winningLines == old(session.winningLines) && session.teams == old(session.teams)
      ensures session.winner == old(session.winner) && session.showWinDialog == old(session.showWinDialog)
    {
      var update := selection.HandleReset();
      if update.Some? {
        var u := update.value;
        PaintKeepsLines(session.board, session.winningLines, u.row, u.col, u.color);
        session.HandleCellUpdate(u.row, u.col, u.color);
      }
    }

    /** Closing the menu. */
    method CloseMenu()
      requires Valid()
      modifies selection
      ensures Valid() && selection.selectedCell == None
    {
      selection.HandleMenuClose();
    }

    /** Starting over from the win dialog. */
    method Restart(pool: seq<GameItem>)
      requires Valid() && IsShuffleOf(pool, session.items)
      modifies session
      ensures Valid()
      ensures DealtBoard(session.board, pool, BoardRows, BoardCols) && session.teams == old(session.teams)
      ensures session.winningLines == [] && session.winner == None
      ensures session.currentTeam == 0 && !session.showWinDialog
    {
      session.ResetGame(pool);
    }
  }
}
