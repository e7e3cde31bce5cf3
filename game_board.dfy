/**
 * The board component: which cells are locked, and the selection state the
 * click, colour, reset and close handlers drive. The colour and reset
 * handlers hand the page a cell update to apply.
 */
module GameBoard {
  import opened GameTypes

  /** `line.cells.some(pos => pos.row === row && pos.col === col)` */
  function InCells(cells: seq<Coord>, row: int, col: int): (found: bool)
    ensures found <==> Coord(row, col) in cells
  {
    if cells == [] then false
    else (cells[0].row == row && cells[0].col == col) || InCells(cells[1..], row, col)
  }

  /** isCellInWinningLine: some claimed line contains the cell. */
  function IsCellInWinningLine(winningLines: seq<WinningLine>, row: int, col: int): (locked: bool)
    ensures locked <==> exists l :: l in winningLines && Coord(row, col) in l.cells
  {
    if winningLines == [] then false
    else InCells(winningLines[0].cells, row, col) || IsCellInWinningLine(winningLines[1..], row, col)
  }

  /** Appending lines never unlocks a cell. */
  lemma LocksPersist(lines: seq<WinningLine>, more: seq<WinningLine>, row: int, col: int)
    requires lines <= more && IsCellInWinningLine(lines, row, col)
    ensures IsCellInWinningLine(more, row, col)
  {
    var l :| l in lines && Coord(row, col) in l.cells;
    var k :| 0 <= k < |lines| && lines[k] == l;
    assert more[k] == l;
  }

  /** The call `onCellUpdate(row, col, color)` a handler makes; `None` stands for `undefined`. */
  datatype CellUpdate = CellUpdate(row: int, col: int, color: Option<string>)

  /** The component's selection state (the menu position is left out). */
  class Selection {
    var selectedCell: Option<Coord>

    constructor()
      ensures selectedCell == None
    {
      selectedCell := None;
    }

    /**
     * handleCellClick: a locked cell ignores the click; clicking the
     * selected cell closes the menu; any other cell becomes the selection.
     */
    method HandleCellClick(row: int, col: int, winningLines: seq<WinningLine>)
      modifies this
      ensures IsCellInWinningLine(winningLines, row, col) ==> selectedCell == old(selectedCell)
      ensures !IsCellInWinningLine(winningLines, row, col) && old(selectedCell) == Some(Coord(row, col))
              ==> selectedCell == None
      ensures !IsCellInWinningLine(winningLines, row, col) && old(selectedCell) != Some(Coord(row, col))
              ==> selectedCell == Some(Coord(row, col))
    {
      if IsCellInWinningLine(winningLines, row, col) {
        return;
      }
      if selectedCell.Some? && selectedCell.value.row == row && selectedCell.value.col == col {
        HandleMenuClose();
        return;
      }
      selectedCell := Some(Coord(row, col));
    }

    /** handleColorSelect: with a cell selected, paint it in `color` and close the menu. */
    method HandleColorSelect(color: string) returns (update: Option<CellUpdate>)
      modifies this
      ensures old(selectedCell).None? ==> update == None && selectedCell == None
      ensures old(selectedCell).Some? ==>
                update == Some(CellUpdate(old(selectedCell).value.row, old(selectedCell).value.col, Some(color)))
                && selectedCell == None
    {
      update := None;
      if selectedCell.Some? {
        update := Some(CellUpdate(selectedCell.value.row, selectedCell.value.col, Some(color)));
        HandleMenuClose();
      }
    }

    /** handleReset: with a cell selected, clear its colour and close the menu. */
    method HandleReset() returns (update: Option<CellUpdate>)
      modifies this
      ensures old(selectedCell).None? ==> update == None && selectedCell == None
      ensures old(selectedCell).Some? ==>
                update == Some(CellUpdate(old(selectedCell).value.row, old(selectedCell).value.col, None))
                && selectedCell == None
    {
      update := None;
      if selectedCell.Some? {
        update := Some(CellUpdate(selectedCell.value.row, selectedCell.value.col, None));
        HandleMenuClose();
      }
    }

    /** handleMenuClose: nothing is selected any more. */
    method HandleMenuClose()
      modifies this
      ensures selectedCell == None
    {
      selectedCell := None;
    }
  }
}
