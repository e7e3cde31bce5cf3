/** Data model of the game: catalogue items, board cells, teams and claimed lines. */
module GameTypes {

  /** An optional value; a cell's colour is `None` until a team paints it. */
  datatype Option<+T> = None | Some(value: T)

  /** A catalogue entry shown on a cell. */
  datatype GameItem = GameItem(name: string, icon: string)

  /** One board square: its item, its colour (if any) and the stored lock flag. */
  datatype Cell = Cell(item: GameItem, color: Option<string>, locked: bool)

  /** A team and the colour it paints with. */
  datatype Team = Team(name: string, color: string)

  /** A 0-indexed board position. */
  datatype Coord = Coord(row: int, col: int)

  /** A claimed line: its cells in scan order and its colour. */
  datatype WinningLine = WinningLine(cells: seq<Coord>, color: string)

  /** The board, row by row. */
  type Board = seq<seq<Cell>>

  /** The number of iterations of `for (i = 0; i < n; i++)`. */
  function Max0(n: int): nat
  {
    if n > 0 then n else 0
  }
}
