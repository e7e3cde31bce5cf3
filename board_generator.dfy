/** Building the initial board from the item catalogue (createBoard). */
module BoardGenerator {
  import opened GameTypes

  /** The item put on cells once the shuffled pool is used up. */
  const Placeholder: GameItem := GameItem("", "")

  /** The shuffled pool is some arrangement of the catalogue written twice. */
  ghost predicate IsShuffleOf(pool: seq<GameItem>, items: seq<GameItem>)
  {
    multiset(pool) == multiset(items + items)
  }

  /** The item dealt to the cell with row-major index `k`. */
  function ItemAt(pool: seq<GameItem>, k: nat): GameItem
  {
    if k < |pool| then pool[k] else Placeholder
  }

  /** `board` is what createBoard deals from `pool` on a `rows` x `cols` grid. */
  ghost predicate DealtBoard(board: Board, pool: seq<GameItem>, rows: int, cols: int)
  {
    && |board| == Max0(rows)
    && (forall i :: 0 <= i < |board| ==> |board[i]| == Max0(cols))
    && (forall i, j :: 0 <= i < |board| && 0 <= j < |board[i]| ==>
          board[i][j] == Cell(ItemAt(pool, i * cols + j), None, false))
  }

  /**
   * Fills the grid row by row; `pool` stands for the randomly shuffled copy
   * of `items + items`, which the source obtains from a random comparator.
   */
  method CreateBoard(items: seq<GameItem>, rows: int, cols: int, pool: seq<GameItem>) returns (board: Board)
    requires IsShuffleOf(pool, items)
    ensures DealtBoard(board, pool, rows, cols)
  {
    board := [];
    var i := 0;
    while i < rows
      invariant 0 <= i == |board| <= Max0(rows)
      invariant forall r :: 0 <= r < i ==> |board[r]| == Max0(cols)
      invariant forall r, j :: 0 <= r < i && 0 <= j < |board[r]| ==>
                  board[r][j] == Cell(ItemAt(pool, r * cols + j), None, false)
    {
      var row: seq<Cell> := [];
      var j := 0;
      while j < cols
        invariant 0 <= j == |row| <= Max0(cols)
        invariant forall c :: 0 <= c < j ==> row[c] == Cell(ItemAt(pool, i * cols + c), None, false)
      {
        var itemIndex := i * cols + j;
        var item := if itemIndex < |pool| then pool[itemIndex] else Placeholder;
        row := row + [Cell(item, None, false)];
        j := j + 1;
      }
      board := board + [row];
      i := i + 1;
    }
  }

  /** The items of one row, left to right. */
  function ItemsOf(row: seq<Cell>): (r: seq<GameItem>)
    ensures |r| == |row|
    ensures forall j :: 0 <= j < |row| ==> r[j] == row[j].item
  {
    seq(|row|, j requires 0 <= j < |row| => row[j].item)
  }

  /** The items of the whole board in row-major order. */
  function RowMajor(board: Board): seq<GameItem>
  {
    if board == [] then [] else RowMajor(board[..|board| - 1]) + ItemsOf(board[|board| - 1])
  }

  /** `n` consecutive dealt items starting at row-major index `from`. */
  function Deal(pool: seq<GameItem>, from: nat, n: nat): (r: seq<GameItem>)
    ensures |r| == n
    ensures forall k :: 0 <= k < n ==> r[k] == ItemAt(pool, from + k)
  {
    seq(n, k requires 0 <= k < n => ItemAt(pool, from + k))
  }

  lemma DealSplit(pool: seq<GameItem>, a: nat, b: nat)
    ensures Deal(pool, 0, a) + Deal(pool, a, b) == Deal(pool, 0, a + b)
  {
  }

  /** Dropping the last row of a dealt board leaves a dealt board. */
  lemma DealtPrefix(board: Board, pool: seq<GameItem>, rows: int, cols: int)
    requires board != [] && DealtBoard(board, pool, rows, cols)
    ensures DealtBoard(board[..|board| - 1], pool, |board| - 1, cols)
  {
    var prefix := board[..|board| - 1];
    forall i | 0 <= i < |prefix| ensures prefix[i] == board[i] {
    }
  }

  /** The last row of a dealt board holds the next `cols` dealt items. */
  lemma DealtLastRow(board: Board, pool: seq<GameItem>, rows: int, cols: int)
    requires board != [] && cols > 0 && DealtBoard(board, pool, rows, cols)
    ensures ItemsOf(board[|board| - 1]) == Deal(pool, (|board| - 1) * cols, cols)
  {
    var n := |board| - 1;
    forall j | 0 <= j < cols ensures ItemsOf(board[n])[j] == Deal(pool, n * cols, cols)[j] {
      assert board[n][j] == Cell(ItemAt(pool, n * cols + j), None, false);
    }
  }

  /** Reading the dealt board row by row gives the pool, padded with placeholders. */
  lemma {:induction false} RowMajorIsDeal(board: Board, pool: seq<GameItem>, rows: int, cols: int)
    requires cols > 0
    requires DealtBoard(board, pool, rows, cols)
    ensures RowMajor(board) == Deal(pool, 0, |board| * cols)
  {
    if board != [] {
      var n := |board| - 1;
      DealtPrefix(board, pool, rows, cols);
      RowMajorIsDeal(board[..n], pool, n, cols);
      DealtLastRow(board, pool, rows, cols);
      DealSplit(pool, n * cols, cols);
      assert n * cols + cols == |board| * cols;
    }
  }

  /** Dealing never hands out an item more often than the pool holds it. */
  lemma DealCount(pool: seq<GameItem>, n: nat, x: GameItem)
    requires x != Placeholder
    ensures multiset(Deal(pool, 0, n))[x] <= multiset(pool)[x]
    ensures n >= |pool| ==> multiset(Deal(pool, 0, n))[x] == multiset(pool)[x]
  {
    if n <= |pool| {
      assert Deal(pool, 0, n) == pool[..n];
      assert pool == pool[..n] + pool[n..];
    } else {
      var pad := Deal(pool, |pool|, n - |pool|);
      DealSplit(pool, |pool|, n - |pool|);
      assert Deal(pool, 0, |pool|) == pool;
      assert forall k :: 0 <= k < |pad| ==> pad[k] == Placeholder;
      assert multiset(pad)[x] == 0;
    }
  }

  /**
   * The supply guarantee of createBoard: the board has rows x cols cells,
   * cells past the doubled catalogue hold the placeholder, no catalogue item
   * lands on more cells than twice its multiplicity in the catalogue, and on
   * a board large enough every one lands on exactly that many.
   */
  lemma BoardSupply(board: Board, items: seq<GameItem>, pool: seq<GameItem>, rows: int, cols: int)
    requires IsShuffleOf(pool, items)
    requires DealtBoard(board, pool, rows, cols)
    ensures |RowMajor(board)| == Max0(rows) * Max0(cols)
    ensures forall i, j :: 0 <= i < |board| && 0 <= j < |board[i]| && i * cols + j >= 2 * |items| ==>
              board[i][j].item == Placeholder
    ensures forall x :: x != Placeholder ==> multiset(RowMajor(board))[x] <= 2 * multiset(items)[x]
    ensures Max0(rows) * Max0(cols) >= 2 * |items| ==>
              forall x :: x != Placeholder ==> multiset(RowMajor(board))[x] == 2 * multiset(items)[x]
  {
    assert |multiset(pool)| == |multiset(items + items)|;
    assert |pool| == 2 * |items|;
    forall x | x != Placeholder
      ensures multiset(pool)[x] == 2 * multiset(items)[x]
    {
      assert multiset(items + items) == multiset(items) + multiset(items);
    }
    if cols > 0 {
      RowMajorIsDeal(board, pool, rows, cols);
      forall x | x != Placeholder
        ensures multiset(RowMajor(board))[x] <= 2 * multiset(items)[x]
        ensures Max0(rows) * Max0(cols) >= 2 * |items| ==> multiset(RowMajor(board))[x] == 2 * multiset(items)[x]
      {
        DealCount(pool, |board| * cols, x);
      }
    } else {
      EmptyRowsRowMajor(board);
      assert Max0(rows) * Max0(cols) == 0;
    }
  }

  lemma {:induction false} EmptyRowsRowMajor(board: Board)
    requires forall i :: 0 <= i < |board| ==> |board[i]| == 0
    ensures RowMajor(board) == []
  {
    if board != [] {
      EmptyRowsRowMajor(board[..|board| - 1]);
    }
  }
}
