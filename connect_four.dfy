/**
  The local Connect Four engine of the ConnectFourBoard widget: a 7x6 board
  stored column-major (cell `col * 6 + row`, row 0 at the bottom), the gravity
  drop, the winner scan, the highlighted winning line and the reset.
*/
module ConnectFour {
  import opened Options

  const Width := 7
  const Height := 6
  const CellCount := 42

  datatype Disc = R | Y
  datatype Cell = Empty | Filled(disc: Disc)
  /** `winner: "R" | "Y" | "draw" | null` */
  datatype Winner = NoWinner | Win(disc: Disc) | Draw

  /** The four scan directions (dx, dy), in scan order. */
  const Directions: seq<(int, int)> := [(1, 0), (0, 1), (1, 1), (1, -1)]

  function EmptyBoard(): (b: seq<Cell>)
    ensures |b| == CellCount && !Full(b)
  {
    var b := seq(CellCount, _ => Empty);
    assert b[0] == Empty;
    b
  }

  /** The other colour: the two colours alternate. */
  function Flip(d: Disc): (r: Disc)
    ensures r != d
  {
    if d == R then Y else R
  }

  predicate InBounds(x: int, y: int) { 0 <= x < 7 && 0 <= y < 6 }

  /** The `get` helper of both scanners: out-of-bounds reads are empty. */
  function Get(board: seq<Cell>, x: int, y: int): (c: Cell)
    requires |board| == CellCount
  {
    if InBounds(x, y) then board[x * 6 + y] else Empty
  }

  /** The k-th cell read from (x, y) in direction d. */
  function RunCell(board: seq<Cell>, x: int, y: int, d: int, k: int): (c: Cell)
    requires |board| == CellCount && 0 <= d < 4
  {
    Get(board, x + Directions[d].0 * k, y + Directions[d].1 * k)
  }

  /** Four consecutive cells from (x, y) in direction d all equal c. */
  predicate RunAt(board: seq<Cell>, x: int, y: int, d: int, c: Cell)
    requires |board| == CellCount && 0 <= d < 4
  {
    RunCell(board, x, y, d, 0) == c && RunCell(board, x, y, d, 1) == c
    && RunCell(board, x, y, d, 2) == c && RunCell(board, x, y, d, 3) == c
  }

  /** An occupied cell (x, y) starts a run of four equal cells in direction d. */
  predicate RunStart(board: seq<Cell>, x: int, y: int, d: int)
    requires |board| == CellCount && 0 <= d < 4
  {
    Get(board, x, y) != Empty && RunAt(board, x, y, d, Get(board, x, y))
  }

  /** A scan position: a cell of the board and a direction. */
  predicate InScan(x: int, y: int, d: int) { InBounds(x, y) && 0 <= d < 4 }

  /** (x', y', d') is visited before (x, y, d): columns, then rows, then directions. */
  predicate Before(x': int, y': int, d': int, x: int, y: int, d: int) {
    x' < x || (x' == x && (y' < y || (y' == y && d' < d)))
  }

  ghost predicate NoRun(board: seq<Cell>)
    requires |board| == CellCount
  {
    forall x, y, d :: InScan(x, y, d) ==> !RunStart(board, x, y, d)
  }

  /** (x, y, d) is the first run of any colour in scan order. */
  ghost predicate FirstRun(board: seq<Cell>, x: int, y: int, d: int)
    requires |board| == CellCount
  {
    InScan(x, y, d) && RunStart(board, x, y, d)
    && forall x', y', d' :: InScan(x', y', d') && Before(x', y', d', x, y, d) ==> !RunStart(board, x', y', d')
  }

  /** (x, y, d) is the first run of colour c in scan order. */
  ghost predicate FirstRunOf(board: seq<Cell>, x: int, y: int, d: int, c: Disc)
    requires |board| == CellCount
  {
    InScan(x, y, d) && RunAt(board, x, y, d, Filled(c))
    && forall x', y', d' :: InScan(x', y', d') && Before(x', y', d', x, y, d) ==> !RunAt(board, x', y', d', Filled(c))
  }

  predicate Full(board: seq<Cell>) {
    forall i :: 0 <= i < |board| ==> board[i] != Empty
  }

  /** The outcome the rules assign to a board: the colour of the first run in
      scan order, else a draw when all 42 cells are filled, else no result. */
  ghost predicate IsLocalWinner(board: seq<Cell>, w: Winner)
    requires |board| == CellCount
  {
    match w
    case Win(c) => exists x, y, d :: FirstRun(board, x, y, d) && Get(board, x, y) == Filled(c)
    case Draw => NoRun(board) && Full(board)
    case NoWinner => NoRun(board) && !Full(board)
  }

  /** The board index of the k-th cell from (x, y) in direction d. */
  function CellIndex(x: int, y: int, d: int, k: int): int
    requires 0 <= d < 4
  {
    (x + Directions[d].0 * k) * 6 + (y + Directions[d].1 * k)
  }

  /** The board indices of the four cells from (x, y) in direction d. */
  function LineCells(x: int, y: int, d: int): seq<int>
    requires 0 <= d < 4
  {
    [CellIndex(x, y, d, 0), CellIndex(x, y, d, 1), CellIndex(x, y, d, 2), CellIndex(x, y, d, 3)]
  }

  /** cells are four in-bounds board indices, all holding colour c, each one
      unit step (6: right, 1: up, 7: up-right, 5: down-right) after the last. */
  predicate IsLineOf(board: seq<Cell>, cells: seq<int>, c: Disc)
    requires |board| == CellCount
  {
    && |cells| == 4
    && (forall i :: 0 <= i < 4 ==> 0 <= cells[i] < CellCount && board[cells[i]] == Filled(c))
    && cells[1] - cells[0] in {1, 5, 6, 7}
    && (forall i :: 0 < i < 4 ==> cells[i] - cells[i - 1] == cells[1] - cells[0])
  }

  /** The cells of a run of colour c are a line of c. */
  lemma RunCellsHoldColour(board: seq<Cell>, x: int, y: int, d: int, c: Disc)
    requires |board| == CellCount && 0 <= d < 4 && RunAt(board, x, y, d, Filled(c))
    ensures IsLineOf(board, LineCells(x, y, d), c)
  {
    CellOfRun(board, x, y, d, 0, c);
    CellOfRun(board, x, y, d, 1, c);
    CellOfRun(board, x, y, d, 2, c);
    CellOfRun(board, x, y, d, 3, c);
    var (dx, dy) := Directions[d];
    assert CellIndex(x, y, d, 1) - CellIndex(x, y, d, 0) == dx * 6 + dy;
    assert CellIndex(x, y, d, 2) - CellIndex(x, y, d, 1) == dx * 6 + dy;
    assert CellIndex(x, y, d, 3) - CellIndex(x, y, d, 2) == dx * 6 + dy;
  }

  /** A cell read as colour c lies on the board and holds c. */
  lemma CellOfRun(board: seq<Cell>, x: int, y: int, d: int, k: int, c: Disc)
    requires |board| == CellCount && 0 <= d < 4 && RunCell(board, x, y, d, k) == Filled(c)
    ensures 0 <= CellIndex(x, y, d, k) < CellCount && board[CellIndex(x, y, d, k)] == Filled(c)
  {
  }

  /** Two scan positions are ordered one way or the other unless equal. */
  lemma BeforeTotal(x1: int, y1: int, d1: int, x2: int, y2: int, d2: int)
    ensures Before(x1, y1, d1, x2, y2, d2) || Before(x2, y2, d2, x1, y1, d1)
            || (x1 == x2 && y1 == y2 && d1 == d2)
  {
  }

  /** At most one outcome fits a board. */
  lemma LocalWinnerUnique(board: seq<Cell>, w1: Winner, w2: Winner)
    requires |board| == CellCount
    requires IsLocalWinner(board, w1) && IsLocalWinner(board, w2)
    ensures w1 == w2
  {
    if w1.Win? {
      var x1, y1, d1 :| FirstRun(board, x1, y1, d1) && Get(board, x1, y1) == Filled(w1.disc);
      if w2.Win? {
        var x2, y2, d2 :| FirstRun(board, x2, y2, d2) && Get(board, x2, y2) == Filled(w2.disc);
        BeforeTotal(x1, y1, d1, x2, y2, d2);
      }
    }
  }

  /** computeLocalWinner: scan every occupied cell, column by column and row by
      row, in the four directions; the first run of four decides, otherwise a
      full board is a draw. */
  method ComputeLocalWinner(board: seq<Cell>) returns (w: Winner)
    requires |board| == CellCount
    ensures IsLocalWinner(board, w)
  {
    for x := 0 to Width
      invariant forall x', y', d' :: InScan(x', y', d') && x' < x ==> !RunStart(board, x', y', d')
    {
      for y := 0 to Height
        invariant forall x', y', d' :: InScan(x', y', d') && Before(x', y', d', x, y, 0) ==> !RunStart(board, x', y', d')
      {
        var cell := Get(board, x, y);
        if cell == Empty {
          continue;
        }
        for d := 0 to |Directions|
          invariant forall x', y', d' :: InScan(x', y', d') && Before(x', y', d', x, y, d) ==> !RunStart(board, x', y', d')
        {
          var (dx, dy) := Directions[d];
          var count := 1;
          for step := 1 to 4
            invariant count == step
            invariant forall k :: 0 <= k < step ==> RunCell(board, x, y, d, k) == cell
          {
            var nx := x + dx * step;
            var ny := y + dy * step;
            if Get(board, nx, ny) == cell {
              count := count + 1;
            } else {
              break;
            }
          }
          if count >= 4 {
            assert FirstRun(board, x, y, d);
            return Win(cell.disc);
          }
        }
      }
    }
    if Full(board) {
      return Draw;
    }
    assert board[0] == Empty || !Full(board);
    return NoWinner;
  }

  /** findWinningLine: the cells of the first run of the given colour in scan
      order, or none when that colour has no run. */
  method FindWinningLine(board: seq<Cell>, winner: Disc) returns (found: Option<seq<int>>)
    requires |board| == CellCount
    ensures found.None? <==> forall x, y, d :: InScan(x, y, d) ==> !RunAt(board, x, y, d, Filled(winner))
    ensures found.Some? ==> exists x, y, d :: FirstRunOf(board, x, y, d, winner) && found.value == LineCells(x, y, d)
    ensures found.Some? ==> IsLineOf(board, found.value, winner)
  {
    for x := 0 to Width
      invariant forall x', y', d' :: InScan(x', y', d') && x' < x ==> !RunAt(board, x', y', d', Filled(winner))
    {
      for y := 0 to Height
        invariant forall x', y', d' :: InScan(x', y', d') && Before(x', y', d', x, y, 0) ==> !RunAt(board, x', y', d', Filled(winner))
      {
        if Get(board, x, y) != Filled(winner) {
          continue;
        }
        for d := 0 to |Directions|
          invariant forall x', y', d' :: InScan(x', y', d') && Before(x', y', d', x, y, d) ==> !RunAt(board, x', y', d', Filled(winner))
        {
          var cells := CollectRun(board, x, y, d, winner);
          if |cells| == 4 {
            assert cells == LineCells(x, y, d);
            assert FirstRunOf(board, x, y, d, winner);
            RunCellsHoldColour(board, x, y, d, winner);
            return Some(cells);
          }
        }
      }
    }
    return None;
  }

  /** The inner step loop of findWinningLine: the indices of the four cells
      from (x, y) in direction d when all hold the colour, and none otherwise. */
  method CollectRun(board: seq<Cell>, x: int, y: int, d: int, winner: Disc) returns (cells: seq<int>)
    requires |board| == CellCount && 0 <= d < 4
    ensures RunAt(board, x, y, d, Filled(winner)) ==> cells == LineCells(x, y, d)
    ensures !RunAt(board, x, y, d, Filled(winner)) ==> cells == []
  {
    var (dx, dy) := Directions[d];
    cells := [];
    for step := 0 to 4
      invariant |cells| == step
      invariant forall k :: 0 <= k < step ==> RunCell(board, x, y, d, k) == Filled(winner)
      invariant forall k :: 0 <= k < step ==> cells[k] == CellIndex(x, y, d, k)
    {
      var nx := x + dx * step;
      var ny := y + dy * step;
      assert Get(board, nx, ny) == RunCell(board, x, y, d, step);
      if Get(board, nx, ny) != Filled(winner) {
        return [];
      }
      assert nx * 6 + ny == CellIndex(x, y, d, step);
      cells := cells + [nx * 6 + ny];
    }
    assert RunAt(board, x, y, d, Filled(winner));
  }

  /** The `winningCells` memo: the highlighted line for a winning colour. When
      the winner is the one computeLocalWinner assigns to the board, the
      highlighted line is never missing and is exactly the run that decided
      the game, since both scanners visit positions in the same order. */
  method WinningCells(board: seq<Cell>, winner: Winner) returns (cells: Option<seq<int>>)
    requires |board| == CellCount
    ensures !winner.Win? ==> cells == None
    ensures winner.Win? ==>
              && (cells.None? <==> forall x, y, d :: InScan(x, y, d) ==> !RunAt(board, x, y, d, Filled(winner.disc)))
              && (cells.Some? ==> exists x, y, d :: FirstRunOf(board, x, y, d, winner.disc) && cells.value == LineCells(x, y, d))
              && (cells.Some? ==> IsLineOf(board, cells.value, winner.disc))
    ensures IsLocalWinner(board, winner) && winner.Win? ==>
              exists x, y, d :: FirstRun(board, x, y, d) && cells == Some(LineCells(x, y, d))
  {
    if !winner.Win? {
      return None;
    }
    cells := FindWinningLine(board, winner.disc);
    if IsLocalWinner(board, winner) {
      var x1, y1, d1 :| FirstRun(board, x1, y1, d1) && Get(board, x1, y1) == Filled(winner.disc);
      assert RunAt(board, x1, y1, d1, Filled(winner.disc));
      var x2, y2, d2 :| FirstRunOf(board, x2, y2, d2, winner.disc) && cells.value == LineCells(x2, y2, d2);
      assert RunStart(board, x2, y2, d2);
      BeforeTotal(x1, y1, d1, x2, y2, d2);
    }
  }

  /** Filled cells of every column form a bottom prefix. */
  ghost predicate Gravity(board: seq<Cell>)
    requires |board| == CellCount
  {
    forall c, r1, r2 :: 0 <= c < Width && 0 <= r1 < r2 < Height && Get(board, c, r2) != Empty
      ==> Get(board, c, r1) != Empty
  }

  predicate ColumnFull(board: seq<Cell>, col: int)
    requires |board| == CellCount
  {
    forall r :: 0 <= r < Height ==> Get(board, col, r) != Empty
  }

  /** row is the lowest empty row of column col. */
  ghost predicate IsLowestEmpty(board: seq<Cell>, col: int, row: int)
    requires |board| == CellCount
  {
    0 <= col < Width && 0 <= row < Height && Get(board, col, row) == Empty
    && forall r :: 0 <= r < row ==> Get(board, col, r) != Empty
  }

  /** The copy-and-fill loop of dropDisc: the disc goes into the lowest empty
      row of the column and nowhere else; a full column gives no row and the
      board unchanged. */
  method DropIntoColumn(cur: seq<Cell>, col: int, disc: Disc) returns (placedRow: Option<int>, newBoard: seq<Cell>)
    requires |cur| == CellCount && 0 <= col < Width
    ensures placedRow.None? <==> ColumnFull(cur, col)
    ensures placedRow.None? ==> newBoard == cur
    ensures placedRow.Some? ==>
              IsLowestEmpty(cur, col, placedRow.value) && newBoard == cur[col * 6 + placedRow.value := Filled(disc)]
  {
    var b := new Cell[CellCount](i requires 0 <= i < CellCount => cur[i]);
    placedRow := None;
    for row := 0 to Height
      invariant placedRow.None? && b[..] == cur
      invariant forall r :: 0 <= r < row ==> Get(cur, col, r) != Empty
    {
      var idx := col * Height + row;
      if b[idx] == Empty {
        b[idx] := Filled(disc);
        placedRow := Some(row);
        assert b[..] == cur[idx := Filled(disc)];
        assert IsLowestEmpty(cur, col, row);
        return placedRow, b[..];
      }
    }
    assert ColumnFull(cur, col);
    newBoard := b[..];
  }

  /** The widget's state object `{ board, next, winner }` in local play. */
  class Game {
    var board: seq<Cell>
    var next: Option<Disc>
    var winner: Winner

    /** Columns obey gravity, the winner is the rules' outcome of the board and
        a finished game has no next mover. */
    ghost predicate Valid()
      reads this
    {
      && |board| == CellCount
      && Gravity(board)
      && IsLocalWinner(board, winner)
      && (next.None? <==> winner != NoWinner)
    }

    /** The initial state: empty board, Red to move, no winner. */
    constructor ()
      ensures Valid()
      ensures board == EmptyBoard() && next == Some(R) && winner == NoWinner
    {
      board := EmptyBoard();
      next := Some(R);
      winner := NoWinner;
      new;
      assert board[0] == Empty;
    }

    /** The local path of dropDisc: on a live game and an in-range column with
        room, the mover's disc goes into the lowest empty row of that column and
        nowhere else; then the winner is recomputed and the turn flips, or the
        game ends. A finished game, a bad column or a full column changes
        nothing. */
    method DropDisc(col: int)
      requires Valid()
      modifies this
      ensures Valid()
      ensures old(winner != NoWinner || col < 0 || col >= Width || ColumnFull(board, col)) ==>
                board == old(board) && next == old(next) && winner == old(winner)
      ensures old(winner == NoWinner && 0 <= col < Width && !ColumnFull(board, col)) ==>
                && (exists row :: IsLowestEmpty(old(board), col, row)
                                  && board == old(board)[col * 6 + row := Filled(old(next).value)])
                && IsLocalWinner(board, winner)
                && next == (if winner == NoWinner then Some(Flip(old(next).value)) else None)
    {
      if winner != NoWinner {
        return;
      }
      if col < 0 || col >= Width {
        return;
      }
      var cur := board;
      var placedRow, newBoard := DropIntoColumn(cur, col, next.value);
      if placedRow.None? {
        return;
      }
      GravityAfterDrop(cur, col, placedRow.value, next.value);
      var w := ComputeLocalWinner(newBoard);
      board := newBoard;
      next := if w != NoWinner then None else Some(Flip(next.value));
      winner := w;
    }

    /** The local path of handleReset: back to the initial state. */
    method Reset()
      modifies this
      ensures Valid()
      ensures board == EmptyBoard() && next == Some(R) && winner == NoWinner
    {
      board := EmptyBoard();
      next := Some(R);
      winner := NoWinner;
      assert board[0] == Empty;
    }
  }

  /** Filling the lowest empty row of a column keeps every column a bottom prefix. */
  lemma GravityAfterDrop(board: seq<Cell>, col: int, row: int, disc: Disc)
    requires |board| == CellCount && Gravity(board) && IsLowestEmpty(board, col, row)
    ensures Gravity(board[col * 6 + row := Filled(disc)])
  {
    var nb := board[col * 6 + row := Filled(disc)];
    forall c, r1, r2 | 0 <= c < Width && 0 <= r1 < r2 < Height && Get(nb, c, r2) != Empty
      ensures Get(nb, c, r1) != Empty
    {
      if c == col {
        if r2 == row {
          assert Get(nb, c, r1) == Get(board, c, r1);
        } else {
          assert Get(nb, c, r2) == Get(board, c, r2);
          assert r2 < row;
          assert Get(nb, c, r1) == Get(board, c, r1);
        }
      } else {
        assert Get(nb, c, r2) == Get(board, c, r2);
        assert Get(nb, c, r1) == Get(board, c, r1);
      }
    }
  }
}
