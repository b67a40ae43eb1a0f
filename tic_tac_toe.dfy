/**
  The local (non-networked) Tic-Tac-Toe engine of the TicTacToeBoard widget:
  the winner scan over the eight fixed lines, the highlighted winning line,
  the local move and the reset.
*/
module TicTacToe {
  import opened Options

  datatype Mark = X | O
  datatype Cell = Empty | Marked(mark: Mark)
  /** `winner: "X" | "O" | "draw" | null` */
  datatype Winner = NoWinner | Win(mark: Mark) | Draw

  const Size := 9

  /** A cell index of the 3x3 board, row-major. */
  type Index = i: int | 0 <= i < 9

  /** The eight winning triples: three rows, three columns, two diagonals, in scan order. */
  const Lines: seq<(Index, Index, Index)> :=
    [(0, 1, 2), (3, 4, 5), (6, 7, 8), (0, 3, 6), (1, 4, 7), (2, 5, 8), (0, 4, 8), (2, 4, 6)]

  function EmptyBoard(): (b: seq<Cell>)
    ensures |b| == Size && !Full(b)
  {
    var b := seq(Size, _ => Empty);
    assert b[0] == Empty;
    b
  }

  /** The other mark: the two marks alternate. */
  function Other(m: Mark): (r: Mark)
    ensures r != m
  {
    if m == X then O else X
  }

  /** Line i holds three equal non-empty cells. */
  predicate LineComplete(board: seq<Cell>, i: int)
    requires |board| == Size && 0 <= i < |Lines|
  {
    var (a, b, c) := Lines[i];
    board[a] != Empty && board[a] == board[b] && board[a] == board[c]
  }

  /** Line i holds three cells all marked m. */
  predicate LineOf(board: seq<Cell>, i: int, m: Mark)
    requires |board| == Size && 0 <= i < |Lines|
  {
    var (a, b, c) := Lines[i];
    board[a] == Marked(m) && board[b] == Marked(m) && board[c] == Marked(m)
  }

  predicate Full(board: seq<Cell>) {
    forall k :: 0 <= k < |board| ==> board[k] != Empty
  }

  ghost predicate NoCompleteLine(board: seq<Cell>)
    requires |board| == Size
  {
    forall i :: 0 <= i < |Lines| ==> !LineComplete(board, i)
  }

  /** Line i is the first complete line in scan order: it decides the game. */
  ghost predicate DecidingLine(board: seq<Cell>, i: int)
    requires |board| == Size
  {
    0 <= i < |Lines| && LineComplete(board, i)
    && forall j :: 0 <= j < i ==> !LineComplete(board, j)
  }

  /** The outcome the rules assign to a board: the mark of the first complete
      line, else a draw on a full board, else no result yet. */
  ghost predicate IsResult(board: seq<Cell>, w: Winner)
    requires |board| == Size
  {
    match w
    case Win(m) => exists i :: DecidingLine(board, i) && board[Lines[i].0] == Marked(m)
    case Draw => NoCompleteLine(board) && Full(board)
    case NoWinner => NoCompleteLine(board) && !Full(board)
  }

  /** At most one outcome fits a board: exactly one of no result, X, O, draw holds. */
  lemma ResultUnique(board: seq<Cell>, w1: Winner, w2: Winner)
    requires |board| == Size
    requires IsResult(board, w1) && IsResult(board, w2)
    ensures w1 == w2
  {
    if w1.Win? {
      var i1 :| DecidingLine(board, i1) && board[Lines[i1].0] == Marked(w1.mark);
      assert LineComplete(board, i1);
    }
    if w2.Win? {
      var i2 :| DecidingLine(board, i2) && board[Lines[i2].0] == Marked(w2.mark);
      assert LineComplete(board, i2);
    }
  }

  /** computeWinner: the first complete line wins, then a full board is a draw. */
  method ComputeWinner(board: seq<Cell>) returns (w: Winner)
    requires |board| == Size
    ensures IsResult(board, w)
  {
    for i := 0 to |Lines|
      invariant forall j :: 0 <= j < i ==> !LineComplete(board, j)
    {
      var (a, b, c) := Lines[i];
      if board[a] != Empty && board[a] == board[b] && board[a] == board[c] {
        assert DecidingLine(board, i);
        return Win(board[a].mark);
      }
    }
    if Full(board) {
      return Draw;
    }
    return NoWinner;
  }

  /** The `winningLine` memo: the first line whose three cells all hold the
      winner's mark; none when the winner is not X or O. */
  method WinningLine(board: seq<Cell>, winner: Winner) returns (line: Option<(Index, Index, Index)>)
    requires |board| == Size
    ensures !winner.Win? ==> line == None
    ensures line.Some? ==> exists i :: 0 <= i < |Lines| && Lines[i] == line.value && LineOf(board, i, winner.mark)
                                       && forall j :: 0 <= j < i ==> !LineOf(board, j, winner.mark)
    ensures winner.Win? && line.None? ==> forall i :: 0 <= i < |Lines| ==> !LineOf(board, i, winner.mark)
    ensures IsResult(board, winner) && winner.Win? ==>
              exists i :: DecidingLine(board, i) && line == Some(Lines[i])
  {
    if !winner.Win? {
      return None;
    }
    var m := winner.mark;
    for i := 0 to |Lines|
      invariant forall j :: 0 <= j < i ==> !LineOf(board, j, m)
    {
      var (a, b, c) := Lines[i];
      if board[a] == Marked(m) && board[b] == Marked(m) && board[c] == Marked(m) {
        assert LineOf(board, i, m);
        if IsResult(board, winner) {
          var k :| DecidingLine(board, k) && board[Lines[k].0] == Marked(m);
          assert LineOf(board, k, m);
          assert LineComplete(board, i);
          assert k == i;
        }
        return Some((a, b, c));
      }
    }
    if IsResult(board, winner) {
      var k :| DecidingLine(board, k) && board[Lines[k].0] == Marked(m);
      assert LineOf(board, k, m);
    }
    return None;
  }

  /** Number of cells holding mark m. */
  function Count(board: seq<Cell>, m: Mark): (n: nat)
    ensures n <= |board|
  {
    if board == [] then 0
    else (if board[0] == Marked(m) then 1 else 0) + Count(board[1..], m)
  }

  /** Marking one empty cell adds exactly one to that mark's count and leaves the other's. */
  lemma {:induction false} CountUpdate(board: seq<Cell>, k: int, m: Mark, n: Mark)
    requires 0 <= k < |board| && board[k] == Empty
    ensures Count(board[k := Marked(m)], n) == Count(board, n) + (if n == m then 1 else 0)
  {
    if k > 0 {
      CountUpdate(board[1..], k - 1, m, n);
      assert board[k := Marked(m)][1..] == board[1..][k - 1 := Marked(m)];
    } else {
      assert board[k := Marked(m)][1..] == board[1..];
    }
  }

  /** A board with no mark has count zero for both marks. */
  lemma {:induction false} CountEmpty(board: seq<Cell>, n: Mark)
    requires forall k :: 0 <= k < |board| ==> board[k] == Empty
    ensures Count(board, n) == 0
  {
    if board != [] {
      CountEmpty(board[1..], n);
    }
  }

  /** The widget's state object `{ board, next, winner }` in local play. */
  class Game {
    var board: seq<Cell>
    var next: Option<Mark>
    var winner: Winner

    /** The winner is the rules' outcome of the board, a finished game has no
        next mover, and X (who starts) is never behind O and never two ahead. */
    ghost predicate Valid()
      reads this
    {
      && |board| == Size
      && IsResult(board, winner)
      && (next.None? <==> winner != NoWinner)
      && 0 <= Count(board, X) - Count(board, O) <= 1
      && (next == Some(X) ==> Count(board, X) == Count(board, O))
      && (next == Some(O) ==> Count(board, X) == Count(board, O) + 1)
    }

    /** The initial state: empty board, X to move, no winner. */
    constructor ()
      ensures Valid()
      ensures board == EmptyBoard() && next == Some(X) && winner == NoWinner
    {
      board := EmptyBoard();
      next := Some(X);
      winner := NoWinner;
      new;
      CountEmpty(board, X);
      CountEmpty(board, O);
      assert board[0] == Empty;
    }

    /** The local path of makeMove: on a live game and an empty cell, write the
        mover's mark into exactly that cell, then recompute the winner and either
        hand the turn over or end the game. Anything else is ignored. */
    method MakeMove(index: int)
      requires Valid()
      requires 0 <= index < Size
      modifies this
      ensures Valid()
      ensures old(winner != NoWinner || board[index] != Empty || next.None?) ==>
                board == old(board) && next == old(next) && winner == old(winner)
      ensures old(winner == NoWinner && board[index] == Empty && next.Some?) ==>
                && board == old(board)[index := Marked(old(next).value)]
                && IsResult(board, winner)
                && next == (if winner == NoWinner then Some(Other(old(next).value)) else None)
    {
      if winner != NoWinner {
        return;
      }
      if board[index] != Empty || next.None? {
        return;
      }
      var mover := next.value;
      var copy := board[index := Marked(mover)];
      var w := ComputeWinner(copy);
      CountUpdate(board, index, mover, X);
      CountUpdate(board, index, mover, O);
      board := copy;
      next := if w != NoWinner then None else Some(Other(mover));
      winner := w;
    }

    /** The local path of handleReset: back to the initial state. */
    method Reset()
      modifies this
      ensures Valid()
      ensures board == EmptyBoard() && next == Some(X) && winner == NoWinner
    {
      board := EmptyBoard();
      next := Some(X);
      winner := NoWinner;
      CountEmpty(board, X);
      CountEmpty(board, O);
      assert board[0] == Empty;
    }
  }
}
