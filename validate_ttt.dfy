// Validators for the arguments of the tic-tac-toe assignment. A board is a
// list of rows of cells; a cell holding "X" or "O" is a mark, any other
// cell is ignored. The board's own `check_win` is outside this model: the
// validators that consult it take the truth value of its answer as input.
module ValidateTtt {

  type Board = seq<seq<string>>

  /** The number of cells equal to `mark` in one row. */
  function CountInRow(row: seq<string>, mark: string): (n: nat)
    ensures n <= |row|
  {
    if row == [] then 0
    else CountInRow(row[..|row| - 1], mark) + (if row[|row| - 1] == mark then 1 else 0)
  }

  /** The number of cells equal to `mark` on the board, row by row. */
  function CountMarks(board: Board, mark: string): nat
  {
    if board == [] then 0
    else CountMarks(board[..|board| - 1], mark) + CountInRow(board[|board| - 1], mark)
  }

  /** The proportions validate_board accepts: as many Xs as Os, or one X more. */
  predicate ValidCounts(xs: int, os: int) {
    xs == os || xs == os + 1
  }

  /** validate_board: counts the Xs and Os over every row, then checks the proportions. */
  method ValidateBoard(board: Board) returns (ok: bool, numXs: nat, numOs: nat)
    ensures numXs == CountMarks(board, "X") && numOs == CountMarks(board, "O")
    ensures ok <==> ValidCounts(numXs, numOs)
  {
    numXs := 0;
    numOs := 0;
    for i := 0 to |board|
      invariant numXs == CountMarks(board[..i], "X") && numOs == CountMarks(board[..i], "O")
    {
      var row := board[i];
      ghost var xs0, os0 := numXs, numOs;
      for j := 0 to |row|
        invariant numXs == xs0 + CountInRow(row[..j], "X")
        invariant numOs == os0 + CountInRow(row[..j], "O")
      {
        assert row[..j + 1][..j] == row[..j];
        if row[j] == "X" {
          numXs := numXs + 1;
        } else if row[j] == "O" {
          numOs := numOs + 1;
        }
      }
      assert row[..|row|] == row;
      assert board[..i + 1][..i] == board[..i];
    }
    assert board[..|board|] == board;
    ok := numXs == numOs || numXs == numOs + 1;
  }

  /** The player whose turn it is on a board with these counts, if the counts allow one. */
  predicate PlayerToMove(xs: int, os: int, player: string) {
    (os == xs && player == "X") || (xs == os + 1 && player == "O")
  }

  /** validate_mm_move: a valid board and the player whose turn it is. */
  method ValidateMmMove(board: Board, player: string) returns (ok: bool)
    ensures ok <==> ValidCounts(CountMarks(board, "X"), CountMarks(board, "O"))
                    && PlayerToMove(CountMarks(board, "X"), CountMarks(board, "O"), player)
  {
    var xs, os;
    ok, xs, os := ValidateBoard(board);
    if ok {
      ok := (os == xs && player == "X") || (xs == os + 1 && player == "O");
    }
  }

  /** validate_mc_update_scores: a valid board on which the game is over. */
  method ValidateMcUpdateScores(board: Board, gameOver: bool) returns (ok: bool)
    ensures ok <==> ValidCounts(CountMarks(board, "X"), CountMarks(board, "O")) && gameOver
  {
    var xs, os;
    ok, xs, os := ValidateBoard(board);
    if ok {
      ok := gameOver;
    }
  }

  /** validate_get_best_move: a valid board on which the game is still going. */
  method ValidateGetBestMove(board: Board, gameOver: bool) returns (ok: bool)
    ensures ok <==> ValidCounts(CountMarks(board, "X"), CountMarks(board, "O")) && !gameOver
  {
    var xs, os;
    ok, xs, os := ValidateBoard(board);
    if ok {
      ok := !gameOver;
    }
  }

  /** Exactly one player may move on a valid board, and neither on an invalid one. */
  lemma PlayerToMoveUnique(xs: int, os: int)
    ensures ValidCounts(xs, os) <==> (PlayerToMove(xs, os, "X") || PlayerToMove(xs, os, "O"))
    ensures !(PlayerToMove(xs, os, "X") && PlayerToMove(xs, os, "O"))
  {
  }

  /** Marks in different rows add up: counting is additive over concatenated boards. */
  lemma {:induction false} CountMarksAppend(a: Board, b: Board, mark: string)
    ensures CountMarks(a + b, mark) == CountMarks(a, mark) + CountMarks(b, mark)
    decreases |b|
  {
    if b == [] {
      assert a + b == a;
    } else {
      var b' := b[..|b| - 1];
      assert (a + b)[..|a + b| - 1] == a + b';
      CountMarksAppend(a, b', mark);
    }
  }

  /** Every counted mark is a cell: X and O together never exceed the board's cells. */
  lemma {:induction false} CountInRowMarks(row: seq<string>)
    ensures CountInRow(row, "X") + CountInRow(row, "O") <= |row|
  {
    if row != [] {
      CountInRowMarks(row[..|row| - 1]);
    }
  }

  /** Cells other than "X" and "O" do not change the counts. */
  lemma {:induction false} CountInRowIgnores(row: seq<string>, cell: string, mark: string)
    requires cell != mark
    ensures CountInRow(row + [cell], mark) == CountInRow(row, mark)
  {
    assert (row + [cell])[..|row|] == row;
  }

  /**
   * On a valid board exactly one of validate_mc_update_scores and
   * validate_get_best_move accepts, whatever the game state; on an invalid
   * board neither does.
   */
  method BoardPhases(board: Board, gameOver: bool) returns (updateOk: bool, bestMoveOk: bool)
    ensures ValidCounts(CountMarks(board, "X"), CountMarks(board, "O")) ==> updateOk != bestMoveOk
    ensures !ValidCounts(CountMarks(board, "X"), CountMarks(board, "O")) ==> !updateOk && !bestMoveOk
  {
    updateOk := ValidateMcUpdateScores(board, gameOver);
    bestMoveOk := ValidateGetBestMove(board, gameOver);
  }
}
