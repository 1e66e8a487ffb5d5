/**
 * The game of game.js as an object: the board is a 7×7 array written in
 * place, and every function of the source that reads or writes the globals
 * board, currentPlayer, moveHistory and gameOver is a method. Each method is
 * proved against the pure definitions of Lines, Rules and Policy; the ghost
 * field `cells` is the value of the board array.
 */
module Engine {
  import opened Board
  import opened Lines
  import opened Rules
  import opened Policy

  class Game {
    var board: array2<Cell>
    var currentPlayer: Player
    var moveHistory: seq<Move>
    var gameOver: bool
    /** gameMode === 'ai', read once from localStorage at load time (game.js:5). */
    const aiMode: bool
    /** The contents of `board`, row by row. */
    ghost var cells: Grid

    /** `cells` is exactly what the board array holds. */
    ghost predicate Mirrored()
      reads this, board
    {
      && board.Length0 == N && board.Length1 == N
      && WellFormed(cells)
      && forall i, j {:trigger board[i, j]} :: 0 <= i < N && 0 <= j < N ==> board[i, j] == cells[i][j]
    }

    /** The class invariant: the board mirrors `cells`, and the board agrees with moveHistory. */
    ghost predicate Valid()
      reads this, board
    {
      Mirrored() && Recorded(cells, moveHistory)
    }

    ghost function State(): Snapshot
      reads this
    {
      Snapshot(cells, currentPlayer, moveHistory, gameOver)
    }

    /** Script load (game.js:1-6): an empty board, 'X' to move, no history. */
    constructor(aiMode: bool)
      ensures Valid() && State() == Restart() && this.aiMode == aiMode
    {
      board := new Cell[N, N]((i, j) => Empty);
      currentPlayer := X;
      moveHistory := [];
      gameOver := false;
      this.aiMode := aiMode;
      cells := EmptyGrid();
    }

    /** The assignment `board[row][col] = v`, kept in step with `cells`. */
    method SetCell(row: int, col: int, v: Cell)
      requires Mirrored() && InBounds(row, col)
      modifies this`cells, board
      ensures Mirrored() && cells == Put(old(cells), row, col, v)
    {
      board[row, col] := v;
      cells := Put(cells, row, col, v);
    }

    /**
     * makeMove(row, col) (game.js:25-44). `scheduleAi` stands for the
     * `setTimeout(aiMove, 500)` the source issues after a move that hands the
     * turn to 'O' in single-player mode.
     */
    method MakeMove(row: int, col: int) returns (outcome: Outcome, scheduleAi: bool)
      requires Valid() && InBounds(row, col)
      modifies this, board
      ensures Valid() && board == old(board)
      ensures State() == Play(old(State()), row, col)
      ensures outcome == PlayOutcome(old(State()), row, col)
      ensures scheduleAi <==> outcome == Continued && aiMode && currentPlayer == O
    {
      scheduleAi := false;
      if board[row, col] == Empty && !gameOver {
        ghost var s := State();
        PlayKeepsValid(s, row, col);
        SetCell(row, col, Mark(currentPlayer));
        moveHistory := moveHistory + [Move(row, col, currentPlayer)];
        var won, line := CheckWin(row, col);
        assert won <==> Wins(Put(s.cells, row, col, Mark(s.player)), s.player, row, col);
        if won {
          gameOver := true;
          outcome := Won(line);
          return;
        }
        currentPlayer := Other(currentPlayer);
        outcome := Continued;
        scheduleAi := aiMode && currentPlayer == O;
      } else {
        outcome := Rejected;
      }
    }

    /**
     * One scan loop of checkWin and countInARow: the cells holding p at steps
     * 1, 2, ... up to 4 from (row, col) in direction d, stopping at the first
     * that is off the board or holds something else.
     */
    method Walk(p: Player, row: int, col: int, d: Dir) returns (k: int, ray: seq<Pos>)
      requires Mirrored()
      ensures k == Run(cells, p, row, col, d, 1)
      ensures ray == Ray(row, col, d, k)
    {
      k := 0;
      ray := [];
      var i := 1;
      while i < 5
        invariant 1 <= i <= Reach + 1 && k == i - 1
        invariant ray == Ray(row, col, d, k)
        invariant Run(cells, p, row, col, d, 1) == k + Run(cells, p, row, col, d, i)
      {
        var r, c := row + i * d.dr, col + i * d.dc;
        AtOffset(row, col, d, i);
        assert Pos(r, c) == At(row, col, d, i);
        if InBounds(r, c) && board[r, c] == Mark(p) {
          assert Holds(cells, p, Pos(r, c));
          assert Run(cells, p, row, col, d, i) == 1 + Run(cells, p, row, col, d, i + 1);
          assert Ray(row, col, d, i) == Ray(row, col, d, k) + [Pos(r, c)];
          k := k + 1;
          ray := ray + [Pos(r, c)];
        } else {
          assert !Holds(cells, p, Pos(r, c));
          assert Run(cells, p, row, col, d, i) == 0;
          break;
        }
        i := i + 1;
      }
    }

    /**
     * checkWin(row, col) (game.js:218-264): judged for currentPlayer, with
     * the line the source would highlight.
     */
    method CheckWin(row: int, col: int) returns (won: bool, line: seq<Pos>)
      requires Mirrored()
      ensures won <==> Wins(cells, currentPlayer, row, col)
      ensures won ==> line == WinCheck(cells, currentPlayer, row, col).value
      ensures !won ==> line == []
    {
      ghost var counts := AxisCounts(cells, currentPlayer, row, col);
      var a := 0;
      while a < |Axes|
        invariant 0 <= a <= |Axes|
        invariant FirstWin(counts, 0) == FirstWin(counts, a)
      {
        var d := Axes[a];
        var forward, ahead := Walk(currentPlayer, row, col, d);
        var backward, behind := Walk(currentPlayer, row, col, d.Reverse());
        var count := 1 + forward + backward;
        assert counts[a] == AxisCount(cells, currentPlayer, row, col, d) == count;
        if count >= WinLength {
          won, line := true, [Pos(row, col)] + ahead + behind;
          return;
        }
        a := a + 1;
      }
      won, line := false, [];
    }

    /** countInARow(player, row, col) (game.js:165-198). */
    method CountInARow(player: Player, row: int, col: int) returns (maxCount: int)
      requires Mirrored()
      ensures maxCount == Count(cells, player, row, col)
    {
      ghost var counts := AxisCounts(cells, player, row, col);
      maxCount := 0;
      var a := 0;
      while a < |Axes|
        invariant 0 <= a <= |Axes|
        invariant maxCount == MaxPrefix(counts, a)
      {
        var d := Axes[a];
        var forward, _ := Walk(player, row, col, d);
        var backward, _ := Walk(player, row, col, d.Reverse());
        assert counts[a] == AxisCount(cells, player, row, col, d) == 1 + forward + backward;
        assert MaxPrefix(counts, a + 1) == Max(MaxPrefix(counts, a), counts[a]);
        maxCount := Max(maxCount, 1 + forward + backward);
        a := a + 1;
      }
    }

    /** undoMove() (game.js:200-207). */
    method UndoMove()
      requires Valid()
      modifies this, board
      ensures Valid() && board == old(board)
      ensures State() == Undo(old(State()))
    {
      ghost var s := State();
      UndoKeepsValid(s);
      if |moveHistory| > 0 && !gameOver {
        var lastMove := moveHistory[|moveHistory| - 1];
        moveHistory := moveHistory[..|moveHistory| - 1];
        SetCell(lastMove.row, lastMove.col, Empty);
        currentPlayer := lastMove.player;
        assert State() == Undo(s);
      }
    }

    /** restartGame() (game.js:209-216): a fresh empty board. */
    method RestartGame()
      modifies this
      ensures Valid() && fresh(board)
      ensures State() == Restart()
    {
      board := new Cell[N, N]((i, j) => Empty);
      cells := EmptyGrid();
      currentPlayer := X;
      moveHistory := [];
      gameOver := false;
    }

    /**
     * The probe inside findWinningMove's loop (game.js:121-126): write
     * `player` on the empty cell, ask checkWin, clear the cell again.
     */
    method TryWinning(player: Player, row: int, col: int) returns (won: bool)
      requires Mirrored() && InBounds(row, col) && cells[row][col] == Empty
      modifies this`cells, board
      ensures Mirrored() && cells == old(cells)
      ensures won == Passes(cells, Winning(currentPlayer, player), row, col)
    {
      ghost var g := cells;
      SetCell(row, col, Mark(player));
      var line;
      won, line := CheckWin(row, col);
      SetCell(row, col, Empty);
      PutBack(g, row, col, Mark(player));
    }

    /**
     * findWinningMove(player) (game.js:117-131): tries each empty cell in
     * row-major order by writing `player` there, asking checkWin and clearing
     * the cell again.
     */
    method FindWinningMove(player: Player) returns (move: Option<Pos>)
      requires Mirrored()
      modifies this`cells, board
      ensures Mirrored() && cells == old(cells)
      ensures forall i, j :: 0 <= i < N && 0 <= j < N ==> board[i, j] == old(board[i, j])
      ensures move == Scan(cells, Winning(currentPlayer, player), 0, 0)
    {
      ghost var g := cells;
      ghost var probe := Winning(currentPlayer, player);
      var row := 0;
      while row < N
        invariant 0 <= row <= N
        invariant Mirrored() && cells == g
        invariant Scan(g, probe, 0, 0) == Scan(g, probe, row, 0)
      {
        var col := 0;
        while col < N
          invariant 0 <= col <= N
          invariant Mirrored() && cells == g
          invariant Scan(g, probe, 0, 0) == Scan(g, probe, row, col)
        {
          if board[row, col] == Empty {
            var won := TryWinning(player, row, col);
            if won {
              return Some(Pos(row, col));
            }
          }
          col := col + 1;
        }
        row := row + 1;
      }
      return None;
    }

    /**
     * The probe inside findBestOffensiveMove's loop (game.js:137-142): write
     * 'O' on the empty cell, ask countInARow('O', ...), clear the cell again.
     */
    method TryOffensive(row: int, col: int) returns (count: int)
      requires Mirrored() && InBounds(row, col) && cells[row][col] == Empty
      modifies this`cells, board
      ensures Mirrored() && cells == old(cells)
      ensures count == Count(Put(cells, row, col, Mark(O)), O, row, col)
    {
      ghost var g := cells;
      SetCell(row, col, Mark(O));
      count := CountInARow(O, row, col);
      SetCell(row, col, Empty);
      PutBack(g, row, col, Mark(O));
    }

    /**
     * findBestOffensiveMove() (game.js:133-147): tries each empty cell in
     * row-major order by writing 'O' there and asking countInARow('O', ...).
     */
    method FindBestOffensiveMove() returns (move: Option<Pos>)
      requires Mirrored()
      modifies this`cells, board
      ensures Mirrored() && cells == old(cells)
      ensures forall i, j :: 0 <= i < N && 0 <= j < N ==> board[i, j] == old(board[i, j])
      ensures move == Scan(cells, Offensive, 0, 0)
    {
      ghost var g := cells;
      var row := 0;
      while row < N
        invariant 0 <= row <= N
        invariant Mirrored() && cells == g
        invariant Scan(g, Offensive, 0, 0) == Scan(g, Offensive, row, 0)
      {
        var col := 0;
        while col < N
          invariant 0 <= col <= N
          invariant Mirrored() && cells == g
          invariant Scan(g, Offensive, 0, 0) == Scan(g, Offensive, row, col)
        {
          if board[row, col] == Empty {
            var count := TryOffensive(row, col);
            if count >= OffenseLength {
              return Some(Pos(row, col));
            }
          }
          col := col + 1;
        }
        row := row + 1;
      }
      return None;
    }

    /** findCenterMove() (game.js:82-103). */
    method FindCenterMove() returns (move: Option<Pos>)
      requires Mirrored()
      ensures move == CenterChoice(cells)
    {
      if board[Center, Center] == Empty {
        return Some(Pos(Center, Center));
      }
      var nearCenterMoves := NearCenter;
      var k := 0;
      while k < |nearCenterMoves|
        invariant 0 <= k <= |nearCenterMoves|
        invariant FirstVacant(cells, nearCenterMoves) == FirstVacant(cells, nearCenterMoves[k..])
      {
        var m := nearCenterMoves[k];
        assert nearCenterMoves[k..][0] == m && nearCenterMoves[k..][1..] == nearCenterMoves[k + 1..];
        if 0 <= m.row && 0 <= m.col && m.row < N && m.col < N && board[m.row, m.col] == Empty {
          assert Vacant(cells, m);
          return Some(m);
        }
        assert !Vacant(cells, m);
        k := k + 1;
      }
      return None;
    }

    /** findStrategicMove() (game.js:149-163). */
    method FindStrategicMove() returns (move: Option<Pos>)
      requires Mirrored()
      ensures move == StrategicChoice(cells)
    {
      if board[Center, Center] == Empty {
        return Some(Pos(Center, Center));
      }
      var row := 0;
      while row < N
        invariant 0 <= row <= N
        invariant Scan(cells, AnyEmpty, 0, 0) == Scan(cells, AnyEmpty, row, 0)
      {
        var col := 0;
        while col < N
          invariant 0 <= col <= N
          invariant Scan(cells, AnyEmpty, 0, 0) == Scan(cells, AnyEmpty, row, col)
        {
          if board[row, col] == Empty {
            return Some(Pos(row, col));
          }
          col := col + 1;
        }
        row := row + 1;
      }
      return None;
    }

    /**
     * makeAIMove(move) (game.js:105-115): writes 'O' without checking the
     * cell; the board/history invariant survives when the cell was empty.
     */
    method MakeAIMove(move: Pos) returns (outcome: Outcome)
      requires Valid() && InBounds(move.row, move.col)
      modifies this, board
      ensures Mirrored() && board == old(board)
      ensures State() == PlaceAI(old(State()), move)
      ensures outcome == PlaceOutcome(old(State()), move)
      ensures old(cells[move.row][move.col]) == Empty ==> Valid()
    {
      ghost var s := State();
      ghost var t := PlaceAI(s, move);
      if s.cells[move.row][move.col] == Empty {
        PlaceAIKeepsValid(s, move);
      }
      SetCell(move.row, move.col, Mark(O));
      assert cells == t.cells;
      moveHistory := moveHistory + [Move(move.row, move.col, O)];
      var won, line := CheckWin(move.row, move.col);
      assert won <==> Wins(t.cells, s.player, move.row, move.col);
      if won {
        gameOver := true;
        return Won(line);
      }
      currentPlayer := X;
      return Continued;
    }

    /**
     * Steps 1 to 5 of aiMove() (game.js:47-79): the finders in turn, each
     * consulted only while the earlier ones returned null. The probes leave
     * the board as they found it.
     */
    method ChooseMove() returns (chosen: Option<Pos>)
      requires Mirrored()
      modifies this`cells, board
      ensures Mirrored() && cells == old(cells)
      ensures forall i, j :: 0 <= i < N && 0 <= j < N ==> board[i, j] == old(board[i, j])
      ensures chosen == AiChoice(cells, currentPlayer)
    {
      chosen := FindWinningMove(O);
      if chosen.None? {
        chosen := FindWinningMove(X);
      }
      if chosen.None? {
        chosen := FindCenterMove();
      }
      if chosen.None? {
        chosen := FindBestOffensiveMove();
      }
      if chosen.None? {
        chosen := FindStrategicMove();
      }
    }

    /**
     * aiMove() (game.js:46-80): 'O' goes on the cell the finders choose;
     * when every finder returns null nothing is placed and `outcome` is
     * Rejected.
     */
    method AiMove() returns (chosen: Option<Pos>, outcome: Outcome)
      requires Valid()
      modifies this, board
      ensures Valid() && board == old(board)
      ensures chosen == AiChoice(old(cells), old(currentPlayer))
      ensures chosen.None? ==> State() == old(State()) && outcome == Rejected
      ensures chosen.Some? ==>
        State() == PlaceAI(old(State()), chosen.value) && outcome == PlaceOutcome(old(State()), chosen.value)
    {
      ghost var s := State();
      chosen := ChooseMove();
      assert State() == s && Valid();
      if chosen.Some? {
        AiChoiceSound(s.cells, s.player);
        assert s.cells[chosen.value.row][chosen.value.col] == Empty;
        outcome := MakeAIMove(chosen.value);
      } else {
        outcome := Rejected;
      }
    }
  }
}
