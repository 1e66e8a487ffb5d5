/**
 * The rules engine of game.js as transitions on the game state: a move
 * (makeMove, game.js:25-44), the opponent's placement (makeAIMove,
 * game.js:105-115), undo (undoMove, game.js:200-207) and restart
 * (restartGame, game.js:209-216), with the invariant that ties the board to
 * moveHistory.
 */
module Rules {
  import opened Board
  import opened Lines

  /** A moveHistory entry `{ row, col, player }` (game.js:28, 107). */
  datatype Move = Move(row: int, col: int, player: Player)

  /** The module-level state of game.js:2-6: board, currentPlayer, moveHistory and gameOver. */
  datatype Snapshot = Snapshot(cells: Grid, player: Player, history: seq<Move>, over: bool)

  /** What placing a mark reports: refused, placed, or placed and won with the line to highlight. */
  datatype Outcome = Rejected | Continued | Won(line: seq<Pos>)

  /** Every recorded move lies on the board. */
  predicate OnBoard(h: seq<Move>)
  {
    forall k :: 0 <= k < |h| ==> InBounds(h[k].row, h[k].col)
  }

  /**
   * The board/history invariant: every recorded move is on the board and its
   * cell holds the recorded player, no two recorded moves share a cell, and
   * every non-empty cell is the cell of some recorded move.
   */
  predicate Recorded(g: Grid, h: seq<Move>)
    requires WellFormed(g)
  {
    && (forall k :: 0 <= k < |h| ==>
          InBounds(h[k].row, h[k].col) && g[h[k].row][h[k].col] == Mark(h[k].player))
    && (forall k, l :: 0 <= k < l < |h| ==> h[k].row != h[l].row || h[k].col != h[l].col)
    && (forall i, j :: 0 <= i < N && 0 <= j < N && g[i][j] != Empty ==>
          exists k :: 0 <= k < |h| && h[k].row == i && h[k].col == j)
  }

  predicate ValidState(s: Snapshot)
  {
    WellFormed(s.cells) && Recorded(s.cells, s.history)
  }

  /** The board obtained by playing the moves of h, in order, on an empty board. */
  function Replay(h: seq<Move>): (g: Grid)
    requires OnBoard(h)
    ensures WellFormed(g)
    decreases |h|
  {
    if h == [] then EmptyGrid()
    else
      var m := h[|h| - 1];
      Put(Replay(h[..|h| - 1]), m.row, m.col, Mark(m.player))
  }

  /** The outcome checkWin gives for a mark just written at (row, col), judged for `judge`. */
  function Judge(g: Grid, judge: Player, row: int, col: int): (r: Outcome)
    requires WellFormed(g)
    ensures r != Rejected
  {
    match WinCheck(g, judge, row, col)
    case None => Continued
    case Some(line) => Won(line)
  }

  /** makeMove's guard `board[row][col] === '' && !gameOver` (game.js:26). */
  predicate Accepts(s: Snapshot, row: int, col: int)
    requires WellFormed(s.cells) && InBounds(row, col)
  {
    s.cells[row][col] == Empty && !s.over
  }

  /** makeMove(row, col) (game.js:25-44). */
  function Play(s: Snapshot, row: int, col: int): (t: Snapshot)
    requires WellFormed(s.cells) && InBounds(row, col)
    ensures WellFormed(t.cells)
    ensures !Accepts(s, row, col) ==> t == s
    ensures Accepts(s, row, col) ==>
      && t.cells[row][col] == Mark(s.player)
      && (forall i, j :: InBounds(i, j) && (i != row || j != col) ==> t.cells[i][j] == s.cells[i][j])
      && t.history == s.history + [Move(row, col, s.player)]
      && t.over == Wins(t.cells, s.player, row, col)
      && t.player == (if t.over then s.player else Other(s.player))
  {
    if !Accepts(s, row, col) then s
    else
      var g := Put(s.cells, row, col, Mark(s.player));
      var won := Wins(g, s.player, row, col);
      Snapshot(g, if won then s.player else Other(s.player), s.history + [Move(row, col, s.player)], won)
  }

  /** What makeMove reports: refused, or checkWin's verdict on the new board. */
  function PlayOutcome(s: Snapshot, row: int, col: int): (r: Outcome)
    requires WellFormed(s.cells) && InBounds(row, col)
    ensures r == Rejected <==> !Accepts(s, row, col)
    ensures r.Won? <==> Accepts(s, row, col) && Play(s, row, col).over
    ensures r.Won? ==> r.line == WinCheck(Play(s, row, col).cells, s.player, row, col).value
  {
    if !Accepts(s, row, col) then Rejected
    else Judge(Put(s.cells, row, col, Mark(s.player)), s.player, row, col)
  }

  /**
   * makeAIMove(move) (game.js:105-115): writes 'O' without looking at the
   * cell, records it, and judges the win for the current player; on no win
   * the turn goes to 'X' and gameOver is left as it was.
   */
  function PlaceAI(s: Snapshot, m: Pos): (t: Snapshot)
    requires WellFormed(s.cells) && InBounds(m.row, m.col)
    ensures WellFormed(t.cells)
    ensures t.cells[m.row][m.col] == Mark(O)
    ensures forall i, j :: InBounds(i, j) && (i != m.row || j != m.col) ==> t.cells[i][j] == s.cells[i][j]
    ensures t.history == s.history + [Move(m.row, m.col, O)]
    ensures Wins(t.cells, s.player, m.row, m.col) ==> t.over && t.player == s.player
    ensures !Wins(t.cells, s.player, m.row, m.col) ==> t.over == s.over && t.player == X
  {
    var g := Put(s.cells, m.row, m.col, Mark(O));
    var h := s.history + [Move(m.row, m.col, O)];
    if Wins(g, s.player, m.row, m.col) then Snapshot(g, s.player, h, true)
    else Snapshot(g, X, h, s.over)
  }

  /** What makeAIMove reports. */
  function PlaceOutcome(s: Snapshot, m: Pos): (r: Outcome)
    requires WellFormed(s.cells) && InBounds(m.row, m.col)
    ensures r != Rejected
    ensures r.Won? <==> Wins(PlaceAI(s, m).cells, s.player, m.row, m.col)
    ensures r.Won? ==> r.line == WinCheck(PlaceAI(s, m).cells, s.player, m.row, m.col).value
  {
    Judge(Put(s.cells, m.row, m.col, Mark(O)), s.player, m.row, m.col)
  }

  /** undoMove() (game.js:200-207). */
  function Undo(s: Snapshot): (t: Snapshot)
    requires WellFormed(s.cells) && OnBoard(s.history)
    ensures WellFormed(t.cells)
    ensures |s.history| == 0 || s.over ==> t == s
    ensures |s.history| > 0 && !s.over ==>
      var m := s.history[|s.history| - 1];
      && t.cells[m.row][m.col] == Empty
      && (forall i, j :: InBounds(i, j) && (i != m.row || j != m.col) ==> t.cells[i][j] == s.cells[i][j])
      && t.history == s.history[..|s.history| - 1]
      && t.player == m.player
      && !t.over
  {
    if |s.history| == 0 || s.over then s
    else
      var m := s.history[|s.history| - 1];
      Snapshot(Put(s.cells, m.row, m.col, Empty), m.player, s.history[..|s.history| - 1], s.over)
  }

  /** restartGame() (game.js:209-216), also the state at load time (game.js:2-6). */
  function Restart(): (t: Snapshot)
    ensures ValidState(t)
    ensures t.history == [] && t.player == X && !t.over
    ensures forall i, j :: InBounds(i, j) ==> t.cells[i][j] == Empty
  {
    Snapshot(EmptyGrid(), X, [], false)
  }

  /** Writing a mark on an empty cell and recording it keeps the invariant. */
  lemma PlaceKeepsRecorded(g: Grid, h: seq<Move>, m: Move)
    requires WellFormed(g) && Recorded(g, h) && InBounds(m.row, m.col) && g[m.row][m.col] == Empty
    ensures Recorded(Put(g, m.row, m.col, Mark(m.player)), h + [m])
  {
    var t := Put(g, m.row, m.col, Mark(m.player));
    var h' := h + [m];
    forall k | 0 <= k < |h|
      ensures h[k].row != m.row || h[k].col != m.col
    {
      assert g[h[k].row][h[k].col] != Empty;
    }
    forall k | 0 <= k < |h'|
      ensures InBounds(h'[k].row, h'[k].col) && t[h'[k].row][h'[k].col] == Mark(h'[k].player)
    {
      if k < |h| {
        assert h'[k] == h[k];
      }
    }
    forall i, j | 0 <= i < N && 0 <= j < N && t[i][j] != Empty
      ensures exists k :: 0 <= k < |h'| && h'[k].row == i && h'[k].col == j
    {
      if i == m.row && j == m.col {
        assert h'[|h|] == m;
      } else {
        assert InBounds(i, j) && g[i][j] != Empty;
        var k :| 0 <= k < |h| && h[k].row == i && h[k].col == j;
        assert h'[k] == h[k];
      }
    }
  }

  /** Clearing the cell of the last recorded move and dropping it keeps the invariant. */
  lemma DropLastKeepsRecorded(g: Grid, h: seq<Move>)
    requires WellFormed(g) && Recorded(g, h) && |h| > 0
    ensures InBounds(h[|h| - 1].row, h[|h| - 1].col)
    ensures Recorded(Put(g, h[|h| - 1].row, h[|h| - 1].col, Empty), h[..|h| - 1])
  {
    var m := h[|h| - 1];
    var t := Put(g, m.row, m.col, Empty);
    var h' := h[..|h| - 1];
    forall k | 0 <= k < |h'|
      ensures InBounds(h'[k].row, h'[k].col) && t[h'[k].row][h'[k].col] == Mark(h'[k].player)
    {
      assert h'[k] == h[k];
      assert h[k].row != m.row || h[k].col != m.col;
    }
    forall i, j | 0 <= i < N && 0 <= j < N && t[i][j] != Empty
      ensures exists k :: 0 <= k < |h'| && h'[k].row == i && h'[k].col == j
    {
      assert InBounds(i, j) && g[i][j] != Empty;
      var k :| 0 <= k < |h| && h[k].row == i && h[k].col == j;
      assert k != |h| - 1;
      assert h'[k] == h[k];
    }
  }

  /** makeMove keeps the board/history invariant. */
  lemma PlayKeepsValid(s: Snapshot, row: int, col: int)
    requires ValidState(s) && InBounds(row, col)
    ensures ValidState(Play(s, row, col))
  {
    if Accepts(s, row, col) {
      PlaceKeepsRecorded(s.cells, s.history, Move(row, col, s.player));
    }
  }

  /** makeAIMove keeps the board/history invariant when its target cell is empty. */
  lemma PlaceAIKeepsValid(s: Snapshot, m: Pos)
    requires ValidState(s) && InBounds(m.row, m.col) && s.cells[m.row][m.col] == Empty
    ensures ValidState(PlaceAI(s, m))
  {
    PlaceKeepsRecorded(s.cells, s.history, Move(m.row, m.col, O));
  }

  /** undoMove keeps the board/history invariant. */
  lemma UndoKeepsValid(s: Snapshot)
    requires ValidState(s)
    ensures OnBoard(s.history) && ValidState(Undo(s))
  {
    if |s.history| > 0 && !s.over {
      DropLastKeepsRecorded(s.cells, s.history);
    }
  }

  /** Undoing a move that did not end the game restores board, history and current player. */
  lemma UndoAfterPlay(s: Snapshot, row: int, col: int)
    requires ValidState(s) && InBounds(row, col) && Accepts(s, row, col)
    requires !Play(s, row, col).over
    ensures OnBoard(Play(s, row, col).history)
    ensures Undo(Play(s, row, col)) == s
  {
    PlayKeepsValid(s, row, col);
    var t := Play(s, row, col);
    assert t.history[..|t.history| - 1] == s.history;
    SameGrid(Undo(t).cells, s.cells);
  }

  /**
   * Replaying the move that undo took back rebuilds the board and the
   * history; the game then ends exactly when that move wins for its player,
   * and otherwise the turn passes to the other player.
   */
  lemma RedoAfterUndo(s: Snapshot)
    requires ValidState(s) && |s.history| > 0 && !s.over
    ensures var m := s.history[|s.history| - 1];
      InBounds(m.row, m.col) && OnBoard(s.history) &&
      Play(Undo(s), m.row, m.col).cells == s.cells &&
      Play(Undo(s), m.row, m.col).history == s.history &&
      Play(Undo(s), m.row, m.col).over == Wins(s.cells, m.player, m.row, m.col) &&
      Play(Undo(s), m.row, m.col).player ==
        (if Wins(s.cells, m.player, m.row, m.col) then m.player else Other(m.player))
  {
    var m := s.history[|s.history| - 1];
    assert InBounds(m.row, m.col) && s.cells[m.row][m.col] == Mark(m.player);
    var u := Undo(s);
    assert u.cells == Put(s.cells, m.row, m.col, Empty) && u.player == m.player;
    assert u.history + [m] == s.history;
    PlaceBack(u, m);
    PutBack(s.cells, m.row, m.col, Empty);
  }

  /**
   * The redo step of RedoAfterUndo: an accepted move on an empty cell writes
   * the mover's mark there and appends exactly that move.
   */
  lemma PlaceBack(u: Snapshot, m: Move)
    requires WellFormed(u.cells) && InBounds(m.row, m.col) && u.cells[m.row][m.col] == Empty
    requires !u.over && u.player == m.player
    ensures Play(u, m.row, m.col).cells == Put(u.cells, m.row, m.col, Mark(m.player))
    ensures Play(u, m.row, m.col).history == u.history + [m]
  {
  }

  /**
   * When the last move handed the turn on and did not win, undoing it and
   * playing it again gives back the whole state, current player included.
   */
  lemma RedoRestoresState(s: Snapshot)
    requires ValidState(s) && |s.history| > 0 && !s.over
    requires var m := s.history[|s.history| - 1];
      s.player == Other(m.player) && !Wins(s.cells, m.player, m.row, m.col)
    ensures var m := s.history[|s.history| - 1];
      InBounds(m.row, m.col) && OnBoard(s.history) && Play(Undo(s), m.row, m.col) == s
  {
    RedoAfterUndo(s);
  }

  /** The board is exactly what replaying moveHistory on an empty board produces. */
  lemma {:induction false} ReplayReproduces(g: Grid, h: seq<Move>)
    requires WellFormed(g) && Recorded(g, h)
    ensures OnBoard(h) && g == Replay(h)
    decreases |h|
  {
    if h == [] {
      forall i, j | InBounds(i, j)
        ensures g[i][j] == EmptyGrid()[i][j]
      {
      }
      SameGrid(g, EmptyGrid());
    } else {
      var m := h[|h| - 1];
      var u := Put(g, m.row, m.col, Empty);
      DropLastKeepsRecorded(g, h);
      ReplayReproduces(u, h[..|h| - 1]);
      SameGrid(g, Put(u, m.row, m.col, Mark(m.player)));
    }
  }
}
