/**
 * The playing field of game.js: a fixed 7×7 grid whose cells are empty or
 * hold one of the two marks (game.js:1-2). The source stores a cell as the
 * string '', 'X' or 'O'; here that is the datatype Cell.
 */
module Board {
  /** gridSize (game.js:1). */
  const N: int := 7
  /** Math.floor(gridSize / 2), the centre row and column (game.js:83, 150). */
  const Center: int := N / 2

  /** A finder's answer: a {row, col} object or null. */
  datatype Option<T> = None | Some(value: T)

  datatype Player = X | O
  datatype Cell = Empty | Mark(player: Player)

  /** A {row, col} coordinate pair. */
  datatype Pos = Pos(row: int, col: int)

  /** A board snapshot, indexed g[row][col]. */
  type Grid = seq<seq<Cell>>

  /** The turn toggle `currentPlayer === 'X' ? 'O' : 'X'` (game.js:36). */
  function Other(p: Player): (q: Player)
    ensures q != p
  {
    if p == X then O else X
  }

  /** The `inBounds` helper of game.js:173 and 226. */
  predicate InBounds(row: int, col: int)
  {
    0 <= row < N && 0 <= col < N
  }

  predicate WellFormed(g: Grid)
  {
    |g| == N && forall i :: 0 <= i < N ==> |g[i]| == N
  }

  /** A cell that is on the board and empty. */
  predicate Vacant(g: Grid, q: Pos)
    requires WellFormed(g)
  {
    InBounds(q.row, q.col) && g[q.row][q.col] == Empty
  }

  predicate Full(g: Grid)
    requires WellFormed(g)
  {
    forall i, j :: 0 <= i < N && 0 <= j < N ==> g[i][j] != Empty
  }

  /** `Array(gridSize).fill().map(() => Array(gridSize).fill(''))` (game.js:2, 210). */
  function EmptyGrid(): (g: Grid)
    ensures WellFormed(g)
    ensures forall i, j :: InBounds(i, j) ==> g[i][j] == Empty
  {
    seq(N, _ => seq(N, _ => Empty))
  }

  /** The cell assignment `board[row][col] = v`. */
  function Put(g: Grid, row: int, col: int, v: Cell): (t: Grid)
    requires WellFormed(g) && InBounds(row, col)
    ensures WellFormed(t)
    ensures t[row][col] == v
    ensures forall i, j :: InBounds(i, j) && (i != row || j != col) ==> t[i][j] == g[i][j]
  {
    g[row := g[row][col := v]]
  }

  /** Two boards that agree on every cell are the same board. */
  lemma SameGrid(g: Grid, t: Grid)
    requires WellFormed(g) && WellFormed(t)
    requires forall i, j :: InBounds(i, j) ==> g[i][j] == t[i][j]
    ensures g == t
  {
    forall i | 0 <= i < N
      ensures g[i] == t[i]
    {
      forall j | 0 <= j < N
        ensures g[i][j] == t[i][j]
      {
        assert InBounds(i, j);
      }
    }
  }

  /** Writing a cell back to the value it had restores the board. */
  lemma PutBack(g: Grid, row: int, col: int, v: Cell)
    requires WellFormed(g) && InBounds(row, col)
    ensures Put(Put(g, row, col, v), row, col, g[row][col]) == g
  {
    SameGrid(Put(Put(g, row, col, v), row, col, g[row][col]), g);
  }
}
