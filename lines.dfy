/**
 * Run counting along the four axes through a cell, shared by countInARow
 * (game.js:165-198) and checkWin (game.js:218-264). Each scan starts with a
 * count of 1 for the cell itself, which it never reads, then looks up to four
 * steps forward and up to four steps backward, stopping at the first cell that
 * is off the board or does not hold the player's mark.
 */
module Lines {
  import opened Board

  /** The scans run `for (let i = 1; i < 5; i++)`: at most four steps each way. */
  const Reach: int := 4
  /** checkWin's threshold `count >= 5` (game.js:257). */
  const WinLength: int := 5

  /**
   * A direction {x, y} of the source as a step (dr, dc) on (row, col): the
   * forward scan visits (row + i*y, col + i*x), the backward one
   * (row - i*y, col - i*x).
   */
  datatype Dir = Dir(dr: int, dc: int) {
    function Reverse(): Dir { Dir(-dr, -dc) }
  }

  /** horizontal, vertical, diagonal ↘, diagonal ↗, in the source's order (game.js:166-171, 219-224). */
  const Axes: seq<Dir> := [Dir(0, 1), Dir(1, 0), Dir(1, 1), Dir(-1, 1)]

  /** A unit step: each component is -1, 0 or 1 and not both are 0. */
  predicate Unit(d: Dir)
  {
    (d.dr == -1 || d.dr == 0 || d.dr == 1) &&
    (d.dc == -1 || d.dc == 0 || d.dc == 1) &&
    (d.dr != 0 || d.dc != 0)
  }

  /** The neighbour of q one step along d. */
  function Next(q: Pos, d: Dir): Pos
  {
    Pos(q.row + d.dr, q.col + d.dc)
  }

  /** The cell j steps from (row, col) along d, taken one step at a time. */
  function At(row: int, col: int, d: Dir, j: nat): Pos
  {
    if j == 0 then Pos(row, col) else Next(At(row, col, d, j - 1), d)
  }

  /** j steps along d move j * dr rows and j * dc columns: the coordinates the source computes. */
  lemma {:induction false} AtOffset(row: int, col: int, d: Dir, j: nat)
    ensures At(row, col, d, j) == Pos(row + j * d.dr, col + j * d.dc)
  {
    if j > 0 {
      AtOffset(row, col, d, j - 1);
      assert (j - 1) * d.dr + d.dr == j * d.dr && (j - 1) * d.dc + d.dc == j * d.dc;
    }
  }

  /** The test `inBounds(r, c) && board[r][c] === player`. */
  predicate Holds(g: Grid, p: Player, q: Pos)
    requires WellFormed(g)
  {
    InBounds(q.row, q.col) && g[q.row][q.col] == Mark(p)
  }

  /**
   * The cells one scan loop counts from step i on: the steps i, i+1, ... up
   * to Reach that all hold p, stopping at the first that does not.
   */
  function Run(g: Grid, p: Player, row: int, col: int, d: Dir, i: int): (k: int)
    requires WellFormed(g) && 1 <= i <= Reach + 1
    ensures 0 <= k <= Reach + 1 - i
    decreases Reach + 1 - i
  {
    if i <= Reach && Holds(g, p, At(row, col, d, i)) then 1 + Run(g, p, row, col, d, i + 1) else 0
  }

  /** A run from step i covers steps that all hold p and stops at the first that does not. */
  lemma {:induction false} RunHolds(g: Grid, p: Player, row: int, col: int, d: Dir, i: int)
    requires WellFormed(g) && 1 <= i <= Reach + 1
    ensures forall j :: i <= j < i + Run(g, p, row, col, d, i) ==> Holds(g, p, At(row, col, d, j))
    ensures i + Run(g, p, row, col, d, i) <= Reach ==> !Holds(g, p, At(row, col, d, i + Run(g, p, row, col, d, i)))
    decreases Reach + 1 - i
  {
    if i <= Reach && Holds(g, p, At(row, col, d, i)) {
      RunHolds(g, p, row, col, d, i + 1);
    }
  }

  /** The cells steps 1..k away from (row, col) in direction d, nearest first. */
  function Ray(row: int, col: int, d: Dir, k: nat): seq<Pos>
  {
    seq(k, j requires 0 <= j => At(row, col, d, j + 1))
  }

  /** The `count` one direction of the outer loop ends with. */
  function AxisCount(g: Grid, p: Player, row: int, col: int, d: Dir): (n: int)
    requires WellFormed(g)
    ensures 1 <= n <= 2 * Reach + 1
  {
    1 + Run(g, p, row, col, d, 1) + Run(g, p, row, col, d.Reverse(), 1)
  }

  /** The `line` checkWin builds for one direction: the cell, then the forward cells, then the backward cells. */
  function AxisLine(g: Grid, p: Player, row: int, col: int, d: Dir): seq<Pos>
    requires WellFormed(g)
  {
    [Pos(row, col)] + Ray(row, col, d, Run(g, p, row, col, d, 1))
      + Ray(row, col, d.Reverse(), Run(g, p, row, col, d.Reverse(), 1))
  }

  /** The count of each direction, in the source's order. */
  function AxisCounts(g: Grid, p: Player, row: int, col: int): (cs: seq<int>)
    requires WellFormed(g)
    ensures |cs| == |Axes|
    ensures forall a :: 0 <= a < |Axes| ==> cs[a] == AxisCount(g, p, row, col, Axes[a])
  {
    seq(|Axes|, a requires 0 <= a < |Axes| => AxisCount(g, p, row, col, Axes[a]))
  }

  /** `Math.max` (game.js:195). */
  function Max(a: int, b: int): int
  {
    if a < b then b else a
  }

  /** countInARow's `maxCount` after the first k directions, whose counts are cs[..k]. */
  function MaxPrefix(cs: seq<int>, k: int): int
    requires 0 <= k <= |cs|
  {
    if k == 0 then 0 else Max(MaxPrefix(cs, k - 1), cs[k - 1])
  }

  /** maxCount is the largest of the counts seen so far, and one of them. */
  lemma {:induction false} MaxPrefixIsMax(cs: seq<int>, k: int)
    requires 0 <= k <= |cs| && forall a :: 0 <= a < |cs| ==> cs[a] >= 0
    ensures forall a :: 0 <= a < k ==> cs[a] <= MaxPrefix(cs, k)
    ensures k > 0 ==> exists a :: 0 <= a < k && cs[a] == MaxPrefix(cs, k)
  {
    if k > 0 {
      MaxPrefixIsMax(cs, k - 1);
      if k > 1 && MaxPrefix(cs, k - 1) >= cs[k - 1] {
        var a :| 0 <= a < k - 1 && cs[a] == MaxPrefix(cs, k - 1);
        assert cs[a] == MaxPrefix(cs, k);
      } else {
        assert cs[k - 1] == MaxPrefix(cs, k);
      }
    }
  }

  /** countInARow(p, row, col): the longest run through the cell over the four axes. */
  function Count(g: Grid, p: Player, row: int, col: int): (n: int)
    requires WellFormed(g)
    ensures 1 <= n <= 2 * Reach + 1
  {
    var cs := AxisCounts(g, p, row, col);
    MaxPrefixIsMax(cs, |cs|);
    MaxPrefix(cs, |cs|)
  }

  /** countInARow is the count of the best direction: no direction beats it, and one reaches it. */
  lemma CountIsMax(g: Grid, p: Player, row: int, col: int)
    requires WellFormed(g)
    ensures forall a :: 0 <= a < |Axes| ==> AxisCount(g, p, row, col, Axes[a]) <= Count(g, p, row, col)
    ensures exists a :: 0 <= a < |Axes| && AxisCount(g, p, row, col, Axes[a]) == Count(g, p, row, col)
  {
    var cs := AxisCounts(g, p, row, col);
    MaxPrefixIsMax(cs, |cs|);
    var a :| 0 <= a < |cs| && cs[a] == MaxPrefix(cs, |cs|);
    assert AxisCount(g, p, row, col, Axes[a]) == Count(g, p, row, col);
  }

  /** checkWin's outer loop from direction a on: the first direction whose count cs[a] reaches 5, if any. */
  function FirstWin(cs: seq<int>, a: int): (r: Option<int>)
    requires 0 <= a <= |cs|
    ensures r.Some? ==> a <= r.value < |cs| && cs[r.value] >= WinLength
    ensures forall b :: a <= b < |cs| && (r.None? || b < r.value) ==> cs[b] < WinLength
    decreases |cs| - a
  {
    if a == |cs| then None
    else if cs[a] >= WinLength then Some(a)
    else FirstWin(cs, a + 1)
  }

  /**
   * checkWin(row, col) judged for the mark p (the source always passes the
   * global currentPlayer): None for false, Some(line) for true with the line
   * that would be highlighted.
   */
  function WinCheck(g: Grid, p: Player, row: int, col: int): (r: Option<seq<Pos>>)
    requires WellFormed(g)
    ensures r.Some? <==> Wins(g, p, row, col)
  {
    match FirstWin(AxisCounts(g, p, row, col), 0)
    case None => None
    case Some(a) => Some(AxisLine(g, p, row, col, Axes[a]))
  }

  /** checkWin's boolean answer: some direction's count reaches 5. */
  predicate Wins(g: Grid, p: Player, row: int, col: int)
    requires WellFormed(g)
  {
    FirstWin(AxisCounts(g, p, row, col), 0).Some?
  }

  /** q lies on the axis d through (row, col), at most Reach steps away in either direction. */
  predicate OnAxis(d: Dir, row: int, col: int, q: Pos)
  {
    exists j: nat :: j <= Reach && (q == At(row, col, d, j) || q == At(row, col, d.Reverse(), j))
  }

  /** checkWin is true exactly when countInARow for the same mark reaches 5. */
  lemma WinsIffCount(g: Grid, p: Player, row: int, col: int)
    requires WellFormed(g)
    ensures Wins(g, p, row, col) <==> Count(g, p, row, col) >= WinLength
  {
    var cs := AxisCounts(g, p, row, col);
    MaxPrefixIsMax(cs, |cs|);
    if FirstWin(cs, 0).None? {
      var a :| 0 <= a < |cs| && cs[a] == MaxPrefix(cs, |cs|);
    }
  }

  /** A step of one or more along a unit direction leaves the cell. */
  lemma StepLeaves(row: int, col: int, d: Dir, i: int)
    requires Unit(d) && i >= 1
    ensures At(row, col, d, i) != Pos(row, col)
  {
    AtOffset(row, col, d, i);
    if d.dr != 0 {
      assert i * d.dr == i || i * d.dr == -i;
    } else {
      assert i * d.dc == i || i * d.dc == -i;
    }
  }

  /** The line of one direction: the cell itself first, then cells holding p, all on that axis. */
  lemma AxisLineShape(g: Grid, p: Player, row: int, col: int, d: Dir)
    requires WellFormed(g)
    ensures |AxisLine(g, p, row, col, d)| == AxisCount(g, p, row, col, d)
    ensures AxisLine(g, p, row, col, d)[0] == Pos(row, col)
    ensures forall i :: 1 <= i < |AxisLine(g, p, row, col, d)| ==>
              Holds(g, p, AxisLine(g, p, row, col, d)[i])
    ensures forall i :: 0 <= i < |AxisLine(g, p, row, col, d)| ==>
              OnAxis(d, row, col, AxisLine(g, p, row, col, d)[i])
  {
    var f := Run(g, p, row, col, d, 1);
    var b := Run(g, p, row, col, d.Reverse(), 1);
    var fwd := Ray(row, col, d, f);
    var bwd := Ray(row, col, d.Reverse(), b);
    var line := AxisLine(g, p, row, col, d);
    RunHolds(g, p, row, col, d, 1);
    RunHolds(g, p, row, col, d.Reverse(), 1);
    assert line == [Pos(row, col)] + fwd + bwd;
    assert |line| == 1 + f + b;
    forall i | 0 <= i < |line|
      ensures OnAxis(d, row, col, line[i])
      ensures i >= 1 ==> Holds(g, p, line[i])
    {
      if i == 0 {
        assert line[i] == At(row, col, d, 0);
      } else if i <= f {
        assert line[i] == fwd[i - 1];
        assert line[i] == At(row, col, d, i);
      } else {
        var k := i - f;
        assert line[i] == bwd[k - 1];
        assert line[i] == At(row, col, d.Reverse(), k);
      }
    }
  }

  /**
   * A winning line holds 5 to 9 cells: the probed cell first, then cells
   * holding p, all on the first axis (in the source's order) whose count
   * reaches 5, and its length is that axis's count.
   */
  lemma WinLineShape(g: Grid, p: Player, row: int, col: int)
    requires WellFormed(g) && Wins(g, p, row, col)
    ensures var line := WinCheck(g, p, row, col).value;
      WinLength <= |line| <= 2 * Reach + 1 && line[0] == Pos(row, col) &&
      (forall i :: 1 <= i < |line| ==> Holds(g, p, line[i])) &&
      exists a :: 0 <= a < |Axes| && |line| == AxisCount(g, p, row, col, Axes[a]) &&
        (forall b :: 0 <= b < a ==> AxisCount(g, p, row, col, Axes[b]) < WinLength) &&
        (forall i :: 0 <= i < |line| ==> OnAxis(Axes[a], row, col, line[i]))
  {
    var a := FirstWin(AxisCounts(g, p, row, col), 0).value;
    AxisLineShape(g, p, row, col, Axes[a]);
  }

  lemma {:induction false} RunIgnoresOrigin(g: Grid, p: Player, row: int, col: int, d: Dir, i: int, v: Cell)
    requires WellFormed(g) && InBounds(row, col) && 1 <= i <= Reach + 1 && Unit(d)
    ensures Run(Put(g, row, col, v), p, row, col, d, i) == Run(g, p, row, col, d, i)
    decreases Reach + 1 - i
  {
    if i <= Reach {
      StepLeaves(row, col, d, i);
      RunIgnoresOrigin(g, p, row, col, d, i + 1, v);
    }
  }

  /** Both runs of direction a read the same cells whatever is written at (row, col). */
  lemma AxisIgnoresOrigin(g: Grid, p: Player, row: int, col: int, a: int, v: Cell)
    requires WellFormed(g) && InBounds(row, col) && 0 <= a < |Axes|
    ensures Run(Put(g, row, col, v), p, row, col, Axes[a], 1) == Run(g, p, row, col, Axes[a], 1)
    ensures Run(Put(g, row, col, v), p, row, col, Axes[a].Reverse(), 1) == Run(g, p, row, col, Axes[a].Reverse(), 1)
    ensures AxisCount(Put(g, row, col, v), p, row, col, Axes[a]) == AxisCount(g, p, row, col, Axes[a])
  {
    var d := Axes[a];
    assert Unit(d) && Unit(d.Reverse());
    RunIgnoresOrigin(g, p, row, col, d, 1, v);
    RunIgnoresOrigin(g, p, row, col, d.Reverse(), 1, v);
  }

  /** None of the four counts reads the cell at (row, col). */
  lemma CountsIgnoreOrigin(g: Grid, p: Player, row: int, col: int, v: Cell)
    requires WellFormed(g) && InBounds(row, col)
    ensures AxisCounts(Put(g, row, col, v), p, row, col) == AxisCounts(g, p, row, col)
  {
    forall a | 0 <= a < |Axes|
      ensures AxisCount(Put(g, row, col, v), p, row, col, Axes[a]) == AxisCount(g, p, row, col, Axes[a])
    {
      AxisIgnoresOrigin(g, p, row, col, a, v);
    }
  }

  /**
   * Neither checkWin nor countInARow reads the cell they are asked about:
   * whatever is written there, both answer the same.
   */
  lemma ProbeIgnoresOrigin(g: Grid, p: Player, row: int, col: int, v: Cell)
    requires WellFormed(g) && InBounds(row, col)
    ensures WinCheck(Put(g, row, col, v), p, row, col) == WinCheck(g, p, row, col)
    ensures Count(Put(g, row, col, v), p, row, col) == Count(g, p, row, col)
  {
    CountsIgnoreOrigin(g, p, row, col, v);
    var r := FirstWin(AxisCounts(g, p, row, col), 0);
    if r.Some? {
      AxisIgnoresOrigin(g, p, row, col, r.value, v);
    }
  }
}
