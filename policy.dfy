/**
 * The opponent's choice of cell (aiMove, game.js:46-80) as pure functions of
 * the board: the probing scans of findWinningMove (game.js:117-131) and
 * findBestOffensiveMove (game.js:133-147), findCenterMove (game.js:82-103),
 * findStrategicMove (game.js:149-163) and the cascade that tries them in turn.
 */
module Policy {
  import opened Board
  import opened Lines

  /** findBestOffensiveMove's threshold `countInARow('O', row, col) >= 4` (game.js:138). */
  const OffenseLength: int := 4

  /** What a row-major scan asks of each empty cell. */
  datatype Probe =
    /** findWinningMove(mark) while the global currentPlayer is `judge`: write mark, ask checkWin. */
    | Winning(judge: Player, mark: Player)
    /** findBestOffensiveMove: write 'O', ask countInARow('O', ...) >= 4. */
    | Offensive
    /** the loop of findStrategicMove: any empty cell will do. */
    | AnyEmpty

  predicate Passes(g: Grid, probe: Probe, row: int, col: int)
    requires WellFormed(g) && InBounds(row, col)
  {
    match probe
    case Winning(judge, mark) => Wins(Put(g, row, col, Mark(mark)), judge, row, col)
    case Offensive => Count(Put(g, row, col, Mark(O)), O, row, col) >= OffenseLength
    case AnyEmpty => true
  }

  /** A cell the scan stops at: empty, and passing the probe. */
  predicate Candidate(g: Grid, probe: Probe, row: int, col: int)
    requires WellFormed(g) && InBounds(row, col)
  {
    g[row][col] == Empty && Passes(g, probe, row, col)
  }

  /** (r1, c1) is visited before (r2, c2) by the nested row/col loops. */
  predicate Before(r1: int, c1: int, r2: int, c2: int)
  {
    r1 < r2 || (r1 == r2 && c1 < c2)
  }

  /**
   * The nested `for row`, `for col` scan resumed at (row, col): the first
   * candidate in row-major order, or null when there is none.
   */
  function Scan(g: Grid, probe: Probe, row: int, col: int): (r: Option<Pos>)
    requires WellFormed(g) && 0 <= row <= N && 0 <= col <= N
    ensures r.Some? ==> InBounds(r.value.row, r.value.col)
    decreases N - row, N - col
  {
    if row == N then None
    else if col == N then Scan(g, probe, row + 1, 0)
    else if Candidate(g, probe, row, col) then Some(Pos(row, col))
    else Scan(g, probe, row, col + 1)
  }

  /**
   * The scan returns the first candidate at or after (row, col) in row-major
   * order: the cell it returns is a candidate, and no cell it passed over is.
   */
  lemma {:induction false} ScanFinds(g: Grid, probe: Probe, row: int, col: int)
    requires WellFormed(g) && 0 <= row <= N && 0 <= col <= N
    ensures var r := Scan(g, probe, row, col);
      r.Some? ==> Candidate(g, probe, r.value.row, r.value.col) && !Before(r.value.row, r.value.col, row, col)
    ensures var r := Scan(g, probe, row, col);
      forall i, j :: InBounds(i, j) && !Before(i, j, row, col) && (r.None? || Before(i, j, r.value.row, r.value.col))
        ==> !Candidate(g, probe, i, j)
    decreases N - row, N - col
  {
    if row == N {
    } else if col == N {
      ScanFinds(g, probe, row + 1, 0);
    } else if !Candidate(g, probe, row, col) {
      ScanFinds(g, probe, row, col + 1);
    }
  }

  /** A scan only ever returns an empty cell, and returns null on a full board. */
  lemma ScanVacant(g: Grid, probe: Probe)
    requires WellFormed(g)
    ensures Scan(g, probe, 0, 0).Some? ==> Vacant(g, Scan(g, probe, 0, 0).value)
    ensures Full(g) ==> Scan(g, probe, 0, 0).None?
  {
    ScanFinds(g, probe, 0, 0);
  }

  /** The four spots next to the centre, in the order findCenterMove tries them (game.js:89-94). */
  const NearCenter: seq<Pos> :=
    [Pos(Center - 1, Center), Pos(Center + 1, Center), Pos(Center, Center - 1), Pos(Center, Center + 1)]

  /** The first listed spot that is on the board and empty. */
  function FirstVacant(g: Grid, spots: seq<Pos>): (r: Option<Pos>)
    requires WellFormed(g)
    ensures r.Some? ==> Vacant(g, r.value) && r.value in spots
    ensures r.Some? ==>
      exists k :: 0 <= k < |spots| && spots[k] == r.value && forall l :: 0 <= l < k ==> !Vacant(g, spots[l])
    ensures r.None? <==> forall k :: 0 <= k < |spots| ==> !Vacant(g, spots[k])
  {
    if spots == [] then None
    else if Vacant(g, spots[0]) then Some(spots[0])
    else
      var r := FirstVacant(g, spots[1..]);
      assert forall k :: 1 <= k < |spots| ==> spots[k] == spots[1..][k - 1];
      r
  }

  /** findCenterMove() (game.js:82-103). */
  function CenterChoice(g: Grid): (r: Option<Pos>)
    requires WellFormed(g)
    ensures r.Some? ==> Vacant(g, r.value)
    ensures g[Center][Center] == Empty ==> r == Some(Pos(Center, Center))
    ensures g[Center][Center] != Empty && r.Some? ==>
      exists k :: 0 <= k < |NearCenter| && NearCenter[k] == r.value &&
        forall l :: 0 <= l < k ==> !Vacant(g, NearCenter[l])
    ensures r.None? <==>
      g[Center][Center] != Empty && forall k :: 0 <= k < |NearCenter| ==> !Vacant(g, NearCenter[k])
  {
    if g[Center][Center] == Empty then Some(Pos(Center, Center))
    else FirstVacant(g, NearCenter)
  }

  /** findStrategicMove() (game.js:149-163). */
  function StrategicChoice(g: Grid): (r: Option<Pos>)
    requires WellFormed(g)
  {
    if g[Center][Center] == Empty then Some(Pos(Center, Center))
    else Scan(g, AnyEmpty, 0, 0)
  }

  /**
   * aiMove's cascade (game.js:46-80) on board g while the global
   * currentPlayer is `current`: win, block, centre, offence, any cell.
   */
  function AiChoice(g: Grid, current: Player): (r: Option<Pos>)
    requires WellFormed(g)
  {
    var winning := Scan(g, Winning(current, O), 0, 0);
    if winning.Some? then winning
    else
      var blocking := Scan(g, Winning(current, X), 0, 0);
      if blocking.Some? then blocking
      else
        var center := CenterChoice(g);
        if center.Some? then center
        else
          var offensive := Scan(g, Offensive, 0, 0);
          if offensive.Some? then offensive
          else StrategicChoice(g)
  }

  /** The centre and the spots next to it are on the board. */
  lemma NearCenterOnBoard()
    ensures InBounds(Center, Center)
    ensures forall k :: 0 <= k < |NearCenter| ==> InBounds(NearCenter[k].row, NearCenter[k].col)
  {
  }

  /** findCenterMove returns an empty cell, and null only when the centre and its four neighbours are taken. */
  lemma CenterChoiceSound(g: Grid)
    requires WellFormed(g)
    ensures CenterChoice(g).Some? ==> Vacant(g, CenterChoice(g).value)
    ensures CenterChoice(g).None? <==>
      g[Center][Center] != Empty && forall k :: 0 <= k < |NearCenter| ==> g[NearCenter[k].row][NearCenter[k].col] != Empty
  {
    NearCenterOnBoard();
  }

  /** findStrategicMove returns an empty cell, and null exactly when the board is full. */
  lemma StrategicChoiceSound(g: Grid)
    requires WellFormed(g)
    ensures StrategicChoice(g).Some? ==> Vacant(g, StrategicChoice(g).value)
    ensures StrategicChoice(g).None? <==> Full(g)
  {
    ScanVacant(g, AnyEmpty);
    ScanFinds(g, AnyEmpty, 0, 0);
    if StrategicChoice(g).None? {
      forall i, j | 0 <= i < N && 0 <= j < N
        ensures g[i][j] != Empty
      {
        assert !Candidate(g, AnyEmpty, i, j);
      }
    }
  }

  /** aiMove places its mark on an empty cell, and places nothing exactly when the board is full. */
  lemma AiChoiceSound(g: Grid, current: Player)
    requires WellFormed(g)
    ensures AiChoice(g, current).Some? ==> Vacant(g, AiChoice(g, current).value)
    ensures AiChoice(g, current).None? <==> Full(g)
  {
    ScanVacant(g, Winning(current, O));
    ScanVacant(g, Winning(current, X));
    ScanVacant(g, Offensive);
    CenterChoiceSound(g);
    StrategicChoiceSound(g);
    if Full(g) {
      NearCenterOnBoard();
      assert g[Center][Center] != Empty;
    }
  }

  /**
   * Because checkWin never reads the probed cell and judges for the global
   * currentPlayer, the mark findWinningMove writes makes no difference.
   */
  lemma {:induction false} ScanIgnoresMark(g: Grid, judge: Player, m1: Player, m2: Player, row: int, col: int)
    requires WellFormed(g) && 0 <= row <= N && 0 <= col <= N
    ensures Scan(g, Winning(judge, m1), row, col) == Scan(g, Winning(judge, m2), row, col)
    decreases N - row, N - col
  {
    if row == N {
    } else if col == N {
      ScanIgnoresMark(g, judge, m1, m2, row + 1, 0);
    } else {
      PassesIgnoresMark(g, judge, m1, m2, row, col);
      ScanIgnoresMark(g, judge, m1, m2, row, col + 1);
    }
  }

  lemma PassesIgnoresMark(g: Grid, judge: Player, m1: Player, m2: Player, row: int, col: int)
    requires WellFormed(g) && InBounds(row, col)
    ensures Passes(g, Winning(judge, m1), row, col) == Passes(g, Winning(judge, m2), row, col)
  {
    ProbeIgnoresOrigin(g, judge, row, col, Mark(m1));
    ProbeIgnoresOrigin(g, judge, row, col, Mark(m2));
  }

  /**
   * The blocking step of aiMove never finds a cell the winning step missed:
   * whenever the search reaches step 2, findWinningMove('X') is null too.
   */
  lemma BlockingNeverFires(g: Grid, current: Player)
    requires WellFormed(g)
    ensures Scan(g, Winning(current, O), 0, 0).None? ==> Scan(g, Winning(current, X), 0, 0).None?
    ensures AiChoice(g, current) ==
      (var winning := Scan(g, Winning(current, O), 0, 0);
       if winning.Some? then winning
       else if CenterChoice(g).Some? then CenterChoice(g)
       else if Scan(g, Offensive, 0, 0).Some? then Scan(g, Offensive, 0, 0)
       else StrategicChoice(g))
  {
    ScanIgnoresMark(g, current, O, X, 0, 0);
  }
}
