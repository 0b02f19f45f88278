/**
 * The cell board of the grid minigame, shared by ExamEmbedSystem (exam-embed.js) and the
 * standalone page (exam-test/game.js), whose cell code is the same.
 *
 * A cell's running-score amounts are kept in integer hundredths: `toFixed(2)` values are exact
 * there. A `partialScore` of 0 means "unset": the embedded page starts it at `null` and the
 * standalone page at `0.00`, and both read as unset under `!partialScore` and as 0 under
 * `partialScore || 0`; a sampled value is never 0.
 */
module Grid {
  import opened Wrappers
  import opened Utils

  datatype Status = Default | WA | NEC | AC

  /** How far a status is along default → WA → NEC → AC. */
  function Progress(s: Status): nat
  {
    match s
    case Default => 0
    case WA => 1
    case NEC => 2
    case AC => 3
  }

  /** One board cell; `partialScore` in hundredths, 0 when unset. */
  datatype Cell = Cell(
    originalCost: int,
    cost: int,
    isSpecial: bool,
    score: int,
    status: Status,
    partialScore: int,
    previousStatus: Option<Status>)

  const Side: int := 7
  const CellCount: int := 49

  /** A fresh cell as generateGridData pushes it. */
  function NewCell(cost: int, isSpecial: bool): Cell
  {
    Cell(cost, cost, isSpecial, if isSpecial then 4 else 2, Default, 0, None)
  }

  /**
   * The status updateCellStatus gives a cell of this cost: WA above half the original cost,
   * NEC above 0, else AC. `cost > originalCost / 2` is compared as `2 * cost > originalCost`.
   */
  function StatusFor(cost: int, originalCost: int): (st: Status)
    ensures st == AC <==> cost <= 0 && 2 * cost <= originalCost
    ensures st == WA <==> 2 * cost > originalCost
    ensures st != Default
  {
    if 2 * cost > originalCost then WA else if cost > 0 then NEC else AC
  }

  /** A lower cost never gives an earlier status. */
  lemma StatusForMonotone(c1: int, c2: int, originalCost: int)
    requires c2 <= c1
    ensures Progress(StatusFor(c1, originalCost)) <= Progress(StatusFor(c2, originalCost))
  {
  }

  /**
   * The NEC partial score in hundredths: `(u * (max - min) + min).toFixed(2)` with
   * min = score / 3 and max = score * 2 / 3.
   */
  function PartialScore(score: int, u: real): (p: int)
    requires Unit(u)
    ensures score >= 0 ==> score as real * 100.0 / 3.0 - 0.5 <= p as real <= score as real * 200.0 / 3.0 + 0.5
    ensures score >= 1 ==> p >= 1
  {
    var lo := score as real * (1.0 / 3.0);
    var hi := score as real * (2.0 / 3.0);
    var spread := hi - lo;
    var v := u * spread + lo;
    if score >= 0 then
      UnitScaled(u, spread);
      assert lo <= v <= hi;
      Round(v * 100.0)
    else Round(v * 100.0)
  }

  /** For the two scores a cell can have, the partial score is 0.67–1.33 or 1.33–2.67 points. */
  lemma PartialScoreRange(u: real)
    requires Unit(u)
    ensures 67 <= PartialScore(2, u) <= 133
    ensures 133 <= PartialScore(4, u) <= 267
  {
  }

  /** What a cell adds to the running score, in hundredths: nothing until NEC, then its partial score, then its full score on AC. */
  function Contribution(c: Cell): int
  {
    match c.status
    case Default => 0
    case WA => 0
    case NEC => c.partialScore
    case AC => c.score * 100
  }

  /** The running score a board should show: the sum of its cells' contributions. */
  function TotalScore(cells: seq<Cell>): int
  {
    if |cells| == 0 then 0 else Contribution(cells[0]) + TotalScore(cells[1..])
  }

  /** The number of AC cells. */
  function ACCount(cells: seq<Cell>): (n: nat)
    ensures n <= |cells|
  {
    if |cells| == 0 then 0 else (if cells[0].status == AC then 1 else 0) + ACCount(cells[1..])
  }

  /** Replacing one cell changes the total by the difference of the two contributions. */
  lemma {:induction false} TotalScoreUpdate(cells: seq<Cell>, i: int, c: Cell)
    requires 0 <= i < |cells|
    ensures TotalScore(cells[i := c]) == TotalScore(cells) - Contribution(cells[i]) + Contribution(c)
  {
    if i > 0 {
      TotalScoreUpdate(cells[1..], i - 1, c);
      assert cells[i := c][1..] == cells[1..][i - 1 := c];
    }
  }

  /** Replacing one cell changes the AC count only by that cell's change of status. */
  lemma {:induction false} ACCountUpdate(cells: seq<Cell>, i: int, c: Cell)
    requires 0 <= i < |cells|
    ensures ACCount(cells[i := c]) ==
      ACCount(cells) - (if cells[i].status == AC then 1 else 0) + (if c.status == AC then 1 else 0)
  {
    if i > 0 {
      ACCountUpdate(cells[1..], i - 1, c);
      assert cells[i := c][1..] == cells[1..][i - 1 := c];
    }
  }

  /** A board of untouched cells scores nothing and has nothing flipped. */
  lemma {:induction false} UntouchedBoard(cells: seq<Cell>)
    requires forall i :: 0 <= i < |cells| ==> cells[i].status == Default
    ensures TotalScore(cells) == 0 && ACCount(cells) == 0
  {
    if |cells| > 0 { UntouchedBoard(cells[1..]); }
  }

  /**
   * A cell in any state the game can reach, including just after its cost was lowered and before
   * its status was recomputed: the status is never ahead of what its cost gives, a NEC cell holds a
   * partial score, and the cost is at most the original cost.
   */
  predicate WellFormed(c: Cell)
  {
    && c.score >= 1
    && c.cost <= c.originalCost
    && Progress(c.status) <= Progress(StatusFor(c.cost, c.originalCost))
    && (c.status == NEC ==> c.partialScore != 0)
  }

  /** A cell between clicks: untouched at its original cost, or showing the status its cost gives. */
  predicate Settled(c: Cell)
  {
    && WellFormed(c)
    && (c.status == Default ==> c.cost == c.originalCost)
    && (c.status != Default ==> c.status == StatusFor(c.cost, c.originalCost))
  }

  /** Lowering the cost of a settled cell leaves it well formed, ready for a status update. */
  lemma LoweredIsWellFormed(c: Cell, drop: int)
    requires Settled(c) && drop >= 0
    ensures WellFormed(c.(cost := c.cost - drop))
  {
    StatusForMonotone(c.cost, c.cost - drop, c.originalCost);
  }

  /** Lowering one settled cell's cost keeps the board's total and AC count until its status is recomputed. */
  lemma LoweredKeepsTotals(cells: seq<Cell>, i: int, drop: int)
    requires 0 <= i < |cells| && Settled(cells[i]) && drop >= 0
    ensures var lowered := cells[i].(cost := cells[i].cost - drop);
      && WellFormed(lowered)
      && TotalScore(cells[i := lowered]) == TotalScore(cells)
      && ACCount(cells[i := lowered]) == ACCount(cells)
  {
    var lowered := cells[i].(cost := cells[i].cost - drop);
    LoweredIsWellFormed(cells[i], drop);
    TotalScoreUpdate(cells, i, lowered);
    ACCountUpdate(cells, i, lowered);
  }

  /**
   * The cell updateCellStatus leaves: the status its cost gives, and a partial score sampled from
   * draw u only when the new status is NEC and none is set yet.
   */
  function UpdatedCell(c: Cell, u: real): (r: Cell)
    requires Unit(u)
    ensures r.status == StatusFor(c.cost, c.originalCost)
    ensures r.(status := c.status, partialScore := c.partialScore) == c
    ensures c.partialScore != 0 ==> r.partialScore == c.partialScore
    ensures r.partialScore != c.partialScore ==> r.status == NEC && PartialScore(c.score, u) == r.partialScore
    ensures WellFormed(c) ==> Settled(r) && Progress(c.status) <= Progress(r.status)
  {
    var st := StatusFor(c.cost, c.originalCost);
    var partial := if st == NEC && c.partialScore == 0 then PartialScore(c.score, u) else c.partialScore;
    c.(status := st, partialScore := partial)
  }

  /** The eight neighbour offsets (row, column) in the order affectAdjacentCells lists them. */
  const Directions: seq<(int, int)> := [(-1, 0), (-1, 1), (0, 1), (1, 1), (1, 0), (1, -1), (0, -1), (-1, -1)]

  /** The board index of the neighbour of (row, col) in direction d, if it is on the board. */
  function Target(row: int, col: int, d: int): (t: Option<int>)
    requires 0 <= d < 8
    ensures t.Some? ==> 0 <= t.value < CellCount
    ensures t.Some? ==> t.value != row * Side + col
  {
    var nr := row + Directions[d].0;
    var nc := col + Directions[d].1;
    if 0 <= nr < Side && 0 <= nc < Side then Some(nr * Side + nc) else None
  }

  /** Two different directions from the same cell never reach the same cell. */
  lemma TargetsDistinct(row: int, col: int, d1: int, d2: int)
    requires 0 <= d1 < 8 && 0 <= d2 < 8 && d1 != d2
    requires Target(row, col, d1).Some? && Target(row, col, d2).Some?
    ensures Target(row, col, d1).value != Target(row, col, d2).value
  {
  }

  /** A possible result of shuffling the eight directions: each of 0..7 exactly once. */
  predicate IsDirectionOrder(order: seq<int>)
  {
    && |order| == 8
    && (forall i :: 0 <= i < 8 ==> 0 <= order[i] < 8)
    && NoDuplicates(order)
  }

  /** The board index of each chosen direction's on-board neighbour, in choice order. */
  function TargetList(row: int, col: int, dirs: seq<int>): (t: seq<int>)
    requires forall i :: 0 <= i < |dirs| ==> 0 <= dirs[i] < 8
    ensures forall i :: 0 <= i < |t| ==> 0 <= t[i] < CellCount
    decreases |dirs|
  {
    if |dirs| == 0 then []
    else
      var last := Target(row, col, dirs[|dirs| - 1]);
      TargetList(row, col, dirs[..|dirs| - 1]) + (if last.Some? then [last.value] else [])
  }

  lemma {:induction false} TargetListMembers(row: int, col: int, dirs: seq<int>, t: int)
    requires forall i :: 0 <= i < |dirs| ==> 0 <= dirs[i] < 8
    ensures t in TargetList(row, col, dirs) <==> exists i :: 0 <= i < |dirs| && Target(row, col, dirs[i]) == Some(t)
    decreases |dirs|
  {
    if |dirs| > 0 {
      var init := dirs[..|dirs| - 1];
      TargetListMembers(row, col, init, t);
      if t in TargetList(row, col, init) {
        var i :| 0 <= i < |init| && Target(row, col, init[i]) == Some(t);
        assert dirs[i] == init[i];
      }
      if exists i :: 0 <= i < |dirs| && Target(row, col, dirs[i]) == Some(t) {
        var i :| 0 <= i < |dirs| && Target(row, col, dirs[i]) == Some(t);
        if i < |dirs| - 1 { assert init[i] == dirs[i]; }
      }
    }
  }

  /** After the neighbour phase: the cost one lower, the status that cost gives, a set partial score kept. */
  predicate LoweredOnce(before: Cell, after: Cell)
  {
    && after.(status := before.status, partialScore := before.partialScore) == before.(cost := before.cost - 1)
    && after.status == StatusFor(after.cost, after.originalCost)
    && (before.partialScore != 0 ==> after.partialScore == before.partialScore)
  }

  /**
   * The neighbour phase's effect on the board so far: each cell of `chosen` that was not AC has
   * been lowered once, and every other cell is as it was.
   */
  ghost predicate LoweredAt(before: seq<Cell>, after: seq<Cell>, chosen: seq<int>)
  {
    && |before| == CellCount && |after| == CellCount
    && forall i :: 0 <= i < CellCount ==>
      if i in chosen && before[i].status != AC then LoweredOnce(before[i], after[i]) else after[i] == before[i]
  }

  /** A newly chosen cell that is already AC is skipped. */
  lemma LoweredAtSkip(before: seq<Cell>, after: seq<Cell>, chosen: seq<int>, t: int)
    requires LoweredAt(before, after, chosen) && 0 <= t < CellCount && t !in chosen && after[t].status == AC
    ensures LoweredAt(before, after, chosen + [t])
  {
  }

  /** A newly chosen cell that is not AC is lowered once, and nothing else moves. */
  lemma LoweredAtStep(before: seq<Cell>, mid: seq<Cell>, after: seq<Cell>, chosen: seq<int>, t: int)
    requires LoweredAt(before, mid, chosen) && 0 <= t < CellCount && t !in chosen && mid[t].status != AC
    requires |after| == CellCount && LoweredOnce(mid[t], after[t])
    requires forall i :: 0 <= i < CellCount && i != t ==> after[i] == mid[i]
    ensures LoweredAt(before, after, chosen + [t])
  {
  }

  /** One more chosen direction adds its on-board neighbour, if any, to the end of the list. */
  lemma TargetListSnoc(row: int, col: int, selected: seq<int>, k: int)
    requires 0 <= k < |selected| && forall i :: 0 <= i < |selected| ==> 0 <= selected[i] < 8
    ensures var t := Target(row, col, selected[k]);
      TargetList(row, col, selected[..k + 1]) == TargetList(row, col, selected[..k]) + (if t.Some? then [t.value] else [])
  {
    assert selected[..k + 1][..k] == selected[..k];
  }

  /** The direction at position k was not chosen before, so its neighbour was not lowered yet. */
  lemma FreshTarget(row: int, col: int, selected: seq<int>, k: int)
    requires 0 <= k < |selected| && NoDuplicates(selected)
    requires forall i :: 0 <= i < |selected| ==> 0 <= selected[i] < 8
    requires Target(row, col, selected[k]).Some?
    ensures Target(row, col, selected[k]).value !in TargetList(row, col, selected[..k])
  {
    var index := Target(row, col, selected[k]).value;
    forall j | 0 <= j < k ensures Target(row, col, selected[..k][j]) != Some(index) {
      if Target(row, col, selected[j]).Some? { TargetsDistinct(row, col, selected[j], selected[k]); }
    }
    TargetListMembers(row, col, selected[..k], index);
  }

  /**
   * generateGridData: 49 fresh cells whose costs come from `Math.floor(u * 6) + 1`, with the one
   * special 4-point cell at `Math.floor(specialDraw * 49)`.
   */
  method GenerateGridData(specialDraw: real, costDraws: seq<real>) returns (grid: array<Cell>)
    requires Unit(specialDraw) && |costDraws| == CellCount && AllUnit(costDraws)
    ensures fresh(grid) && grid.Length == CellCount
    ensures forall i :: 0 <= i < CellCount ==>
      grid[i] == NewCell(RandomInt(costDraws[i], 1, 6), i == FloorScaled(specialDraw, CellCount))
    ensures forall i :: 0 <= i < CellCount ==> 1 <= grid[i].cost == grid[i].originalCost <= 6 && Settled(grid[i])
    ensures forall i :: 0 <= i < CellCount ==>
      (grid[i].isSpecial <==> i == FloorScaled(specialDraw, CellCount)) &&
      grid[i].score == (if grid[i].isSpecial then 4 else 2)
  {
    var specialIndex := FloorScaled(specialDraw, CellCount);
    grid := new Cell[CellCount];
    var i := 0;
    while i < CellCount
      invariant 0 <= i <= CellCount
      invariant forall j :: 0 <= j < i ==> grid[j] == NewCell(RandomInt(costDraws[j], 1, 6), j == specialIndex)
    {
      var cost := RandomInt(costDraws[i], 1, 6);
      grid[i] := NewCell(cost, i == specialIndex);
      i := i + 1;
    }
  }
}
