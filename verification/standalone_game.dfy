/**
 * The standalone minigame page (exam-test/game.js). Its state lives in module-level variables,
 * modelled as the fields of one `Game` object; the rules are the embedded ones with a fixed budget
 * of 33 clicks and 240 seconds. The running score is kept in hundredths of a point, as in
 * ExamEmbed, and the 100 ms neighbour step of a click is the separate method `NeighbourPhase`.
 */
module StandaloneGame {
  import opened Wrappers
  import opened Utils
  import opened Grid

  /** The budget the page starts every round with. */
  const ClickBudget := 33
  const TimeBudget := 240

  /** The verdict endGame shows, chosen by the final score (in hundredths). */
  datatype Performance = Outstanding | Excellent | Fine | KeepPractising

  function PerformanceRank(p: Performance): int
  {
    match p
    case KeepPractising => 0
    case Fine => 1
    case Excellent => 2
    case Outstanding => 3
  }

  /** endGame's message tiers: 80 and up, 70 and up, 60 and up, below 60. */
  function PerformanceFor(score: int): (p: Performance)
    ensures p == Outstanding <==> score >= 8000
    ensures p == KeepPractising <==> score < 6000
    ensures p == Excellent <==> 7000 <= score < 8000
  {
    if score >= 8000 then Outstanding
    else if score >= 7000 then Excellent
    else if score >= 6000 then Fine
    else KeepPractising
  }

  /** A higher final score never earns a lower verdict. */
  lemma PerformanceMonotone(s1: int, s2: int)
    requires s1 <= s2
    ensures PerformanceRank(PerformanceFor(s1)) <= PerformanceRank(PerformanceFor(s2))
  {
  }

  class Game {
    var grid: array<Cell>
    var clicksLeft: int
    var timeLeft: int
    /** In hundredths of a point. */
    var currentScore: int
    var flippedCount: int
    var gameActive: bool

    /** A board of 49 settled cells whose running score and flipped count agree with the cells. */
    ghost predicate Valid()
      reads this, grid
    {
      && grid.Length == CellCount
      && (forall i :: 0 <= i < CellCount ==> Settled(grid[i]))
      && currentScore == TotalScore(grid[..])
      && flippedCount == ACCount(grid[..])
    }

    /** No code of the page ever writes a cell's `previousStatus`. */
    ghost predicate NoPreviousStatus()
      reads this, grid
    {
      forall i :: 0 <= i < grid.Length ==> grid[i].previousStatus == None
    }

    /** The values of the page's globals when the script loads. */
    constructor ()
      ensures grid.Length == 0 && clicksLeft == ClickBudget && timeLeft == TimeBudget
      ensures currentScore == 0 && flippedCount == 0 && !gameActive
    {
      grid := new Cell[0];
      clicksLeft := ClickBudget;
      timeLeft := TimeBudget;
      currentScore := 0;
      flippedCount := 0;
      gameActive := false;
    }

    /** initGame: reset the counters and deal a fresh board (createGrid, generateGridData). */
    method InitGame(specialDraw: real, costDraws: seq<real>)
      requires Unit(specialDraw) && |costDraws| == CellCount && AllUnit(costDraws)
      modifies this
      ensures Valid() && NoPreviousStatus() && fresh(grid) && gameActive
      ensures clicksLeft == ClickBudget && timeLeft == TimeBudget
      ensures currentScore == 0 && flippedCount == 0
      ensures forall i :: 0 <= i < CellCount ==>
        grid[i].status == Default && 1 <= grid[i].cost == grid[i].originalCost <= 6 && grid[i].partialScore == 0
      ensures forall i :: 0 <= i < CellCount ==>
        (grid[i].isSpecial <==> i == FloorScaled(specialDraw, CellCount)) && grid[i].score == (if grid[i].isSpecial then 4 else 2)
    {
      clicksLeft := ClickBudget;
      timeLeft := TimeBudget;
      currentScore := 0;
      flippedCount := 0;
      grid := GenerateGridData(specialDraw, costDraws);
      gameActive := true;
      UntouchedBoard(grid[..]);
    }

    /**
     * updateCellStatus: recompute the status of a cell whose cost was just lowered, and move the
     * running score and the flipped count by what the cell's change is worth.
     */
    method UpdateCellStatus(index: int, u: real)
      requires grid.Length == CellCount && 0 <= index < CellCount && Unit(u)
      requires forall i :: 0 <= i < CellCount && i != index ==> Settled(grid[i])
      requires WellFormed(grid[index])
      requires currentScore == TotalScore(grid[..]) && flippedCount == ACCount(grid[..])
      modifies grid, this`currentScore, this`flippedCount
      ensures Valid()
      ensures grid[index] == UpdatedCell(old(grid[index]), u)
      ensures forall i :: 0 <= i < CellCount && i != index ==> grid[i] == old(grid[i])
      ensures currentScore == old(currentScore) - Contribution(old(grid[index])) + Contribution(grid[index])
      ensures flippedCount == old(flippedCount) + (if old(grid[index].status) != AC && grid[index].status == AC then 1 else 0)
    {
      ghost var updated := UpdatedCell(grid[index], u);
      var previousStatus := grid[index].status;
      var previousScore := grid[index].partialScore;
      if 2 * grid[index].cost > grid[index].originalCost {
        grid[index] := grid[index].(status := WA);
      } else if grid[index].cost > 0 {
        grid[index] := grid[index].(status := NEC);
        if grid[index].partialScore == 0 {
          grid[index] := grid[index].(partialScore := PartialScore(grid[index].score, u));
        }
        if previousStatus != NEC {
          currentScore := currentScore + grid[index].partialScore;
        }
      } else {
        grid[index] := grid[index].(status := AC);
        if previousStatus != AC {
          if previousStatus == NEC {
            currentScore := currentScore - previousScore + grid[index].score * 100;
          } else {
            currentScore := currentScore + grid[index].score * 100;
          }
          flippedCount := flippedCount + 1;
        }
      }
      assert grid[index] == updated && Settled(updated);
      assert grid[..] == old(grid[..])[index := updated];
      TotalScoreUpdate(old(grid[..]), index, updated);
      ACCountUpdate(old(grid[..]), index, updated);
    }

    /**
     * flipCell, which nothing on the page calls: force a cell to AC and count it unless its
     * `previousStatus` says it was already AC. Since `previousStatus` is never written, the count
     * goes up on every call: flipping a cell that is already AC counts it twice, and flipping any
     * other cell counts it but leaves its full score out of `currentScore`.
     */
    method FlipCell(row: int, col: int)
      requires grid.Length == CellCount && 0 <= row < Side && 0 <= col < Side
      modifies grid, this`flippedCount
      ensures grid[row * Side + col] == old(grid[row * Side + col]).(status := AC)
      ensures forall i :: 0 <= i < CellCount && i != row * Side + col ==> grid[i] == old(grid[i])
      ensures flippedCount == old(flippedCount) + (if old(grid[row * Side + col].previousStatus) != Some(AC) then 1 else 0)
      ensures old(Valid() && NoPreviousStatus()) ==> NoPreviousStatus() && flippedCount == old(flippedCount) + 1
      ensures old(Valid() && NoPreviousStatus() && grid[row * Side + col].status == AC) ==>
        flippedCount == ACCount(grid[..]) + 1
      ensures old(Valid() && grid[row * Side + col].status != AC) ==>
        currentScore == TotalScore(grid[..]) - (grid[row * Side + col].score * 100 - Contribution(old(grid[row * Side + col])))
    {
      var index := row * Side + col;
      ghost var before := grid[..];
      grid[index] := grid[index].(status := AC);
      assert grid[..] == before[index := grid[index]];
      TotalScoreUpdate(before, index, grid[index]);
      ACCountUpdate(before, index, grid[index]);
      if grid[index].previousStatus != Some(AC) {
        flippedCount := flippedCount + 1;
      }
    }

    /** endGame */
    method EndGame() returns (verdict: Performance)
      modifies this`gameActive
      ensures !gameActive && verdict == PerformanceFor(currentScore)
    {
      gameActive := false;
      verdict := PerformanceFor(currentScore);
    }

    /** checkGameEnd: the round ends once the budget is spent or all 49 cells are AC. */
    method CheckGameEnd()
      modifies this`gameActive
      ensures gameActive == (old(gameActive) && clicksLeft > 0 && flippedCount < CellCount)
    {
      if clicksLeft <= 0 {
        var _ := EndGame();
      } else if flippedCount >= CellCount {
        var _ := EndGame();
      }
    }

    /**
     * The immediate part of handleCellClick. A click on an inactive game, with no budget left or
     * on an AC cell changes nothing. Otherwise it spends one click, lowers the cell's cost by 2,
     * updates that cell, and ends the game at once if that was the last click.
     */
    method HandleCellClick(row: int, col: int, u: real) returns (accepted: bool)
      requires Valid() && 0 <= row < Side && 0 <= col < Side && Unit(u)
      modifies grid, this`clicksLeft, this`currentScore, this`flippedCount, this`gameActive
      ensures Valid()
      ensures accepted == (old(gameActive) && old(clicksLeft) > 0 && old(grid[row * Side + col].status) != AC)
      ensures !accepted ==> unchanged(this) && unchanged(grid)
      ensures accepted ==>
        && clicksLeft == old(clicksLeft) - 1
        && grid[row * Side + col] == UpdatedCell(old(grid[row * Side + col]).(cost := old(grid[row * Side + col].cost) - 2), u)
        && (forall i :: 0 <= i < CellCount && i != row * Side + col ==> grid[i] == old(grid[i]))
        && gameActive == (clicksLeft > 0)
      ensures forall i :: 0 <= i < CellCount ==>
        grid[i].cost <= old(grid[i].cost) && Progress(old(grid[i].status)) <= Progress(grid[i].status)
    {
      accepted := false;
      if !gameActive { return; }
      var index := row * Side + col;
      if clicksLeft <= 0 { return; }
      if grid[index].status == AC { return; }
      accepted := true;
      clicksLeft := clicksLeft - 1;
      ghost var before := grid[..];
      LoweredKeepsTotals(before, index, 2);
      grid[index] := grid[index].(cost := grid[index].cost - 2);
      assert grid[..] == before[index := grid[index]];
      UpdateCellStatus(index, u);
      if clicksLeft <= 0 {
        CheckGameEnd();
      }
    }

    /** One neighbour of affectAdjacentCells: lower a non-AC cell's cost by 1 and update it. */
    method LowerNeighbour(index: int, u: real)
      requires Valid() && 0 <= index < CellCount && Unit(u) && grid[index].status != AC
      modifies grid, this`currentScore, this`flippedCount
      ensures Valid()
      ensures LoweredOnce(old(grid[index]), grid[index])
      ensures forall i :: 0 <= i < CellCount && i != index ==> grid[i] == old(grid[i])
    {
      ghost var before := grid[..];
      LoweredKeepsTotals(before, index, 1);
      grid[index] := grid[index].(cost := grid[index].cost - 1);
      assert grid[..] == before[index := grid[index]];
      UpdateCellStatus(index, u);
    }

    /**
     * affectAdjacentCells: Math.floor(numDraw * 3) + 2 of the shuffled directions are chosen; each
     * chosen neighbour that is on the board and not AC loses 1 cost and is updated, drawing from
     * `draws` in choice order.
     */
    method AffectAdjacentCells(row: int, col: int, numDraw: real, order: seq<int>, draws: seq<real>)
      requires Valid() && 0 <= row < Side && 0 <= col < Side
      requires Unit(numDraw) && IsDirectionOrder(order) && |draws| == 4 && AllUnit(draws)
      modifies grid, this`currentScore, this`flippedCount
      ensures Valid()
      ensures LoweredAt(old(grid[..]), grid[..], TargetList(row, col, order[..RandomInt(numDraw, 2, 4)]))
    {
      var numDirections := RandomInt(numDraw, 2, 4);
      var selected := order[..numDirections];
      var k := 0;
      while k < |selected|
        invariant 0 <= k <= |selected|
        invariant Valid()
        invariant LoweredAt(old(grid[..]), grid[..], TargetList(row, col, selected[..k]))
      {
        VisitDirection(row, col, selected, k, draws[k], old(grid[..]));
        k := k + 1;
      }
      assert selected[..|selected|] == selected;
    }

    /** One pass of affectAdjacentCells' loop: lower the k-th chosen neighbour if it is on the board and not AC. */
    method VisitDirection(row: int, col: int, selected: seq<int>, k: int, u: real, ghost start: seq<Cell>)
      requires Valid() && 0 <= row < Side && 0 <= col < Side && Unit(u)
      requires 0 <= k < |selected| && NoDuplicates(selected) && forall i :: 0 <= i < |selected| ==> 0 <= selected[i] < 8
      requires LoweredAt(start, grid[..], TargetList(row, col, selected[..k]))
      modifies grid, this`currentScore, this`flippedCount
      ensures Valid() && LoweredAt(start, grid[..], TargetList(row, col, selected[..k + 1]))
    {
      var target := Target(row, col, selected[k]);
      TargetListSnoc(row, col, selected, k);
      if target.Some? {
        var index := target.value;
        FreshTarget(row, col, selected, k);
        ghost var mid := grid[..];
        if grid[index].status != AC {
          LowerNeighbour(index, u);
          LoweredAtStep(start, mid, grid[..], TargetList(row, col, selected[..k]), index);
        } else {
          LoweredAtSkip(start, grid[..], TargetList(row, col, selected[..k]), index);
        }
      }
    }

    /**
     * The 100 ms callback of handleCellClick: if the game is still active, lower the neighbours,
     * then check whether the game is over.
     */
    method NeighbourPhase(row: int, col: int, numDraw: real, order: seq<int>, draws: seq<real>)
      requires Valid() && 0 <= row < Side && 0 <= col < Side
      requires Unit(numDraw) && IsDirectionOrder(order) && |draws| == 4 && AllUnit(draws)
      modifies grid, this`currentScore, this`flippedCount, this`gameActive
      ensures Valid()
      ensures !old(gameActive) ==> unchanged(this) && unchanged(grid)
      ensures old(gameActive) ==> gameActive == (clicksLeft > 0 && flippedCount < CellCount)
      ensures old(gameActive) ==> LoweredAt(old(grid[..]), grid[..], TargetList(row, col, order[..RandomInt(numDraw, 2, 4)]))
    {
      if gameActive {
        AffectAdjacentCells(row, col, numDraw, order, draws);
        CheckGameEnd();
      }
    }

    /**
     * A whole click as the browser runs it: the immediate part, then the neighbour step. The
     * click that spends the 33rd unit of budget ends the game, so its neighbours are never lowered.
     */
    method Click(row: int, col: int, u: real, numDraw: real, order: seq<int>, draws: seq<real>)
      returns (accepted: bool)
      requires Valid() && 0 <= row < Side && 0 <= col < Side && Unit(u)
      requires Unit(numDraw) && IsDirectionOrder(order) && |draws| == 4 && AllUnit(draws)
      modifies grid, this`clicksLeft, this`currentScore, this`flippedCount, this`gameActive
      ensures Valid()
      ensures !accepted ==> unchanged(this) && unchanged(grid)
      ensures accepted && old(clicksLeft) == 1 ==>
        !gameActive && clicksLeft == 0 &&
        forall i :: 0 <= i < CellCount && i != row * Side + col ==> grid[i] == old(grid[i])
    {
      accepted := HandleCellClick(row, col, u);
      if accepted {
        NeighbourPhase(row, col, numDraw, order, draws);
      }
    }

    /** One second of startTimer's interval: count down and end the game when time is up. */
    method Tick()
      modifies this`timeLeft, this`gameActive
      ensures !old(gameActive) ==> unchanged(this)
      ensures old(gameActive) ==> timeLeft == old(timeLeft) - 1 && gameActive == (timeLeft > 0)
    {
      if !gameActive { return; }
      timeLeft := timeLeft - 1;
      if timeLeft <= 0 {
        var _ := EndGame();
      }
    }
  }
}
