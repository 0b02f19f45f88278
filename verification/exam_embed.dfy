/**
 * ExamEmbedSystem (exam-embed.js): the grid minigame as it runs inside the main game, and the
 * rule that turns a finished round into a subject score.
 *
 * The running score `currentScore` is kept in hundredths of a point. The `setTimeout` that lowers
 * the neighbours 100 ms after a click is the separate method `NeighbourPhase`, and the one-second
 * `setInterval` of startTimer is `Tick`.
 */
module ExamEmbed {
  import opened Wrappers
  import opened Utils
  import opened GameData
  import opened Abilities
  import opened Grid

  // ---------------------------------------------------------------- scoring a round

  /** What getCurrentGameResult reports; `score` in hundredths. */
  datatype GameResult = GameResult(
    score: int,
    maxScore: int,
    timeSpent: int,
    clicksUsed: int,
    flippedCount: int,
    totalCells: int,
    hasClicked: bool)

  /** The parts of the player record the score rule reads: abilities and the `special` tags in insertion order. */
  datatype Player = Player(abilities: Abilities, special: Option<seq<(string, real)>>)

  /** `value || 50`: an ability of 0 reads as 50. */
  function OrFifty(x: real): real { if x == 0.0 then 50.0 else x }

  /**
   * What one special tag adds to the exam base score. The game only ever stores numbers under
   * `special` keys (applyEffects), so `effectValue[subject]` of a `subjectBonus` is undefined and
   * that tag adds nothing.
   */
  function EffectBonus(name: string, value: real, a: Abilities): real
  {
    if name == "examBonus" then value
    else if name == "mindsetBonus" then OrFifty(a.mindset) * 0.02 * value
    else if name == "focusBonus" then OrFifty(a.focus) * 0.015 * value
    else 0.0
  }

  /** The sum of the bonuses of a list of tags. */
  function EffectsTotal(effects: seq<(string, real)>, a: Abilities): real
  {
    if |effects| == 0 then 0.0 else EffectBonus(effects[0].0, effects[0].1, a) + EffectsTotal(effects[1..], a)
  }

  /** The bonus of a list of tags is the sum of the bonuses of its parts, so tag order does not matter. */
  lemma {:induction false} EffectsTotalAppend(e1: seq<(string, real)>, e2: seq<(string, real)>, a: Abilities)
    ensures EffectsTotal(e1 + e2, a) == EffectsTotal(e1, a) + EffectsTotal(e2, a)
  {
    if |e1| > 0 {
      assert (e1 + e2)[1..] == e1[1..] + e2;
      EffectsTotalAppend(e1[1..], e2, a);
    } else {
      assert e1 + e2 == e2;
    }
  }

  /** Tags other than examBonus, mindsetBonus and focusBonus add nothing. */
  lemma {:induction false} UnknownTagsAddNothing(effects: seq<(string, real)>, a: Abilities)
    requires forall i :: 0 <= i < |effects| ==> effects[i].0 !in {"examBonus", "mindsetBonus", "focusBonus"}
    ensures EffectsTotal(effects, a) == 0.0
  {
    if |effects| > 0 { UnknownTagsAddNothing(effects[1..], a); }
  }

  /** applySpecialEffects: the base score plus every tag's bonus; unchanged without a player or tags. */
  function ApplySpecialEffects(baseScore: real, player: Option<Player>): (r: real)
    ensures player.None? || player.value.special.None? ==> r == baseScore
    ensures player.Some? && player.value.special.Some? ==>
      r == baseScore + EffectsTotal(player.value.special.value, player.value.abilities)
  {
    match player
    case None => baseScore
    case Some(p) =>
      match p.special
      case None => baseScore
      case Some(effects) => baseScore + EffectsTotal(effects, p.abilities)
  }

  /** getSubjectFullScore: SUBJECTS[subject].fullScore, or 100 for an unknown subject. */
  function GetSubjectFullScore(subject: string): (r: int)
    ensures r > 0
    ensures SubjectOfKey(subject).Some? ==> r == FullScore(SubjectOfKey(subject).value)
    ensures SubjectOfKey(subject).None? ==> r == 100
  {
    match SubjectOfKey(subject)
    case Some(s) => FullScore(s)
    case None => 100
  }

  /** The 0–100 score before conversion: round score (70 if 0) blended 80/20 with ability, plus tags, clamped. */
  function BlendedScore(result: GameResult, subject: string, player: Option<Player>): (r: real)
    ensures 0.0 <= r <= 100.0
  {
    var raw := if result.score == 0 then 70.0 else result.score as real / 100.0;
    var blended := match player
      case None => raw
      case Some(p) => raw * 0.8 + WeightedAbility(p.abilities, SubjectWeights(subject)) * 0.2;
    Clamp(ApplySpecialEffects(blended, player), 0.0, 100.0)
  }

  /**
   * calculateExamScore: 0 for a round in which nothing was clicked; otherwise the blended score
   * scaled to the subject's full score and rounded to an integer in [0, fullScore].
   */
  function CalculateExamScore(result: GameResult, subject: string, player: Option<Player>): (r: int)
    ensures !result.hasClicked ==> r == 0
    ensures 0 <= r <= GetSubjectFullScore(subject)
    ensures result.hasClicked ==> r == ScaleToFull(BlendedScore(result, subject, player), GetSubjectFullScore(subject))
  {
    if !result.hasClicked then 0
    else ScaleToFull(BlendedScore(result, subject, player), GetSubjectFullScore(subject))
  }

  /** `Math.round(base / 100 * fullScore)`: a 0–100 score as whole marks out of `full`. */
  function ScaleToFull(base: real, full: int): (r: int)
    requires 0.0 <= base <= 100.0 && full > 0
    ensures 0 <= r <= full
  {
    var x := base / 100.0 * full as real;
    assert x <= 1.0 * full as real;
    RoundMonotone(0.0, x);
    RoundMonotone(x, full as real);
    RoundOfInt(0);
    RoundOfInt(full);
    Round(x)
  }

  /** A clicked round whose running score is still 0 scores exactly like a round worth 70 points. */
  lemma ZeroRoundCountsAsSeventy(result: GameResult, subject: string, player: Option<Player>)
    requires result.hasClicked && result.score == 0
    ensures CalculateExamScore(result, subject, player) == CalculateExamScore(result.(score := 7000), subject, player)
  {
    assert BlendedScore(result, subject, player) == BlendedScore(result.(score := 7000), subject, player);
  }

  /**
   * Among rounds that scored something, a higher running score never gives a lower subject score.
   * (A round scoring 0 is the exception: it counts as 70.)
   */
  lemma ExamScoreMonotone(r1: GameResult, r2: GameResult, subject: string, player: Option<Player>)
    requires r1.hasClicked && r2.hasClicked && 0 < r1.score <= r2.score
    ensures CalculateExamScore(r1, subject, player) <= CalculateExamScore(r2, subject, player)
  {
    BlendedMonotone(r1, r2, subject, player);
    ScaleMonotone(BlendedScore(r1, subject, player), BlendedScore(r2, subject, player), GetSubjectFullScore(subject));
  }

  lemma BlendedMonotone(r1: GameResult, r2: GameResult, subject: string, player: Option<Player>)
    requires 0 < r1.score <= r2.score
    ensures BlendedScore(r1, subject, player) <= BlendedScore(r2, subject, player)
  {
    var raw1 := r1.score as real / 100.0;
    var raw2 := r2.score as real / 100.0;
    assert raw1 <= raw2;
  }

  lemma ScaleMonotone(b1: real, b2: real, full: int)
    requires 0.0 <= b1 <= b2 <= 100.0 && full > 0
    ensures ScaleToFull(b1, full) <= ScaleToFull(b2, full)
  {
    var f := full as real;
    MulMonotone(b1 / 100.0, b2 / 100.0, f);
    RoundMonotone(b1 / 100.0 * f, b2 / 100.0 * f);
  }

  datatype ExamGrade = APlus | A | BPlus | B | CPlus | C | D | F

  /** Position in the order A+ > A > … > F (0 is best). */
  function ExamGradeRank(g: ExamGrade): nat
  {
    match g
    case APlus => 0
    case A => 1
    case BPlus => 2
    case B => 3
    case CPlus => 4
    case C => 5
    case D => 6
    case F => 7
  }

  /** getGradeFromScore: the percentage of the subject's full score, bucketed at 95/90/85/80/75/70/60. */
  function GetGradeFromScore(score: int, subject: string): (g: ExamGrade)
    ensures g == APlus <==> score * 100 >= 95 * GetSubjectFullScore(subject)
    ensures g == F <==> score * 100 < 60 * GetSubjectFullScore(subject)
  {
    var full := GetSubjectFullScore(subject);
    var percentage := score as real / full as real * 100.0;
    PercentAtLeast(score as real, full as real, 95.0);
    PercentAtLeast(score as real, full as real, 60.0);
    if percentage >= 95.0 then APlus
    else if percentage >= 90.0 then A
    else if percentage >= 85.0 then BPlus
    else if percentage >= 80.0 then B
    else if percentage >= 75.0 then CPlus
    else if percentage >= 70.0 then C
    else if percentage >= 60.0 then D
    else F
  }

  /** A higher score in the same subject never earns a worse grade. */
  lemma GradeFromScoreMonotone(s1: int, s2: int, subject: string)
    requires s1 <= s2
    ensures ExamGradeRank(GetGradeFromScore(s2, subject)) <= ExamGradeRank(GetGradeFromScore(s1, subject))
  {
    var full := GetSubjectFullScore(subject) as real;
    assert s1 as real / full <= s2 as real / full;
  }

  /**
   * hasNextExam, given the controller's `currentExamSubjects` and `currentExamIndex` (None for
   * null; the whole argument None when there is no controller).
   */
  function HasNextExam(controller: Option<(Option<seq<Subject>>, Option<int>)>): (r: bool)
    ensures r ==> controller.Some? && controller.value.0.Some? && controller.value.1.Some?
    ensures controller.Some? && controller.value.0.Some? && controller.value.1.Some? ==>
      (r <==> controller.value.1.value + 1 < |controller.value.0.value|)
  {
    match controller
    case None => false
    case Some((subjects, index)) =>
      if subjects.Some? && index.Some? then index.value + 1 < |subjects.value| else false
  }

  // ---------------------------------------------------------------- the round's limits

  /** gameState.examMechanics: per-exam-type click and time (minutes) limits, in insertion order. */
  datatype ExamMechanics = ExamMechanics(clickLimit: Option<seq<(string, int)>>, timeLimit: Option<seq<(string, int)>>)

  /** The value stored under `key`, if any (object keys are unique, so the first match). */
  function Lookup(table: seq<(string, int)>, key: string): Option<int>
  {
    if |table| == 0 then None else if table[0].0 == key then Some(table[0].1) else Lookup(table[1..], key)
  }

  /** `table.unified || Object.values(table)[0] || fallback`, with 0 and undefined both falsy. */
  function Configured(table: seq<(string, int)>, fallback: int): (r: int)
    ensures fallback != 0 ==> r != 0
    ensures Lookup(table, "unified").Some? && Lookup(table, "unified").value != 0 ==> r == Lookup(table, "unified").value
    ensures r == fallback || (exists i :: 0 <= i < |table| && table[i].1 == r)
  {
    var unified := Lookup(table, "unified");
    LookupFound(table, "unified");
    if unified.Some? && unified.value != 0 then unified.value
    else if |table| > 0 && table[0].1 != 0 then table[0].1
    else fallback
  }

  lemma {:induction false} LookupFound(table: seq<(string, int)>, key: string)
    ensures Lookup(table, key).Some? ==> exists i :: 0 <= i < |table| && table[i] == (key, Lookup(table, key).value)
  {
    if |table| > 0 && table[0].0 != key {
      LookupFound(table[1..], key);
      if Lookup(table, key).Some? {
        var i :| 0 <= i < |table[1..]| && table[1..][i] == (key, Lookup(table, key).value);
        assert table[i + 1] == (key, Lookup(table, key).value);
      }
    }
  }

  /** The click budget initGame sets: the configured limit, else 333. */
  function ClickLimitFor(mechanics: Option<ExamMechanics>): (r: int)
    ensures r != 0
    ensures mechanics.None? || mechanics.value.clickLimit.None? ==> r == 333
  {
    if mechanics.Some? && mechanics.value.clickLimit.Some? then Configured(mechanics.value.clickLimit.value, 333) else 333
  }

  /** The time limit in seconds initGame sets: 60 × the configured minutes, else 60 × 240/60. */
  function TimeLimitFor(mechanics: Option<ExamMechanics>): (r: int)
    ensures r != 0 && r % 60 == 0
    ensures mechanics.None? || mechanics.value.timeLimit.None? ==> r == 240
  {
    if mechanics.Some? && mechanics.value.timeLimit.Some? then Configured(mechanics.value.timeLimit.value, 240 / 60) * 60 else 240
  }

  /** The limits a new save carries (33 clicks and 4 minutes for each exam type) give 33 clicks and 240 seconds. */
  lemma InitialSaveLimits()
    ensures var limits := Some(ExamMechanics(
              Some([("monthly", 33), ("midterm", 33), ("final", 33), ("mock", 33), ("middle", 33)]),
              Some([("monthly", 4), ("midterm", 4), ("final", 4), ("mock", 4), ("middle", 4)])));
            ClickLimitFor(limits) == 33 && TimeLimitFor(limits) == 240
  {
  }

  // ---------------------------------------------------------------- the round itself

  class ExamEmbedSystem {
    var grid: array<Cell>
    var clicksLeft: int
    var clickLimit: int
    var timeLeft: int
    /** In hundredths of a point. */
    var currentScore: int
    var flippedCount: int
    var gameActive: bool

    /** A board of 49 settled cells whose running score and flipped count agree with the cells. */
    ghost predicate Valid()
      reads this, grid
    {
      && grid.Length == CellCount
      && (forall i :: 0 <= i < CellCount ==> Settled(grid[i]))
      && currentScore == TotalScore(grid[..])
      && flippedCount == ACCount(grid[..])
    }

    constructor ()
      ensures grid.Length == 0 && clicksLeft == 0 && clickLimit == 0 && timeLeft == 240
      ensures currentScore == 0 && flippedCount == 0 && !gameActive
    {
      grid := new Cell[0];
      clicksLeft := 0;
      clickLimit := 0;
      timeLeft := 240;
      currentScore := 0;
      flippedCount := 0;
      gameActive := false;
    }

    /** getCurrentGameResult: a snapshot of the round; `timeSpent` is measured against 240 s whatever the limit. */
    function GetCurrentGameResult(): (r: GameResult)
      reads this, grid
      ensures r.hasClicked <==> r.clicksUsed > 0
      ensures r.clicksUsed == clickLimit - clicksLeft && r.totalCells == CellCount
      ensures Valid() ==> r.score == TotalScore(grid[..]) && 0 <= r.flippedCount <= r.totalCells
    {
      GameResult(currentScore, 100, 240 - timeLeft, clickLimit - clicksLeft, flippedCount, CellCount,
        clickLimit - clicksLeft > 0)
    }

    /** initGame: read the limits, reset the counters and deal a fresh board. */
    method InitGame(mechanics: Option<ExamMechanics>, specialDraw: real, costDraws: seq<real>)
      requires Unit(specialDraw) && |costDraws| == CellCount && AllUnit(costDraws)
      modifies this
      ensures Valid() && fresh(grid) && gameActive
      ensures clickLimit == ClickLimitFor(mechanics) && clicksLeft == clickLimit
      ensures timeLeft == TimeLimitFor(mechanics)
      ensures currentScore == 0 && flippedCount == 0
      ensures forall i :: 0 <= i < CellCount ==> grid[i].status == Default && 1 <= grid[i].cost <= 6
      ensures forall i :: 0 <= i < CellCount ==>
        (grid[i].isSpecial <==> i == FloorScaled(specialDraw, CellCount)) && grid[i].score == (if grid[i].isSpecial then 4 else 2)
    {
      clickLimit := ClickLimitFor(mechanics);
      clicksLeft := clickLimit;
      timeLeft := TimeLimitFor(mechanics);
      currentScore := 0;
      flippedCount := 0;
      grid := GenerateGridData(specialDraw, costDraws);
      gameActive := true;
      UntouchedBoard(grid[..]);
    }

    /**
     * updateCellStatus: recompute the status of a cell whose cost was just lowered, and move the
     * running score and the flipped count by what the cell's change is worth.
     */
    method UpdateCellStatus(index: int, u: real)
      requires grid.Length == CellCount && 0 <= index < CellCount && Unit(u)
      requires forall i :: 0 <= i < CellCount && i != index ==> Settled(grid[i])
      requires WellFormed(grid[index])
      requires currentScore == TotalScore(grid[..]) && flippedCount == ACCount(grid[..])
      modifies grid, this`currentScore, this`flippedCount
      ensures Valid()
      ensures grid[index] == UpdatedCell(old(grid[index]), u)
      ensures forall i :: 0 <= i < CellCount && i != index ==> grid[i] == old(grid[i])
      ensures currentScore == old(currentScore) - Contribution(old(grid[index])) + Contribution(grid[index])
      ensures flippedCount == old(flippedCount) + (if old(grid[index].status) != AC && grid[index].status == AC then 1 else 0)
    {
      ghost var updated := UpdatedCell(grid[index], u);
      var previousStatus := grid[index].status;
      var previousScore := grid[index].partialScore;
      if 2 * grid[index].cost > grid[index].originalCost {
        grid[index] := grid[index].(status := WA);
      } else if grid[index].cost > 0 {
        grid[index] := grid[index].(status := NEC);
        if grid[index].partialScore == 0 {
          grid[index] := grid[index].(partialScore := PartialScore(grid[index].score, u));
        }
        if previousStatus != NEC {
          currentScore := currentScore + grid[index].partialScore;
        }
      } else {
        grid[index] := grid[index].(status := AC);
        if previousStatus != AC {
          if previousStatus == NEC {
            currentScore := currentScore - previousScore + grid[index].score * 100;
          } else {
            currentScore := currentScore + grid[index].score * 100;
          }
          flippedCount := flippedCount + 1;
        }
      }
      assert grid[index] == updated && Settled(updated);
      assert grid[..] == old(grid[..])[index := updated];
      TotalScoreUpdate(old(grid[..]), index, updated);
      ACCountUpdate(old(grid[..]), index, updated);
    }

    /** endGame */
    method EndGame()
      modifies this`gameActive
      ensures !gameActive
    {
      gameActive := false;
    }

    /** checkGameEnd: the round ends once the budget is spent or all 49 cells are AC. */
    method CheckGameEnd()
      modifies this`gameActive
      ensures gameActive == (old(gameActive) && clicksLeft > 0 && flippedCount < CellCount)
    {
      if clicksLeft <= 0 {
        EndGame();
      } else if flippedCount >= CellCount {
        EndGame();
      }
    }

    /**
     * The primary step of handleCellClick. A click on an inactive round, with no budget left or
     * on an AC cell changes nothing. Otherwise it spends one click, lowers the cell's cost by 2,
     * updates that cell, and ends the round at once if that was the last click.
     */
    method HandleCellClick(row: int, col: int, u: real) returns (accepted: bool)
      requires Valid() && 0 <= row < Side && 0 <= col < Side && Unit(u)
      modifies grid, this`clicksLeft, this`currentScore, this`flippedCount, this`gameActive
      ensures Valid()
      ensures accepted == (old(gameActive) && old(clicksLeft) > 0 && old(grid[row * Side + col].status) != AC)
      ensures !accepted ==> unchanged(this) && unchanged(grid)
      ensures accepted ==>
        && clicksLeft == old(clicksLeft) - 1
        && grid[row * Side + col] == UpdatedCell(old(grid[row * Side + col]).(cost := old(grid[row * Side + col].cost) - 2), u)
        && (forall i :: 0 <= i < CellCount && i != row * Side + col ==> grid[i] == old(grid[i]))
        && gameActive == (clicksLeft > 0)
      ensures forall i :: 0 <= i < CellCount ==>
        grid[i].cost <= old(grid[i].cost) && Progress(old(grid[i].status)) <= Progress(grid[i].status)
    {
      accepted := false;
      if !gameActive { return; }
      var index := row * Side + col;
      if clicksLeft <= 0 { return; }
      if grid[index].status == AC { return; }
      accepted := true;
      clicksLeft := clicksLeft - 1;
      ghost var before := grid[..];
      LoweredKeepsTotals(before, index, 2);
      grid[index] := grid[index].(cost := grid[index].cost - 2);
      assert grid[..] == before[index := grid[index]];
      UpdateCellStatus(index, u);
      if clicksLeft <= 0 {
        CheckGameEnd();
      }
    }

    /** One neighbour of affectAdjacentCells: lower a non-AC cell's cost by 1 and update it. */
    method LowerNeighbour(index: int, u: real)
      requires Valid() && 0 <= index < CellCount && Unit(u) && grid[index].status != AC
      modifies grid, this`currentScore, this`flippedCount
      ensures Valid()
      ensures LoweredOnce(old(grid[index]), grid[index])
      ensures forall i :: 0 <= i < CellCount && i != index ==> grid[i] == old(grid[i])
    {
      ghost var before := grid[..];
      LoweredKeepsTotals(before, index, 1);
      grid[index] := grid[index].(cost := grid[index].cost - 1);
      assert grid[..] == before[index := grid[index]];
      UpdateCellStatus(index, u);
    }

    /**
     * affectAdjacentCells: Math.floor(numDraw * 3) + 2 of the shuffled directions are chosen; each
     * chosen neighbour that is on the board and not AC loses 1 cost and is updated, drawing from
     * `draws` in choice order.
     */
    method AffectAdjacentCells(row: int, col: int, numDraw: real, order: seq<int>, draws: seq<real>)
      requires Valid() && 0 <= row < Side && 0 <= col < Side
      requires Unit(numDraw) && IsDirectionOrder(order) && |draws| == 4 && AllUnit(draws)
      modifies grid, this`currentScore, this`flippedCount
      ensures Valid()
      ensures LoweredAt(old(grid[..]), grid[..], TargetList(row, col, order[..RandomInt(numDraw, 2, 4)]))
    {
      var numDirections := RandomInt(numDraw, 2, 4);
      var selected := order[..numDirections];
      var k := 0;
      while k < |selected|
        invariant 0 <= k <= |selected|
        invariant Valid()
        invariant LoweredAt(old(grid[..]), grid[..], TargetList(row, col, selected[..k]))
      {
        VisitDirection(row, col, selected, k, draws[k], old(grid[..]));
        k := k + 1;
      }
      assert selected[..|selected|] == selected;
    }

    /** One pass of affectAdjacentCells' loop: lower the k-th chosen neighbour if it is on the board and not AC. */
    method VisitDirection(row: int, col: int, selected: seq<int>, k: int, u: real, ghost start: seq<Cell>)
      requires Valid() && 0 <= row < Side && 0 <= col < Side && Unit(u)
      requires 0 <= k < |selected| && NoDuplicates(selected) && forall i :: 0 <= i < |selected| ==> 0 <= selected[i] < 8
      requires LoweredAt(start, grid[..], TargetList(row, col, selected[..k]))
      modifies grid, this`currentScore, this`flippedCount
      ensures Valid() && LoweredAt(start, grid[..], TargetList(row, col, selected[..k + 1]))
    {
      var target := Target(row, col, selected[k]);
      TargetListSnoc(row, col, selected, k);
      if target.Some? {
        var index := target.value;
        FreshTarget(row, col, selected, k);
        ghost var mid := grid[..];
        if grid[index].status != AC {
          LowerNeighbour(index, u);
          LoweredAtStep(start, mid, grid[..], TargetList(row, col, selected[..k]), index);
        } else {
          LoweredAtSkip(start, grid[..], TargetList(row, col, selected[..k]), index);
        }
      }
    }

    /**
     * The 100 ms callback of handleCellClick: if the round is still active, lower the neighbours,
     * then check whether the round is over.
     */
    method NeighbourPhase(row: int, col: int, numDraw: real, order: seq<int>, draws: seq<real>)
      requires Valid() && 0 <= row < Side && 0 <= col < Side
      requires Unit(numDraw) && IsDirectionOrder(order) && |draws| == 4 && AllUnit(draws)
      modifies grid, this`currentScore, this`flippedCount, this`gameActive
      ensures Valid()
      ensures !old(gameActive) ==> unchanged(this) && unchanged(grid)
      ensures old(gameActive) ==> gameActive == (clicksLeft > 0 && flippedCount < CellCount)
      ensures old(gameActive) ==> LoweredAt(old(grid[..]), grid[..], TargetList(row, col, order[..RandomInt(numDraw, 2, 4)]))
    {
      if gameActive {
        AffectAdjacentCells(row, col, numDraw, order, draws);
        CheckGameEnd();
      }
    }

    /**
     * A whole click as the browser runs it: the primary step, then the neighbour phase. The click
     * that spends the last of the budget ends the round, so its neighbours are never lowered.
     */
    method Click(row: int, col: int, u: real, numDraw: real, order: seq<int>, draws: seq<real>)
      returns (accepted: bool)
      requires Valid() && 0 <= row < Side && 0 <= col < Side && Unit(u)
      requires Unit(numDraw) && IsDirectionOrder(order) && |draws| == 4 && AllUnit(draws)
      modifies grid, this`clicksLeft, this`currentScore, this`flippedCount, this`gameActive
      ensures Valid()
      ensures !accepted ==> unchanged(this) && unchanged(grid)
      ensures accepted && old(clicksLeft) == 1 ==>
        !gameActive && clicksLeft == 0 &&
        forall i :: 0 <= i < CellCount && i != row * Side + col ==> grid[i] == old(grid[i])
    {
      accepted := HandleCellClick(row, col, u);
      if accepted {
        NeighbourPhase(row, col, numDraw, order, draws);
      }
    }

    /** One second of startTimer's interval: count down and end the round when time is up. */
    method Tick()
      modifies this`timeLeft, this`gameActive
      ensures !old(gameActive) ==> unchanged(this)
      ensures old(gameActive) ==> timeLeft == old(timeLeft) - 1 && gameActive == (timeLeft > 0)
    {
      if !gameActive { return; }
      timeLeft := timeLeft - 1;
      if timeLeft <= 0 {
        EndGame();
      }
    }
  }
}
