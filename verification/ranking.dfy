/**
 * The grade ranking of GameUtils (utils.js): after every exam the 30 simulated classmates sit it,
 * the player's scores join them, randomly drawn "other" students fill the grade up to its size,
 * and the whole list is sorted by total, best first. Also the percentile grade buckets.
 */
module Ranking {
  import opened Wrappers
  import opened Utils
  import opened GameData
  import opened Sorting
  import opened Cohort
  import opened Abilities

  // ---------------------------------------------------------------- percentile grades

  datatype RankGrade = APlus | A | B | C | D

  function RankGradeOrder(g: RankGrade): int
  {
    match g
    case APlus => 4
    case A => 3
    case B => 2
    case C => 1
    case D => 0
  }

  /** For a positive denominator, `a / t <= c` exactly when `a <= c * t`. */
  lemma FractionAtMost(a: real, t: real, c: real)
    requires t > 0.0
    ensures a / t <= c <==> a <= c * t
  {
    var q := a / t;
    assert q * t == a;
    if q <= c {
      MulMonotone(q, c, t);
    } else {
      var d := q - c;
      assert d * t > 0.0;
      assert a - c * t == d * t;
    }
  }

  /**
   * calculateSubjectGrade and calculateTotalGrade, which are the same map and ignore the score:
   * the rank as a fraction of the grade's size, cut at 5%, 15%, 25% and 70%. With no students
   * the fraction is infinite or NaN, which gives D, unless the rank is negative.
   */
  function PercentileGrade(rank: int, totalStudents: nat): (g: RankGrade)
    ensures totalStudents > 0 ==> (g == APlus <==> 20 * rank <= totalStudents)
    ensures totalStudents > 0 ==> (RankGradeOrder(g) >= RankGradeOrder(A) <==> 20 * rank <= 3 * totalStudents)
    ensures totalStudents > 0 ==> (RankGradeOrder(g) >= RankGradeOrder(B) <==> 4 * rank <= totalStudents)
    ensures totalStudents > 0 ==> (g == D <==> 10 * rank > 7 * totalStudents)
    ensures totalStudents == 0 ==> (g == APlus <==> rank < 0) && (g == D <==> rank >= 0)
  {
    if totalStudents == 0 then
      if rank < 0 then APlus else D
    else
      var t := totalStudents as real;
      var p := rank as real / t;
      FractionAtMost(rank as real, t, 0.05);
      FractionAtMost(rank as real, t, 0.15);
      FractionAtMost(rank as real, t, 0.25);
      FractionAtMost(rank as real, t, 0.70);
      if p <= 0.05 then APlus
      else if p <= 0.15 then A
      else if p <= 0.25 then B
      else if p <= 0.70 then C
      else D
  }

  /** In a grade of fixed size, a better (smaller) rank never gets a worse grade. */
  lemma PercentileGradeMonotone(r1: int, r2: int, totalStudents: nat)
    requires r1 <= r2
    ensures RankGradeOrder(PercentileGrade(r1, totalStudents)) >= RankGradeOrder(PercentileGrade(r2, totalStudents))
  {
  }

  // ---------------------------------------------------------------- entries

  datatype EntryId = StudentId(n: int) | PlayerId | OtherId(i: int)

  /** One line of the ranking: `{id, name, scores, totalScore, isPlayer}`. */
  datatype RankingEntry = RankingEntry(id: EntryId, name: string, scores: Scores, totalScore: real, isPlayer: bool)

  /** The comparator `b.totalScore - a.totalScore`: a comes first when its total is higher. */
  predicate ByTotalDesc(a: RankingEntry, b: RankingEntry) { a.totalScore > b.totalScore }

  lemma ByTotalDescOrder()
    ensures StrictWeakOrder(ByTotalDesc)
  {
  }

  predicate IsPlayerEntry(e: RankingEntry) { e.isPlayer }

  /** `examScores[subject] = studentScores[subject] || 0` for every subject of the exam. */
  function Pick(scores: Scores, subjects: seq<Subject>): (r: Scores)
    ensures Keys(r) == subjects
    ensures forall i :: 0 <= i < |r| ==> r[i].1 == Lookup(scores, subjects[i]).GetOr(0.0)
  {
    if |subjects| == 0 then []
    else [(subjects[0], Lookup(scores, subjects[0]).GetOr(0.0))] + Pick(scores, subjects[1..])
  }

  /** A classmate's line, from the scores of the exam just recorded. */
  function StudentEntry(id: int, name: string, examScores: Scores, subjects: seq<Subject>): RankingEntry
  {
    var picked := Pick(examScores, subjects);
    RankingEntry(StudentId(id), name, picked, RoundTo2(SumScores(picked)), false)
  }

  function PlayerEntry(playerScores: Scores): RankingEntry
  {
    RankingEntry(PlayerId, "玩家", playerScores, RoundTo2(SumScores(playerScores)), true)
  }

  /** `examSubjects || GRADES[grade].subjects`. */
  function CurrentSubjects(grade: GradeLevel, examSubjects: Option<seq<Subject>>): seq<Subject>
  {
    if examSubjects.Some? then examSubjects.value else GradeSubjects(grade)
  }

  function SumTotals(entries: seq<RankingEntry>): real
  {
    if |entries| == 0 then 0.0 else entries[0].totalScore + SumTotals(entries[1..])
  }

  lemma {:induction false} SumTotalsSnoc(entries: seq<RankingEntry>, e: RankingEntry)
    ensures SumTotals(entries + [e]) == SumTotals(entries) + e.totalScore
  {
    if |entries| > 0 {
      assert (entries + [e])[1..] == entries[1..] + [e];
      SumTotalsSnoc(entries[1..], e);
    }
  }

  // ---------------------------------------------------------------- filler students

  /** `Math.max(0, Math.min(totalFullScore, normalRandom(mean, 15)))`, the draw given as z. */
  function FillerTotal(mean: real, totalFull: int, z: real): (t: real)
    requires totalFull >= 0
    ensures 0.0 <= t <= totalFull as real
  {
    Max(0.0, Min(totalFull as real, z * 15.0 + mean))
  }

  /**
   * The share generateGradeRanking gives a subject that is not the last one: a draw between
   * `remaining - rest * fullScore` and `remaining - rest * 10`, bounded by 0 and the full score,
   * where `rest` counts the subjects still to come. The lower bound reserves the current
   * subject's full score for each later subject, not the later subjects' own full scores.
   */
  function AsWrittenPart(remaining: real, subjects: seq<Subject>, u: real): real
    requires |subjects| > 1
  {
    var full := FullScore(subjects[0]) as real;
    var rest := (|subjects| - 1) as real;
    var maxPossible := Min(full, remaining - rest * 10.0);
    var minPossible := Max(0.0, remaining - rest * full);
    minPossible + u * (maxPossible - minPossible)
  }

  /**
   * The share with the reserve the loop evidently means: what the later subjects can still
   * absorb is the sum of their own full scores. The 10-point reserve per later subject is kept
   * where it fits.
   */
  function CorrectedPart(remaining: real, subjects: seq<Subject>, u: real): (p: real)
    requires |subjects| > 1 && Unit(u)
    ensures 0.0 <= remaining <= TotalFull(subjects) as real ==>
      && 0.0 <= p <= FullScore(subjects[0]) as real
      && 0.0 <= remaining - p <= TotalFull(subjects[1..]) as real
  {
    assert TotalFull(subjects) == FullScore(subjects[0]) + TotalFull(subjects[1..]);
    Share(remaining, FullScore(subjects[0]) as real, TotalFull(subjects[1..]) as real, ((|subjects| - 1) * 10) as real, u)
  }

  /** A share between `remaining - restFull` and `remaining - reserve`, kept within [0, full]. */
  function Share(remaining: real, full: real, restFull: real, reserve: real, u: real): (p: real)
    requires Unit(u) && full >= 0.0 && restFull >= 0.0 && reserve >= 0.0
    ensures 0.0 <= remaining <= full + restFull ==> 0.0 <= p <= full && 0.0 <= remaining - p <= restFull
  {
    var lo := Max(0.0, remaining - restFull);
    var hi := Max(lo, Min(full, remaining - reserve));
    var spread := hi - lo;
    UnitScaled(u, spread);
    lo + u * spread
  }

  /**
   * The unrounded scores the loop hands out, subject by subject: each but the last gets its share
   * and the remainder shrinks by it; the last gets the remainder clamped to its full score.
   */
  function Parts(remaining: real, subjects: seq<Subject>, draws: seq<real>, corrected: bool): (p: seq<real>)
    requires |subjects| == 0 || |draws| == |subjects| - 1
    requires corrected ==> AllUnit(draws)
    ensures |p| == |subjects|
    decreases |subjects|
  {
    if |subjects| == 0 then []
    else if |subjects| == 1 then [Max(0.0, Min(FullScore(subjects[0]) as real, remaining))]
    else
      var part := if corrected then CorrectedPart(remaining, subjects, draws[0]) else AsWrittenPart(remaining, subjects, draws[0]);
      [part] + Parts(remaining - part, subjects[1..], draws[1..], corrected)
  }

  function SumReals(s: seq<real>): real
  {
    if |s| == 0 then 0.0 else s[0] + SumReals(s[1..])
  }

  /**
   * With the corrected reserve, a filler total within the exam's full marks is handed out
   * exactly, and every subject gets between 0 and its full score.
   */
  lemma CorrectedPartsExact(remaining: real, subjects: seq<Subject>, draws: seq<real>)
    requires |subjects| > 0 && |draws| == |subjects| - 1 && AllUnit(draws)
    requires 0.0 <= remaining <= TotalFull(subjects) as real
    ensures SumReals(Parts(remaining, subjects, draws, true)) == remaining
    ensures forall i :: 0 <= i < |subjects| ==> 0.0 <= Parts(remaining, subjects, draws, true)[i] <= FullScore(subjects[i]) as real
  {
    CorrectedPartsSum(remaining, subjects, draws);
    CorrectedPartsBounded(remaining, subjects, draws);
  }

  lemma {:induction false} CorrectedPartsSum(remaining: real, subjects: seq<Subject>, draws: seq<real>)
    requires |subjects| > 0 && |draws| == |subjects| - 1 && AllUnit(draws)
    requires 0.0 <= remaining <= TotalFull(subjects) as real
    ensures SumReals(Parts(remaining, subjects, draws, true)) == remaining
    decreases |subjects|
  {
    var p := Parts(remaining, subjects, draws, true);
    if |subjects| == 1 {
      assert TotalFull(subjects) == FullScore(subjects[0]);
      assert p == [remaining];
      SumReals1(remaining);
    } else {
      var part := CorrectedPart(remaining, subjects, draws[0]);
      assert AllUnit(draws[1..]);
      CorrectedPartsSum(remaining - part, subjects[1..], draws[1..]);
      PartsTail(remaining, subjects, draws, true);
      assert SumReals(p) == p[0] + SumReals(p[1..]);
    }
  }

  lemma SumReals1(x: real)
    ensures SumReals([x]) == x
  {
    assert [x][1..] == [];
  }

  lemma CorrectedPartsBounded(remaining: real, subjects: seq<Subject>, draws: seq<real>)
    requires |subjects| > 0 && |draws| == |subjects| - 1 && AllUnit(draws)
    requires 0.0 <= remaining <= TotalFull(subjects) as real
    ensures forall i :: 0 <= i < |subjects| ==> 0.0 <= Parts(remaining, subjects, draws, true)[i] <= FullScore(subjects[i]) as real
  {
    CorrectedSharesWithin(remaining, subjects, draws);
    SharesWithinAt(Parts(remaining, subjects, draws, true), subjects);
  }

  /** Each share lies between 0 and the full score of the subject at the same position. */
  predicate SharesWithin(p: seq<real>, subjects: seq<Subject>)
  {
    |p| == |subjects| &&
    (|p| > 0 ==> 0.0 <= p[0] <= FullScore(subjects[0]) as real && SharesWithin(p[1..], subjects[1..]))
  }

  lemma {:induction false} SharesWithinAt(p: seq<real>, subjects: seq<Subject>)
    requires SharesWithin(p, subjects)
    ensures forall i :: 0 <= i < |p| ==> 0.0 <= p[i] <= FullScore(subjects[i]) as real
  {
    if |p| > 0 {
      SharesWithinAt(p[1..], subjects[1..]);
      forall i | 1 <= i < |p| ensures 0.0 <= p[i] <= FullScore(subjects[i]) as real {
        assert p[i] == p[1..][i - 1] && subjects[i] == subjects[1..][i - 1];
      }
    }
  }

  lemma {:induction false} CorrectedSharesWithin(remaining: real, subjects: seq<Subject>, draws: seq<real>)
    requires |subjects| > 0 && |draws| == |subjects| - 1 && AllUnit(draws)
    requires 0.0 <= remaining <= TotalFull(subjects) as real
    ensures SharesWithin(Parts(remaining, subjects, draws, true), subjects)
    decreases |subjects|
  {
    var p := Parts(remaining, subjects, draws, true);
    if |subjects| == 1 {
      assert TotalFull(subjects) == FullScore(subjects[0]);
      assert p[0] == Max(0.0, Min(FullScore(subjects[0]) as real, remaining));
      assert p[1..] == [] && subjects[1..] == [];
    } else {
      var part := CorrectedPart(remaining, subjects, draws[0]);
      assert AllUnit(draws[1..]);
      CorrectedSharesWithin(remaining - part, subjects[1..], draws[1..]);
      PartsTail(remaining, subjects, draws, true);
    }
  }

  /**
   * As written, the midterm (Chinese 120, Math 100, English 100, Politics 50, History 70) with a
   * filler total of 400 and every draw 0.5 gives Politics 92.5 out of 50.
   */
  lemma FillerSplitExceedsFull()
    ensures var p := Parts(400.0, ExamSubjects(Midterm), [0.5, 0.5, 0.5, 0.5], false);
      p[3] == 92.5 && p[3] > FullScore(Politics) as real && RoundTo2(p[3]) == p[3]
  {
    var subjects := ExamSubjects(Midterm);
    var draws := [0.5, 0.5, 0.5, 0.5];
    assert AsWrittenPart(400.0, subjects, 0.5) == 60.0;
    assert AsWrittenPart(340.0, subjects[1..], 0.5) == 70.0;
    assert AsWrittenPart(270.0, subjects[2..], 0.5) == 85.0;
    assert AsWrittenPart(185.0, subjects[3..], 0.5) == 92.5;
    assert subjects[1..][1..] == subjects[2..] && subjects[2..][1..] == subjects[3..];
    assert draws[1..][1..] == draws[2..] && draws[2..][1..] == draws[3..];
    var p := Parts(400.0, subjects, draws, false);
    assert p[3] == Parts(185.0, subjects[3..], draws[3..], false)[0];
    RoundOfInt(9250);
    assert 92.5 * 100.0 == 9250 as real;
  }

  /** A filler's scores as generateGradeRanking hands them out: each as-written share, kept to two decimals. */
  function FillerScores(total: real, subjects: seq<Subject>, draws: seq<real>): (r: Scores)
    requires |subjects| == 0 || |draws| == |subjects| - 1
    ensures Keys(r) == subjects
  {
    RoundedShares(subjects, Parts(total, subjects, draws, false))
  }

  /** The scores the split evidently means: each corrected share, kept to two decimals. */
  function CorrectedFillerScores(total: real, subjects: seq<Subject>, draws: seq<real>): (r: Scores)
    requires |subjects| == 0 || |draws| == |subjects| - 1
    requires AllUnit(draws)
    ensures Keys(r) == subjects
  {
    RoundedShares(subjects, Parts(total, subjects, draws, true))
  }

  /** Each subject paired with its share, kept to two decimals. */
  function RoundedShares(subjects: seq<Subject>, p: seq<real>): (r: Scores)
    requires |p| == |subjects|
    ensures |r| == |subjects|
    ensures forall i :: 0 <= i < |subjects| ==> r[i] == (subjects[i], RoundTo2(p[i]))
  {
    seq(|subjects|, i requires 0 <= i < |subjects| => (subjects[i], RoundTo2(p[i])))
  }

  /** Whichever reserve the shares use, the last subject gets the remainder clamped to [0, its full score]. */
  lemma {:induction false} PartsLastWithin(remaining: real, subjects: seq<Subject>, draws: seq<real>, corrected: bool)
    requires |subjects| > 0 && |draws| == |subjects| - 1
    requires corrected ==> AllUnit(draws)
    ensures var p := Parts(remaining, subjects, draws, corrected);
      0.0 <= p[|subjects| - 1] <= FullScore(subjects[|subjects| - 1]) as real
    decreases |subjects|
  {
    if |subjects| > 1 {
      var p := Parts(remaining, subjects, draws, corrected);
      PartsTail(remaining, subjects, draws, corrected);
      assert corrected ==> AllUnit(draws[1..]);
      PartsLastWithin(remaining - p[0], subjects[1..], draws[1..], corrected);
      assert p[|subjects| - 1] == p[1..][|subjects| - 2];
    }
  }

  /** After the first share, the shares are those of what remains over the other subjects. */
  lemma PartsTail(remaining: real, subjects: seq<Subject>, draws: seq<real>, corrected: bool)
    requires |subjects| > 1 && |draws| == |subjects| - 1
    requires corrected ==> AllUnit(draws)
    ensures var p := Parts(remaining, subjects, draws, corrected);
      p[1..] == Parts(remaining - p[0], subjects[1..], draws[1..], corrected)
  {
  }

  /**
   * Of a filler's scores as written, the last subject's (the remainder, clamped) lies within its
   * full score; the others carry no such bound, see FillerScoresExceedFull.
   */
  lemma FillerScoresLastWithinFull(total: real, subjects: seq<Subject>, draws: seq<real>)
    requires |subjects| > 0 && |draws| == |subjects| - 1
    ensures 0.0 <= FillerScores(total, subjects, draws)[|subjects| - 1].1 <= FullScore(subjects[|subjects| - 1]) as real
  {
    var p := Parts(total, subjects, draws, false);
    PartsLastWithin(total, subjects, draws, false);
    RoundTo2Within(p[|subjects| - 1], 0, FullScore(subjects[|subjects| - 1]));
  }

  /** As written, the midterm filler of FillerSplitExceedsFull gets Politics 92.5 of 50 in its scores. */
  lemma FillerScoresExceedFull()
    ensures !WithinFull(FillerScores(400.0, ExamSubjects(Midterm), [0.5, 0.5, 0.5, 0.5]))
  {
    var r := FillerScores(400.0, ExamSubjects(Midterm), [0.5, 0.5, 0.5, 0.5]);
    FillerSplitExceedsFull();
    assert r[3] == (Politics, 92.5);
  }

  /** With the corrected split, every score of a filler whose total is within the exam's full marks is within its subject's. */
  lemma CorrectedFillerScoresWithinFull(total: real, subjects: seq<Subject>, draws: seq<real>)
    requires |subjects| > 0 && |draws| == |subjects| - 1 && AllUnit(draws)
    requires 0.0 <= total <= TotalFull(subjects) as real
    ensures WithinFull(CorrectedFillerScores(total, subjects, draws))
  {
    var p := Parts(total, subjects, draws, true);
    CorrectedPartsExact(total, subjects, draws);
    forall i | 0 <= i < |subjects|
      ensures 0.0 <= RoundTo2(p[i]) <= FullScore(subjects[i]) as real
    {
      RoundTo2Within(p[i], 0, FullScore(subjects[i]));
    }
  }

  /** The inner loop of a filler: share out `total` over the subjects, keeping a running remainder. */
  method SplitFillerTotal(total: real, subjects: seq<Subject>, draws: seq<real>) returns (scores: Scores)
    requires |subjects| == 0 || |draws| == |subjects| - 1
    ensures scores == FillerScores(total, subjects, draws)
  {
    scores := [];
    var remaining := total;
    var j := 0;
    SplitStart(total, subjects, draws);
    while j < |subjects|
      invariant 0 <= j <= |subjects|
      invariant SplitProgress(total, subjects, draws, j, remaining, scores)
    {
      if j == |subjects| - 1 {
        SplitLast(total, subjects, draws, remaining, scores);
        scores := scores + [(subjects[j], RoundTo2(Max(0.0, Min(FullScore(subjects[j]) as real, remaining))))];
      } else {
        var score := AsWrittenPart(remaining, subjects[j..], draws[j]);
        SplitStep(total, subjects, draws, j, remaining, scores);
        scores := scores + [(subjects[j], RoundTo2(score))];
        remaining := remaining - score;
      }
      j := j + 1;
    }
    SplitDone(total, subjects, draws, remaining, scores);
  }

  /**
   * The state of SplitFillerTotal's loop after `j` subjects: their scores are the first `j` shares
   * kept to two decimals, and sharing out `remaining` over the rest gives the remaining shares.
   */
  ghost predicate SplitProgress(total: real, subjects: seq<Subject>, draws: seq<real>, j: int, remaining: real, scores: Scores)
    requires |subjects| == 0 || |draws| == |subjects| - 1
  {
    var p := Parts(total, subjects, draws, false);
    && 0 <= j <= |subjects| && |scores| == j
    && (forall i :: 0 <= i < j ==> scores[i] == (subjects[i], RoundTo2(p[i])))
    && (j < |subjects| ==> Parts(remaining, subjects[j..], draws[j..], false) == p[j..])
  }

  lemma SplitStart(total: real, subjects: seq<Subject>, draws: seq<real>)
    requires |subjects| == 0 || |draws| == |subjects| - 1
    ensures SplitProgress(total, subjects, draws, 0, total, [])
  {
    assert subjects[0..] == subjects && draws[0..] == draws;
  }

  /** One step of the loop: the share at `j`, then the shares of what remains after it. */
  lemma SplitStep(total: real, subjects: seq<Subject>, draws: seq<real>, j: int, remaining: real, scores: Scores)
    requires |draws| == |subjects| - 1 && 0 <= j < |subjects| - 1
    requires SplitProgress(total, subjects, draws, j, remaining, scores)
    ensures var score := AsWrittenPart(remaining, subjects[j..], draws[j]);
      SplitProgress(total, subjects, draws, j + 1, remaining - score, scores + [(subjects[j], RoundTo2(score))])
  {
    var p := Parts(total, subjects, draws, false);
    var ss, ds := subjects[j..], draws[j..];
    assert ss[1..] == subjects[j + 1..] && ds[1..] == draws[j + 1..] && ds[0] == draws[j] && ss[0] == subjects[j];
    assert p[j..][1..] == p[j + 1..];
  }

  /** The last step: the last subject gets the remainder, clamped to its full score. */
  lemma SplitLast(total: real, subjects: seq<Subject>, draws: seq<real>, remaining: real, scores: Scores)
    requires |subjects| > 0 && |draws| == |subjects| - 1
    requires SplitProgress(total, subjects, draws, |subjects| - 1, remaining, scores)
    ensures var last := subjects[|subjects| - 1];
      SplitProgress(total, subjects, draws, |subjects|, remaining,
        scores + [(last, RoundTo2(Max(0.0, Min(FullScore(last) as real, remaining))))])
  {
    var p := Parts(total, subjects, draws, false);
    assert p[|subjects| - 1..][0] == p[|subjects| - 1];
  }

  /** After every subject, the scores are the filler's scores. */
  lemma SplitDone(total: real, subjects: seq<Subject>, draws: seq<real>, remaining: real, scores: Scores)
    requires |subjects| == 0 || |draws| == |subjects| - 1
    requires SplitProgress(total, subjects, draws, |subjects|, remaining, scores)
    ensures scores == FillerScores(total, subjects, draws)
  {
  }

  /**
   * The draws of one filler student: the standard-normal z of its total, its share draws, and
   * the three picks of its name (gender, surname, given name).
   */
  datatype FillerDraws = FillerDraws(z: real, split: seq<real>, gender: real, surname: real, given: real)

  predicate ValidFillerDraws(f: FillerDraws, subjects: seq<Subject>)
  {
    (|subjects| == 0 || |f.split| == |subjects| - 1) && AllUnit(f.split) &&
    Unit(f.gender) && Unit(f.surname) && Unit(f.given)
  }

  const Surnames: string := "张王李赵刘陈杨黄周吴徐孙马朱胡郭何林高罗"
  const MaleNames: string := "伟强磊洋勇军杰涛超明刚平辉鹏华飞鑫波斌宇"
  const FemaleNames: string := "静婷丽敏燕艳娟莉芳萍玲娜丹梅秀英红霞玉凤"

  /** RandomUtils.randomChoice on a non-empty list: the element at `floor(u * length)`. */
  function RandomChoice<T>(u: real, arr: seq<T>): (r: T)
    requires Unit(u) && |arr| > 0
    ensures r in arr
  {
    arr[FloorScaled(u, |arr|)]
  }

  /**
   * A filler's name: a surname, then a given name from the boys' list when the gender pick
   * (between 'boy' and 'girl') lands on 'boy', from the girls' list otherwise.
   */
  function FillerName(f: FillerDraws): (name: string)
    requires Unit(f.gender) && Unit(f.surname) && Unit(f.given)
    ensures |name| == 2 && name[0] in Surnames
    ensures name[1] in (if RandomChoice(f.gender, ["boy", "girl"]) == "boy" then MaleNames else FemaleNames)
  {
    var gender := RandomChoice(f.gender, ["boy", "girl"]);
    [RandomChoice(f.surname, Surnames)] + [RandomChoice(f.given, if gender == "boy" then MaleNames else FemaleNames)]
  }

  function FillerEntry(i: int, mean: real, subjects: seq<Subject>, f: FillerDraws): RankingEntry
    requires ValidFillerDraws(f, subjects)
  {
    var t := FillerTotal(mean, TotalFull(subjects), f.z);
    RankingEntry(OtherId(i), FillerName(f), FillerScores(t, subjects, f.split), RoundTo2(t), false)
  }

  /** The number of filler students: the grade's size less the roster and the player, if positive. */
  function FillerCount(totalStudents: int, rosterSize: int): (n: nat)
    ensures rosterSize + 1 + n == (if totalStudents >= rosterSize + 1 then totalStudents else rosterSize + 1)
  {
    if totalStudents - rosterSize - 1 > 0 then totalStudents - rosterSize - 1 else 0
  }
  // ---------------------------------------------------------------- the whole ranking

  /** The fillers `other_0`, `other_1`, ... drawn around `mean`. */
  function FillerEntries(mean: real, subjects: seq<Subject>, draws: seq<FillerDraws>): (r: seq<RankingEntry>)
    requires forall i :: 0 <= i < |draws| ==> ValidFillerDraws(draws[i], subjects)
    ensures |r| == |draws|
  {
    seq(|draws|, i requires 0 <= i < |draws| => FillerEntry(i, mean, subjects, draws[i]))
  }

  /** The mean total of the lines known before the fillers are drawn. */
  function MeanTotal(known: seq<RankingEntry>): real
    requires |known| > 0
  {
    SumTotals(known) / |known| as real
  }

  /**
   * The list generateGradeRanking builds before it sorts: the classmates in roster order, the
   * player, then the fillers drawn around the mean total of those two.
   */
  function Unsorted(students: seq<RankingEntry>, playerScores: Scores, subjects: seq<Subject>, fillers: seq<FillerDraws>): (r: seq<RankingEntry>)
    requires forall i :: 0 <= i < |fillers| ==> ValidFillerDraws(fillers[i], subjects)
    ensures |r| == |students| + 1 + |fillers|
  {
    var known := students + [PlayerEntry(playerScores)];
    known + FillerEntries(MeanTotal(known), subjects, fillers)
  }

  /** The ranking: the list above sorted by total, best first, keeping the list's order among equal totals. */
  function GradeRanking(students: seq<RankingEntry>, playerScores: Scores, subjects: seq<Subject>, fillers: seq<FillerDraws>): (r: seq<RankingEntry>)
    requires forall i :: 0 <= i < |fillers| ==> ValidFillerDraws(fillers[i], subjects)
    ensures |r| == |students| + 1 + |fillers|
  {
    StableSort(Unsorted(students, playerScores, subjects, fillers), ByTotalDesc)
  }

  /** The ranking holds exactly the lines of the list, best total first. */
  lemma GradeRankingSorted(students: seq<RankingEntry>, playerScores: Scores, subjects: seq<Subject>, fillers: seq<FillerDraws>)
    requires forall i :: 0 <= i < |fillers| ==> ValidFillerDraws(fillers[i], subjects)
    ensures var r := GradeRanking(students, playerScores, subjects, fillers);
      && multiset(r) == multiset(Unsorted(students, playerScores, subjects, fillers))
      && forall i, j :: 0 <= i < j < |r| ==> r[i].totalScore >= r[j].totalScore
  {
    ByTotalDescOrder();
    StableSortSorted(Unsorted(students, playerScores, subjects, fillers), ByTotalDesc);
  }

  /** Lines with equal totals keep the list's order: classmates, then the player, then the fillers. */
  lemma GradeRankingStable(students: seq<RankingEntry>, playerScores: Scores, subjects: seq<Subject>, fillers: seq<FillerDraws>, e: RankingEntry)
    requires forall i :: 0 <= i < |fillers| ==> ValidFillerDraws(fillers[i], subjects)
    ensures TiesWith(GradeRanking(students, playerScores, subjects, fillers), ByTotalDesc, e) ==
            TiesWith(Unsorted(students, playerScores, subjects, fillers), ByTotalDesc, e)
  {
    ByTotalDescOrder();
    StableSortStable(Unsorted(students, playerScores, subjects, fillers), ByTotalDesc, e);
  }

  /** When no classmate's line is the player's, the player appears in the ranking exactly once. */
  lemma GradeRankingPlayerOnce(students: seq<RankingEntry>, playerScores: Scores, subjects: seq<Subject>, fillers: seq<FillerDraws>)
    requires forall i :: 0 <= i < |fillers| ==> ValidFillerDraws(fillers[i], subjects)
    requires forall i :: 0 <= i < |students| ==> !students[i].isPlayer
    ensures Count(GradeRanking(students, playerScores, subjects, fillers), IsPlayerEntry) == 1
  {
    PlayerCountedOnce(students, playerScores, subjects, fillers);
    StableSortCount(Unsorted(students, playerScores, subjects, fillers), ByTotalDesc, IsPlayerEntry);
  }

  lemma PlayerCountedOnce(students: seq<RankingEntry>, playerScores: Scores, subjects: seq<Subject>, fillers: seq<FillerDraws>)
    requires forall i :: 0 <= i < |fillers| ==> ValidFillerDraws(fillers[i], subjects)
    requires forall i :: 0 <= i < |students| ==> !students[i].isPlayer
    ensures Count(Unsorted(students, playerScores, subjects, fillers), IsPlayerEntry) == 1
  {
    var known := students + [PlayerEntry(playerScores)];
    var others := FillerEntries(MeanTotal(known), subjects, fillers);
    CountNone(students, IsPlayerEntry);
    CountNone(others, IsPlayerEntry);
    CountSplit(students, [PlayerEntry(playerScores)], IsPlayerEntry);
    CountSplit(known, others, IsPlayerEntry);
    assert Count([PlayerEntry(playerScores)], IsPlayerEntry) == 1;
  }

  /** No element satisfies `p`, so none is counted. */
  lemma {:induction false} CountNone<T>(s: seq<T>, p: T -> bool)
    requires forall i :: 0 <= i < |s| ==> !p(s[i])
    ensures Count(s, p) == 0
  {
    if |s| > 0 {
      CountNone(s[1..], p);
    }
  }

  /**
   * A filler's total is within the exam's full marks, its scores are keyed by the exam's subjects,
   * and its last subject's score (the clamped remainder) is within that subject's full score.
   */
  lemma FillerEntriesWithinFull(mean: real, subjects: seq<Subject>, draws: seq<FillerDraws>)
    requires forall i :: 0 <= i < |draws| ==> ValidFillerDraws(draws[i], subjects)
    ensures forall e :: e in FillerEntries(mean, subjects, draws) ==>
      && 0.0 <= e.totalScore <= TotalFull(subjects) as real
      && Keys(e.scores) == subjects && !e.isPlayer
      && (|subjects| > 0 ==> 0.0 <= e.scores[|subjects| - 1].1 <= FullScore(subjects[|subjects| - 1]) as real)
  {
    var r := FillerEntries(mean, subjects, draws);
    forall i | 0 <= i < |r|
      ensures 0.0 <= r[i].totalScore <= TotalFull(subjects) as real
      ensures Keys(r[i].scores) == subjects
      ensures |subjects| > 0 ==> 0.0 <= r[i].scores[|subjects| - 1].1 <= FullScore(subjects[|subjects| - 1]) as real
    {
      var t := FillerTotal(mean, TotalFull(subjects), draws[i].z);
      RoundTo2Within(t, 0, TotalFull(subjects));
      if |subjects| > 0 {
        FillerScoresLastWithinFull(t, subjects, draws[i].split);
      }
    }
  }
  /** The classmates' lines, each from the scores of the student's latest recorded exam. */
  ghost function RosterEntries(roster: seq<Student>, subjects: seq<Subject>): (r: seq<RankingEntry>)
    reads roster
    ensures |r| == |roster|
    ensures forall j :: 0 <= j < |r| ==> !r[j].isPlayer
  {
    seq(|roster|, j reads roster requires 0 <= j < |roster| =>
      StudentEntry(roster[j].id, roster[j].name, LatestScores(roster[j].exams), subjects))
  }

  /** The scores of the latest exam of a history; none for an empty one. */
  function LatestScores(exams: seq<ExamRecord>): Scores
  {
    if |exams| == 0 then [] else exams[|exams| - 1].scores
  }

  /**
   * A student who had `factors0`, `flags0` and `exams0` sat exam `examIndex` as
   * calculateStudentScoreWithFactors has them sit it: the factors are updated and the luck
   * drawn, the darkhorse and declining flags are rolled, and exactly one record is appended,
   * with that index and its total kept to two decimals.
   */
  ghost predicate SatExam(factors: Factors, flags: Flags, exams: seq<ExamRecord>,
                         factors0: Factors, flags0: Flags, exams0: seq<ExamRecord>, examIndex: int, d: ExamDraws)
  {
    && factors == FactorsAfterUpdate(factors0, d.factors).(luck := d.luck)
    && flags == FlagsAfter(factors, flags0, d.events)
    && |exams| == |exams0| + 1 && exams[..|exams0|] == exams0
    && var record := exams[|exams0|];
      record.examIndex == examIndex && record.totalScore == RoundTo2(SumScores(record.scores))
  }

  /**
   * generateGradeRanking: every classmate sits the exam (draws `examDraws[j]` for the j-th),
   * the player's line joins theirs, the fillers fill the grade, and the list is sorted.
   */
  method GenerateGradeRanking(roster: seq<Student>, playerScores: Scores, grade: GradeLevel, examIndex: int,
                              totalStudents: int, examSubjects: Option<seq<Subject>>,
                              examDraws: seq<ExamDraws>, fillerDraws: seq<FillerDraws>)
    returns (ranking: seq<RankingEntry>)
    requires forall i, j :: 0 <= i < j < |roster| ==> roster[i] != roster[j]
    requires |examDraws| == |roster| && forall j :: 0 <= j < |roster| ==> ValidExamDraws(examDraws[j], grade)
    requires |fillerDraws| == FillerCount(totalStudents, |roster|)
    requires forall i :: 0 <= i < |fillerDraws| ==> ValidFillerDraws(fillerDraws[i], CurrentSubjects(grade, examSubjects))
    modifies roster
    ensures RosterProgress(roster, |roster|, old(FactorsOf(roster)), old(FlagsOf(roster)), old(ExamsOf(roster)), examIndex, examDraws)
    ensures ranking == GradeRanking(RosterEntries(roster, CurrentSubjects(grade, examSubjects)), playerScores,
                                    CurrentSubjects(grade, examSubjects), fillerDraws)
  {
    var subjects := CurrentSubjects(grade, examSubjects);
    var students := SitExams(roster, subjects, grade, examIndex, examDraws);
    var known := students + [PlayerEntry(playerScores)];
    var entries := AddFillers(known, MeanTotal(known), subjects, fillerDraws);
    ranking := StableSort(entries, ByTotalDesc);
  }

  /** The classmates' loop: each sits the exam in roster order and contributes their line. */
  method SitExams(roster: seq<Student>, subjects: seq<Subject>, grade: GradeLevel, examIndex: int, examDraws: seq<ExamDraws>)
    returns (students: seq<RankingEntry>)
    requires forall i, j :: 0 <= i < j < |roster| ==> roster[i] != roster[j]
    requires |examDraws| == |roster| && forall j :: 0 <= j < |roster| ==> ValidExamDraws(examDraws[j], grade)
    modifies roster
    ensures RosterProgress(roster, |roster|, old(FactorsOf(roster)), old(FlagsOf(roster)), old(ExamsOf(roster)), examIndex, examDraws)
    ensures students == RosterEntries(roster, subjects)
  {
    ghost var factors0, flags0, exams0 := FactorsOf(roster), FlagsOf(roster), ExamsOf(roster);
    students := [];
    var i := 0;
    while i < |roster|
      invariant 0 <= i <= |roster|
      invariant RosterProgress(roster, i, factors0, flags0, exams0, examIndex, examDraws)
      invariant LinesSoFar(roster, i, students, subjects)
    {
      students := SitTurn(roster, i, students, subjects, grade, examIndex, examDraws, factors0, flags0, exams0);
      i := i + 1;
    }
    LinesDone(roster, students, subjects);
  }

  /** The lines made so far are those of the first `i` classmates' latest exams. */
  ghost predicate LinesSoFar(roster: seq<Student>, i: int, students: seq<RankingEntry>, subjects: seq<Subject>)
    reads roster
  {
    0 <= i <= |roster| && |students| == i &&
    forall j :: 0 <= j < i ==> students[j] == StudentEntry(roster[j].id, roster[j].name, LatestScores(roster[j].exams), subjects)
  }

  lemma LinesDone(roster: seq<Student>, students: seq<RankingEntry>, subjects: seq<Subject>)
    requires LinesSoFar(roster, |roster|, students, subjects)
    ensures students == RosterEntries(roster, subjects)
  {
  }

  /** The i-th turn of the classmates' loop, with what it keeps of the loop's state. */
  method SitTurn(roster: seq<Student>, i: int, students: seq<RankingEntry>, subjects: seq<Subject>, grade: GradeLevel,
                 examIndex: int, examDraws: seq<ExamDraws>,
                 ghost factors0: seq<Factors>, ghost flags0: seq<Flags>, ghost exams0: seq<seq<ExamRecord>>)
    returns (students': seq<RankingEntry>)
    requires 0 <= i < |roster| && forall p, q :: 0 <= p < q < |roster| ==> roster[p] != roster[q]
    requires |examDraws| == |roster| && ValidExamDraws(examDraws[i], grade)
    requires RosterProgress(roster, i, factors0, flags0, exams0, examIndex, examDraws)
    requires LinesSoFar(roster, i, students, subjects)
    modifies roster[i]
    ensures RosterProgress(roster, i + 1, factors0, flags0, exams0, examIndex, examDraws)
    ensures LinesSoFar(roster, i + 1, students', subjects)
  {
    var entry := SitExam(roster[i], subjects, grade, examIndex, examDraws[i]);
    students' := students + [entry];
  }

  /** One turn of the classmates' loop: a classmate sits the exam and their line is made. */
  method SitExam(s: Student, subjects: seq<Subject>, grade: GradeLevel, examIndex: int, d: ExamDraws)
    returns (entry: RankingEntry)
    requires ValidExamDraws(d, grade)
    modifies s
    ensures SatExam(s.factors, s.flags, s.exams, old(s.factors), old(s.flags), old(s.exams), examIndex, d)
    ensures entry == StudentEntry(s.id, s.name, LatestScores(s.exams), subjects)
  {
    var studentScores := s.CalculateStudentScoreWithFactors(grade, examIndex, d);
    entry := StudentEntry(s.id, s.name, studentScores, subjects);
    assert s.exams[..|old(s.exams)|] == old(s.exams);
  }

  /**
   * The classmates' loop after `i` turns: the first `i` have sat the exam from the states
   * recorded in `factors0`, `flags0` and `exams0`; the others still have those states.
   */
  ghost predicate RosterProgress(roster: seq<Student>, i: int, factors0: seq<Factors>, flags0: seq<Flags>, exams0: seq<seq<ExamRecord>>,
                                 examIndex: int, examDraws: seq<ExamDraws>)
    reads roster
  {
    && 0 <= i <= |roster| && |factors0| == |flags0| == |exams0| == |examDraws| == |roster|
    && (forall j :: 0 <= j < i ==>
         SatExam(roster[j].factors, roster[j].flags, roster[j].exams, factors0[j], flags0[j], exams0[j], examIndex, examDraws[j]))
    && (forall j :: i <= j < |roster| ==>
         roster[j].factors == factors0[j] && roster[j].flags == flags0[j] && roster[j].exams == exams0[j])
  }

  ghost function FactorsOf(roster: seq<Student>): (r: seq<Factors>)
    reads roster
    ensures |r| == |roster| && forall j :: 0 <= j < |roster| ==> r[j] == roster[j].factors
  {
    if |roster| == 0 then [] else [roster[0].factors] + FactorsOf(roster[1..])
  }

  ghost function FlagsOf(roster: seq<Student>): (r: seq<Flags>)
    reads roster
    ensures |r| == |roster| && forall j :: 0 <= j < |roster| ==> r[j] == roster[j].flags
  {
    if |roster| == 0 then [] else [roster[0].flags] + FlagsOf(roster[1..])
  }

  ghost function ExamsOf(roster: seq<Student>): (r: seq<seq<ExamRecord>>)
    reads roster
    ensures |r| == |roster| && forall j :: 0 <= j < |roster| ==> r[j] == roster[j].exams
  {
    if |roster| == 0 then [] else [roster[0].exams] + ExamsOf(roster[1..])
  }

  /** The fillers' loop: `other_k` is drawn around `mean` and appended, for each k in turn. */
  method AddFillers(known: seq<RankingEntry>, mean: real, subjects: seq<Subject>, fillerDraws: seq<FillerDraws>)
    returns (entries: seq<RankingEntry>)
    requires forall i :: 0 <= i < |fillerDraws| ==> ValidFillerDraws(fillerDraws[i], subjects)
    ensures entries == known + FillerEntries(mean, subjects, fillerDraws)
  {
    entries := known;
    var k := 0;
    while k < |fillerDraws|
      invariant 0 <= k <= |fillerDraws|
      invariant entries == known + FillerEntries(mean, subjects, fillerDraws[..k])
    {
      var f := fillerDraws[k];
      var total := FillerTotal(mean, TotalFull(subjects), f.z);
      var scores := SplitFillerTotal(total, subjects, f.split);
      var name := FillerName(f);
      FillerEntriesSnoc(mean, subjects, fillerDraws, k);
      entries := entries + [RankingEntry(OtherId(k), name, scores, RoundTo2(total), false)];
      k := k + 1;
    }
    assert fillerDraws[..k] == fillerDraws;
  }

  lemma FillerEntriesSnoc(mean: real, subjects: seq<Subject>, draws: seq<FillerDraws>, k: int)
    requires forall i :: 0 <= i < |draws| ==> ValidFillerDraws(draws[i], subjects)
    requires 0 <= k < |draws|
    ensures FillerEntries(mean, subjects, draws[..k + 1]) ==
      FillerEntries(mean, subjects, draws[..k]) + [FillerEntry(k, mean, subjects, draws[k])]
  {
  }
}
