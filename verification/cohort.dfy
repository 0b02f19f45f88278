/**
 * The simulated classmates of GameUtils (utils.js): how a student's subject scores come out of
 * the ability vector, how the hidden factors drift from one exam to the next, and how they bend
 * the scores of an exam. Every normalRandom draw is an injected value and every Math.random draw
 * an injected `real` in [0, 1).
 */
module Cohort {
  import opened Wrappers
  import opened Utils
  import opened GameData
  import opened Abilities

  // ---------------------------------------------------------------- score lists

  /** A score object, as (subject, score) pairs in the order its keys were written. */
  type Scores = seq<(Subject, real)>

  function Keys<S>(s: seq<(Subject, S)>): (r: seq<Subject>)
    ensures |r| == |s| && forall i :: 0 <= i < |s| ==> r[i] == s[i].0
  {
    if |s| == 0 then [] else [s[0].0] + Keys(s[1..])
  }

  /** `scores[k]`: the first pair with key `k`, if any. */
  function Lookup(s: Scores, k: Subject): (r: Option<real>)
    ensures r.None? <==> k !in Keys(s)
    ensures r.Some? ==> exists i :: 0 <= i < |s| && s[i] == (k, r.value)
  {
    if |s| == 0 then None
    else if s[0].0 == k then Some(s[0].1)
    else Lookup(s[1..], k)
  }

  /** `Object.values(scores).reduce((a, b) => a + b, 0)`. */
  function SumScores(s: Scores): real
  {
    if |s| == 0 then 0.0 else s[0].1 + SumScores(s[1..])
  }

  /** Full marks of the subjects a score list names. */
  function FullOf<S>(s: seq<(Subject, S)>): int
  {
    TotalFull(Keys(s))
  }

  /** A score list whose every score lies between 0 and the subject's full score. */
  predicate WithinFull(s: Scores)
  {
    forall i :: 0 <= i < |s| ==> 0.0 <= s[i].1 <= FullScore(s[i].0) as real
  }

  /** The total of scores within their full marks lies between 0 and the paper's full marks. */
  lemma {:induction false} SumWithinFull(s: Scores)
    requires WithinFull(s)
    ensures 0.0 <= SumScores(s) <= FullOf(s) as real
  {
    if |s| > 0 {
      assert WithinFull(s[1..]);
      SumWithinFull(s[1..]);
      assert Keys(s) == [s[0].0] + Keys(s[1..]);
    }
  }

  // ---------------------------------------------------------------- GameUtils helpers

  /** learningEfficiency: 0.5 plus half the mean of memory, comprehension and focus, as fractions. */
  function LearningEfficiency(a: Abilities): (r: real)
    ensures InRange(a) ==> 0.5 <= r <= 1.0
  {
    1.0 * (0.5 + 0.5 * (a.memory / 100.0 + a.comprehension / 100.0 + a.focus / 100.0) / 3.0)
  }

  /** Higher memory, comprehension or focus never lowers the efficiency; mindset plays no part. */
  lemma LearningEfficiencyMonotone(a: Abilities, b: Abilities)
    requires a.memory <= b.memory && a.comprehension <= b.comprehension && a.focus <= b.focus
    ensures LearningEfficiency(a) <= LearningEfficiency(b)
    ensures LearningEfficiency(a.(mindset := b.mindset)) == LearningEfficiency(a)
  {
  }

  /** calculateTotalScore's result. */
  datatype TotalScore = TotalScore(score: real, fullScore: int, percentage: real)

  /** The subject keys that name a SUBJECTS entry; the others are skipped. */
  function KnownSubjects(keys: seq<string>): (r: seq<Subject>)
    ensures |r| <= |keys|
    ensures forall s :: s in r <==> Key(s) in keys
  {
    if |keys| == 0 then []
    else
      KnownKeyFacts(keys[0]);
      match SubjectOfKey(keys[0])
      case Some(s) => [s] + KnownSubjects(keys[1..])
      case None => KnownSubjects(keys[1..])
  }

  lemma KnownKeyFacts(k: string)
    ensures SubjectOfKey(k).Some? ==> Key(SubjectOfKey(k).value) == k
    ensures forall s :: Key(s) == k ==> SubjectOfKey(k) == Some(s)
  {
    forall s | Key(s) == k ensures SubjectOfKey(k) == Some(s) {
      KeyRoundTrip(s);
    }
  }

  /** `academic[subject] || 0`. */
  function Mark(academic: map<string, real>, s: Subject): real
  {
    if Key(s) in academic then academic[Key(s)] else 0.0
  }

  function MarksTotal(academic: map<string, real>, subjects: seq<Subject>): real
  {
    if |subjects| == 0 then 0.0 else Mark(academic, subjects[0]) + MarksTotal(academic, subjects[1..])
  }

  /**
   * calculateTotalScore: add up the marks and the full scores of the keys that name a subject;
   * the percentage is 0 when no key does.
   */
  method CalculateTotalScore(academic: map<string, real>, keys: seq<string>) returns (r: TotalScore)
    ensures r.score == MarksTotal(academic, KnownSubjects(keys))
    ensures r.fullScore == TotalFull(KnownSubjects(keys))
    ensures r.fullScore == 0 ==> r.percentage == 0.0
    ensures r.fullScore > 0 ==> r.percentage == r.score / r.fullScore as real * 100.0
  {
    var total := 0.0;
    var fullTotal := 0;
    var k := 0;
    while k < |keys|
      invariant 0 <= k <= |keys|
      invariant total + MarksTotal(academic, KnownSubjects(keys[k..])) == MarksTotal(academic, KnownSubjects(keys))
      invariant fullTotal + TotalFull(KnownSubjects(keys[k..])) == TotalFull(KnownSubjects(keys))
    {
      assert keys[k..][1..] == keys[k + 1..];
      match SubjectOfKey(keys[k]) {
        case Some(s) =>
          total := total + Mark(academic, s);
          fullTotal := fullTotal + FullScore(s);
        case None =>
      }
      k := k + 1;
    }
    r := TotalScore(total, fullTotal, if fullTotal > 0 then total / fullTotal as real * 100.0 else 0.0);
  }

  /** Marks within their subjects' full scores give a total within the full total. */
  lemma {:induction false} MarksTotalWithinFull(academic: map<string, real>, subjects: seq<Subject>)
    requires forall s :: s in subjects ==> 0.0 <= Mark(academic, s) <= FullScore(s) as real
    ensures 0.0 <= MarksTotal(academic, subjects) <= TotalFull(subjects) as real
  {
    if |subjects| > 0 {
      MarksTotalWithinFull(academic, subjects[1..]);
    }
  }

  // ---------------------------------------------------------------- calculateSubjectScores

  /**
   * One subject's score: the weighted ability plus noise, clamped to the full score and rounded.
   * A grade's subjects are all keys of the weight table, so `subjectWeights[subject]` is the
   * subject's own row (SubjectWeightsOfKey) and the even fallback never applies here.
   */
  function SubjectScore(a: Abilities, s: Subject, noise: real): (r: int)
    ensures 0 <= r <= FullScore(s)
  {
    var full := FullScore(s) as real;
    var score := Clamp(WeightedAbility(a, TableWeights(s)) + noise, 0.0, full);
    RoundOfInt(0);
    RoundOfInt(FullScore(s));
    RoundMonotone(0.0, score);
    RoundMonotone(score, full);
    Round(score)
  }

  /** More noise, or a higher ability, never lowers a subject's score. */
  lemma SubjectScoreMonotone(a: Abilities, b: Abilities, s: Subject, n1: real, n2: real)
    requires a.memory <= b.memory && a.comprehension <= b.comprehension
    requires a.focus <= b.focus && a.mindset <= b.mindset && n1 <= n2
    ensures SubjectScore(a, s, n1) <= SubjectScore(b, s, n2)
  {
    var w := TableWeights(s);
    SubjectWeightsOfKey(s);
    WeightedAbilityMonotone(a, b, w);
    var full := FullScore(s) as real;
    var x, y := WeightedAbility(a, w) + n1, WeightedAbility(b, w) + n2;
    ClampMonotone(x, y, 0.0, full);
    RoundMonotone(Clamp(x, 0.0, full), Clamp(y, 0.0, full));
  }

  /** The scores calculateSubjectScores gives, one per subject in order, with one noise draw each. */
  function SubjectScores(a: Abilities, subjects: seq<Subject>, noise: seq<real>): (r: seq<(Subject, int)>)
    requires |noise| == |subjects|
    ensures Keys(r) == subjects
    ensures forall i :: 0 <= i < |r| ==> r[i].1 == SubjectScore(a, subjects[i], noise[i])
  {
    if |subjects| == 0 then []
    else [(subjects[0], SubjectScore(a, subjects[0], noise[0]))] + SubjectScores(a, subjects[1..], noise[1..])
  }

  /** calculateSubjectScores: score every subject of the grade, drawing one noise value per subject. */
  method CalculateSubjectScores(a: Abilities, grade: GradeLevel, noise: seq<real>) returns (scores: seq<(Subject, int)>)
    requires |noise| == |GradeSubjects(grade)|
    ensures scores == SubjectScores(a, GradeSubjects(grade), noise)
    ensures forall i :: 0 <= i < |scores| ==> 0 <= scores[i].1 <= FullScore(scores[i].0)
  {
    var subjects := GradeSubjects(grade);
    scores := [];
    var k := 0;
    while k < |subjects|
      invariant 0 <= k <= |subjects| && |scores| == k
      invariant forall i :: 0 <= i < k ==> scores[i] == (subjects[i], SubjectScore(a, subjects[i], noise[i]))
    {
      scores := scores + [(subjects[k], SubjectScore(a, subjects[k], noise[k]))];
      k := k + 1;
    }
    SubjectScoresElementwise(a, subjects, noise, scores);
  }

  /** A list holding each subject's score at its index is the list SubjectScores builds. */
  lemma SubjectScoresElementwise(a: Abilities, subjects: seq<Subject>, noise: seq<real>, scores: seq<(Subject, int)>)
    requires |noise| == |subjects| == |scores|
    requires forall i :: 0 <= i < |scores| ==> scores[i] == (subjects[i], SubjectScore(a, subjects[i], noise[i]))
    ensures scores == SubjectScores(a, subjects, noise)
  {
    var spec := SubjectScores(a, subjects, noise);
    assert forall i :: 0 <= i < |spec| ==> spec[i] == (subjects[i], SubjectScore(a, subjects[i], noise[i]));
  }

  // ---------------------------------------------------------------- factors

  /** A student's hidden factors (the `factors` object). */
  datatype Factors = Factors(
    baseStrength: real,
    currentForm: real,
    motivation: real,
    stress: real,
    growthRoom: real,
    fatigue: real,
    luck: real)

  datatype Flags = Flags(isDarkhorse: bool, isDeclining: bool, hasPotential: bool)

  /** The draws of one updateStudentFactors call. */
  datatype FactorDraws = FactorDraws(formNoise: real, motivationRoll: real, motivationNoise: real, stressNoise: real)

  predicate ValidFactorDraws(d: FactorDraws) { Unit(d.motivationRoll) }

  /** Form, motivation and stress within [0, 100]; fatigue and room to grow not negative. */
  predicate FactorsInRange(f: Factors)
  {
    && 0.0 <= f.currentForm <= 100.0
    && 0.0 <= f.motivation <= 100.0
    && 0.0 <= f.stress <= 100.0
    && f.fatigue >= 0.0
    && f.growthRoom >= 0.0
  }

  /** The factors after one updateStudentFactors call. */
  function FactorsAfterUpdate(f: Factors, d: FactorDraws): (g: Factors)
    ensures 0.0 <= g.currentForm <= 100.0 && 0.0 <= g.stress <= 100.0
    ensures g.fatigue >= 0.0 && g.growthRoom >= 0.0
    ensures f.fatigue >= 0.0 ==> g.fatigue <= f.fatigue
    ensures f.growthRoom >= 0.0 ==> g.growthRoom <= f.growthRoom
    ensures !Chance(d.motivationRoll, 0.1) ==> g.motivation == f.motivation
    ensures Chance(d.motivationRoll, 0.1) ==> 0.0 <= g.motivation <= 100.0
    ensures 0.0 <= f.motivation <= 100.0 ==> 0.0 <= g.motivation <= 100.0
    ensures g.baseStrength == f.baseStrength && g.luck == f.luck
    ensures f.stress + d.stressNoise > 80.0 ==> g.stress == Min(f.stress + d.stressNoise - 10.0, 100.0)
    ensures f.stress + d.stressNoise <= 80.0 ==> g.stress == Max(f.stress + d.stressNoise, 0.0)
  {
    var form := Clamp(f.currentForm + d.formNoise, 0.0, 100.0);
    var motivation := if Chance(d.motivationRoll, 0.1) then Clamp(f.motivation + d.motivationNoise, 0.0, 100.0) else f.motivation;
    var raised := f.stress + d.stressNoise;
    var pulled := if raised > 80.0 then raised - 10.0 else raised;
    f.(currentForm := form, motivation := motivation, stress := Clamp(pulled, 0.0, 100.0),
       fatigue := Max(0.0, f.fatigue - 2.0), growthRoom := Max(0.0, f.growthRoom - 0.5))
  }

  /** The factors after a run of updates, one per exam. */
  function FactorsAfterUpdates(f: Factors, ds: seq<FactorDraws>): Factors
    decreases |ds|
  {
    if |ds| == 0 then f else FactorsAfterUpdates(FactorsAfterUpdate(f, ds[0]), ds[1..])
  }

  /**
   * Over n >= 1 exams fatigue falls by 2 and room to grow by 0.5 per exam, never below 0, and the
   * factors end in range as long as motivation started in range.
   */
  lemma {:induction false} RepeatedUpdates(f: Factors, ds: seq<FactorDraws>)
    requires |ds| > 0 && 0.0 <= f.motivation <= 100.0
    ensures FactorsInRange(FactorsAfterUpdates(f, ds))
    ensures FactorsAfterUpdates(f, ds).fatigue == Max(0.0, f.fatigue - 2.0 * |ds| as real)
    ensures FactorsAfterUpdates(f, ds).growthRoom == Max(0.0, f.growthRoom - 0.5 * |ds| as real)
    decreases |ds|
  {
    var g := FactorsAfterUpdate(f, ds[0]);
    if |ds| > 1 {
      RepeatedUpdates(g, ds[1..]);
    }
  }

  /** `1 - |stress - 50| / 100`. */
  function StressFactor(stress: real): (r: real)
    ensures 0.0 <= stress <= 100.0 ==> 0.5 <= r <= 1.0
    ensures r <= 1.0
  {
    var away := if stress >= 50.0 then stress - 50.0 else 50.0 - stress;
    1.0 - away / 100.0
  }

  /** Stress helps most at 50 and hurts equally on either side of it. */
  lemma StressFactorSymmetric(d: real)
    ensures StressFactor(50.0 + d) == StressFactor(50.0 - d)
    ensures StressFactor(50.0 + d) <= StressFactor(50.0)
  {
  }

  /** The modifier before the darkhorse and declining events, on the factors after the update. */
  function BaseModifier(f: Factors): real
  {
    ((f.currentForm - 50.0) * 0.3 + (f.motivation - 50.0) * 0.2) * StressFactor(f.stress) - f.fatigue * 0.15 + f.luck
  }

  /**
   * With no noise and no motivation draw, a student with form 75, motivation 80, stress 30 and
   * fatigue 20 scores with a modifier of 8.1: fatigue has already dropped to 18 when it is read.
   */
  lemma ModifierWorkedExample(d: FactorDraws)
    requires d.formNoise == 0.0 && d.stressNoise == 0.0 && !Chance(d.motivationRoll, 0.1)
    ensures var f := Factors(80.0, 75.0, 80.0, 30.0, 40.0, 20.0, 0.0);
      BaseModifier(FactorsAfterUpdate(f, d)) == 81.0 / 10.0
  {
    var f := Factors(80.0, 75.0, 80.0, 30.0, 40.0, 20.0, 0.0);
    var g := FactorsAfterUpdate(f, d);
    assert g.currentForm == 75.0 && g.motivation == 80.0 && g.stress == 30.0 && g.fatigue == 18.0;
    assert StressFactor(30.0) == 0.8;
  }

  /** Within range, the form and motivation part of the modifier lies in [-25, 25]. */
  lemma ModifierBounds(f: Factors)
    requires FactorsInRange(f)
    ensures -25.0 - f.fatigue * 0.15 <= BaseModifier(f) - f.luck <= 25.0
  {
    var x := (f.currentForm - 50.0) * 0.3 + (f.motivation - 50.0) * 0.2;
    var sf := StressFactor(f.stress);
    assert BaseModifier(f) - f.luck == x * sf - f.fatigue * 0.15;
    ScaledWithin(x, sf);
  }

  /** Scaling by a factor in [0.5, 1] keeps a value of [-25, 25] inside [-25, 25]. */
  lemma ScaledWithin(x: real, sf: real)
    requires -25.0 <= x <= 25.0 && 0.5 <= sf <= 1.0
    ensures -25.0 <= x * sf <= 25.0
  {
    if x >= 0.0 {
      MulMonotone(sf, 1.0, x);
      assert 0.0 <= sf * x <= x;
    } else {
      var y := -x;
      MulMonotone(sf, 1.0, y);
      assert 0.0 <= sf * y <= y;
      assert x * sf == -(sf * y);
    }
  }

  /** The draws of the darkhorse and declining events. */
  datatype EventDraws = EventDraws(darkhorseRoll: real, darkhorseBonus: real, decliningRoll: real, decliningPenalty: real)

  predicate ValidEventDraws(e: EventDraws)
  {
    Unit(e.darkhorseRoll) && Unit(e.darkhorseBonus) && Unit(e.decliningRoll) && Unit(e.decliningPenalty)
  }

  /** A student with potential and more than 60 room to grow breaks out with chance 5%. */
  predicate DarkhorseFires(f: Factors, flags: Flags, e: EventDraws)
  {
    flags.hasPotential && f.growthRoom > 60.0 && Chance(e.darkhorseRoll, 0.05)
  }

  /** A student in form below 40 slumps with chance 3%. */
  predicate DecliningFires(f: Factors, e: EventDraws)
  {
    f.currentForm < 40.0 && Chance(e.decliningRoll, 0.03)
  }

  /** The whole modifier of an exam: a darkhorse adds 10 to 20, a slump takes 8 to 15. */
  function ExamModifier(f: Factors, flags: Flags, e: EventDraws): (m: real)
    requires ValidEventDraws(e)
    ensures !DarkhorseFires(f, flags, e) && !DecliningFires(f, e) ==> m == BaseModifier(f)
    ensures DarkhorseFires(f, flags, e) && !DecliningFires(f, e) ==> BaseModifier(f) + 10.0 <= m <= BaseModifier(f) + 20.0
    ensures !DarkhorseFires(f, flags, e) && DecliningFires(f, e) ==> BaseModifier(f) - 15.0 <= m <= BaseModifier(f) - 8.0
    ensures BaseModifier(f) - 15.0 <= m <= BaseModifier(f) + 20.0
  {
    var bonus := if DarkhorseFires(f, flags, e) then RandomInt(e.darkhorseBonus, 10, 20) else 0;
    var penalty := if DecliningFires(f, e) then RandomInt(e.decliningPenalty, 8, 15) else 0;
    BaseModifier(f) + bonus as real - penalty as real
  }

  /** The flags after an exam: each event sets its flag, nothing clears one. */
  function FlagsAfter(f: Factors, flags: Flags, e: EventDraws): (r: Flags)
    ensures r.hasPotential == flags.hasPotential
    ensures r.isDarkhorse <==> flags.isDarkhorse || DarkhorseFires(f, flags, e)
    ensures r.isDeclining <==> flags.isDeclining || DecliningFires(f, e)
  {
    flags.(isDarkhorse := flags.isDarkhorse || DarkhorseFires(f, flags, e),
           isDeclining := flags.isDeclining || DecliningFires(f, e))
  }

  /** One exam's scores: base plus modifier, clamped to the full score and kept to two decimals. */
  function FinalScores(base: seq<(Subject, int)>, modifier: real): (r: Scores)
    ensures Keys(r) == Keys(base)
    ensures WithinFull(r)
  {
    if |base| == 0 then []
    else
      var s := base[0].0;
      RoundTo2Within(Clamp(base[0].1 as real + modifier, 0.0, FullScore(s) as real), 0, FullScore(s));
      [(s, RoundTo2(Clamp(base[0].1 as real + modifier, 0.0, FullScore(s) as real)))] + FinalScores(base[1..], modifier)
  }

  /** A larger modifier never lowers any subject's final score. */
  lemma {:induction false} FinalScoresMonotone(base: seq<(Subject, int)>, m1: real, m2: real, i: int)
    requires m1 <= m2 && 0 <= i < |base|
    ensures FinalScores(base, m1)[i].1 <= FinalScores(base, m2)[i].1
  {
    if i > 0 {
      FinalScoresMonotone(base[1..], m1, m2, i - 1);
    } else {
      var full := FullScore(base[0].0) as real;
      var x := Clamp(base[0].1 as real + m1, 0.0, full);
      var y := Clamp(base[0].1 as real + m2, 0.0, full);
      RoundMonotone(x * 100.0, y * 100.0);
    }
  }

  /** One entry of `history.exams`. */
  datatype ExamRecord = ExamRecord(examIndex: int, scores: Scores, totalScore: real)

  /** All draws of one calculateStudentScoreWithFactors call. */
  datatype ExamDraws = ExamDraws(factors: FactorDraws, subjectNoise: seq<real>, luck: real, events: EventDraws)

  predicate ValidExamDraws(d: ExamDraws, grade: GradeLevel)
  {
    ValidFactorDraws(d.factors) && |d.subjectNoise| == |GradeSubjects(grade)| && ValidEventDraws(d.events)
  }

  /** A member of the roster (generateTopStudents); abilities never change once drawn. */
  class Student {
    const id: int
    const name: string
    const abilities: Abilities
    var factors: Factors
    var flags: Flags
    var exams: seq<ExamRecord>

    /** A fresh student: no exams yet, potential, neither darkhorse nor declining, luck 0. */
    constructor (id: int, name: string, abilities: Abilities, factors: Factors)
      ensures this.id == id && this.name == name && this.abilities == abilities
      ensures this.factors == factors.(luck := 0.0)
      ensures flags == Flags(false, false, true) && exams == []
    {
      this.id := id;
      this.name := name;
      this.abilities := abilities;
      this.factors := factors.(luck := 0.0);
      flags := Flags(false, false, true);
      exams := [];
    }

    /** updateStudentFactors */
    method UpdateStudentFactors(d: FactorDraws)
      requires ValidFactorDraws(d)
      modifies this`factors
      ensures factors == FactorsAfterUpdate(old(factors), d)
    {
      var f := factors;
      f := f.(currentForm := f.currentForm + d.formNoise);
      f := f.(currentForm := Max(0.0, Min(100.0, f.currentForm)));
      if Chance(d.motivationRoll, 0.1) {
        f := f.(motivation := f.motivation + d.motivationNoise);
        f := f.(motivation := Max(0.0, Min(100.0, f.motivation)));
      }
      f := f.(stress := f.stress + d.stressNoise);
      if f.stress > 80.0 {
        f := f.(stress := f.stress - 10.0);
      }
      f := f.(stress := Max(0.0, Min(100.0, f.stress)));
      f := f.(fatigue := Max(0.0, f.fatigue - 2.0));
      f := f.(growthRoom := Max(0.0, f.growthRoom - 0.5));
      factors := f;
    }

    /** The darkhorse and declining steps of calculateStudentScoreWithFactors. */
    method ApplyEvents(modifier: real, e: EventDraws) returns (m: real)
      requires ValidEventDraws(e) && modifier == BaseModifier(factors)
      modifies this`flags
      ensures m == ExamModifier(factors, old(flags), e) && flags == FlagsAfter(factors, old(flags), e)
    {
      m := modifier;
      if flags.hasPotential && factors.growthRoom > 60.0 && Chance(e.darkhorseRoll, 0.05) {
        m := m + RandomInt(e.darkhorseBonus, 10, 20) as real;
        flags := flags.(isDarkhorse := true);
      }
      if factors.currentForm < 40.0 && Chance(e.decliningRoll, 0.03) {
        m := m - RandomInt(e.decliningPenalty, 8, 15) as real;
        flags := flags.(isDeclining := true);
      }
    }

    /**
     * calculateStudentScoreWithFactors: update the factors, score every subject of the grade,
     * bend the scores by the modifier, and record the exam in the student's history.
     */
    method CalculateStudentScoreWithFactors(grade: GradeLevel, examIndex: int, d: ExamDraws) returns (finalScores: Scores)
      requires ValidExamDraws(d, grade)
      modifies this`factors, this`flags, this`exams
      ensures factors == FactorsAfterUpdate(old(factors), d.factors).(luck := d.luck)
      ensures flags == FlagsAfter(factors, old(flags), d.events)
      ensures finalScores ==
        FinalScores(SubjectScores(abilities, GradeSubjects(grade), d.subjectNoise), ExamModifier(factors, old(flags), d.events))
      ensures Keys(finalScores) == GradeSubjects(grade) && WithinFull(finalScores)
      ensures exams == old(exams) + [ExamRecord(examIndex, finalScores, RoundTo2(SumScores(finalScores)))]
    {
      UpdateStudentFactors(d.factors);
      var baseScores := CalculateSubjectScores(abilities, grade, d.subjectNoise);
      factors := factors.(luck := d.luck);
      var modifier := BaseModifier(factors);
      modifier := ApplyEvents(modifier, d.events);
      finalScores := FinalScores(baseScores, modifier);
      exams := exams + [ExamRecord(examIndex, finalScores, RoundTo2(SumScores(finalScores)))];
    }
  }
}
