/**
 * The constant tables of data.js: SUBJECTS, GRADES, EXAM_TYPES, DIFFICULTY_SETTINGS,
 * CLASS_CONFIG.firstYear.reclassThreshold and the score conditions of ENDINGS.
 *
 * The tables name subjects by string keys, as the source does; `SubjectOfKey` resolves a key,
 * and the lemmas below show that every key the tables use resolves.
 */
module GameData {
  import opened Wrappers

  datatype Subject = Chinese | Math | English | Politics | History | Physics | Chemistry | Biology | Geography | Sports

  /** The keys of SUBJECTS, in declaration order. */
  const AllSubjects: seq<Subject> := [Chinese, Math, English, Politics, History, Physics, Chemistry, Biology, Geography, Sports]

  function Key(s: Subject): string
  {
    match s
    case Chinese => "chinese"
    case Math => "math"
    case English => "english"
    case Politics => "politics"
    case History => "history"
    case Physics => "physics"
    case Chemistry => "chemistry"
    case Biology => "biology"
    case Geography => "geography"
    case Sports => "sports"
  }

  /** `SUBJECTS[key]`: the subject a key names, or None (undefined) for any other key. */
  function SubjectOfKey(k: string): (r: Option<Subject>)
    ensures r.Some? ==> Key(r.value) == k
    ensures r.None? ==> forall s :: Key(s) != k
  {
    if k == "chinese" then Some(Chinese)
    else if k == "math" then Some(Math)
    else if k == "english" then Some(English)
    else if k == "politics" then Some(Politics)
    else if k == "history" then Some(History)
    else if k == "physics" then Some(Physics)
    else if k == "chemistry" then Some(Chemistry)
    else if k == "biology" then Some(Biology)
    else if k == "geography" then Some(Geography)
    else if k == "sports" then Some(Sports)
    else None
  }

  /** Keys and subjects are in one-to-one correspondence. */
  lemma KeyRoundTrip(s: Subject)
    ensures SubjectOfKey(Key(s)) == Some(s)
  {
  }

  /** SUBJECTS[s].name */
  function Name(s: Subject): string
  {
    match s
    case Chinese => "语文"
    case Math => "数学"
    case English => "英语"
    case Politics => "政治"
    case History => "历史"
    case Physics => "物理"
    case Chemistry => "化学"
    case Biology => "生物"
    case Geography => "地理"
    case Sports => "体育"
  }

  /** SUBJECTS[s].fullScore */
  function FullScore(s: Subject): int
  {
    match s
    case Chinese => 120
    case Math => 100
    case English => 100
    case Politics => 50
    case History => 70
    case Physics => 70
    case Chemistry => 70
    case Biology => 100
    case Geography => 100
    case Sports => 50
  }

  /** SUBJECTS[s].gradeVisible */
  function GradeVisible(s: Subject): seq<int>
  {
    match s
    case Physics => [2, 3]
    case Chemistry => [3]
    case Biology => [1, 2]
    case Geography => [1, 2]
    case _ => [1, 2, 3]
  }

  /** The three school years, the keys of GRADES. */
  type GradeLevel = g: int | 1 <= g <= 3 witness 1

  /**
   * GRADES[g].subjects, in GRADES order. The tables are written over the Subject datatype, so
   * every subject they name has a SUBJECTS entry by construction.
   */
  function GradeSubjects(g: GradeLevel): seq<Subject>
  {
    if g == 1 then [Chinese, Math, English, Politics, History, Biology, Geography, Sports]
    else if g == 2 then [Chinese, Math, English, Politics, History, Physics, Biology, Geography, Sports]
    else [Chinese, Math, English, Politics, History, Physics, Chemistry, Sports]
  }

  /** A subject is taught in a grade exactly when SUBJECTS says it is visible in that grade. */
  lemma GradeSubjectsMatchVisibility(s: Subject, g: GradeLevel)
    ensures s in GradeSubjects(g) <==> g in GradeVisible(s)
  {
  }

  datatype ExamType = Monthly | Midterm | Final | BiologyGeography | Middle

  /** The keys of EXAM_TYPES, in declaration order. */
  const AllExamTypes: seq<ExamType> := [Monthly, Midterm, Final, BiologyGeography, Middle]

  function ExamTypeKey(t: ExamType): string
  {
    match t
    case Monthly => "monthly"
    case Midterm => "midterm"
    case Final => "final"
    case BiologyGeography => "biology_geography"
    case Middle => "middle"
  }

  /** EXAM_TYPES[t].name */
  function ExamTypeName(t: ExamType): string
  {
    match t
    case Monthly => "月考"
    case Midterm => "期中考试"
    case Final => "期末考试"
    case BiologyGeography => "生地会考"
    case Middle => "中考"
  }

  /** EXAM_TYPES[t].subjects, in EXAM_TYPES order. */
  function ExamSubjects(t: ExamType): seq<Subject>
  {
    match t
    case Monthly => [Chinese, Math, English]
    case Midterm => [Chinese, Math, English, Politics, History]
    case Final => [Chinese, Math, English, Politics, History]
    case BiologyGeography => [Biology, Geography]
    case Middle => [Chinese, Math, English, Politics, History, Physics, Chemistry, Sports]
  }

  /** Every exam type sits only subjects that some grade teaches, each at most once. */
  lemma ExamSubjectsTaught(t: ExamType)
    ensures forall i, j :: 0 <= i < j < |ExamSubjects(t)| ==> ExamSubjects(t)[i] != ExamSubjects(t)[j]
    ensures forall s :: s in ExamSubjects(t) ==> exists g: GradeLevel :: s in GradeSubjects(g)
  {
    forall s | s in ExamSubjects(t) ensures exists g: GradeLevel :: s in GradeSubjects(g) {
      var g: GradeLevel := if s == Chemistry || s == Physics then 3 else 1;
      assert s in GradeSubjects(g);
    }
  }

  /** The sum of the full scores of a list of subjects. */
  function TotalFull(subjects: seq<Subject>): (r: int)
    ensures r >= 0
    ensures |subjects| > 0 ==> r > 0
  {
    if |subjects| == 0 then 0 else FullScore(subjects[0]) + TotalFull(subjects[1..])
  }

  /** The full marks of two lists of subjects sat together add up. */
  lemma {:induction false} TotalFullAppend(s: seq<Subject>, t: seq<Subject>)
    ensures TotalFull(s + t) == TotalFull(s) + TotalFull(t)
  {
    if |s| == 0 {
      assert s + t == t;
    } else {
      assert (s + t)[1..] == s[1..] + t;
      TotalFullAppend(s[1..], t);
    }
  }

  /** The midterm paper is worth 440 points and the final school exam 630. */
  lemma ExamTotals()
    ensures TotalFull(ExamSubjects(Midterm)) == 440
    ensures TotalFull(ExamSubjects(Middle)) == 630
  {
    var midterm, sciences := ExamSubjects(Midterm), [Physics, Chemistry, Sports];
    assert midterm[1..] == [Math, English, Politics, History];
    assert midterm[1..][1..] == [English, Politics, History];
    assert midterm[1..][1..][1..] == [Politics, History];
    assert midterm[1..][1..][1..][1..] == [History];
    assert TotalFull([History]) == 70;
    assert TotalFull(midterm) == 440;
    assert sciences[1..] == [Chemistry, Sports] && sciences[1..][1..] == [Sports];
    assert TotalFull([Sports]) == FullScore(Sports);
    assert TotalFull(sciences) == 190;
    TotalFullAppend(midterm, sciences);
    assert ExamSubjects(Middle) == midterm + sciences;
  }

  datatype Difficulty = Easy | Normal | Hard | Nightmare

  /** DIFFICULTY_SETTINGS[d].talentPoints */
  function TalentPoints(d: Difficulty): int
  {
    match d
    case Easy => 15
    case Normal => 10
    case Hard => 8
    case Nightmare => 5
  }

  /** Harder settings hand out strictly fewer talent points. */
  lemma TalentPointsDecrease()
    ensures TalentPoints(Easy) > TalentPoints(Normal) > TalentPoints(Hard) > TalentPoints(Nightmare) > 0
  {
  }

  /** One entry of CLASS_CONFIG.firstYear.reclassThreshold: a class and its percentile interval. */
  datatype Band = Band(className: string, lo: real, hi: real)

  const ReclassThreshold: seq<Band> := [
    Band("1班", 0.85, 1.0),
    Band("2班", 0.70, 0.85),
    Band("3班", 0.55, 0.70),
    Band("4班", 0.40, 0.55),
    Band("5班", 0.25, 0.40),
    Band("6班", 0.15, 0.25),
    Band("7班", 0.05, 0.15),
    Band("8班", 0.0, 0.05)
  ]

  /** The reclass bands are non-empty, contiguous and tile [0, 1] from the top class down. */
  lemma ReclassBandsTile()
    ensures |ReclassThreshold| == 8
    ensures ReclassThreshold[0].hi == 1.0 && ReclassThreshold[7].lo == 0.0
    ensures forall i :: 0 <= i < 7 ==> ReclassThreshold[i].lo == ReclassThreshold[i + 1].hi
    ensures forall i :: 0 <= i < 8 ==> ReclassThreshold[i].lo < ReclassThreshold[i].hi
  {
  }

  /** The band a percentile p in [0, 1] falls into (the top class takes p = 1). */
  function BandOf(p: real): (i: int)
    requires 0.0 <= p <= 1.0
    ensures 0 <= i < 8
    ensures ReclassThreshold[i].lo <= p <= ReclassThreshold[i].hi
    ensures i > 0 ==> p < ReclassThreshold[i].hi
  {
    if p >= 0.85 then 0 else if p >= 0.70 then 1 else if p >= 0.55 then 2 else if p >= 0.40 then 3
    else if p >= 0.25 then 4 else if p >= 0.15 then 5 else if p >= 0.05 then 6 else 7
  }

  datatype Ending = Perfect | Good | NormalEnding | Bad | Fail | Special

  /** ENDINGS[e].condition */
  predicate EndingCondition(e: Ending, finalScore: real, hasSpecialEnding: bool)
  {
    match e
    case Perfect => finalScore >= 0.9
    case Good => finalScore >= 0.75 && finalScore < 0.9
    case NormalEnding => finalScore >= 0.6 && finalScore < 0.75
    case Bad => finalScore >= 0.5 && finalScore < 0.6
    case Fail => finalScore < 0.5
    case Special => hasSpecialEnding
  }

  /**
   * The score tier an outcome falls into: exactly one of the five score conditions, from perfect
   * down to fail, holds for every final score.
   */
  function ScoreEnding(finalScore: real): (e: Ending)
    ensures e != Special
    ensures forall hasSpecial :: EndingCondition(e, finalScore, hasSpecial)
    ensures forall other, hasSpecial :: other != Special && EndingCondition(other, finalScore, hasSpecial) ==> other == e
  {
    if finalScore >= 0.9 then Perfect
    else if finalScore >= 0.75 then Good
    else if finalScore >= 0.6 then NormalEnding
    else if finalScore >= 0.5 then Bad
    else Fail
  }
}
