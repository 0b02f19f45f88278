/**
 * The exam-session and daily-event sequencing of GameController (game.js): advancing through
 * the subjects of a multi-subject exam, ranking the grade once the last subject is done,
 * recording the exam in the history, and moving on to the day's queued events; also the
 * effects of event choices, the daily status recovery, the final admission decision and the
 * exam-type names.
 */
module Controller {
  import opened Wrappers
  import opened Utils
  import opened GameData
  import opened Abilities
  import opened Sorting
  import opened Cohort
  import opened Ranking
  import opened DailyEvents
  import opened PlayerStanding
  import opened PlayerEffects

  // ---------------------------------------------------------------- exam type names

  /**
   * getExamTypeName: the display name of an exam-type key, or the key itself when the table
   * has no such key (every name in the table is non-empty, so `||` only falls back then).
   */
  function GetExamTypeName(examType: string): (name: string)
    ensures |name| > 0 || examType == ""
  {
    var names := map[
      "entry" := "入学考试", "monthly" := "月考", "midterm" := "期中考试", "final" := "期末考试",
      "biology_geography" := "生地会考", "sports" := "体育中考", "mock" := "模拟考试", "middle" := "中考"];
    if examType in names then names[examType] else examType
  }

  /**
   * The controller's names agree with the `name` of every exam type of the data tables, and a
   * key that is neither one of those nor entry, sports or mock is shown as it is.
   */
  lemma ExamTypeNamesAgree(examType: string)
    ensures forall t: ExamType :: GetExamTypeName(ExamTypeKey(t)) == ExamTypeName(t)
    ensures (forall t: ExamType :: examType != ExamTypeKey(t)) && examType !in {"entry", "sports", "mock"} ==>
      GetExamTypeName(examType) == examType
  {
    forall t: ExamType
      ensures GetExamTypeName(ExamTypeKey(t)) == ExamTypeName(t)
    {
      match t
      case Monthly =>
      case Midterm =>
      case Final =>
      case BiologyGeography =>
      case Middle =>
    }
    if (forall t: ExamType :: examType != ExamTypeKey(t)) && examType !in {"entry", "sports", "mock"} {
      assert examType != ExamTypeKey(Monthly) && examType != ExamTypeKey(Midterm) && examType != ExamTypeKey(Final);
      assert examType != ExamTypeKey(BiologyGeography) && examType != ExamTypeKey(Middle);
    }
  }

  // ---------------------------------------------------------------- admission

  /** The outcomes of showAdmissionResult, the last one being the signed school's offer. */
  datatype Admission = FirstChoice | Admitted | OrdinaryHighSchool | NotAdmitted | SignedAdmission

  /**
   * showAdmissionResult's decision: tiers at 90%, 75% and 60% of the full total, overridden
   * by the signed school's offer when the player signed and reached 75%.
   */
  function AdmissionOf(percentage: real, signed: bool): (a: Admission)
    ensures a != NotAdmitted <==> percentage >= 0.6
    ensures a == SignedAdmission <==> signed && percentage >= 0.75
    ensures a == FirstChoice <==> !signed && percentage >= 0.9
    ensures a == Admitted <==> !signed && 0.75 <= percentage < 0.9
    ensures a == OrdinaryHighSchool <==> 0.6 <= percentage < 0.75
  {
    var tier :=
      if percentage >= 0.9 then FirstChoice
      else if percentage >= 0.75 then Admitted
      else if percentage >= 0.6 then OrdinaryHighSchool
      else NotAdmitted;
    if signed && percentage >= 0.75 then SignedAdmission else tier
  }

  /** How good an outcome is; the signed offer ranks with a plain admission. */
  function AdmissionLevel(a: Admission): int
  {
    match a
    case NotAdmitted => 0
    case OrdinaryHighSchool => 1
    case Admitted => 2
    case SignedAdmission => 2
    case FirstChoice => 3
  }

  /**
   * A higher percentage never gives a worse outcome, and signing never changes whether the
   * player is admitted: it only replaces an offer at 75% or more with the signed school's.
   */
  lemma AdmissionMonotone(p1: real, p2: real, signed: bool)
    requires p1 <= p2
    ensures !signed ==> AdmissionLevel(AdmissionOf(p1, signed)) <= AdmissionLevel(AdmissionOf(p2, signed))
    ensures AdmissionOf(p1, signed) != NotAdmitted ==> AdmissionOf(p2, signed) != NotAdmitted
    ensures (AdmissionOf(p1, true) == NotAdmitted) == (AdmissionOf(p1, false) == NotAdmitted)
  {
  }

  /** The total of a list of subject scores. */
  function ScoreSum(scores: seq<(Subject, int)>): int
  {
    if |scores| == 0 then 0 else scores[0].1 + ScoreSum(scores[1..])
  }

  /** Scores within their subjects' full scores add up to at most the full total. */
  lemma {:induction false} ScoreSumWithinFull(scores: seq<(Subject, int)>)
    requires forall i :: 0 <= i < |scores| ==> 0 <= scores[i].1 <= FullScore(scores[i].0)
    ensures 0 <= ScoreSum(scores) <= TotalFull(Keys(scores))
  {
    if |scores| > 0 {
      ScoreSumWithinFull(scores[1..]);
      assert Keys(scores) == [scores[0].0] + Keys(scores[1..]);
    }
  }

  // ---------------------------------------------------------------- the controller

  /** The exam event being sat: its id, its title and its exam-type key. */
  datatype ExamEvent = ExamEvent(id: string, title: string, examType: string)

  /** The delayed `startExam(examType, nextSubject)` call examCompleted schedules. */
  datatype NextExam = NextExam(examType: string, subject: Subject)

  datatype TopStudent = TopStudent(name: string, totalScore: real)

  /** One `examHistory` record; its date is not modelled. */
  datatype HistoryEntry = HistoryEntry(examIndex: int, playerRanking: Option<PlayerRanking>, topStudents: seq<TopStudent>)

  /** The effects of an event choice that applyEffects turns into numbers. */
  datatype EventEffects = EventEffects(academicRandom: Option<seq<Subject>>, abilities: seq<(AbilityKey, real)>,
                             status: seq<(StatusKey, real)>, special: seq<(string, real)>,
                             highSchoolSigned: Option<bool>)

  /** `ranking.slice(0, 30)` as names and totals. */
  function TopStudents(ranking: seq<RankingEntry>): (r: seq<TopStudent>)
    ensures |r| == if |ranking| < 30 then |ranking| else 30
    ensures forall i :: 0 <= i < |r| ==> r[i] == TopStudent(ranking[i].name, ranking[i].totalScore)
  {
    var n := if |ranking| < 30 then |ranking| else 30;
    seq(n, i requires 0 <= i < n => TopStudent(ranking[i].name, ranking[i].totalScore))
  }

  /** The exam type the next subject is started with: the event's, or 'monthly' without one. */
  function ExamTypeOf(event: Option<ExamEvent>): string
  {
    if event.Some? then event.value.examType else "monthly"
  }

  /** `triggeredEvents` after a finished exam event is marked: its id is added once. */
  function MarkTriggered(triggered: seq<string>, event: Option<ExamEvent>): (r: seq<string>)
    ensures event.Some? ==> event.value.id in r
    ensures event.None? || event.value.id in triggered ==> r == triggered
    ensures forall id :: id in r <==> id in triggered || (event.Some? && id == event.value.id)
    ensures NoDuplicates(triggered) ==> NoDuplicates(r)
  {
    if event.Some? && event.value.id !in triggered then triggered + [event.value.id] else triggered
  }

  /** The loop of calculateTotalAcademicScore: the scores and the full scores added up, subject by subject. */
  method AddUpScores(scores: seq<(Subject, int)>) returns (total: int, fullTotal: int)
    ensures total == ScoreSum(scores) && fullTotal == TotalFull(Keys(scores))
  {
    total, fullTotal := 0, 0;
    var k := 0;
    while k < |scores|
      invariant 0 <= k <= |scores|
      invariant total + ScoreSum(scores[k..]) == ScoreSum(scores)
      invariant fullTotal + TotalFull(Keys(scores[k..])) == TotalFull(Keys(scores))
    {
      assert scores[k..][1..] == scores[k + 1..];
      assert Keys(scores[k..]) == [scores[k].0] + Keys(scores[k + 1..]);
      total := total + scores[k].1;
      fullTotal := fullTotal + FullScore(scores[k].0);
      k := k + 1;
    }
    assert Keys(scores[k..]) == [];
  }

  class GameController {
    /** `gameState.topStudents`: the simulated classmates. */
    const roster: seq<Student>
    var grade: GradeLevel
    var gradeStudentCount: int
    /** The player's score in each subject of the exam, from `player.examResults`. */
    var examResults: Scores
    var examCount: int
    var examHistory: seq<HistoryEntry>
    var currentExamEvent: Option<ExamEvent>
    var currentExamSubjects: Option<seq<Subject>>
    var currentExamIndex: Option<nat>
    var triggeredEvents: seq<string>
    var dailyEventQueue: seq<GameEvent>
    var processingDailyEvents: bool
    /** The title of the multi-day event in progress, if any. */
    var activeMultiDayEvent: Option<string>
    var multiDayEventProgress: int
    var abilities: Abilities
    var status: Status
    var special: map<string, real>
    var highSchoolSigned: bool

    /** A new game: no exam sat, nothing queued, nothing signed. */
    constructor(roster: seq<Student>, grade: GradeLevel, gradeStudentCount: int, abilities: Abilities, status: Status)
      ensures this.roster == roster && this.grade == grade && this.gradeStudentCount == gradeStudentCount
      ensures this.abilities == abilities && this.status == status
      ensures examResults == [] && examCount == 0 && examHistory == [] && triggeredEvents == []
      ensures currentExamEvent.None? && currentExamSubjects.None? && currentExamIndex.None?
      ensures dailyEventQueue == [] && !processingDailyEvents && activeMultiDayEvent.None?
      ensures special == map[] && !highSchoolSigned
    {
      this.roster := roster;
      this.grade := grade;
      this.gradeStudentCount := gradeStudentCount;
      this.abilities := abilities;
      this.status := status;
      examResults := [];
      examCount := 0;
      examHistory := [];
      currentExamEvent := None;
      currentExamSubjects := None;
      currentExamIndex := None;
      triggeredEvents := [];
      dailyEventQueue := [];
      processingDailyEvents := false;
      activeMultiDayEvent := None;
      multiDayEventProgress := 0;
      special := map[];
      highSchoolSigned := false;
    }

    /** The classmates are distinct students, as generateGradeRanking needs. */
    predicate RosterDistinct()
    {
      forall i, j :: 0 <= i < j < |roster| ==> roster[i] != roster[j]
    }

    /** The controller is not one of its classmates, so their sitting leaves its fields alone. */
    lemma NotInRoster()
      ensures (this as object) !in roster
    {
    }

    /** The subjects of the exam being ranked: the exam's own, or all of the grade's. */
    function ExamSubjectsNow(): seq<Subject>
      reads this
    {
      CurrentSubjects(grade, currentExamSubjects)
    }

    /** Draws for every classmate's sitting and every filler of the grade. */
    predicate ValidRankingDraws(examDraws: seq<ExamDraws>, fillerDraws: seq<FillerDraws>)
      reads this
    {
      && |examDraws| == |roster| && (forall j :: 0 <= j < |roster| ==> ValidExamDraws(examDraws[j], grade))
      && |fillerDraws| == FillerCount(gradeStudentCount, |roster|)
      && forall i :: 0 <= i < |fillerDraws| ==> ValidFillerDraws(fillerDraws[i], ExamSubjectsNow())
    }

    // ------------------------------------------------------------ daily events

    /** processNextDailyEvent: trigger the front of the queue, or stop processing. */
    method ProcessNextDailyEvent() returns (triggered: Option<GameEvent>)
      modifies this`dailyEventQueue, this`processingDailyEvents
      ensures (triggered, DailyState(dailyEventQueue, processingDailyEvents)) ==
              Dequeue(old(DailyState(dailyEventQueue, processingDailyEvents)))
    {
      if |dailyEventQueue| > 0 && processingDailyEvents {
        triggered := Some(dailyEventQueue[0]);
        dailyEventQueue := dailyEventQueue[1..];
      } else {
        triggered := None;
        processingDailyEvents := false;
        dailyEventQueue := [];
      }
    }

    /**
     * checkDailyEvents, given the day's available events: sort them by priority, queue them and
     * trigger the first; with none, nothing is queued and the daily routine (performDailyRoutine:
     * maintainStatus, then a log line) recovers the player's status.
     */
    method CheckDailyEvents(available: seq<GameEvent>) returns (triggered: Option<GameEvent>)
      modifies this`dailyEventQueue, this`processingDailyEvents, this`status
      ensures (triggered, DailyState(dailyEventQueue, processingDailyEvents)) ==
              CheckEvents(old(DailyState(dailyEventQueue, processingDailyEvents)), available)
      ensures status == (if |available| == 0 then Recovered(old(status)) else old(status))
    {
      if |available| > 0 {
        var events := new GameEvent[|available|](i requires 0 <= i < |available| => available[i]);
        assert events[..] == available;
        SortEventsByPriority(events);
        dailyEventQueue := events[..];
        processingDailyEvents := true;
        triggered := ProcessNextDailyEvent();
      } else {
        triggered := None;
        MaintainStatus();
      }
    }

    /** The tail of examCompleted: go on with the queue being processed, or check the day's events. */
    method ContinueDay(available: seq<GameEvent>) returns (triggered: Option<GameEvent>)
      modifies this`dailyEventQueue, this`processingDailyEvents, this`status
      ensures var d := old(DailyState(dailyEventQueue, processingDailyEvents));
        (triggered, DailyState(dailyEventQueue, processingDailyEvents)) ==
        (if d.processing then Dequeue(d) else CheckEvents(d, available))
      ensures status == (if !old(processingDailyEvents) && |available| == 0 then Recovered(old(status)) else old(status))
    {
      if processingDailyEvents {
        triggered := ProcessNextDailyEvent();
      } else {
        triggered := CheckDailyEvents(available);
      }
    }

    // ------------------------------------------------------------ exams

    /**
     * generateExamRanking: the classmates sit the exam as exam number `examCount`, the grade is
     * ranked with the player's exam results, and one history record is appended under the next
     * exam number, holding the player's ranking and the (at most 30) best lines.
     */
    method GenerateExamRanking(examDraws: seq<ExamDraws>, fillerDraws: seq<FillerDraws>)
      returns (ranking: seq<RankingEntry>, ghost students: seq<RankingEntry>)
      requires RosterDistinct() && ValidRankingDraws(examDraws, fillerDraws)
      modifies this`examCount, this`examHistory, roster
      ensures |students| == |roster| && forall j :: 0 <= j < |students| ==> !students[j].isPlayer
      ensures ranking == GradeRanking(students, old(examResults), old(ExamSubjectsNow()), fillerDraws)
      ensures examCount == old(examCount) + 1
      ensures examHistory == old(examHistory) + [HistoryEntry(examCount, CalculatePlayerRanking(ranking), TopStudents(ranking))]
      ensures CalculatePlayerRanking(ranking).Some?
    {
      NotInRoster();
      ranking, students := RankGrade(examDraws, fillerDraws);
      RecordExam(ranking);
    }

    /**
     * generateGradeRanking of the controller: the classmates sit the exam as exam number
     * `examCount`, and the grade is ranked with the player's exam results on the exam's subjects.
     */
    method RankGrade(examDraws: seq<ExamDraws>, fillerDraws: seq<FillerDraws>)
      returns (ranking: seq<RankingEntry>, ghost students: seq<RankingEntry>)
      requires RosterDistinct() && ValidRankingDraws(examDraws, fillerDraws)
      modifies roster
      ensures RosterProgress(roster, |roster|, old(FactorsOf(roster)), old(FlagsOf(roster)), old(ExamsOf(roster)), examCount, examDraws)
      ensures students == RosterEntries(roster, old(ExamSubjectsNow()))
      ensures ranking == GradeRanking(students, old(examResults), old(ExamSubjectsNow()), fillerDraws)
      ensures CalculatePlayerRanking(ranking).Some?
    {
      NotInRoster();
      ranking := GenerateGradeRanking(roster, examResults, grade, examCount, gradeStudentCount, currentExamSubjects,
                                      examDraws, fillerDraws);
      students := RosterEntries(roster, ExamSubjectsNow());
      GradeRankingHasPlayer(students, examResults, ExamSubjectsNow(), fillerDraws);
    }

    /** The history part of generateExamRanking: count the exam and record it under its number. */
    method RecordExam(ranking: seq<RankingEntry>)
      modifies this`examCount, this`examHistory
      ensures examCount == old(examCount) + 1
      ensures examHistory == old(examHistory) + [HistoryEntry(examCount, CalculatePlayerRanking(ranking), TopStudents(ranking))]
    {
      var playerRanking := CalculatePlayerRanking(ranking);
      examCount := examCount + 1;
      examHistory := examHistory + [HistoryEntry(examCount, playerRanking, TopStudents(ranking))];
    }

    /**
     * The end of an exam session in examCompleted: rank, mark the exam event as triggered (once),
     * clear the session, and end the multi-day event in progress. Achievements are not modelled.
     */
    method FinishExamSession(examDraws: seq<ExamDraws>, fillerDraws: seq<FillerDraws>)
      requires RosterDistinct() && ValidRankingDraws(examDraws, fillerDraws)
      modifies this`examCount, this`examHistory, this`triggeredEvents, this`currentExamEvent,
               this`currentExamSubjects, this`currentExamIndex, this`activeMultiDayEvent,
               this`multiDayEventProgress, roster
      ensures examCount == old(examCount) + 1
      ensures |examHistory| == |old(examHistory)| + 1 && examHistory[..|old(examHistory)|] == old(examHistory)
      ensures examHistory[|old(examHistory)|].examIndex == examCount
      ensures examHistory[|old(examHistory)|].playerRanking.Some?
      ensures triggeredEvents == MarkTriggered(old(triggeredEvents), old(currentExamEvent))
      ensures currentExamEvent.None? && currentExamSubjects.None? && currentExamIndex.None?
      ensures activeMultiDayEvent.None?
      ensures old(activeMultiDayEvent).Some? ==> multiDayEventProgress == 0
      ensures old(activeMultiDayEvent).None? ==> multiDayEventProgress == old(multiDayEventProgress)
    {
      NotInRoster();
      var ranking, students := GenerateExamRanking(examDraws, fillerDraws);
      CloseSession();
    }

    /** Mark the exam event as triggered (once), clear the session, and end the multi-day event. */
    method CloseSession()
      modifies this`triggeredEvents, this`currentExamEvent, this`currentExamSubjects, this`currentExamIndex,
               this`activeMultiDayEvent, this`multiDayEventProgress
      ensures triggeredEvents == MarkTriggered(old(triggeredEvents), old(currentExamEvent))
      ensures currentExamEvent.None? && currentExamSubjects.None? && currentExamIndex.None?
      ensures activeMultiDayEvent.None?
      ensures old(activeMultiDayEvent).Some? ==> multiDayEventProgress == 0
      ensures old(activeMultiDayEvent).None? ==> multiDayEventProgress == old(multiDayEventProgress)
    {
      triggeredEvents := MarkTriggered(triggeredEvents, currentExamEvent);
      currentExamEvent := None;
      currentExamSubjects := None;
      currentExamIndex := None;
      if activeMultiDayEvent.Some? {
        activeMultiDayEvent := None;
        multiDayEventProgress := 0;
      }
    }

    /**
     * examCompleted: within an exam session, advance to the next subject and schedule it, or,
     * after the last one, finish the session; then, unless the next subject was scheduled, go on
     * with the day's events.
     */
    method ExamCompleted(available: seq<GameEvent>, examDraws: seq<ExamDraws>, fillerDraws: seq<FillerDraws>)
      returns (next: Option<NextExam>, triggered: Option<GameEvent>)
      requires RosterDistinct() && ValidRankingDraws(examDraws, fillerDraws)
      modifies this, roster
      ensures old(currentExamSubjects.Some? && currentExamIndex.Some? && currentExamIndex.value + 1 < |currentExamSubjects.value|) ==>
        && next == Some(NextExam(ExamTypeOf(old(currentExamEvent)), old(currentExamSubjects.value[currentExamIndex.value + 1])))
        && currentExamIndex == Some(old(currentExamIndex.value) + 1)
        && currentExamSubjects == old(currentExamSubjects) && currentExamEvent == old(currentExamEvent)
        && examCount == old(examCount) && examHistory == old(examHistory) && triggeredEvents == old(triggeredEvents)
        && triggered.None?
        && dailyEventQueue == old(dailyEventQueue) && processingDailyEvents == old(processingDailyEvents)
      ensures old(currentExamSubjects.Some? && currentExamIndex.Some? && currentExamIndex.value + 1 >= |currentExamSubjects.value|) ==>
        && next.None?
        && examCount == old(examCount) + 1
        && |examHistory| == |old(examHistory)| + 1 && examHistory[..|old(examHistory)|] == old(examHistory)
        && examHistory[|old(examHistory)|].examIndex == examCount
        && triggeredEvents == MarkTriggered(old(triggeredEvents), old(currentExamEvent))
        && currentExamEvent.None? && currentExamSubjects.None? && currentExamIndex.None?
        && activeMultiDayEvent.None?
      ensures old(currentExamSubjects.None? || currentExamIndex.None?) ==>
        && next.None?
        && examCount == old(examCount) && examHistory == old(examHistory) && triggeredEvents == old(triggeredEvents)
        && currentExamEvent == old(currentExamEvent) && currentExamSubjects == old(currentExamSubjects)
        && currentExamIndex == old(currentExamIndex)
      ensures next.None? ==>
        var d := old(DailyState(dailyEventQueue, processingDailyEvents));
        (triggered, DailyState(dailyEventQueue, processingDailyEvents)) ==
        (if d.processing then Dequeue(d) else CheckEvents(d, available))
      ensures status == (if next.None? && !old(processingDailyEvents) && |available| == 0 then Recovered(old(status)) else old(status))
      ensures abilities == old(abilities) && special == old(special)
      ensures highSchoolSigned == old(highSchoolSigned) && grade == old(grade)
      ensures gradeStudentCount == old(gradeStudentCount) && examResults == old(examResults)
    {
      next, triggered := None, None;
      if currentExamSubjects.Some? && currentExamIndex.Some? {
        var index := currentExamIndex.value + 1;
        currentExamIndex := Some(index);
        if index < |currentExamSubjects.value| {
          next := Some(NextExam(ExamTypeOf(currentExamEvent), currentExamSubjects.value[index]));
          return;
        }
        FinishExamSession(examDraws, fillerDraws);
      }
      triggered := ContinueDay(available);
    }

    /** calculateTotalAcademicScore: the player's grade subjects scored from their abilities, summed. */
    method CalculateTotalAcademicScore(noise: seq<real>) returns (r: TotalScore)
      requires |noise| == |GradeSubjects(grade)|
      ensures r.score == ScoreSum(SubjectScores(abilities, GradeSubjects(grade), noise)) as real
      ensures r.fullScore == TotalFull(GradeSubjects(grade)) && r.fullScore > 0
      ensures r.percentage == r.score / r.fullScore as real
      ensures 0.0 <= r.score <= r.fullScore as real && 0.0 <= r.percentage <= 1.0
    {
      var scores := CalculateSubjectScores(abilities, grade, noise);
      ScoreSumWithinFull(scores);
      var total, fullTotal := AddUpScores(scores);
      var percentage := if fullTotal > 0 then total as real / fullTotal as real else 0.0;
      r := TotalScore(total as real, fullTotal, percentage);
    }

    /** showAdmissionResult's decision, from the player's total academic score and the signing. */
    method ShowAdmissionResult(noise: seq<real>) returns (total: TotalScore, result: Admission)
      requires |noise| == |GradeSubjects(grade)|
      ensures 0.0 <= total.percentage <= 1.0
      ensures result == AdmissionOf(total.percentage, highSchoolSigned)
      ensures highSchoolSigned && total.percentage >= 0.75 ==> result == SignedAdmission
    {
      total := CalculateTotalAcademicScore(noise);
      result := AdmissionOf(total.percentage, highSchoolSigned);
    }

    // ------------------------------------------------------------ effects

    /** Each `abilities` entry in order: add and clamp to [0, 100]. */
    method AddToAbilities(deltas: seq<(AbilityKey, real)>)
      modifies this`abilities
      ensures abilities == AbilitiesAfter(old(abilities), deltas)
    {
      ghost var a0 := abilities;
      var k := 0;
      while k < |deltas|
        invariant 0 <= k <= |deltas|
        invariant abilities == AbilitiesAfter(a0, deltas[..k])
      {
        var (key, value) := deltas[k];
        assert deltas[..k + 1][..k] == deltas[..k];
        abilities := WithAbility(abilities, key, Clamp(Ability(abilities, key) + value, 0.0, 100.0));
        k := k + 1;
      }
      assert deltas[..k] == deltas;
    }

    /** Each `status` entry in order: add and clamp to [0, 100]. */
    method AddToStatus(deltas: seq<(StatusKey, real)>)
      modifies this`status
      ensures status == StatusAfter(old(status), deltas)
    {
      ghost var s0 := status;
      var k := 0;
      while k < |deltas|
        invariant 0 <= k <= |deltas|
        invariant status == StatusAfter(s0, deltas[..k])
      {
        var (key, value) := deltas[k];
        assert deltas[..k + 1][..k] == deltas[..k];
        status := WithStatus(status, key, Clamp(StatusValue(status, key) + value, 0.0, 100.0));
        k := k + 1;
      }
      assert deltas[..k] == deltas;
    }

    /** Each `special` entry in order: add to the counter, starting from 0. */
    method AddToSpecial(adds: seq<(string, real)>)
      modifies this`special
      ensures special == SpecialAfter(old(special), adds)
    {
      ghost var m0 := special;
      var k := 0;
      while k < |adds|
        invariant 0 <= k <= |adds|
        invariant special == SpecialAfter(m0, adds[..k])
      {
        var (key, value) := adds[k];
        assert adds[..k + 1][..k] == adds[..k];
        special := special[key := (if key in special then special[key] else 0.0) + value];
        k := k + 1;
      }
      assert adds[..k] == adds;
    }

    /**
     * applyEffects, its numeric part: an academic effect raises the abilities of a subject drawn
     * from its list by `floor(increase * weight)` with the increase drawn in 1..3; then the
     * ability, status and special entries are applied, and the signing is recorded.
     */
    method ApplyEffects(effects: EventEffects, draws: AcademicDraws)
      requires Unit(draws.subject) && Unit(draws.increase)
      modifies this`abilities, this`status, this`special, this`highSchoolSigned
      ensures var drawn := if effects.academicRandom.Some? && |effects.academicRandom.value| > 0
                           then Some(RandomChoice(draws.subject, effects.academicRandom.value)) else None;
        var academic := if effects.academicRandom.Some? then AcademicDeltas(drawn, RandomInt(draws.increase, 1, 3)) else [];
        abilities == AbilitiesAfter(AbilitiesAfter(old(abilities), academic), effects.abilities)
      ensures status == StatusAfter(old(status), effects.status)
      ensures special == SpecialAfter(old(special), effects.special)
      ensures highSchoolSigned == if effects.highSchoolSigned.Some? then effects.highSchoolSigned.value else old(highSchoolSigned)
      ensures InRange(old(abilities)) ==> InRange(abilities)
      ensures StatusInRange(old(status)) ==> StatusInRange(status)
    {
      ghost var a0, s0 := abilities, status;
      var academic: seq<(AbilityKey, real)> := [];
      if effects.academicRandom.Some? {
        var list := effects.academicRandom.value;
        var subject := if |list| > 0 then Some(RandomChoice(draws.subject, list)) else None;
        var increase := RandomInt(draws.increase, 1, 3);
        academic := AcademicDeltas(subject, increase);
        AddToAbilities(academic);
      }
      assert abilities == AbilitiesAfter(a0, academic);
      AbilitiesAfterInRange(a0, academic, Memory);
      ghost var a1 := abilities;
      AddToAbilities(effects.abilities);
      AbilitiesAfterInRange(a1, effects.abilities, Memory);
      AddToStatus(effects.status);
      StatusAfterInRange(s0, effects.status, Physical);
      AddToSpecial(effects.special);
      if effects.highSchoolSigned.Some? {
        highSchoolSigned := effects.highSchoolSigned.value;
      }
    }

    /** maintainStatus: the daily recovery of physical strength, energy and stress. */
    method MaintainStatus()
      modifies this`status
      ensures status == Recovered(old(status))
    {
      status := status.(physical := Min(100.0, status.physical + 5.0));
      status := status.(energy := Min(100.0, status.energy + 10.0));
      status := status.(stress := Max(0.0, status.stress - 2.0));
    }
  }
}
