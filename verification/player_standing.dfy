/**
 * calculatePlayerRanking of GameController (game.js): from a finished grade ranking, the
 * player's total rank and grade, and for every subject the player sat, their rank among the
 * lines that hold that subject, sorted by that subject's score.
 */
module PlayerStanding {
  import opened Wrappers
  import opened GameData
  import opened Sorting
  import opened Cohort
  import opened Ranking

  datatype SubjectRanking = SubjectRanking(subject: Subject, score: real, rank: int, grade: RankGrade)

  datatype PlayerRanking = PlayerRanking(totalScore: real, totalRank: int, totalGrade: RankGrade,
                                         subjects: seq<SubjectRanking>, totalStudents: int)

  /** `ranking.find(r => r.isPlayer)` together with its `indexOf`: the first player line's index. */
  function FindPlayer(ranking: seq<RankingEntry>): (r: Option<nat>)
    ensures r.Some? ==> r.value < |ranking| && ranking[r.value].isPlayer
    ensures r.Some? ==> forall j :: 0 <= j < r.value ==> !ranking[j].isPlayer
    ensures r.None? <==> forall j :: 0 <= j < |ranking| ==> !ranking[j].isPlayer
  {
    if |ranking| == 0 then None
    else if ranking[0].isPlayer then Some(0)
    else match FindPlayer(ranking[1..])
      case None => None
      case Some(i) => Some(i + 1)
  }

  /** A line's score in `subject`, or 0 when it has none (only lines holding it are compared). */
  function ScoreIn(e: RankingEntry, subject: Subject): real
  {
    Lookup(e.scores, subject).GetOr(0.0)
  }

  predicate HasSubject(e: RankingEntry, subject: Subject)
  {
    Lookup(e.scores, subject).Some?
  }

  /** The comparator `b.scores[subject] - a.scores[subject]`: a comes first when it scored higher. */
  function BySubjectDesc(subject: Subject): (RankingEntry, RankingEntry) -> bool
  {
    (a: RankingEntry, b: RankingEntry) => ScoreIn(a, subject) > ScoreIn(b, subject)
  }

  lemma BySubjectDescOrder(subject: Subject)
    ensures StrictWeakOrder(BySubjectDesc(subject))
  {
  }

  /** `ranking.filter(r => r.scores[subject] !== undefined)`: the lines holding the subject, in order. */
  function WithSubject(ranking: seq<RankingEntry>, subject: Subject): (r: seq<RankingEntry>)
    ensures |r| <= |ranking|
    ensures forall e :: e in r ==> e in ranking && HasSubject(e, subject)
    ensures forall e :: e in ranking && HasSubject(e, subject) ==> e in r
  {
    if |ranking| == 0 then []
    else (if HasSubject(ranking[0], subject) then [ranking[0]] else []) + WithSubject(ranking[1..], subject)
  }

  /** The lines holding the subject, best score in it first, ties in ranking order. */
  function SubjectOrder(ranking: seq<RankingEntry>, subject: Subject): seq<RankingEntry>
  {
    StableSort(WithSubject(ranking, subject), BySubjectDesc(subject))
  }

  /** `subjectScores.findIndex(r => r.isPlayer) + 1`, which is 0 when no player line holds the subject. */
  function SubjectRank(ranking: seq<RankingEntry>, subject: Subject): (rank: int)
    ensures 0 <= rank <= |ranking|
  {
    match FindPlayer(SubjectOrder(ranking, subject))
    case None => 0
    case Some(i) => i + 1
  }

  /** The player's row for each of the given subjects: score, rank, and grade out of the whole ranking's size. */
  function SubjectRankings(ranking: seq<RankingEntry>, player: RankingEntry, subjects: seq<Subject>): (r: seq<SubjectRanking>)
    ensures |r| == |subjects|
    ensures forall k :: 0 <= k < |r| ==>
      && r[k].subject == subjects[k]
      && r[k].score == ScoreIn(player, subjects[k])
      && r[k].rank == SubjectRank(ranking, subjects[k])
      && r[k].grade == PercentileGrade(r[k].rank, |ranking|)
  {
    if |subjects| == 0 then []
    else
      var s := subjects[0];
      var rank := SubjectRank(ranking, s);
      [SubjectRanking(s, ScoreIn(player, s), rank, PercentileGrade(rank, |ranking|))] +
      SubjectRankings(ranking, player, subjects[1..])
  }

  /**
   * calculatePlayerRanking: none without a player line; otherwise the first player line's
   * total, its 1-based position and the grade of that position, one entry per subject the
   * player has a score in, and the ranking's size.
   */
  function CalculatePlayerRanking(ranking: seq<RankingEntry>): (r: Option<PlayerRanking>)
    ensures r.None? <==> forall j :: 0 <= j < |ranking| ==> !ranking[j].isPlayer
    ensures r.Some? ==>
      var p := r.value;
      && 1 <= p.totalRank <= |ranking|
      && ranking[p.totalRank - 1].isPlayer
      && (forall j :: 0 <= j < p.totalRank - 1 ==> !ranking[j].isPlayer)
      && p.totalScore == ranking[p.totalRank - 1].totalScore
      && p.totalGrade == PercentileGrade(p.totalRank, |ranking|)
      && p.totalStudents == |ranking|
      && p.subjects == SubjectRankings(ranking, ranking[p.totalRank - 1], Keys(ranking[p.totalRank - 1].scores))
  {
    match FindPlayer(ranking)
    case None => None
    case Some(i) =>
      var player := ranking[i];
      Some(PlayerRanking(player.totalScore, i + 1, PercentileGrade(i + 1, |ranking|),
                         SubjectRankings(ranking, player, Keys(player.scores)), |ranking|))
  }

  /**
   * For a subject the player line holds, the subject rank is a position in the sorted subject
   * list: 1 <= rank <= the ranking's size, a player line holding the subject stands there, every
   * line ahead of it scored at least as much in the subject and is not the player's, and every
   * line behind it scored at most as much.
   */
  lemma SubjectRankPosition(ranking: seq<RankingEntry>, subject: Subject, p: int)
    requires 0 <= p < |ranking| && ranking[p].isPlayer && HasSubject(ranking[p], subject)
    ensures var order := SubjectOrder(ranking, subject);
      var rank := SubjectRank(ranking, subject);
      && 1 <= rank <= |order| <= |ranking|
      && order[rank - 1].isPlayer && HasSubject(order[rank - 1], subject)
      && (forall j :: 0 <= j < rank - 1 ==>
            !order[j].isPlayer && ScoreIn(order[j], subject) >= ScoreIn(order[rank - 1], subject))
      && (forall j :: rank - 1 < j < |order| ==> ScoreIn(order[j], subject) <= ScoreIn(order[rank - 1], subject))
  {
    var filtered := WithSubject(ranking, subject);
    var order := SubjectOrder(ranking, subject);
    assert ranking[p] in filtered;
    assert ranking[p] in multiset(order);
    assert FindPlayer(order).Some?;
    var i := FindPlayer(order).value;
    assert order[i] in multiset(filtered);
    BySubjectDescOrder(subject);
    StableSortSorted(filtered, BySubjectDesc(subject));
  }

  /** Every line of a generated grade ranking has a ranking for the player: the player always takes part. */
  lemma GradeRankingHasPlayer(students: seq<RankingEntry>, playerScores: Scores, subjects: seq<Subject>, fillers: seq<FillerDraws>)
    requires forall i :: 0 <= i < |fillers| ==> ValidFillerDraws(fillers[i], subjects)
    requires forall i :: 0 <= i < |students| ==> !students[i].isPlayer
    ensures CalculatePlayerRanking(GradeRanking(students, playerScores, subjects, fillers)).Some?
  {
    var ranking := GradeRanking(students, playerScores, subjects, fillers);
    GradeRankingPlayerOnce(students, playerScores, subjects, fillers);
    if forall j :: 0 <= j < |ranking| ==> !ranking[j].isPlayer {
      CountNone(ranking, IsPlayerEntry);
      assert false;
    }
  }
}
