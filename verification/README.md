# lgb-remake exam engine, modelled in Dafny

lgb-remake is a browser game that simulates three years of a Chinese junior-middle school. This
project models the game's exam engine and the deterministic rules around it:

- **the 7×7 "grid" minigame** a player plays for each exam subject. It comes in two copies: the
  one embedded in the game (`ExamEmbedSystem`) and the standalone practice page. Clicking a cell
  spends one click and lowers the cell's cost by 2. A delayed neighbour phase then lowers 2–4
  random in-board neighbours by 1. Each cell moves default → WA → NEC → AC as its cost falls.
  The running score and the AC count are kept in step with the cells.
- **score blending**: the minigame result, the player's ability vector and the special-effect tags
  make an integer subject score;
- **the cohort**: the 30 simulated classmates. Their hidden factors (form, motivation, stress,
  fatigue, growth room, luck) evolve each exam and drive a score modifier. Darkhorse and
  declining events can fire;
- **the grade ranking**: the classmates, the player and synthetic "filler" students whose totals
  are drawn around the mean and split across the exam subjects. All are merged and sorted,
  then percentile grade buckets are applied;
- **the game controller's exam sequencing**: the subject queue of an exam session, the player's
  rank and grade, the exam history, the daily-event FIFO with its priority sort, effect
  application with clamping, daily recovery and the admission decision;
- **the static tables** (subjects, grades, exam types, difficulty settings, reclass bands, endings);
- **the content loader's** dotted-path lookup, `{key}` template substitution and subject-name
  fallback chain.

Randomness is injected. Every `Math.random()` draw is a parameter `u` with `0 <= u < 1`. Every
normal draw is a parameter holding the sampled value; where the mean is computed, it holds the
standard normal `z`. Amounts the source writes with `toFixed(2)` are reals rounded by `RoundTo2`,
or integer hundredths in the minigame score. JavaScript's `Array.prototype.sort` is a stable sort.
It is modelled as the function `Sorting.StableSort`, a stable insertion sort over a strict weak
order, and `localeCompare` as code-point order on strings.

`updateStudentFactors` lowers fatigue by 2 before the score modifier reads it. For form 75,
motivation 80, stress 30 and fatigue 20 the modifier therefore sees fatigue 18 and comes to 8.1,
which `Cohort.ModifierWorkedExample` proves.

The filler students of a grade ranking get their subject scores from the split as the code
writes it (`Ranking.FillerScores`). Its bounds can give a subject more than its full score; the
split those bounds evidently mean is modelled beside it (`Ranking.CorrectedFillerScores`), see
Findings.

Modules: `Wrappers` (Option), `Utils` (utils.js helpers), `GameData` (data.js), `Abilities`,
`Cohort` (student factors and scores), `Sorting`, `Ranking` (grade ranking), `PlayerStanding`
(player rank extraction), `Grid` (minigame cells), `ExamEmbed` and `StandaloneGame` (the two
minigame copies, as classes over an `array<Cell>`), `DailyEvents`, `PlayerEffects`, `Controller`
(class `GameController`), `Content`.

## Model

| member | source | states |
|---|---|---|
| `Utils.Clamp` | utils.js:183-185 | The result lies in [lo, hi] when lo <= hi. A value already inside comes back unchanged. Values below lo give lo, and values above hi give hi. |
| `Utils.Round` | utils.js:188-191 | `Math.round`: the nearest integer, halves rounded up. |
| `Utils.RoundMonotone` | utils.js:188-191 | Rounding never reverses the order of two values. |
| `Utils.RoundOfInt` | utils.js:188-191 | Rounding an integer gives it back. |
| `Utils.ClampMonotone` | utils.js:183-185 | Clamping never reverses the order of two values. |
| `Utils.RoundTo2` | utils.js:793 | `parseFloat(x.toFixed(2))` stays within half a hundredth of x. |
| `Utils.RoundTo2Within` | utils.js:792-793 | A value between two integer bounds stays between them after rounding to two decimals. |
| `Utils.FloorScaled` | exam-embed.js:550 | `Math.floor(Math.random() * n)` is an index in [0, n). |
| `Utils.RandomInt` | utils.js:9-11 | `randomInt(lo, hi)` lies in [lo, hi]. |
| `Utils.RoundTo1` | utils.js:188-191 | `NumberUtils.round(x, 1)` stays within half a tenth of x. |
| `Utils.Percentage` | utils.js:206-209 | It is 0 when the total is 0. Otherwise it is value / total · 100 to within half a tenth (one decimal), and within [0, 100] when 0 <= value <= total. |
| `Utils.PercentageExact` | utils.js:206-209 | 50 of 200 gives exactly 25. |
| `Utils.RankPercentile` | utils.js:235-238 | It is 1 when the total is 0 or the rank is first, and within (0, 1] for a rank in 1..total. |
| `Utils.RankPercentileMonotone` | utils.js:235-238 | A better (smaller) rank never has a smaller percentile. |
| `Utils.Shuffle` | utils.js:53-60 | The Fisher–Yates swap loop returns a permutation of its input. |
| `Utils.MaxIndex` | utils.js:353-364 | It returns the index of the first maximum, or 0 for an empty array. |
| `Utils.MinIndex` | utils.js:367-378 | It returns the index of the first minimum, or 0 for an empty array. |
| `Utils.Dedup` | utils.js:328-330 | The result has no duplicates. It holds exactly the elements of the input that are not yet seen. |
| `Utils.Unique` | utils.js:328-330 | `[...new Set(arr)]` has no duplicates, holds exactly the input's elements and is no longer than the input. |
| `Utils.UniqueOfDistinct` | utils.js:328-330 | On an input without duplicates, `unique` is the identity. |
| `Utils.UniqueKeepsFirst` | utils.js:328-330 | The first element keeps its place, because a Set keeps insertion order. |
| `Utils.Truncate` | utils.js:261-264 | A string within the limit comes back unchanged. A longer one ends with the suffix and, when the limit leaves room, has exactly `maxLength` characters and keeps the original prefix. |
| `Utils.ScoreToGrade` | utils.js:296-303 | The grade is A exactly when the score is at least 90% of full, and E exactly when it is below 60%. |
| `Utils.ScoreToGradeMonotone` | utils.js:296-303 | A higher score never gets a worse letter. |
| `GameData.SubjectOfKey` | data.js:7-69 | A string names a subject exactly when it is that subject's key in `SUBJECTS`. |
| `GameData.KeyRoundTrip` | data.js:7-69 | Looking a subject up by its own key gives the subject back. |
| `GameData.GradeSubjectsMatchVisibility` | data.js:171-191 | Subject s is in `GRADES[g].subjects` exactly when g is in `SUBJECTS[s].gradeVisible`. |
| `GameData.ExamSubjectsTaught` | data.js:332-367 | Each exam type lists distinct subjects, and every one of them is taught in some grade. |
| `GameData.TotalFull` | data.js:7-69 | A non-empty subject list has a positive total of full scores, because every full score is positive. |
| `GameData.TotalFullAppend` | data.js:7-69 | The total of full scores adds up over concatenation. |
| `GameData.ExamTotals` | data.js:332-367 | The midterm is out of 440 and the zhongkao (middle) out of 630. |
| `GameData.TalentPointsDecrease` | data.js:193-231 | Talent points strictly decrease from easy to nightmare and stay positive. |
| `GameData.ReclassBandsTile` | data.js:247-256 | The eight reclass bands are non-empty and contiguous, and they tile [0, 1] from the top class down. |
| `GameData.BandOf` | data.js:247-256 | Every percentile in [0, 1] falls in a band, and the top class takes p = 1. |
| `GameData.ScoreEnding` | data.js:504-545 | The five score endings, from perfect down to fail, are pairwise exclusive and cover every final score. |
| `Abilities.SubjectWeights` | utils.js:570-584 | Each subject's ability weights are non-negative and sum to 1. An unknown subject gets 0.25 each. |
| `Abilities.SubjectWeightsOfKey` | utils.js:570-584 | The lookup by key gives the table row of that subject. |
| `Abilities.WeightedAbilityInRange` | utils.js:587-592 | With abilities in [0, 100], the weighted ability of any subject lies in [0, 100]. |
| `Abilities.ConvexInRange` | utils.js:587-592 | A convex combination of abilities in [0, 100] lies in [0, 100]. |
| `Abilities.WeightedAbilityMonotone` | utils.js:587-592 | Raising any ability never lowers the weighted ability. |
| `Cohort.Keys` | utils.js:818-821 | The subjects of a score list, in order. |
| `Cohort.Lookup` | utils.js:834 | A subject's score is found exactly when the subject is among the keys, and it is that entry's score. |
| `Cohort.SumWithinFull` | utils.js:796 | Scores within their full marks sum to between 0 and the total of full marks. |
| `Cohort.LearningEfficiency` | utils.js:555-562 | With abilities in [0, 100], the efficiency lies in [0.5, 1]. |
| `Cohort.LearningEfficiencyMonotone` | utils.js:555-562 | Efficiency grows with memory, comprehension and focus, and ignores mindset. |
| `Cohort.KnownSubjects` | utils.js:522-529 | It keeps exactly the keys that name a subject. |
| `Cohort.KnownKeyFacts` | utils.js:522-529 | A key and the subject it names determine each other. |
| `Cohort.CalculateTotalScore` | utils.js:518-534 | The loop sums the marks of known subjects and their full scores. The percentage is 0 when the full total is 0. |
| `Cohort.MarksTotalWithinFull` | utils.js:518-534 | With each mark within its subject's full score, the total lies within the total of full scores. |
| `Cohort.SubjectScore` | utils.js:583-604 | A subject score is an integer in [0, fullScore]. |
| `Cohort.SubjectScoreMonotone` | utils.js:583-604 | Better abilities and a higher noise draw never give a lower subject score. |
| `Cohort.SubjectScores` | utils.js:565-608 | There is one entry per subject of the list, in order, each being that subject's score. |
| `Cohort.CalculateSubjectScores` | utils.js:565-608 | The loop yields one score per subject of the grade, each within [0, fullScore]. |
| `Cohort.FactorsAfterUpdate` | utils.js:734-754 | After an update, form and stress lie in [0, 100], and fatigue and growth room are >= 0 and do not increase. Motivation changes only when the 10% draw fires, and is then clamped. The -10 stress pull applies exactly when stress plus noise exceeds 80, before the clamp. Base strength and luck are untouched. |
| `Cohort.RepeatedUpdates` | utils.js:734-754 | Starting from motivation in [0, 100], after n >= 1 updates every factor is in range. Fatigue is max(0, fatigue - 2n), and growth room is max(0, growthRoom - 0.5n). |
| `Cohort.StressFactor` | utils.js:767 | The stress factor is at most 1, and at least 0.5 for stress in [0, 100]. |
| `Cohort.StressFactorSymmetric` | utils.js:767 | The stress factor is symmetric about stress 50, where it peaks. |
| `Cohort.ModifierWorkedExample` | utils.js:758-773 | With zero noise, form 75, motivation 80, stress 30 and fatigue 20 (18 after the update), the modifier is 8.1. |
| `Cohort.ModifierBounds` | utils.js:762-773 | With factors in range, the modifier minus luck lies within [-25 - 0.15·fatigue, 25]. |
| `Cohort.ExamModifier` | utils.js:775-786 | Without events the modifier is unchanged. The darkhorse event adds 10–20, and the declining event subtracts 8–15. |
| `Cohort.FlagsAfter` | utils.js:775-786 | A flag becomes set exactly when it was set already or its event fired. The flags are never reset, and `hasPotential` is untouched. |
| `Cohort.FinalScores` | utils.js:788-794 | The final scores keep the subjects of the base scores, and each lies within [0, fullScore]. |
| `Cohort.FinalScoresMonotone` | utils.js:788-794 | A larger modifier never lowers any subject's final score. |
| `Cohort.Student.constructor` | utils.js:684-731 | A new classmate has the given identity, abilities and factors. Luck starts at 0, the flags say potential only, and the exam history is empty. |
| `Cohort.Student.UpdateStudentFactors` | utils.js:734-754 | The student's factors become `FactorsAfterUpdate` of the old factors. |
| `Cohort.Student.ApplyEvents` | utils.js:775-786 | It returns the event-adjusted modifier and sets the flags accordingly. |
| `Cohort.Student.CalculateStudentScoreWithFactors` | utils.js:757-805 | Factors are updated and luck drawn, flags updated, and final scores computed on the post-update factors. Each score lies within [0, fullScore]. The exam history grows by exactly one record, whose total is the rounded sum. |
| `Sorting.TiesWith` | utils.js:902 | The elements tied with a given one, in their order of appearance. |
| `Sorting.TiesWithAppend` | utils.js:902 | Collecting ties distributes over concatenation. |
| `Sorting.Insert` | utils.js:902 | Insertion adds exactly one element. |
| `Sorting.StableSort` | utils.js:902 | The library sort returns a permutation of its input. |
| `Sorting.InsertSorted` | utils.js:902 | Inserting into a sorted list keeps it sorted. |
| `Sorting.StableSortSorted` | utils.js:902 | Under a strict weak order, the sort's result is sorted. |
| `Sorting.InsertTies` | utils.js:902 | Insertion places the new element behind every element tied with it. |
| `Sorting.StableSortStable` | utils.js:902 | The sort is stable: every class of tied elements keeps its input order. |
| `Sorting.Count` | game.js:2043 | A count never exceeds the length. |
| `Sorting.StableSortCount` | utils.js:902 | Sorting keeps the number of elements with any property. |
| `Sorting.CountSplit` | game.js:2043 | Counts add up over concatenation. |
| `Sorting.StrLtIrreflexive` | game.js:1319 | Code-point string order is irreflexive. |
| `Sorting.StrLtTransitive` | game.js:1319 | Code-point string order is transitive. |
| `Sorting.StrLtTotal` | game.js:1319 | Any two distinct strings are ordered one way or the other. |
| `Ranking.PercentileGrade` | utils.js:908-925 | Of `rank/total`: A+ exactly when <= .05; A or better exactly when <= .15; B or better exactly when <= .25; D exactly when > .70. A total of 0 gives A+ only for negative ranks. |
| `Ranking.PercentileGradeMonotone` | utils.js:908-925 | For a fixed total, a smaller rank never gets a worse grade. |
| `Ranking.ByTotalDescOrder` | utils.js:902 | The descending-total comparator is a strict weak order. |
| `Ranking.Pick` | utils.js:832-835 | A roster student's exam scores hold exactly the exam's subjects, in order, with 0 for a subject the student has no score for. |
| `Ranking.FillerTotal` | utils.js:862 | A filler total is clamped to [0, totalFullScore]. |
| `Ranking.CorrectedPart` | utils.js:879-883 | The corrected draw for one subject lies within its full score and leaves a remainder the other subjects can hold. |
| `Ranking.Share` | utils.js:879-881 | A draw between the corrected bounds stays within the subject's full score and leaves a feasible remainder. |
| `Ranking.Parts` | utils.js:870-885 | There is one share per subject. |
| `Ranking.CorrectedPartsExact` | utils.js:866-885 | With the corrected bounds, the shares add up to the total exactly and each lies within its subject's full score. |
| `Ranking.CorrectedPartsSum` | utils.js:866-885 | The corrected shares add up to the total exactly. |
| `Ranking.CorrectedPartsBounded` | utils.js:866-885 | Each corrected share lies within its subject's full score. |
| `Ranking.FillerSplitExceedsFull` | utils.js:879-881 | As written, a midterm filler with total 400 and every draw 0.5 gets 92.5 for politics, whose full score is 50. |
| `Ranking.PartsTail` | utils.js:870-885 | After the first share, the shares are those of the remainder over the other subjects. |
| `Ranking.PartsLastWithin` | utils.js:874-876 | Whatever the bounds, the last subject's share (the clamped remainder) lies in [0, its full score]. |
| `Ranking.FillerScores` | utils.js:865-885 | A filler's scores, from the as-written split, hold exactly the exam's subjects, in order. |
| `Ranking.FillerScoresLastWithinFull` | utils.js:874-876 | The last subject's score of a filler lies in [0, its full score]. |
| `Ranking.FillerScoresExceedFull` | utils.js:879-883 | As written, the midterm filler with total 400 and every draw 0.5 has a score above its subject's full score. |
| `Ranking.CorrectedFillerScores` | utils.js:865-885 | With the corrected split, a filler's scores hold exactly the exam's subjects, in order. |
| `Ranking.CorrectedFillerScoresWithinFull` | utils.js:865-885 | With the corrected split, every filler subject score lies within its full score. |
| `Ranking.SplitFillerTotal` | utils.js:866-885 | The loop with a running remainder, with the as-written bounds, computes the filler's subject scores. |
| `Ranking.RandomChoice` | utils.js:19-22 | `randomChoice` returns an element of the array. |
| `Ranking.FillerName` | utils.js:887-891 | A filler name is a surname followed by a given name from the list matching the drawn gender. |
| `Ranking.FillerCount` | utils.js:857-860 | The ranking has roster + 1 + fillers entries. That is `totalStudents` when it is at least roster + 1, and roster + 1 otherwise. |
| `Ranking.FillerEntries` | utils.js:860-900 | There is one entry per filler draw. |
| `Ranking.Unsorted` | utils.js:828-900 | The list before sorting has the roster, then the player, then the fillers. |
| `Ranking.GradeRanking` | utils.js:808-905 | The ranking has one entry per student, the player and each filler. |
| `Ranking.GradeRankingSorted` | utils.js:902-904 | The ranking is a permutation of the merged list, sorted by total score, non-increasing. |
| `Ranking.GradeRankingStable` | utils.js:902 | Entries with equal totals keep insertion order: roster, then player, then fillers. |
| `Ranking.GradeRankingPlayerOnce` | utils.js:849-855 | Exactly one entry of the ranking is the player. |
| `Ranking.PlayerCountedOnce` | utils.js:838-855 | Exactly one entry of the merged list is the player. |
| `Ranking.FillerEntriesWithinFull` | utils.js:860-900 | Every filler has a total within [0, totalFullScore], exactly the exam's subjects, a last subject score within that subject's full score, and is not the player. |
| `Ranking.RosterEntries` | utils.js:828-845 | There is one non-player entry per roster student. |
| `Ranking.GenerateGradeRanking` | utils.js:808-905 | Every roster student sits the exam once, in roster order. The result is the sorted merge of their lines, the player's line and the fillers over the exam's subjects (or the grade's, when none are given). |
| `Ranking.SitExams` | utils.js:828-845 | Each roster student sits once. The returned lines are those students' exam lines. |
| `Ranking.SitExam` | utils.js:830-844 | One student's sitting updates their factors, flags and history. The line holds their latest scores over the exam's subjects. |
| `Ranking.FactorsOf` | utils.js:734-754 | The roster's factors, student by student. |
| `Ranking.FlagsOf` | utils.js:775-786 | The roster's flags, student by student. |
| `Ranking.ExamsOf` | utils.js:798-802 | The roster's exam histories, student by student. |
| `Ranking.AddFillers` | utils.js:860-900 | The push loop appends exactly the filler entries, in draw order. |
| `PlayerStanding.FindPlayer` | game.js:2043-2046 | It gives the index of the first player entry, and nothing exactly when there is none. |
| `PlayerStanding.BySubjectDescOrder` | game.js:2051-2053 | The descending per-subject comparator is a strict weak order. |
| `PlayerStanding.WithSubject` | game.js:2051-2052 | The filter keeps exactly the entries that have a score in the subject. |
| `PlayerStanding.SubjectRank` | game.js:2055 | A subject rank lies in [0, |ranking|]. |
| `PlayerStanding.SubjectRankings` | game.js:2050-2066 | There is one row per subject of the player, with its score, its rank and its grade. The grade's denominator is the full ranking length, not the filtered count. |
| `PlayerStanding.CalculatePlayerRanking` | game.js:2042-2082 | It is null exactly when no entry is the player. Otherwise the total rank is the first player entry's index + 1, with that entry's total, its percentile grade over the full length, and the subject rows are `SubjectRankings` over the player entry's subjects, in order: each row holds the player's score, its rank in the filtered sorted list, and the grade of that rank over the full length. |
| `PlayerStanding.SubjectRankPosition` | game.js:2050-2055 | The subject rank is the player's position + 1 in the filtered, sorted list. Everyone ahead scores at least as much, and everyone behind at most as much. |
| `PlayerStanding.GradeRankingHasPlayer` | game.js:2042-2046 | A grade ranking over a roster without the player always yields a player ranking. |
| `Grid.StatusFor` | exam-embed.js:683-705 | The status depends on cost only: WA if cost > originalCost/2, AC if cost <= 0, NEC in between, and never default. |
| `Grid.StatusForMonotone` | exam-embed.js:683-705 | A lower cost never gives an earlier status. |
| `Grid.PartialScore` | exam-embed.js:692-697 | A sampled partial score, in hundredths, lies in [score/3, 2·score/3] up to rounding, and is positive. |
| `Grid.PartialScoreRange` | exam-embed.js:692-697 | A 2-point cell's partial score is 0.67–1.33, and a 4-point cell's is 1.33–2.67. |
| `Grid.ACCount` | exam-embed.js:716 | The number of AC cells never exceeds the number of cells. |
| `Grid.TotalScoreUpdate` | exam-embed.js:699-718 | Replacing one cell changes the sum of contributions by exactly the difference of its contributions. |
| `Grid.ACCountUpdate` | exam-embed.js:708-717 | Replacing one cell changes the AC count only by its own change of AC-ness. |
| `Grid.UntouchedBoard` | exam-embed.js:546-569 | A board of default cells scores 0 and has no AC cell. |
| `Grid.LoweredIsWellFormed` | exam-embed.js:591 | Lowering a settled cell's cost keeps it well formed. |
| `Grid.LoweredKeepsTotals` | exam-embed.js:591 | Lowering a cost alone changes neither the score sum nor the AC count. |
| `Grid.UpdatedCell` | exam-embed.js:675-719 | The status follows the cost. Only status and partial score change, and a partial score once set is never resampled. A new partial score is sampled only on entering NEC. The status never moves backwards. |
| `Grid.Target` | exam-embed.js:645-651 | An in-board neighbour is a valid index other than the centre. |
| `Grid.TargetsDistinct` | exam-embed.js:623-651 | Distinct directions reach distinct neighbours. |
| `Grid.TargetList` | exam-embed.js:645-651 | Every neighbour reached is on the board. |
| `Grid.TargetListMembers` | exam-embed.js:645-651 | A cell is reached exactly when one selected direction points at it from the centre. |
| `Grid.LoweredAtSkip` | exam-embed.js:655 | An AC neighbour is skipped, with no change. |
| `Grid.LoweredAtStep` | exam-embed.js:655-658 | A non-AC neighbour loses exactly 1 cost and is re-evaluated. |
| `Grid.TargetListSnoc` | exam-embed.js:645-651 | Visiting one more direction extends the reached list by its in-board target. |
| `Grid.FreshTarget` | exam-embed.js:635-651 | With distinct directions, each newly reached neighbour has not been reached before. |
| `Grid.GenerateGridData` | exam-embed.js:546-569 | There are 49 fresh cells, each with cost = originalCost in 1..6. Exactly one cell, at the drawn index, is special and scores 4; all others score 2. |
| `ExamEmbed.EffectsTotalAppend` | exam-embed.js:333-372 | Special-effect bonuses add up over the tag list. |
| `ExamEmbed.UnknownTagsAddNothing` | exam-embed.js:333-372 | Tags other than examBonus, mindsetBonus and focusBonus add nothing. |
| `ExamEmbed.ApplySpecialEffects` | exam-embed.js:333-372 | With no player or no special tags the score is unchanged. Otherwise the tags' bonuses are added. |
| `ExamEmbed.GetSubjectFullScore` | exam-embed.js:246-261 | It gives a known subject's full score, and 100 otherwise. |
| `ExamEmbed.BlendedScore` | exam-embed.js:197-236 | The blend of game score, abilities and effects is clamped to [0, 100]. |
| `ExamEmbed.CalculateExamScore` | exam-embed.js:190-243 | It is 0 when nothing was clicked. Otherwise it is the clamped blend scaled to the subject's full score and rounded, and it lies in [0, fullScore]. |
| `ExamEmbed.ScaleToFull` | exam-embed.js:239-242 | Scaling a 0–100 score to a full score stays within [0, full]. |
| `ExamEmbed.ZeroRoundCountsAsSeventy` | exam-embed.js:197 | A clicked round with raw score 0 scores as if it had scored 70. |
| `ExamEmbed.ExamScoreMonotone` | exam-embed.js:190-243 | A higher positive game score never gives a lower exam score. |
| `ExamEmbed.BlendedMonotone` | exam-embed.js:197-236 | A higher positive game score never lowers the blend. |
| `ExamEmbed.ScaleMonotone` | exam-embed.js:239-242 | Scaling is monotone. |
| `ExamEmbed.GetGradeFromScore` | exam-embed.js:909-921 | It is A+ exactly when the score is at least 95% of full, and F exactly when below 60%. |
| `ExamEmbed.GradeFromScoreMonotone` | exam-embed.js:909-921 | A higher score never gets a worse grade. |
| `ExamEmbed.HasNextExam` | exam-embed.js:895-906 | It holds exactly when the controller, its subject list and its index exist and index + 1 is below the number of subjects. |
| `ExamEmbed.Configured` | exam-embed.js:387-393 | The `unified` entry wins when non-zero. Otherwise the first entry applies, then the fallback. The result is one of them and is never 0 when the fallback is not. |
| `ExamEmbed.LookupFound` | exam-embed.js:389 | A found key is an entry of the table. |
| `ExamEmbed.ClickLimitFor` | exam-embed.js:378-389 | The click limit is never 0, and it is 333 without configuration. |
| `ExamEmbed.TimeLimitFor` | exam-embed.js:379-393 | The time limit is a non-zero whole number of minutes in seconds, and 240 without configuration. |
| `ExamEmbed.InitialSaveLimits` | utils.js:998-1014 | A new save's exam mechanics give 33 clicks and 240 seconds. |
| `ExamEmbed.ExamEmbedSystem.constructor` | exam-embed.js:3-17 | A new system has no grid, no clicks, 240 seconds, score 0, nothing flipped and is inactive. |
| `ExamEmbed.ExamEmbedSystem.GetCurrentGameResult` | exam-embed.js:176-187 | `hasClicked` holds exactly when clicks were used. Clicks used is limit - left. On a valid board the score is the sum of cell contributions, and the flipped count is at most 49. |
| `ExamEmbed.ExamEmbedSystem.InitGame` | exam-embed.js:375-434 | The limits come from configuration. The board is fresh: 49 default cells, one special; score and flipped count are 0, and the round is active with the invariant established. |
| `ExamEmbed.ExamEmbedSystem.UpdateCellStatus` | exam-embed.js:675-719 | Only the cell at the index changes, to `UpdatedCell`. The score changes by exactly the cell's change of contribution, so it stays the sum of contributions. The flipped count grows only on first entry into AC, so it stays the AC count. |
| `ExamEmbed.ExamEmbedSystem.EndGame` | exam-embed.js:823-851 | The round becomes inactive. |
| `ExamEmbed.ExamEmbedSystem.CheckGameEnd` | exam-embed.js:814-820 | The round stays active only while clicks remain and fewer than 49 cells are AC. |
| `ExamEmbed.ExamEmbedSystem.HandleCellClick` | exam-embed.js:572-618 | A click is rejected, with no state change, when inactive, out of clicks or on an AC cell. Otherwise one click is spent, the cell's cost drops by 2 and it is re-evaluated, and nothing else changes. No cost rises and no status moves back. |
| `ExamEmbed.ExamEmbedSystem.LowerNeighbour` | exam-embed.js:655-658 | A non-AC neighbour loses 1 cost and is re-evaluated, keeping the invariant. |
| `ExamEmbed.ExamEmbedSystem.AffectAdjacentCells` | exam-embed.js:621-662 | Exactly the in-board, non-AC targets of the first 2–4 shuffled directions lose 1 cost each, and the invariant is kept. |
| `ExamEmbed.ExamEmbedSystem.VisitDirection` | exam-embed.js:645-660 | Visiting one direction extends the lowered set by its target. |
| `ExamEmbed.ExamEmbedSystem.NeighbourPhase` | exam-embed.js:601-612 | The delayed phase does nothing when the round has ended. Otherwise it lowers the neighbours, then applies the end-of-game check. |
| `ExamEmbed.ExamEmbedSystem.Click` | exam-embed.js:572-618 | The click that spends the last click ends the round, and its neighbour phase never runs. |
| `ExamEmbed.ExamEmbedSystem.Tick` | exam-embed.js:792-811 | A timer tick during a round takes one second, and the round ends at 0. |
| `StandaloneGame.PerformanceFor` | exam-test/game.js:366-395 | The verdict is outstanding from 80.00, excellent for 70.00–79.99 and "keep practising" below 60.00. |
| `StandaloneGame.PerformanceMonotone` | exam-test/game.js:366-395 | A higher score never gets a worse verdict. |
| `StandaloneGame.Game.constructor` | exam-test/game.js:1-8 | The page starts with 33 clicks, 240 seconds, score 0, inactive. |
| `StandaloneGame.Game.InitGame` | exam-test/game.js:22-45 | It resets to 33 clicks, 240 seconds, score 0.00 and nothing flipped, active, with 49 fresh cells. Their partial scores are 0.00, no previous status is recorded, and exactly one cell is the 4-point one. |
| `StandaloneGame.Game.UpdateCellStatus` | exam-test/game.js:224-268 | The transitions are the same as the embedded version's, and score and flipped count stay in step with the cells. |
| `StandaloneGame.Game.FlipCell` | exam-test/game.js:206-221 | The cell becomes AC. The flipped count grows whenever `previousStatus` is not AC. Because `previousStatus` is never written, flipping an AC cell counts it twice and breaks the score invariant. |
| `StandaloneGame.Game.EndGame` | exam-test/game.js:366-395 | The game becomes inactive, and the verdict follows the final score. |
| `StandaloneGame.Game.CheckGameEnd` | exam-test/game.js:357-363 | The game stays active only while clicks remain and fewer than 49 cells are AC. |
| `StandaloneGame.Game.HandleCellClick` | exam-test/game.js:103-149 | It is ignored when inactive, out of clicks or on an AC cell. Otherwise one click is spent and the cell's cost drops by 2, with nothing moving backwards. |
| `StandaloneGame.Game.LowerNeighbour` | exam-test/game.js:181-189 | A non-AC neighbour loses 1 cost and is re-evaluated. |
| `StandaloneGame.Game.AffectAdjacentCells` | exam-test/game.js:152-193 | Exactly the in-board, non-AC targets of the chosen directions lose 1 cost each. |
| `StandaloneGame.Game.VisitDirection` | exam-test/game.js:176-191 | Visiting one direction extends the lowered set by its target. |
| `StandaloneGame.Game.NeighbourPhase` | exam-test/game.js:132-143 | The delayed phase runs only while the game is active, followed by the end check. |
| `StandaloneGame.Game.Click` | exam-test/game.js:103-149 | The budget-exhausting click ends the game without propagation. |
| `StandaloneGame.Game.Tick` | exam-test/game.js:336-354 | One second per tick, and the game ends at 0. |
| `DailyEvents.EventBeforeOrder` | game.js:1309-1321 | The priority comparator is a strict weak order. |
| `DailyEvents.SortedByPriority` | game.js:1309-1321 | The sorted events are the same events, with every non-exam event before every exam event, ids in order within a kind, and equal keys in their original order. |
| `DailyEvents.SortEventsByPriority` | game.js:1309-1321 | The array is sorted in place to the stable priority order. |
| `DailyEvents.DrainFifo` | game.js:1296-1306 | While processing, as many calls as queued events trigger exactly those events in queue order. The next call stops processing. |
| `DailyEvents.DayTriggersSorted` | game.js:1275-1306 | A day with events triggers all of them, in priority order. |
| `PlayerEffects.WithAbility` | game.js:714-716 | Setting one ability leaves the others unchanged. |
| `PlayerEffects.WithStatus` | game.js:736-738 | Setting one status value leaves the others unchanged. |
| `PlayerEffects.InRangeByKey` | game.js:714-727 | Abilities are in range exactly when every key is in [0, 100]. |
| `PlayerEffects.StatusInRangeByKey` | game.js:736-738 | Status is in range exactly when every key is in [0, 100]. |
| `PlayerEffects.AbilitiesAfterInRange` | game.js:723-732 | The clamped additions keep abilities in [0, 100]. An untouched key keeps its value, and a touched key ends in [0, 100]. |
| `PlayerEffects.AcademicDeltas` | game.js:696-717 | The random academic gain adds floor(increase·weight) to each ability the subject maps to. |
| `PlayerEffects.AcademicGainAtMostOne` | game.js:693-717 | With increase 1–3, each gain is 0 or 1. An increase of 1, or an unknown subject, gains nothing. |
| `PlayerEffects.ZeroGainsChangeNothing` | game.js:712-717 | Zero gains on in-range abilities change nothing. |
| `PlayerEffects.StatusAfterInRange` | game.js:734-743 | The clamped additions keep status in [0, 100], and untouched keys are unchanged. |
| `PlayerEffects.Recovered` | game.js:1396-1403 | Recovery keeps status in range. Physical rises by 5 and energy by 10, both capped at 100, and stress falls by 2, floored at 0. |
| `PlayerEffects.SpecialAfterCounters` | game.js:784-788 | A special counter exists exactly when it existed or was added. Untouched counters are unchanged, and a counter added once grows by that amount from its old value or 0. |
| `Controller.GetExamTypeName` | game.js:1900-1913 | The display name is non-empty for any non-empty key. |
| `Controller.ExamTypeNamesAgree` | game.js:1900-1913 | Every exam type shows its table name. An unknown key is shown as itself. |
| `Controller.AdmissionOf` | game.js:1858-1875 | Admission tiers: first choice from 0.9, admitted from 0.75, ordinary from 0.6, otherwise not admitted. A signed player at 0.75 or more is always admitted by the signing school. |
| `Controller.AdmissionMonotone` | game.js:1858-1875 | A higher percentage never gives a worse tier, and signing never changes whether the player passes. |
| `Controller.ScoreSumWithinFull` | game.js:1915-1935 | Subject scores within their full marks sum to within the total of full marks. |
| `Controller.TopStudents` | game.js:2013-2016 | The history keeps the first min(30, n) entries' names and totals. |
| `Controller.MarkTriggered` | game.js:1959-1965 | The event id is added only if absent. The set of ids grows by exactly that id, and an id list without duplicates stays so. |
| `Controller.AddUpScores` | game.js:1920-1929 | The loop sums the scores and the full scores. |
| `Controller.GameController.constructor` | game.js:7-48 | A new controller starts with the given roster, grade and player. There are no exam results, history, triggered events, exam session or daily queue. |
| `Controller.GameController.NotInRoster` | game.js:7-48 | The controller is not one of the classmates. |
| `Controller.GameController.ProcessNextDailyEvent` | game.js:1296-1306 | It shifts and triggers the queue's front while processing. Otherwise it stops processing and empties the queue. |
| `Controller.GameController.CheckDailyEvents` | game.js:1275-1293 | With events available, it queues them in priority order, starts processing and triggers the first, leaving the status alone. Otherwise the queue is left alone and the daily routine recovers the status (`Recovered`). |
| `Controller.GameController.ContinueDay` | game.js:1982-1988 | After an exam, it continues the queue when processing and checks for new events otherwise. The status is recovered exactly when it checks and no events are available. |
| `Controller.GameController.GenerateExamRanking` | game.js:1992-2021 | The ranking is the grade ranking over the exam's subjects and the player's results. The exam count grows by 1, and one history entry is appended with the player's ranking (which exists) and at most 30 top students. |
| `Controller.GameController.RankGrade` | game.js:2024-2039 | Every classmate sits the exam, and the ranking merges their lines, the player's results and the fillers. |
| `Controller.GameController.RecordExam` | game.js:2008-2017 | The exam count grows by exactly 1, and exactly one history entry is appended. |
| `Controller.GameController.FinishExamSession` | game.js:1955-1978 | It ranks once and appends one history entry. It marks the event triggered if absent, clears the session and ends a multi-day event. |
| `Controller.GameController.CloseSession` | game.js:1958-1978 | It marks the event triggered, clears event, subjects and index, and ends a multi-day event, resetting its progress. |
| `Controller.GameController.ExamCompleted` | game.js:1938-1989 | While subjects remain, it advances the index and returns the next subject and exam type, with nothing else changing. After the last subject, it ranks once and closes the session. Either way, unless a next exam starts, the daily queue continues. The status is recovered exactly when no next exam starts, no queue was being processed and no events are available; otherwise it is untouched. The player's abilities and results are untouched. |
| `Controller.GameController.CalculateTotalAcademicScore` | game.js:1915-1935 | The total and full total are sums over the grade's subjects. The percentage is their ratio, in [0, 1]. |
| `Controller.GameController.ShowAdmissionResult` | game.js:1853-1897 | The admission result is the tier of the percentage, and signing wins from 0.75. |
| `Controller.GameController.AddToAbilities` | game.js:723-732 | The abilities become the clamped sums, key by key in entry order. |
| `Controller.GameController.AddToStatus` | game.js:734-743 | The status becomes the clamped sums, key by key. |
| `Controller.GameController.AddToSpecial` | game.js:784-788 | Special counters accumulate from 0. |
| `Controller.GameController.ApplyEffects` | game.js:687-805 | The random academic gain comes first, then abilities, status, special counters and signing, in that order. Abilities and status stay in [0, 100]. |
| `Controller.GameController.MaintainStatus` | game.js:1396-1403 | Status becomes its recovered value. `CheckDailyEvents` runs it as the daily routine (game.js:1389-1394) when no events are available. |
| `Content.SplitOn` | content-loader.js:92 | `path.split('.')` always yields at least one piece. |
| `Content.JoinSplit` | content-loader.js:92 | Joining the pieces of a split with the separator gives the string back. |
| `Content.SplitWithoutDot` | content-loader.js:92 | A dot-free path is a single key. |
| `Content.SplitAfterKey` | content-loader.js:92 | A dot-free key followed by a dot splits off as the first piece. |
| `Content.SplitJoin` | content-loader.js:92 | Splitting dot-free keys joined with dots gives the keys back. |
| `Content.SplitPiecesDotFree` | content-loader.js:92 | No piece of a split contains a dot. |
| `Content.Member` | content-loader.js:95 | A property is found exactly when the value is an object holding that key. |
| `Content.WalkAppend` | content-loader.js:94-97 | Walking a concatenated path walks the first part and then the second. |
| `Content.UIText` | content-loader.js:91-99 | The result is the default, or the truthy value found at the end of the path. |
| `Content.GetUIText` | content-loader.js:91-99 | The key loop computes `UIText`. |
| `Content.UITextOfKeys` | content-loader.js:91-99 | For dot-free keys, the result is the value found at the path when truthy, and the default otherwise. |
| `Content.UITextMissingPrefix` | content-loader.js:94-96 | A missing key anywhere along the path gives the default. |
| `Content.UITextUnloaded` | content-loader.js:91-99 | Before the content is loaded, every lookup gives the default. |
| `Content.Placeholder` | content-loader.js:159 | The placeholder is the key in braces. |
| `Content.ReplaceAllIsSplitJoin` | content-loader.js:159 | Replacing every occurrence equals splitting at the pattern and joining with the replacement. |
| `Content.ReplaceAllSelf` | content-loader.js:159 | Replacing a pattern by itself changes nothing. |
| `Content.ReplaceAllAbsent` | content-loader.js:159 | Text without the pattern's first character is unchanged. |
| `Content.Format` | content-loader.js:155-162 | Empty text gives ''. Otherwise the variables are substituted one at a time, in entry order. |
| `Content.SubstituteAppend` | content-loader.js:158-160 | Substituting a concatenation of variable lists substitutes the first list, then the second. |
| `Content.SubstituteWithoutBraces` | content-loader.js:158-160 | Text without '{' is unchanged, and so is any text when no variables are given. |
| `Content.FormatOneVariable` | content-loader.js:158-160 | One variable replaces every occurrence of `{key}` by its value. |
| `Content.CamelToChinese` | utils.js:272-293 | A subject key is shown as its Chinese name. Any other key not in the label table is shown as itself. |
| `Content.SubjectNameFallbacks` | content-loader.js:102-106 | The configured name, if truthy, wins. Otherwise the SUBJECTS name applies, and then `camelToChinese`. |
| `Content.SubjectNameTruthy` | content-loader.js:102-106 | A non-empty key always gets a truthy name. |
| `Content.SubjectLabels` | content-loader.js:102-106 | Without configuration, a subject is named by its SUBJECTS name, which `camelToChinese` agrees with. |

## Left out

- Persistence and network: `ContentLoader.load`, `getFallbackConfig`, the `fetch` config loaders, `StorageUtils` and editor-server.py are not part of this model.
- DOM and rendering: panels, cell displays, report cards and ranking charts are not modelled. Nor are the log messages that `applyEffects` and `examCompleted` write.
- Timers are explicit steps (`Tick`, `NeighbourPhase`, the next-subject result of `ExamCompleted`), not concurrency. The 1.5 s `startExam` call itself is not modelled.
- Random generation: every `Math.random` and `normalRandom` draw is a parameter. The shuffle in `affectAdjacentCells` (`sort(() => Math.random() - 0.5)`) is an injected permutation of the eight directions.
- Floating point: reals replace IEEE doubles, and `toFixed(2)` is half-up rounding to hundredths.
- JavaScript `Date` arithmetic (`advanceGameTime`, `isInExamPeriod`, `getUpcomingEvents`, the date in an exam-history entry) is not modelled.
- events.js is not part of this model. `getDailyEvents` becomes the `available` parameter, and `triggerEvent` becomes the returned event. `checkAchievements` is not modelled, nor is the log line of `performDailyRoutine`, whose `maintainStatus` call is.
- `applyEffects`: the non-numeric effects (classmateship, dormmates, teachers, club, club role, club experience, crush event) are not modelled.
- `applyEffects`: an `academic.random` entry that is not a subject key is not modelled; the list is a list of subjects.
- The exam results of the player are scores only; their other record fields are not modelled.
- Content: `getUIText` walks object properties only. Property access on arrays, strings and prototype members is not modelled.
- Content: `format` replaces keys literally. Keys containing regular-expression metacharacters and `$` replacement patterns are not modelled.
- Content: `Object.entries` order is taken as the order of the given variable list.
- Content getters other than `getUIText`, `getSubjectName` and `format` (`getSubjectTooltip`, `getEventText` and the rest) are not modelled.
- The exception fallback `calculateDefaultExamScore`, `selectEventOption` and `confirmTalentAllocation` are not modelled.
- `Controller.GameController.GenerateExamRanking` states the classmates' lines only by count and as non-player entries. `Controller.GameController.RankGrade` states them exactly, as `Ranking.RosterEntries` of the roster after the sitting.
- `Ranking.GenerateGradeRanking` does not restate each classmate's per-subject record scores. `Cohort.Student.CalculateStudentScoreWithFactors` states them.
- `Controller.GameController.FinishExamSession` states the new history entry by its index and by the presence of the player's ranking. `Controller.GameController.GenerateExamRanking` states the entry in full.
- `Controller.GameController.ExamCompleted` states the end of a session by the history entry's index. `Controller.GameController.FinishExamSession` and `Controller.GameController.GenerateExamRanking` state the rest.
- `ExamEmbed.ExamEmbedSystem.Click` and `StandaloneGame.Game.Click` state only the budget-exhausting case. The other cases are stated by `HandleCellClick` and `NeighbourPhase`.
- `Ranking.Parts` with the as-written bounds has a proved bound only for the last subject's share (`Ranking.PartsLastWithin`), because the source's bounds for the others are not ordered; see Findings.
- `Ranking.FillerEntriesWithinFull` bounds only the last subject's score of a filler, because the as-written split can exceed the other subjects' full scores (`Ranking.FillerScoresExceedFull`).
- `Cohort.RepeatedUpdates` assumes motivation starts in [0, 100]. Motivation is drawn at creation as normalRandom(80, 10) without a clamp (utils.js:708), and one outside [0, 100] stays so until the 10% motivation draw of an update fires (utils.js:740-743).
- `DailyEvents.EventBefore` and `DailyEvents.SortEventsByPriority` compare event ids by code point. `localeCompare` uses the locale's collation, which orders differently on letter case, on punctuation against letters and digits, and on accented letters.

## Findings

| source | as written | input that shows it | evidently intended | confidence | as-written member | corrected member |
|---|---|---|---|---|---|---|
| utils.js:879-881 | A filler's non-last subject is drawn between `remaining - (n-j-1)·fullScore` and `min(fullScore, remaining - (n-j-1)·10)`. The lower bound reserves the current subject's full score for each later subject, so it can exceed the current subject's full score. | A midterm (chinese, math, english, politics, history; 440 in all) with filler total 400 and every draw 0.5 gives politics 92.5 of 50. | Each subject's score lies in [0, fullScore] and the scores sum to the total. The lower bound reserves the later subjects' own full scores. | not executed | `Ranking.FillerSplitExceedsFull` | `Ranking.CorrectedFillerScoresWithinFull` |
