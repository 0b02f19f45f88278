/**
 * The player's and the roster students' four abilities and the subject weight table that
 * turns them into one subject aptitude. The same table appears in calculateExamScore
 * (exam-embed.js) and GameUtils.calculateSubjectScores (utils.js).
 */
module Abilities {
  import opened Wrappers
  import opened GameData
  import opened Utils

  datatype Abilities = Abilities(memory: real, comprehension: real, focus: real, mindset: real)

  datatype Weights = Weights(memory: real, comprehension: real, focus: real, mindset: real)

  /** Every ability lies in [0, 100], the range the game clamps abilities to. */
  predicate InRange(a: Abilities)
  {
    0.0 <= a.memory <= 100.0 && 0.0 <= a.comprehension <= 100.0 &&
    0.0 <= a.focus <= 100.0 && 0.0 <= a.mindset <= 100.0
  }

  /** The weights of subjectWeights for a known subject. */
  function TableWeights(s: Subject): Weights
  {
    match s
    case Chinese => Weights(0.4, 0.4, 0.1, 0.1)
    case Math => Weights(0.2, 0.4, 0.3, 0.1)
    case English => Weights(0.4, 0.3, 0.2, 0.1)
    case Politics => Weights(0.3, 0.3, 0.2, 0.2)
    case History => Weights(0.4, 0.3, 0.1, 0.2)
    case Physics => Weights(0.2, 0.4, 0.3, 0.1)
    case Chemistry => Weights(0.2, 0.4, 0.3, 0.1)
    case Biology => Weights(0.4, 0.3, 0.2, 0.1)
    case Geography => Weights(0.3, 0.3, 0.2, 0.2)
    case Sports => Weights(0.1, 0.2, 0.3, 0.4)
  }

  /** `subjectWeights[subject] || {0.25, 0.25, 0.25, 0.25}`: every subject key gets a convex weighting. */
  function SubjectWeights(subject: string): (w: Weights)
    ensures w.memory >= 0.0 && w.comprehension >= 0.0 && w.focus >= 0.0 && w.mindset >= 0.0
    ensures w.memory + w.comprehension + w.focus + w.mindset == 1.0
    ensures SubjectOfKey(subject).None? ==> w == Weights(0.25, 0.25, 0.25, 0.25)
  {
    match SubjectOfKey(subject)
    case Some(s) => TableWeights(s)
    case None => Weights(0.25, 0.25, 0.25, 0.25)
  }

  /** Every subject's own key finds its row of the table, never the even fallback. */
  lemma SubjectWeightsOfKey(s: Subject)
    ensures SubjectWeights(Key(s)) == TableWeights(s)
  {
    KeyRoundTrip(s);
  }

  function WeightedAbility(a: Abilities, w: Weights): real
  {
    a.memory * w.memory + a.comprehension * w.comprehension + a.focus * w.focus + a.mindset * w.mindset
  }

  /** A subject's weighted ability, for abilities in [0, 100], is itself in [0, 100]. */
  lemma WeightedAbilityInRange(a: Abilities, subject: string)
    requires InRange(a)
    ensures 0.0 <= WeightedAbility(a, SubjectWeights(subject)) <= 100.0
  {
    ConvexInRange(a, SubjectWeights(subject));
  }

  /** Non-negative weights summing to one keep the weighted ability within the abilities' range. */
  lemma ConvexInRange(a: Abilities, w: Weights)
    requires InRange(a)
    requires w.memory >= 0.0 && w.comprehension >= 0.0 && w.focus >= 0.0 && w.mindset >= 0.0
    requires w.memory + w.comprehension + w.focus + w.mindset == 1.0
    ensures 0.0 <= WeightedAbility(a, w) <= 100.0
  {
    var top := Abilities(100.0, 100.0, 100.0, 100.0);
    WeightedAbilityMonotone(Abilities(0.0, 0.0, 0.0, 0.0), a, w);
    WeightedAbilityMonotone(a, top, w);
    assert WeightedAbility(top, w) == 100.0 * (w.memory + w.comprehension + w.focus + w.mindset);
  }

  /** Raising any ability never lowers the weighted ability under non-negative weights. */
  lemma WeightedAbilityMonotone(a: Abilities, b: Abilities, w: Weights)
    requires a.memory <= b.memory && a.comprehension <= b.comprehension
    requires a.focus <= b.focus && a.mindset <= b.mindset
    requires w.memory >= 0.0 && w.comprehension >= 0.0 && w.focus >= 0.0 && w.mindset >= 0.0
    ensures WeightedAbility(a, w) <= WeightedAbility(b, w)
  {
    MulMonotone(a.memory, b.memory, w.memory);
    MulMonotone(a.comprehension, b.comprehension, w.comprehension);
    MulMonotone(a.focus, b.focus, w.focus);
    MulMonotone(a.mindset, b.mindset, w.mindset);
  }
}
