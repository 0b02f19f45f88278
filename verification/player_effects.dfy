/**
 * The numeric effects of an event choice on the player (applyEffects in game.js) and the daily
 * recovery of maintainStatus: abilities and status values are added to and clamped to
 * [0, 100], special counters are added to.
 */
module PlayerEffects {
  import opened Wrappers
  import opened Utils
  import opened GameData
  import opened Abilities

  datatype AbilityKey = Memory | Comprehension | Focus | Mindset

  /** `player.status`: the three values the game shows and changes. */
  datatype Status = Status(physical: real, energy: real, stress: real)

  datatype StatusKey = Physical | Energy | Stress

  predicate StatusInRange(s: Status)
  {
    0.0 <= s.physical <= 100.0 && 0.0 <= s.energy <= 100.0 && 0.0 <= s.stress <= 100.0
  }

  function Ability(a: Abilities, k: AbilityKey): real
  {
    match k
    case Memory => a.memory
    case Comprehension => a.comprehension
    case Focus => a.focus
    case Mindset => a.mindset
  }

  function WithAbility(a: Abilities, k: AbilityKey, v: real): (r: Abilities)
    ensures Ability(r, k) == v
    ensures forall k' :: k' != k ==> Ability(r, k') == Ability(a, k')
  {
    match k
    case Memory => a.(memory := v)
    case Comprehension => a.(comprehension := v)
    case Focus => a.(focus := v)
    case Mindset => a.(mindset := v)
  }

  function StatusValue(s: Status, k: StatusKey): real
  {
    match k
    case Physical => s.physical
    case Energy => s.energy
    case Stress => s.stress
  }

  function WithStatus(s: Status, k: StatusKey, v: real): (r: Status)
    ensures StatusValue(r, k) == v
    ensures forall k' :: k' != k ==> StatusValue(r, k') == StatusValue(s, k')
  {
    match k
    case Physical => s.(physical := v)
    case Energy => s.(energy := v)
    case Stress => s.(stress := v)
  }

  lemma InRangeByKey(a: Abilities)
    ensures InRange(a) <==> forall k :: 0.0 <= Ability(a, k) <= 100.0
  {
    assert Ability(a, Memory) == a.memory && Ability(a, Comprehension) == a.comprehension;
    assert Ability(a, Focus) == a.focus && Ability(a, Mindset) == a.mindset;
  }

  lemma StatusInRangeByKey(s: Status)
    ensures StatusInRange(s) <==> forall k :: 0.0 <= StatusValue(s, k) <= 100.0
  {
    assert StatusValue(s, Physical) == s.physical && StatusValue(s, Energy) == s.energy;
    assert StatusValue(s, Stress) == s.stress;
  }

  // ---------------------------------------------------------------- abilities

  /**
   * `abilities[key] = clamp(abilities[key] + value, 0, 100)` for each entry of `deltas` in
   * order, as a fold from the front: the last entry is applied last.
   */
  function AbilitiesAfter(a: Abilities, deltas: seq<(AbilityKey, real)>): Abilities
  {
    if |deltas| == 0 then a
    else
      var prev := AbilitiesAfter(a, deltas[..|deltas| - 1]);
      var (k, v) := deltas[|deltas| - 1];
      WithAbility(prev, k, Clamp(Ability(prev, k) + v, 0.0, 100.0))
  }

  /**
   * Adding and clamping keeps every ability in [0, 100], and an ability no entry names is
   * left as it was; one that some entry names ends in [0, 100] whatever it was before.
   */
  lemma {:induction false} AbilitiesAfterInRange(a: Abilities, deltas: seq<(AbilityKey, real)>, k: AbilityKey)
    ensures InRange(a) ==> InRange(AbilitiesAfter(a, deltas))
    ensures (forall i :: 0 <= i < |deltas| ==> deltas[i].0 != k) ==> Ability(AbilitiesAfter(a, deltas), k) == Ability(a, k)
    ensures (exists i :: 0 <= i < |deltas| && deltas[i].0 == k) ==> 0.0 <= Ability(AbilitiesAfter(a, deltas), k) <= 100.0
  {
    if |deltas| > 0 {
      var init := deltas[..|deltas| - 1];
      AbilitiesAfterInRange(a, init, k);
      var prev := AbilitiesAfter(a, init);
      InRangeByKey(prev);
      InRangeByKey(AbilitiesAfter(a, deltas));
      assert forall i :: 0 <= i < |init| ==> init[i] == deltas[i];
    }
  }

  /**
   * The `subjectAbilityMapping` row of the subject drawn by an academic effect, or the even
   * fallback row when nothing is drawn (an empty list draws `undefined`).
   */
  function AcademicWeights(subject: Option<Subject>): seq<(AbilityKey, real)>
  {
    match subject
    case None => [(Memory, 0.25), (Comprehension, 0.25), (Focus, 0.25), (Mindset, 0.25)]
    case Some(s) =>
      match s
      case Chinese => [(Memory, 0.6), (Comprehension, 0.4)]
      case Math => [(Comprehension, 0.6), (Focus, 0.4)]
      case English => [(Memory, 0.5), (Comprehension, 0.5)]
      case Politics => [(Memory, 0.5), (Comprehension, 0.5)]
      case History => [(Memory, 0.6), (Comprehension, 0.4)]
      case Physics => [(Comprehension, 0.6), (Focus, 0.4)]
      case Chemistry => [(Comprehension, 0.6), (Focus, 0.4)]
      case Biology => [(Memory, 0.5), (Comprehension, 0.5)]
      case Geography => [(Memory, 0.5), (Comprehension, 0.5)]
      case Sports => [(Focus, 0.5), (Mindset, 0.5)]
  }

  /** `Math.floor(increase * weight)` for every row entry: the points each ability gains. */
  function AcademicDeltas(subject: Option<Subject>, increase: int): (r: seq<(AbilityKey, real)>)
    ensures |r| == |AcademicWeights(subject)|
    ensures forall i :: 0 <= i < |r| ==>
      r[i] == (AcademicWeights(subject)[i].0, (increase as real * AcademicWeights(subject)[i].1).Floor as real)
  {
    var w := AcademicWeights(subject);
    seq(|w|, i requires 0 <= i < |w| => (w[i].0, (increase as real * w[i].1).Floor as real))
  }

  /** The draws of an academic effect: the subject pick and the increase in 1..3. */
  datatype AcademicDraws = AcademicDraws(subject: real, increase: real)

  /**
   * The weights are below 0.7, and half the fallback's or less, so whatever the increase drawn
   * (at most 3), an academic effect raises each ability by at most one point; an increase of 1
   * raises nothing, and the fallback row never raises anything.
   */
  lemma AcademicGainAtMostOne(subject: Option<Subject>, increase: int)
    requires 1 <= increase <= 3
    ensures forall i :: 0 <= i < |AcademicDeltas(subject, increase)| ==>
      AcademicDeltas(subject, increase)[i].1 in {0.0, 1.0}
    ensures increase == 1 || subject.None? ==>
      forall i :: 0 <= i < |AcademicDeltas(subject, increase)| ==> AcademicDeltas(subject, increase)[i].1 == 0.0
  {
    var w := AcademicWeights(subject);
    forall i | 0 <= i < |w|
      ensures 0.0 <= increase as real * w[i].1 < 2.0
      ensures increase == 1 || subject.None? ==> increase as real * w[i].1 < 1.0
    {
      assert 0.0 < w[i].1 <= 0.6;
      assert subject.None? ==> w[i].1 == 0.25;
    }
  }

  /** Zero gains leave abilities in range exactly as they were. */
  lemma {:induction false} ZeroGainsChangeNothing(a: Abilities, deltas: seq<(AbilityKey, real)>)
    requires InRange(a)
    requires forall i :: 0 <= i < |deltas| ==> deltas[i].1 == 0.0
    ensures AbilitiesAfter(a, deltas) == a
  {
    if |deltas| > 0 {
      ZeroGainsChangeNothing(a, deltas[..|deltas| - 1]);
      InRangeByKey(a);
    }
  }

  // ---------------------------------------------------------------- status

  /** `status[key] = clamp(status[key] + value, 0, 100)` for each entry in order. */
  function StatusAfter(s: Status, deltas: seq<(StatusKey, real)>): Status
  {
    if |deltas| == 0 then s
    else
      var prev := StatusAfter(s, deltas[..|deltas| - 1]);
      var (k, v) := deltas[|deltas| - 1];
      WithStatus(prev, k, Clamp(StatusValue(prev, k) + v, 0.0, 100.0))
  }

  /** Status changes keep every status value in [0, 100] and leave unnamed values as they were. */
  lemma {:induction false} StatusAfterInRange(s: Status, deltas: seq<(StatusKey, real)>, k: StatusKey)
    ensures StatusInRange(s) ==> StatusInRange(StatusAfter(s, deltas))
    ensures (forall i :: 0 <= i < |deltas| ==> deltas[i].0 != k) ==> StatusValue(StatusAfter(s, deltas), k) == StatusValue(s, k)
  {
    if |deltas| > 0 {
      var init := deltas[..|deltas| - 1];
      StatusAfterInRange(s, init, k);
      StatusInRangeByKey(StatusAfter(s, init));
      StatusInRangeByKey(StatusAfter(s, deltas));
      assert forall i :: 0 <= i < |init| ==> init[i] == deltas[i];
    }
  }

  /**
   * maintainStatus's daily recovery: physical +5 and energy +10, each capped at 100, and
   * stress -2, floored at 0.
   */
  function Recovered(s: Status): (r: Status)
    ensures StatusInRange(s) ==> StatusInRange(r)
    ensures r.physical >= Min(s.physical, 100.0) && r.physical <= 100.0
    ensures r.energy >= Min(s.energy, 100.0) && r.energy <= 100.0
    ensures r.stress <= Max(s.stress, 0.0) && r.stress >= 0.0
    ensures s.physical <= 95.0 ==> r.physical == s.physical + 5.0
    ensures s.stress >= 2.0 ==> r.stress == s.stress - 2.0
  {
    Status(Min(100.0, s.physical + 5.0), Min(100.0, s.energy + 10.0), Max(0.0, s.stress - 2.0))
  }

  // ---------------------------------------------------------------- special counters

  /** `special[key] = (special[key] || 0) + value` for each entry in order. */
  function SpecialAfter(m: map<string, real>, adds: seq<(string, real)>): map<string, real>
  {
    if |adds| == 0 then m
    else
      var prev := SpecialAfter(m, adds[..|adds| - 1]);
      var (k, v) := adds[|adds| - 1];
      prev[k := (if k in prev then prev[k] else 0.0) + v]
  }

  /**
   * The counters are the old ones and the named ones; a counter no entry names keeps its value,
   * and a counter that is named exactly once gains exactly that entry's value.
   */
  lemma {:induction false} SpecialAfterCounters(m: map<string, real>, adds: seq<(string, real)>, k: string)
    ensures k in SpecialAfter(m, adds) <==> k in m || exists i :: 0 <= i < |adds| && adds[i].0 == k
    ensures (forall i :: 0 <= i < |adds| ==> adds[i].0 != k) && k in m ==> SpecialAfter(m, adds)[k] == m[k]
    ensures forall i :: 0 <= i < |adds| && adds[i].0 == k && (forall j :: 0 <= j < |adds| && j != i ==> adds[j].0 != k) ==>
      SpecialAfter(m, adds)[k] == (if k in m then m[k] else 0.0) + adds[i].1
  {
    if |adds| > 0 {
      var init := adds[..|adds| - 1];
      SpecialAfterCounters(m, init, k);
      assert forall i :: 0 <= i < |init| ==> init[i] == adds[i];
    }
  }
}
