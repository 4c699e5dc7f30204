/** The scorer: a capped risk count, the ordered list of human
    requirements, and the linear priority formula over normalised inputs.
    Reals stand for the source's 64-bit floats. */
module Scoring {
  import opened Base
  import opened Types

  // ---------------------------------------------------------------------
  // risk

  function Bit(b: bool): nat {
    if b then 1 else 0
  }

  /** The four risk conditions, in the order they are checked. */
  function RiskConditions(git: GitStatus, tasks: TaskSummary, hasErrors: bool): seq<bool> {
    [hasErrors, tasks.parallelMarked > 3, tasks.blocked > 0, !git.clean]
  }

  function CountTrue(bs: seq<bool>): (n: nat)
    ensures n <= |bs|
    ensures n == 0 <==> forall i :: 0 <= i < |bs| ==> !bs[i]
  {
    if bs == [] then 0 else Bit(bs[0]) + CountTrue(bs[1..])
  }

  function Min(a: int, b: int): int {
    if a <= b then a else b
  }

  /** `calculate_risk`: one point per condition, capped at three. The
      stage is accepted and ignored. */
  function CalculateRisk(stage: Stage, git: GitStatus, tasks: TaskSummary, hasErrors: bool): (r: U8)
    ensures r == Min(3, CountTrue(RiskConditions(git, tasks, hasErrors)))
    ensures r <= 3
    ensures r == 0 <==> !hasErrors && tasks.parallelMarked <= 3 && tasks.blocked == 0 && git.clean
  {
    var risk := Bit(hasErrors) + Bit(tasks.parallelMarked > 3) + Bit(tasks.blocked > 0) + Bit(!git.clean);
    assert CountTrue(RiskConditions(git, tasks, hasErrors)) == risk by {
      var bs := RiskConditions(git, tasks, hasErrors);
      assert CountTrue(bs[3..]) == Bit(bs[3]) by { assert bs[3..][1..] == []; }
      assert CountTrue(bs[2..]) == Bit(bs[2]) + CountTrue(bs[3..]) by { assert bs[2..][1..] == bs[3..]; }
      assert CountTrue(bs[1..]) == Bit(bs[1]) + CountTrue(bs[2..]) by { assert bs[1..][1..] == bs[2..]; }
    }
    Min(3, risk)
  }

  /** Risk only grows when a condition switches on. */
  lemma CalculateRiskMonotone(stage: Stage, git: GitStatus, tasks: TaskSummary, hasErrors: bool,
                              git': GitStatus, tasks': TaskSummary, hasErrors': bool)
    requires hasErrors ==> hasErrors'
    requires tasks.parallelMarked > 3 ==> tasks'.parallelMarked > 3
    requires tasks.blocked > 0 ==> tasks'.blocked > 0
    requires !git.clean ==> !git'.clean
    ensures CalculateRisk(stage, git, tasks, hasErrors) <= CalculateRisk(stage, git', tasks', hasErrors')
  {
  }

  // ---------------------------------------------------------------------
  // human requirements

  /** Position of a requirement kind in the list: stage entry, then Fix,
      then Decision. */
  function Rank(h: HumanRequirement): nat {
    match h
    case Fix => 1
    case Decision => 2
    case _ => 0
  }

  /** The entry contributed by the stage, if any. */
  function StageRequirement(stage: Stage, tasks: TaskSummary): (r: seq<HumanRequirement>)
    ensures |r| <= 1
    ensures Input in r <==> stage in {Bootstrap, Specify, Plan}
    ensures HumanRequirement.Review in r <==> stage == Stage.Review
    ensures HumanRequirement.Test in r <==> stage == Stage.Test && tasks.completed < tasks.total
    ensures forall i :: 0 <= i < |r| ==> Rank(r[i]) == 0 && r[i] != Deploy
  {
    match stage
    case Bootstrap => [Input]
    case Specify => [Input]
    case Plan => [Input]
    case Review => [HumanRequirement.Review]
    case Test => if tasks.completed < tasks.total then [HumanRequirement.Test] else []
    case _ => []
  }

  /** `detect_human_requirements`. */
  function DetectHumanRequirements(stage: Stage, git: GitStatus, tasks: TaskSummary): (r: seq<HumanRequirement>)
    ensures Input in r <==> stage in {Bootstrap, Specify, Plan}
    ensures HumanRequirement.Review in r <==> stage == Stage.Review
    ensures HumanRequirement.Test in r <==> stage == Stage.Test && tasks.completed < tasks.total
    ensures Fix in r <==> !git.clean
    ensures Decision in r <==> tasks.blocked > 0
    ensures Deploy !in r
    ensures |r| <= 3
  {
    StageRequirement(stage, tasks)
    + (if !git.clean then [Fix] else [])
    + (if tasks.blocked > 0 then [Decision] else [])
  }

  /** Kinds of increasing rank, so pairwise distinct. */
  predicate Ranked(r: seq<HumanRequirement>) {
    forall i, j :: 0 <= i < j < |r| ==> Rank(r[i]) < Rank(r[j])
  }

  lemma RankedShape(head: seq<HumanRequirement>, fix: bool, decision: bool)
    requires |head| <= 1 && forall i :: 0 <= i < |head| ==> Rank(head[i]) == 0
    ensures Ranked(head + (if fix then [Fix] else []) + (if decision then [Decision] else []))
  {
    var tail: seq<HumanRequirement> := (if fix then [Fix] else []) + (if decision then [Decision] else []);
    assert Ranked(tail);
    assert head + (if fix then [Fix] else []) + (if decision then [Decision] else []) == head + tail;
    if head != [] {
      assert head == [head[0]];
      assert forall k :: 0 <= k < |tail| ==> Rank(tail[k]) > 0;
    }
  }

  /** The list is ordered stage entry, Fix, Decision, so no kind appears
      twice. */
  lemma HumanRequirementsOrdered(stage: Stage, git: GitStatus, tasks: TaskSummary)
    ensures Ranked(DetectHumanRequirements(stage, git, tasks))
    ensures NoDuplicates(DetectHumanRequirements(stage, git, tasks))
  {
    RankedShape(StageRequirement(stage, tasks), !git.clean, tasks.blocked > 0);
  }

  // ---------------------------------------------------------------------
  // normalisers

  /** `normalize_risk`. */
  function NormalizeRisk(risk: U8): (x: real)
    ensures x * 3.0 == risk as real
  {
    (risk as real) / 3.0
  }

  /** `normalize_impact`: levels 1 to 3, anything else the middle value. */
  function NormalizeImpact(impact: U8): (x: real)
    ensures 0.33 <= x <= 1.0
    ensures impact == 1 ==> x == 0.33
    ensures impact == 2 ==> x == 0.66
    ensures impact == 3 ==> x == 1.0
    ensures x == 0.5 <==> impact !in {1, 2, 3}
  {
    if impact == 1 then 0.33
    else if impact == 2 then 0.66
    else if impact == 3 then 1.0
    else 0.5
  }

  /** The three impact levels map to increasing values, the highest to 1. */
  lemma ImpactLevelsIncrease()
    ensures NormalizeImpact(1) < NormalizeImpact(2) < NormalizeImpact(3) == 1.0
  {
  }

  /** `normalize_confidence`. */
  function NormalizeConfidence(confidence: U8): (x: real)
    ensures x * 2.0 == confidence as real
  {
    (confidence as real) / 2.0
  }

  /** `calculate_staleness` for `days` whole elapsed days: a seventh of a
      point per day, clamped to the unit interval. */
  function Staleness(days: int): (x: real)
    ensures 0.0 <= x <= 1.0
    ensures x == 0.0 <==> days <= 0
    ensures x == 1.0 <==> days >= 7
    ensures 0 <= days <= 7 ==> x * 7.0 == days as real
  {
    var raw := (days as real) / 7.0;
    if raw >= 1.0 then 1.0 else if raw <= 0.0 then 0.0 else raw
  }

  lemma StalenessMonotone(d: int, e: int)
    requires d <= e
    ensures Staleness(d) <= Staleness(e)
  {
  }

  /** Whole days in a span of nanoseconds, truncated toward zero as the
      duration's day count is: whole seconds first, then whole days. */
  function ElapsedDays(nanos: int): (d: int)
    ensures nanos >= 0 ==> d * 86_400_000_000_000 <= nanos < (d + 1) * 86_400_000_000_000
    ensures nanos < 0 ==> d <= 0
  {
    var seconds := TruncDiv(nanos, 1_000_000_000);
    TruncDiv(seconds, 86_400)
  }

  // ---------------------------------------------------------------------
  // the formula

  datatype Weights = Weights(needsHuman: real, risk: real, staleness: real, impact: real, confidence: real)

  /** `PriorityWeights::default`. */
  const DefaultWeights: Weights := Weights(40.0, 25.0, 15.0, 15.0, 10.0)

  predicate NonNegative(w: Weights) {
    w.needsHuman >= 0.0 && w.risk >= 0.0 && w.staleness >= 0.0 && w.impact >= 0.0 && w.confidence >= 0.0
  }

  /** One weighted term of the formula. */
  function Term(weight: real, x: real): (t: real)
    ensures weight >= 0.0 && 0.0 <= x ==> 0.0 <= t
    ensures weight >= 0.0 && x <= 1.0 ==> t <= weight
  {
    weight * x
  }

  /** A non-negative weight keeps the order of what it scales. */
  lemma TermMonotone(weight: real, x: real, y: real)
    requires weight >= 0.0 && x <= y
    ensures Term(weight, x) <= Term(weight, y)
  {
    assert Term(weight, y) - Term(weight, x) == Term(weight, y - x);
  }

  /** `PriorityCalculator::calculate`, with the elapsed time given as whole
      days. */
  function Priority(w: Weights, requirements: seq<HumanRequirement>, risk: U8, days: int,
                    impact: U8, confidence: U8): (p: real)
    ensures NonNegative(w) ==>
              p <= w.needsHuman + Term(w.risk, NormalizeRisk(risk)) + w.staleness + w.impact
    ensures NonNegative(w) ==> p >= 0.0 - Term(w.confidence, NormalizeConfidence(confidence))
  {
    var needsHuman := if requirements == [] then 0.0 else 1.0;
    Term(w.needsHuman, needsHuman)
      + Term(w.risk, NormalizeRisk(risk))
      + Term(w.staleness, Staleness(days))
      + Term(w.impact, NormalizeImpact(impact))
      - Term(w.confidence, NormalizeConfidence(confidence))
  }

  /** Only whether the requirement list is empty matters. */
  lemma PriorityDependsOnEmptiness(w: Weights, r1: seq<HumanRequirement>, r2: seq<HumanRequirement>,
                                   risk: U8, days: int, impact: U8, confidence: U8)
    requires (r1 == []) == (r2 == [])
    ensures Priority(w, r1, risk, days, impact, confidence) == Priority(w, r2, risk, days, impact, confidence)
  {
  }

  /** With non-negative weights the score rises with risk and with age and
      falls with confidence. */
  lemma PriorityMonotone(w: Weights, reqs: seq<HumanRequirement>, risk: U8, risk': U8, days: int, days': int,
                         impact: U8, confidence: U8, confidence': U8)
    requires NonNegative(w)
    requires risk <= risk' && days <= days' && confidence' <= confidence
    ensures Priority(w, reqs, risk, days, impact, confidence) <= Priority(w, reqs, risk', days', impact, confidence')
  {
    StalenessMonotone(days, days');
    TermMonotone(w.risk, NormalizeRisk(risk), NormalizeRisk(risk'));
    TermMonotone(w.staleness, Staleness(days), Staleness(days'));
    TermMonotone(w.confidence, NormalizeConfidence(confidence'), NormalizeConfidence(confidence));
  }

  /** A worked example with the default weights: a project that needs a
      human, has risk 2, is a week old, has impact 2 and confidence 1. */
  lemma DefaultWeightsExample()
    ensures Priority(DefaultWeights, [Input], 2, 7, 2, 1) == 40.0 + 50.0 / 3.0 + 15.0 + 9.9 - 5.0
  {
  }
}
