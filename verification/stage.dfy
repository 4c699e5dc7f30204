/** Stage detection: a project is at the stage named by the first missing
    artifact slot, and each stage has a fixed next action. */
module Lifecycle {
  import opened Base
  import opened Types

  /** Which of the four slots are filled, in detection order. */
  function Presence(a: ArtifactStatus): (p: seq<bool>)
    ensures |p| == 4
  {
    [a.constitution.Some?, a.spec.Some?, a.plan.Some?, a.tasks.Some?]
  }

  /** The stage a project whose first `k` slots are filled has reached,
      when no implementation is detected. */
  const StageByFilledSlots: seq<Stage> := [Bootstrap, Specify, Plan, Tasks, Implement]

  /** `has_implementation_artifacts`: every project type answers no. */
  function HasImplementationArtifacts(a: ArtifactStatus, t: ProjectType): (b: bool)
    ensures !b
  {
    match t
    case Rust => false
    case Node => false
    case Python => false
    case Go => false
    case _ => false
  }

  /** `detect_stage`: the slots are inspected in the order constitution,
      spec, plan, tasks. */
  function DetectStage(a: ArtifactStatus, t: ProjectType): (s: Stage)
    ensures StageIndex(s) <= 4
    ensures forall i :: 0 <= i < StageIndex(s) ==> Presence(a)[i]
    ensures StageIndex(s) < 4 ==> !Presence(a)[StageIndex(s)]
    ensures s != Stage.Test && s != Stage.Review && s != Done
  {
    if a.constitution.None? then Bootstrap
    else if a.spec.None? then Specify
    else if a.plan.None? then Plan
    else if a.tasks.None? then Tasks
    else if !HasImplementationArtifacts(a, t) then Implement
    else Stage.Test
  }

  /** Number of leading filled slots. */
  function FilledPrefix(p: seq<bool>): (k: nat)
    ensures k <= |p|
    ensures forall i :: 0 <= i < k ==> p[i]
    ensures k < |p| ==> !p[k]
  {
    if p == [] || !p[0] then 0 else 1 + FilledPrefix(p[1..])
  }

  /** The detected stage is the one indexed by the number of leading
      filled slots. */
  lemma DetectStageByPrefix(a: ArtifactStatus, t: ProjectType)
    ensures DetectStage(a, t) == StageByFilledSlots[FilledPrefix(Presence(a))]
  {
  }

  /** Each slot of `a` that is filled is filled in `b` too. */
  predicate Covers(b: ArtifactStatus, a: ArtifactStatus) {
    (a.constitution.Some? ==> b.constitution.Some?)
    && (a.spec.Some? ==> b.spec.Some?)
    && (a.plan.Some? ==> b.plan.Some?)
    && (a.tasks.Some? ==> b.tasks.Some?)
  }

  /** Adding artifacts never moves a project to an earlier stage. */
  lemma DetectStageMonotone(a: ArtifactStatus, b: ArtifactStatus, t: ProjectType, u: ProjectType)
    requires Covers(b, a)
    ensures StageIndex(DetectStage(a, t)) <= StageIndex(DetectStage(b, u))
  {
  }

  /** Only which slots are filled matters, not the files' size, time or
      validity. */
  lemma DetectStageByPresenceOnly(a: ArtifactStatus, b: ArtifactStatus, t: ProjectType, u: ProjectType)
    requires Presence(a) == Presence(b)
    ensures DetectStage(a, t) == DetectStage(b, u)
  {
    DetectStageMonotone(a, b, t, u);
    DetectStageMonotone(b, a, u, t);
    assert StageIndex(DetectStage(a, t)) == StageIndex(DetectStage(b, u));
  }

  // The commands and descriptions of the next-action table.
  const ConstitutionCommand: string := "/speckit.constitution"
  const ConstitutionDescription: string := "Create project constitution to establish core values and principles"
  const SpecifyCommand: string := "/speckit.specify"
  const SpecifyDescription: string := "Create specification with user stories and requirements"
  const PlanCommand: string := "/speckit.plan"
  const PlanDescription: string := "Create implementation plan with technical design"
  const TasksCommand: string := "/speckit.tasks"
  const TasksDescription: string := "Generate task breakdown for implementation"
  const ImplementCommand: string := "/speckit.implement"
  const ImplementDescription: string := "Begin implementation of tasks"
  const TestCommand: string := "Run tests and verify implementation"
  const TestDescription: string := "Execute test suite and validate functionality"
  const ReviewCommand: string := "Review code and documentation"
  const ReviewDescription: string := "Perform code review and quality checks"
  const DoneCommand: string := "Project complete"
  const DoneDescription: string := "All stages completed successfully"

  /** `get_next_action`: the command to run next at each stage. */
  function NextActionFor(s: Stage): (n: NextAction)
    ensures n.automated <==> s == Tasks || s == Stage.Test
    ensures n.riskLevel == L2 <==> s == Bootstrap || s == Specify || s == Plan
    ensures n.riskLevel == L1 <==> s == Tasks || s == Stage.Test || s == Stage.Review
    ensures n.riskLevel == L3 <==> s == Implement
    ensures n.riskLevel == L0 <==> s == Done
  {
    match s
    case Bootstrap => NextAction(ConstitutionCommand, ConstitutionDescription, false, L2)
    case Specify => NextAction(SpecifyCommand, SpecifyDescription, false, L2)
    case Plan => NextAction(PlanCommand, PlanDescription, false, L2)
    case Tasks => NextAction(TasksCommand, TasksDescription, true, L1)
    case Implement => NextAction(ImplementCommand, ImplementDescription, false, L3)
    case Test => NextAction(TestCommand, TestDescription, true, L1)
    case Review => NextAction(ReviewCommand, ReviewDescription, false, L1)
    case Done => NextAction(DoneCommand, DoneDescription, false, L0)
  }

  /** `needs_human_attention`. */
  function NeedsHumanAttention(s: Stage): (b: bool)
    ensures b <==> s in {Bootstrap, Specify, Plan, Stage.Review}
  {
    match s
    case Bootstrap => true
    case Specify => true
    case Plan => true
    case Review => true
    case _ => false
  }

  /** A stage that needs human attention never has an automated next
      action. */
  lemma AttentionStagesAreManual(s: Stage)
    requires NeedsHumanAttention(s)
    ensures !NextActionFor(s).automated
    ensures NextActionFor(s).riskLevel != L0
  {
  }

  /** For every stage the detector can produce, the next action is
      automated exactly at the Tasks stage, and a detected project needs
      attention exactly when its constitution, spec or plan is missing,
      which is when its next action is a medium-risk one. */
  lemma DetectedStageActions(a: ArtifactStatus, t: ProjectType)
    ensures NextActionFor(DetectStage(a, t)).automated <==> DetectStage(a, t) == Tasks
    ensures NeedsHumanAttention(DetectStage(a, t)) <==> NextActionFor(DetectStage(a, t)).riskLevel == L2
    ensures NeedsHumanAttention(DetectStage(a, t)) <==> a.constitution.None? || a.spec.None? || a.plan.None?
  {
  }

  /** `stage_description`. */
  function StageDescription(s: Stage): (d: string)
    ensures d != []
  {
    match s
    case Bootstrap => "Needs constitution - establish project identity"
    case Specify => "Needs specification - define requirements"
    case Plan => "Needs plan - design technical approach"
    case Tasks => "Needs tasks - break down work items"
    case Implement => "In implementation - coding in progress"
    case Test => "In testing - validating functionality"
    case Review => "In review - awaiting approval"
    case Done => "Complete - all stages finished"
  }
}
