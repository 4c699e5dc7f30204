/** The engine's data model: lifecycle stages, task summaries, artifact
    slots, repository status and the portfolio records assembled from them. */
module Types {
  import opened Base

  /** A filesystem path as the components `Path::components` yields; an
      absolute path starts with the empty component (so `/a/b` is
      `["", "a", "b"]`). Those components are normalised: `.` occurs only
      as the first one, so `a/./b` and `a/b/.` are `["a", "b"]`. */
  type Path = seq<string>

  /** A point in time, in nanoseconds since the Unix epoch (UTC). */
  type Instant = int

  /** The eight lifecycle stages, in lifecycle order. */
  datatype Stage = Bootstrap | Specify | Plan | Tasks | Implement | Test | Review | Done

  /** Ordinal automation risk levels, from read-only to high risk. */
  datatype AutomationLevel = L0 | L1 | L2 | L3

  /** Kinds of human involvement a project can need. */
  datatype HumanRequirement = Review | Input | Fix | Test | Deploy | Decision

  /** Task counts extracted from a task list, with the file's mtime. */
  datatype TaskSummary = TaskSummary(
    total: nat,
    completed: nat,
    parallelMarked: nat,
    blocked: nat,
    lastActivity: Option<Instant>)

  /** Version-control status of a project directory. */
  datatype GitStatus = GitStatus(
    isRepo: bool,
    branch: Option<string>,
    clean: bool,
    lastCommit: Option<Instant>,
    ahead: nat,
    behind: nat)

  datatype ProjectType = Rust | Node | Python | Go | Generic | Unknown

  /** What was learnt about one artifact file. */
  datatype FileInfo = FileInfo(path: Path, size: nat, modified: Instant, valid: bool)

  /** The four artifact slots of a project, each independently present. */
  datatype ArtifactStatus = ArtifactStatus(
    constitution: Option<FileInfo>,
    spec: Option<FileInfo>,
    plan: Option<FileInfo>,
    tasks: Option<FileInfo>)

  datatype NextAction = NextAction(
    command: string,
    description: string,
    automated: bool,
    riskLevel: AutomationLevel)

  /** The failures a project scan can run into. */
  datatype Error =
    | IoError(path: Path)          // metadata or contents of a path unreadable
    | GitError(message: string)    // reported by the version-control probe

  /** The assembled record for one project. */
  datatype Project = Project(
    id: string,
    path: Path,
    stage: Stage,
    next: NextAction,
    requiresHuman: seq<HumanRequirement>,
    priority: real,
    tasks: TaskSummary,
    updated: Instant,
    git: GitStatus,
    projectType: ProjectType,
    artifacts: ArtifactStatus)

  /** One project that could not be processed, and why. */
  datatype ScanFailure = ScanFailure(path: Path, cause: Error)

  datatype ScanStats = ScanStats(
    directoriesScanned: nat,
    projectsFound: nat,
    scanTimeMs: nat,
    errors: seq<ScanFailure>)

  datatype StatusSummary = StatusSummary(
    needsAttention: nat,
    totalProjects: nat,
    byStage: map<Stage, nat>,
    totalTasks: nat,
    completedTasks: nat,
    avgPriority: real)

  datatype PortfolioStatus = PortfolioStatus(
    generatedAt: Instant,
    scanStats: ScanStats,
    projects: seq<Project>,
    summary: StatusSummary)

  /** Position of a stage in the lifecycle, Bootstrap first. */
  function StageIndex(s: Stage): (k: nat)
    ensures k < 8
  {
    match s
    case Bootstrap => 0
    case Specify => 1
    case Plan => 2
    case Tasks => 3
    case Implement => 4
    case Test => 5
    case Review => 6
    case Done => 7
  }

  /** Every stage, in lifecycle order. */
  const AllStages: seq<Stage> :=
    [Bootstrap, Specify, Plan, Tasks, Implement, Stage.Test, Stage.Review, Done]

  /** All eight stages are distinct values listed at their own index. */
  lemma AllStagesEnumerates(s: Stage)
    ensures |AllStages| == 8
    ensures AllStages[StageIndex(s)] == s
    ensures s in AllStages
    ensures NoDuplicates(AllStages)
  {
  }

  /** The all-zero summary used when a project has no task list. */
  function DefaultTaskSummary(): (t: TaskSummary)
    ensures t.total == t.completed == t.parallelMarked == t.blocked == 0
    ensures t.lastActivity.None?
  {
    TaskSummary(0, 0, 0, 0, None)
  }

  const EmptyArtifacts: ArtifactStatus := ArtifactStatus(None, None, None, None)

  predicate HasAnyArtifact(a: ArtifactStatus) {
    a.constitution.Some? || a.spec.Some? || a.plan.Some? || a.tasks.Some?
  }
}
