/** Assembling one project's record: choosing the artifact root, reading
    the task list, probing version control, and scoring. The version-control
    answers and the current time are inputs. */
module Process {
  import opened Base
  import opened Types
  import opened Text
  import opened Fs
  import opened Artifacts
  import opened Tasks
  import opened Lifecycle
  import opened Scoring
  import opened Meta
  import opened Finder

  /** The settings the scan reads from the global configuration. */
  datatype Config = Config(weights: Weights, attentionThreshold: real, scanDepth: U8)

  /** `GlobalConfig::default`, restricted to those settings. */
  const DefaultConfig: Config := Config(DefaultWeights, 50.0, 5)

  /** What the version-control probes answer for a project directory: its
      status, and whether it shows recent errors. */
  datatype Probes = Probes(git: Result<GitStatus, Error>, hasErrors: Result<bool, Error>)

  const SpecsDir: string := "specs"
  const SpecifyDir: string := ".specify"

  // ---------------------------------------------------------------------
  // root selection

  /** The artifacts of a project: `specs/` when it exists and holds
      anything, else `.specify/` when that exists, else the empty result of
      `specs/`; without `specs/`, whatever `.specify/` yields. */
  function SelectArtifacts(fs: FileSystem, project: Path): (r: Result<ArtifactStatus, Error>)
    ensures Exists(fs, project + [SpecsDir]) && ParseArtifacts(fs, project + [SpecsDir]).Err? ==>
              r == ParseArtifacts(fs, project + [SpecsDir])
    ensures Exists(fs, project + [SpecsDir]) && ParseArtifacts(fs, project + [SpecsDir]).Ok?
            && HasAnyArtifact(ParseArtifacts(fs, project + [SpecsDir]).value) ==>
              r == ParseArtifacts(fs, project + [SpecsDir])
    ensures Exists(fs, project + [SpecsDir]) && ParseArtifacts(fs, project + [SpecsDir]).Ok?
            && !HasAnyArtifact(ParseArtifacts(fs, project + [SpecsDir]).value) ==>
              r == (if Exists(fs, project + [SpecifyDir]) then ParseArtifacts(fs, project + [SpecifyDir])
                    else Ok(EmptyArtifacts))
    ensures !Exists(fs, project + [SpecsDir]) ==> r == ParseArtifacts(fs, project + [SpecifyDir])
  {
    var specs := project + [SpecsDir];
    var specify := project + [SpecifyDir];
    if Exists(fs, specs) then
      var fromSpecs :- ParseArtifacts(fs, specs);
      if HasAnyArtifact(fromSpecs) then Ok(fromSpecs)
      else if Exists(fs, specify) then ParseArtifacts(fs, specify)
      else Ok(fromSpecs)
    else
      ParseArtifacts(fs, specify)
  }

  /** `p` lies strictly below `dir`. */
  predicate Below(dir: Path, p: Path) {
    |dir| < |p| && p[..|dir|] == dir
  }

  /** Nothing exists below `dir` and it cannot be listed: what an absent
      directory looks like in a consistent filesystem. */
  predicate NothingBelow(fs: FileSystem, dir: Path) {
    (forall p :: p in fs.present ==> !Below(dir, p))
    && (forall p :: p in fs.dirs ==> !Below(dir, p))
    && dir !in fs.listing
  }

  lemma BelowOfExtension(dir: Path, rest: seq<string>)
    requires rest != []
    ensures Below(dir, dir + rest)
  {
    assert (dir + rest)[..|dir|] == dir;
  }

  /** An absent directory yields the empty status, without error. */
  lemma ParseAbsentDirectory(fs: FileSystem, dir: Path)
    requires NothingBelow(fs, dir)
    ensures ParseArtifacts(fs, dir) == Ok(EmptyArtifacts)
  {
    BelowOfExtension(dir, ConstitutionFile);
    BelowOfExtension(dir, MemoryConstitutionFile);
    BelowOfExtension(dir, SpecFile);
    BelowOfExtension(dir, PlanFile);
    BelowOfExtension(dir, TasksFile);
  }

  /** With neither root present, the project has no artifacts. */
  lemma NeitherRootIsEmpty(fs: FileSystem, project: Path)
    requires !Exists(fs, project + [SpecsDir])
    requires NothingBelow(fs, project + [SpecifyDir])
    ensures SelectArtifacts(fs, project) == Ok(EmptyArtifacts)
  {
    ParseAbsentDirectory(fs, project + [SpecifyDir]);
  }

  // ---------------------------------------------------------------------
  // the pieces of a project record

  /** The task summary: parsed from the tasks artifact when there is one,
      the all-zero default otherwise. */
  function TasksOf(fs: FileSystem, a: ArtifactStatus): (r: Result<TaskSummary, Error>)
    ensures a.tasks.None? ==> r == Ok(DefaultTaskSummary())
    ensures a.tasks.Some? ==> r == ParseTasksFile(fs, a.tasks.value.path)
    ensures r.Ok? ==> r.value.completed <= r.value.total
                      && r.value.parallelMarked <= r.value.total && r.value.blocked <= r.value.total
  {
    if a.tasks.Some? then ParseTasksFile(fs, a.tasks.value.path) else Ok(DefaultTaskSummary())
  }

  /** A project's id: its directory name, or `unknown` when the path has
      no last component. */
  function ProjectId(project: Path): (id: string)
    ensures FileName(project).Some? ==> id == FileName(project).value
    ensures FileName(project).None? ==> id == "unknown"
  {
    match FileName(project)
    case Some(name) => name
    case None => "unknown"
  }

  /** The stored impact of the project, 2 when there is no entry or no
      impact in it. */
  function ImpactOf(store: MetaStore, id: string): (i: U8)
    ensures id in store.projects && store.projects[id].impact.Some? ==> i == store.projects[id].impact.value
    ensures !(id in store.projects && store.projects[id].impact.Some?) ==> i == 2
  {
    if id in store.projects && store.projects[id].impact.Some? then store.projects[id].impact.value else 2
  }

  /** Confidence 2 for a project a human approved, 1 otherwise. */
  function ConfidenceOf(store: MetaStore, id: string): (c: U8)
    ensures c == 1 || c == 2
    ensures c == 2 <==> id in store.projects && store.projects[id].approvedByHuman
  {
    if id in store.projects && store.projects[id].approvedByHuman then 2 else 1
  }

  /** When the project last changed: the spec's modification time, or now
      when there is no spec. */
  function LastUpdated(a: ArtifactStatus, now: Instant): (t: Instant)
    ensures a.spec.Some? ==> t == a.spec.value.modified
    ensures a.spec.None? ==> t == now
  {
    match a.spec
    case Some(f) => f.modified
    case None => now
  }

  /** A project without a spec is not stale at all. */
  lemma NoSpecNoStaleness(a: ArtifactStatus, now: Instant)
    requires a.spec.None?
    ensures ElapsedDays(now - LastUpdated(a, now)) == 0
    ensures Staleness(ElapsedDays(now - LastUpdated(a, now))) == 0.0
  {
  }

  /** An id nobody configured scores with impact 2 and confidence 1, also
      once `get_project_mut` has given it a default entry. */
  lemma MetadataDefaults(store: MetaStore, id: string)
    requires id !in store.projects
    ensures ImpactOf(store, id) == 2 && ConfidenceOf(store, id) == 1
    ensures ImpactOf(GetProjectMut(store, id), id) == 2 && ConfidenceOf(GetProjectMut(store, id), id) == 1
  {
  }

  /** The impact set through `set_value` is the impact the scorer uses. */
  lemma SetImpactIsScored(store: MetaStore, id: string, n: U8)
    ensures ImpactOf(SetValue(store, id, "impact", ToDecimal(n)).store, id) == n
  {
    SetImpactThenRead(store, id, n);
  }

  // ---------------------------------------------------------------------
  // the record

  /** The record built once every probe has answered, for a directory of
      the given kind. */
  function Assemble(cfg: Config, store: MetaStore, project: Path, projectType: ProjectType, artifacts: ArtifactStatus,
                    tasks: TaskSummary, git: GitStatus, hasErrors: bool, now: Instant): (p: Project)
    ensures p.path == project && p.projectType == projectType && p.artifacts == artifacts
    ensures p.tasks == tasks && p.git == git
    ensures p.id == ProjectId(project) && p.updated == LastUpdated(artifacts, now)
    ensures p.stage == DetectStage(artifacts, projectType)
    ensures p.next == NextActionFor(p.stage)
    ensures p.requiresHuman == DetectHumanRequirements(p.stage, git, tasks)
    ensures p.priority == Priority(cfg.weights, p.requiresHuman, CalculateRisk(p.stage, git, tasks, hasErrors),
                                   ElapsedDays(now - p.updated), ImpactOf(store, p.id), ConfidenceOf(store, p.id))
  {
    var stage := DetectStage(artifacts, projectType);
    var risk := CalculateRisk(stage, git, tasks, hasErrors);
    var requirements := DetectHumanRequirements(stage, git, tasks);
    var id := ProjectId(project);
    var updated := LastUpdated(artifacts, now);
    var priority := Priority(cfg.weights, requirements, risk, ElapsedDays(now - updated),
                             ImpactOf(store, id), ConfidenceOf(store, id));
    Project(id, project, stage, NextActionFor(stage), requirements, priority, tasks, updated, git,
            projectType, artifacts)
  }

  /** `process_project`: the artifacts, the task list, the version-control
      status and the error probe are consulted in that order, and the first
      that fails decides the error. */
  function ProcessProject(fs: FileSystem, cfg: Config, store: MetaStore, project: Path, probes: Probes,
                          now: Instant): (r: Result<Project, Error>)
    ensures SelectArtifacts(fs, project).Err? ==> r == Err(SelectArtifacts(fs, project).error)
    ensures SelectArtifacts(fs, project).Ok? && TasksOf(fs, SelectArtifacts(fs, project).value).Err? ==>
              r == Err(TasksOf(fs, SelectArtifacts(fs, project).value).error)
    ensures SelectArtifacts(fs, project).Ok? && TasksOf(fs, SelectArtifacts(fs, project).value).Ok?
            && probes.git.Err? ==>
              r == Err(probes.git.error)
    ensures SelectArtifacts(fs, project).Ok? && TasksOf(fs, SelectArtifacts(fs, project).value).Ok?
            && probes.git.Ok? && probes.hasErrors.Err? ==>
              r == Err(probes.hasErrors.error)
    ensures r.Ok? <==> SelectArtifacts(fs, project).Ok? && TasksOf(fs, SelectArtifacts(fs, project).value).Ok?
                       && probes.git.Ok? && probes.hasErrors.Ok?
    ensures r.Ok? ==> r.value == Assemble(cfg, store, project, DetectProjectType(fs, project),
                                          SelectArtifacts(fs, project).value,
                                          TasksOf(fs, SelectArtifacts(fs, project).value).value,
                                          probes.git.value, probes.hasErrors.value, now)
    ensures r.Ok? ==> r.value.tasks.completed <= r.value.tasks.total
  {
    var artifacts :- SelectArtifacts(fs, project);
    var tasks :- TasksOf(fs, artifacts);
    var git :- probes.git;
    var hasErrors :- probes.hasErrors;
    Ok(Assemble(cfg, store, project, DetectProjectType(fs, project), artifacts, tasks, git, hasErrors, now))
  }

  /** A clean checkout with no recent errors, no blocked and few parallel
      tasks has risk 0 and no Fix or Decision requirement; outside a
      repository the status reports clean, so this covers every directory
      that is not a repository. */
  lemma CleanProjectHasNoRisk(fs: FileSystem, cfg: Config, store: MetaStore, project: Path,
                              artifacts: ArtifactStatus, tasks: TaskSummary, git: GitStatus, now: Instant)
    requires git.clean && tasks.blocked == 0 && tasks.parallelMarked <= 3
    ensures var p := Assemble(cfg, store, project, DetectProjectType(fs, project), artifacts, tasks, git, false, now);
            CalculateRisk(p.stage, p.git, p.tasks, false) == 0
            && Fix !in p.requiresHuman && Decision !in p.requiresHuman
  {
  }

  /** A detected project is never past Implement, so it never asks for a
      test or a review, and it needs a human exactly while its
      constitution, spec or plan is missing. */
  lemma ProcessedStage(fs: FileSystem, cfg: Config, store: MetaStore, project: Path, artifacts: ArtifactStatus,
                       tasks: TaskSummary, git: GitStatus, hasErrors: bool, now: Instant)
    ensures var p := Assemble(cfg, store, project, DetectProjectType(fs, project), artifacts, tasks, git, hasErrors, now);
            StageIndex(p.stage) <= StageIndex(Implement)
            && HumanRequirement.Test !in p.requiresHuman && HumanRequirement.Review !in p.requiresHuman
            && (Input in p.requiresHuman <==> artifacts.constitution.None? || artifacts.spec.None? || artifacts.plan.None?)
  {
  }

  /** The score of a project without a spec has no staleness term. */
  lemma NoSpecScore(fs: FileSystem, cfg: Config, store: MetaStore, project: Path, artifacts: ArtifactStatus,
                    tasks: TaskSummary, git: GitStatus, hasErrors: bool, now: Instant)
    requires artifacts.spec.None?
    ensures var p := Assemble(cfg, store, project, DetectProjectType(fs, project), artifacts, tasks, git, hasErrors, now);
            p.updated == now
            && p.priority == Priority(cfg.weights, p.requiresHuman, CalculateRisk(p.stage, git, tasks, hasErrors),
                                      0, ImpactOf(store, p.id), ConfidenceOf(store, p.id))
  {
    NoSpecNoStaleness(artifacts, now);
  }
}
