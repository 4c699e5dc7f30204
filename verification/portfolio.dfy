/** The portfolio scan: every discovered project is processed on its own,
    failures are collected beside the successes, and the summary counts
    are computed over the successes; plus the status filters applied to a
    cached portfolio. */
module Portfolio {
  import opened Base
  import opened Types
  import opened Text
  import opened Fs
  import opened Lifecycle
  import opened Meta
  import opened Process
  import opened Finder

  // ---------------------------------------------------------------------
  // per-project outcomes

  /** The outcome for each candidate, in order. */
  function Outcomes(fs: FileSystem, cfg: Config, store: MetaStore, candidates: seq<Path>,
                    probesOf: Path -> Probes, now: Instant): (os: seq<Result<Project, Error>>)
    ensures |os| == |candidates|
  {
    seq(|candidates|, i requires 0 <= i < |candidates| =>
      ProcessProject(fs, cfg, store, candidates[i], probesOf(candidates[i]), now))
  }

  lemma OutcomeAt(fs: FileSystem, cfg: Config, store: MetaStore, candidates: seq<Path>,
                  probesOf: Path -> Probes, now: Instant, i: nat)
    requires i < |candidates|
    ensures Outcomes(fs, cfg, store, candidates, probesOf, now)[i]
            == ProcessProject(fs, cfg, store, candidates[i], probesOf(candidates[i]), now)
  {
  }

  /** Every successful outcome has no more completed tasks than tasks. */
  lemma OutcomesRespect(fs: FileSystem, cfg: Config, store: MetaStore, candidates: seq<Path>,
                        probesOf: Path -> Probes, now: Instant)
    ensures var os := Outcomes(fs, cfg, store, candidates, probesOf, now);
            forall i :: 0 <= i < |os| && os[i].Ok? ==> os[i].value.tasks.completed <= os[i].value.tasks.total
  {
    var os := Outcomes(fs, cfg, store, candidates, probesOf, now);
    forall i | 0 <= i < |os| && os[i].Ok? ensures os[i].value.tasks.completed <= os[i].value.tasks.total {
      OutcomeAt(fs, cfg, store, candidates, probesOf, now, i);
    }
  }

  /** The successful outcomes' projects, in order. */
  function Successes(os: seq<Result<Project, Error>>): (ps: seq<Project>)
    ensures |ps| <= |os|
  {
    if os == [] then []
    else Successes(os[..|os| - 1]) + (if os[|os| - 1].Ok? then [os[|os| - 1].value] else [])
  }

  /** The failed outcomes, each with its candidate, in order. */
  function Failures(candidates: seq<Path>, os: seq<Result<Project, Error>>): (fs: seq<ScanFailure>)
    requires |candidates| == |os|
    ensures |fs| <= |os|
  {
    if os == [] then []
    else
      Failures(candidates[..|os| - 1], os[..|os| - 1])
      + (if os[|os| - 1].Err? then [ScanFailure(candidates[|os| - 1], os[|os| - 1].error)] else [])
  }

  /** Every outcome lands on exactly one side. */
  lemma {:induction false} OutcomesPartition(candidates: seq<Path>, os: seq<Result<Project, Error>>)
    requires |candidates| == |os|
    ensures |Successes(os)| + |Failures(candidates, os)| == |os|
  {
    if os != [] {
      OutcomesPartition(candidates[..|os| - 1], os[..|os| - 1]);
    }
  }

  /** A successful candidate's project is reported, whatever the others do. */
  lemma {:induction false} SuccessReported(os: seq<Result<Project, Error>>, i: nat)
    requires i < |os| && os[i].Ok?
    ensures os[i].value in Successes(os)
  {
    if i < |os| - 1 {
      assert os[..|os| - 1][i] == os[i];
      SuccessReported(os[..|os| - 1], i);
    }
  }

  /** A failed candidate is reported with its error, whatever the others do. */
  lemma {:induction false} FailureReported(candidates: seq<Path>, os: seq<Result<Project, Error>>, i: nat)
    requires |candidates| == |os| && i < |os| && os[i].Err?
    ensures ScanFailure(candidates[i], os[i].error) in Failures(candidates, os)
  {
    if i < |os| - 1 {
      assert os[..|os| - 1][i] == os[i];
      assert candidates[..|os| - 1][i] == candidates[i];
      FailureReported(candidates[..|os| - 1], os[..|os| - 1], i);
    }
  }

  // ---------------------------------------------------------------------
  // summary counts

  function TotalTasks(ps: seq<Project>): nat {
    if ps == [] then 0 else TotalTasks(ps[..|ps| - 1]) + ps[|ps| - 1].tasks.total
  }

  function CompletedTasks(ps: seq<Project>): nat {
    if ps == [] then 0 else CompletedTasks(ps[..|ps| - 1]) + ps[|ps| - 1].tasks.completed
  }

  /** Completed never exceeds total, summed over projects that each
      respect it. */
  lemma {:induction false} CompletedWithinTotal(ps: seq<Project>)
    requires forall i :: 0 <= i < |ps| ==> ps[i].tasks.completed <= ps[i].tasks.total
    ensures CompletedTasks(ps) <= TotalTasks(ps)
  {
    if ps != [] {
      CompletedWithinTotal(ps[..|ps| - 1]);
    }
  }

  function CountStage(ps: seq<Project>, s: Stage): (n: nat)
    ensures n <= |ps|
  {
    if ps == [] then 0 else CountStage(ps[..|ps| - 1], s) + (if ps[|ps| - 1].stage == s then 1 else 0)
  }

  /** The priorities' sum, added left to right. */
  function PrioritySum(ps: seq<Project>): real {
    if ps == [] then 0.0 else PrioritySum(ps[..|ps| - 1]) + ps[|ps| - 1].priority
  }

  /** How many projects score strictly above the threshold. */
  function CountAbove(ps: seq<Project>, threshold: real): (n: nat)
    ensures n <= |ps|
  {
    if ps == [] then 0 else CountAbove(ps[..|ps| - 1], threshold) + (if ps[|ps| - 1].priority > threshold then 1 else 0)
  }

  /** The mean priority, 0 for no projects. */
  function AveragePriority(ps: seq<Project>): real {
    if ps == [] then 0.0 else PrioritySum(ps) / (|ps| as real)
  }

  /** The counts of `m` over `stages`, a stage without an entry counting 0. */
  function MapSum(m: map<Stage, nat>, stages: seq<Stage>): nat {
    if stages == [] then 0
    else MapSum(m, stages[..|stages| - 1]) + (if stages[|stages| - 1] in m then m[stages[|stages| - 1]] else 0)
  }

  /** Occurrences of `s` in `stages`. */
  function Occurrences(stages: seq<Stage>, s: Stage): nat {
    if stages == [] then 0
    else Occurrences(stages[..|stages| - 1], s) + (if stages[|stages| - 1] == s then 1 else 0)
  }

  /** The per-stage counts of `ps`, added over `stages`. */
  function StageCountSum(ps: seq<Project>, stages: seq<Stage>): nat {
    if stages == [] then 0
    else StageCountSum(ps, stages[..|stages| - 1]) + CountStage(ps, stages[|stages| - 1])
  }

  lemma {:induction false} StageCountSumStep(ps: seq<Project>, p: Project, stages: seq<Stage>)
    ensures StageCountSum(ps + [p], stages) == StageCountSum(ps, stages) + Occurrences(stages, p.stage)
  {
    assert (ps + [p])[..|ps|] == ps;
    if stages != [] {
      StageCountSumStep(ps, p, stages[..|stages| - 1]);
    }
  }

  lemma {:induction false} OccurrencesOnce(stages: seq<Stage>, s: Stage)
    requires NoDuplicates(stages)
    ensures Occurrences(stages, s) == (if s in stages then 1 else 0)
  {
    if stages != [] {
      var n := |stages| - 1;
      var init := stages[..n];
      assert NoDuplicates(init) by {
        forall i, j | 0 <= i < j < |init| ensures init[i] != init[j] {
          assert init[i] == stages[i] && init[j] == stages[j];
        }
      }
      OccurrencesOnce(init, s);
      assert s in stages <==> s in init || stages[n] == s by {
        assert stages == init + [stages[n]];
      }
      if stages[n] == s {
        forall k | 0 <= k < |init| ensures init[k] != s {
          assert init[k] == stages[k];
        }
      }
    }
  }

  lemma EveryStageOnce(s: Stage)
    ensures Occurrences(AllStages, s) == 1
  {
    AllStagesEnumerates(s);
    OccurrencesOnce(AllStages, s);
  }

  /** Every project is counted under exactly one stage. */
  lemma {:induction false} StageCountsAddUp(ps: seq<Project>)
    ensures StageCountSum(ps, AllStages) == |ps|
  {
    if ps == [] {
      assert forall k :: 0 <= k <= |AllStages| ==> StageCountSum([], AllStages[..k]) == 0 by {
        forall k | 0 <= k <= |AllStages| ensures StageCountSum([], AllStages[..k]) == 0 {
          StageCountSumEmpty(AllStages[..k]);
        }
      }
      StageCountSumEmpty(AllStages);
    } else {
      var init := ps[..|ps| - 1];
      assert ps == init + [ps[|ps| - 1]];
      StageCountsAddUp(init);
      StageCountSumStep(init, ps[|ps| - 1], AllStages);
      EveryStageOnce(ps[|ps| - 1].stage);
    }
  }

  lemma {:induction false} StageCountSumEmpty(stages: seq<Stage>)
    ensures StageCountSum([], stages) == 0
  {
    if stages != [] {
      StageCountSumEmpty(stages[..|stages| - 1]);
    }
  }

  /** A map that holds each stage's count, or nothing for a stage with
      none, adds up like the counts themselves. */
  lemma {:induction false} MapSumOfCounts(m: map<Stage, nat>, ps: seq<Project>, stages: seq<Stage>)
    requires forall s :: s in m ==> m[s] == CountStage(ps, s)
    requires forall s :: s !in m ==> CountStage(ps, s) == 0
    ensures MapSum(m, stages) == StageCountSum(ps, stages)
  {
    if stages != [] {
      MapSumOfCounts(m, ps, stages[..|stages| - 1]);
    }
  }

  // ---------------------------------------------------------------------
  // the scan

  /** The directories `scan_projects` processes: the scanner's finds at
      the configured depth, in walk order without duplicates. */
  function ScanCandidates(cfg: Config, walk: seq<WalkItem>): seq<Path> {
    Dedup(Candidates(walk, cfg.scanDepth as nat))
  }

  /** `scan_projects` under `root`, whose directory walk is `walk`. The
      version-control probes of each directory, the current time and the
      scan's duration are inputs. */
  method ScanProjects(fs: FileSystem, cfg: Config, store: MetaStore, root: Path, walk: seq<WalkItem>,
                      probesOf: Path -> Probes, now: Instant, elapsedMs: nat) returns (status: PortfolioStatus)
    ensures var candidates := ScanCandidates(cfg, walk);
            var os := Outcomes(fs, cfg, store, candidates, probesOf, now);
            status.projects == Successes(os)
            && status.scanStats.errors == Failures(candidates, os)
            && status.scanStats.directoriesScanned == |candidates|
            && |status.projects| + |status.scanStats.errors| == |candidates|
    ensures forall p :: p in ScanCandidates(cfg, walk) <==>
              exists i :: 0 <= i < |walk| && CandidateOf(walk[i], cfg.scanDepth as nat) == Some(p)
    ensures status.generatedAt == now && status.scanStats.scanTimeMs == elapsedMs
    ensures status.scanStats.projectsFound == |status.projects| == status.summary.totalProjects
    ensures status.summary.totalTasks == TotalTasks(status.projects)
    ensures status.summary.completedTasks == CompletedTasks(status.projects)
    ensures status.summary.completedTasks <= status.summary.totalTasks
    ensures forall s :: s in status.summary.byStage <==> CountStage(status.projects, s) > 0
    ensures forall s :: s in status.summary.byStage ==> status.summary.byStage[s] == CountStage(status.projects, s)
    ensures MapSum(status.summary.byStage, AllStages) == status.summary.totalProjects
    ensures status.summary.needsAttention == CountAbove(status.projects, cfg.attentionThreshold)
    ensures status.summary.avgPriority == AveragePriority(status.projects)
  {
    var candidates := FindProjects(NewScanner(root, cfg.scanDepth), walk);
    var outcomes := Outcomes(fs, cfg, store, candidates, probesOf, now);
    OutcomesRespect(fs, cfg, store, candidates, probesOf, now);
    status := Summarise(candidates, outcomes, cfg.attentionThreshold, now, elapsedMs);
  }

  /** The portfolio built from the outcomes of every candidate. */
  method Summarise(candidates: seq<Path>, outcomes: seq<Result<Project, Error>>, threshold: real, now: Instant,
                   elapsedMs: nat) returns (status: PortfolioStatus)
    requires |candidates| == |outcomes|
    requires forall i :: 0 <= i < |outcomes| && outcomes[i].Ok? ==>
               outcomes[i].value.tasks.completed <= outcomes[i].value.tasks.total
    ensures status.projects == Successes(outcomes)
    ensures status.scanStats.errors == Failures(candidates, outcomes)
    ensures status.generatedAt == now && status.scanStats.scanTimeMs == elapsedMs
    ensures status.scanStats.directoriesScanned == |candidates|
    ensures status.scanStats.projectsFound == |status.projects| == status.summary.totalProjects
    ensures |status.projects| + |status.scanStats.errors| == |candidates|
    ensures status.summary.totalTasks == TotalTasks(status.projects)
    ensures status.summary.completedTasks == CompletedTasks(status.projects)
    ensures status.summary.completedTasks <= status.summary.totalTasks
    ensures forall s :: s in status.summary.byStage <==> CountStage(status.projects, s) > 0
    ensures forall s :: s in status.summary.byStage ==> status.summary.byStage[s] == CountStage(status.projects, s)
    ensures MapSum(status.summary.byStage, AllStages) == status.summary.totalProjects
    ensures status.summary.needsAttention == CountAbove(status.projects, threshold)
    ensures status.summary.avgPriority == AveragePriority(status.projects)
  {
    var projects: seq<Project> := [];
    var errors: seq<ScanFailure> := [];
    var byStage: map<Stage, nat> := map[];
    var totalTasks: nat := 0;
    var completedTasks: nat := 0;
    for i := 0 to |outcomes|
      invariant projects == Successes(outcomes[..i])
      invariant errors == Failures(candidates[..i], outcomes[..i])
      invariant totalTasks == TotalTasks(projects) && completedTasks == CompletedTasks(projects)
      invariant forall s :: s in byStage <==> CountStage(projects, s) > 0
      invariant forall s :: s in byStage ==> byStage[s] == CountStage(projects, s)
    {
      OutcomeStep(candidates, outcomes, i);
      if outcomes[i].Ok? {
        var project := outcomes[i].value;
        ProjectStep(projects, project);
        byStage := CountIn(byStage, projects, project);
        totalTasks := totalTasks + project.tasks.total;
        completedTasks := completedTasks + project.tasks.completed;
        projects := projects + [project];
      } else {
        errors := errors + [ScanFailure(candidates[i], outcomes[i].error)];
      }
    }
    assert outcomes[..|outcomes|] == outcomes;
    assert candidates[..|candidates|] == candidates;
    ScanSummaryFacts(outcomes, candidates, projects, byStage);
    status := PortfolioStatus(
      now,
      ScanStats(|candidates|, |projects|, elapsedMs, errors),
      projects,
      StatusSummary(CountAbove(projects, threshold), |projects|, byStage, totalTasks, completedTasks,
                    AveragePriority(projects)));
  }

  /** One more outcome extends exactly one of the two lists. */
  lemma OutcomeStep(candidates: seq<Path>, os: seq<Result<Project, Error>>, i: nat)
    requires |candidates| == |os| && i < |os|
    ensures Successes(os[..i + 1]) == Successes(os[..i]) + (if os[i].Ok? then [os[i].value] else [])
    ensures Failures(candidates[..i + 1], os[..i + 1])
            == Failures(candidates[..i], os[..i]) + (if os[i].Err? then [ScanFailure(candidates[i], os[i].error)] else [])
  {
    assert os[..i + 1][..i] == os[..i];
    assert candidates[..i + 1][..i] == candidates[..i];
  }

  /** The per-stage map after one more project: its stage's entry goes up
      by one, starting from 0 when it had none. */
  function CountIn(m: map<Stage, nat>, ps: seq<Project>, p: Project): (m': map<Stage, nat>)
    requires forall s :: s in m <==> CountStage(ps, s) > 0
    requires forall s :: s in m ==> m[s] == CountStage(ps, s)
    ensures forall s :: s in m' <==> CountStage(ps + [p], s) > 0
    ensures forall s :: s in m' ==> m'[s] == CountStage(ps + [p], s)
  {
    ProjectStep(ps, p);
    m[p.stage := (if p.stage in m then m[p.stage] else 0) + 1]
  }

  /** One more project adds its own counts. */
  lemma ProjectStep(ps: seq<Project>, p: Project)
    ensures TotalTasks(ps + [p]) == TotalTasks(ps) + p.tasks.total
    ensures CompletedTasks(ps + [p]) == CompletedTasks(ps) + p.tasks.completed
    ensures forall s :: CountStage(ps + [p], s) == CountStage(ps, s) + (if p.stage == s then 1 else 0)
  {
    assert (ps + [p])[..|ps|] == ps;
  }

  /** The facts about a finished scan's lists that follow from the
      per-project contracts. */
  lemma ScanSummaryFacts(os: seq<Result<Project, Error>>, candidates: seq<Path>, ps: seq<Project>,
                         m: map<Stage, nat>)
    requires |candidates| == |os| && ps == Successes(os)
    requires forall i :: 0 <= i < |os| && os[i].Ok? ==> os[i].value.tasks.completed <= os[i].value.tasks.total
    requires forall s :: s in m <==> CountStage(ps, s) > 0
    requires forall s :: s in m ==> m[s] == CountStage(ps, s)
    ensures |ps| + |Failures(candidates, os)| == |candidates|
    ensures CompletedTasks(ps) <= TotalTasks(ps)
    ensures MapSum(m, AllStages) == |ps|
  {
    OutcomesPartition(candidates, os);
    SuccessesRespect(os);
    CompletedWithinTotal(ps);
    MapSumOfCounts(m, ps, AllStages);
    StageCountsAddUp(ps);
  }

  lemma {:induction false} SuccessesRespect(os: seq<Result<Project, Error>>)
    requires forall i :: 0 <= i < |os| && os[i].Ok? ==> os[i].value.tasks.completed <= os[i].value.tasks.total
    ensures forall k :: 0 <= k < |Successes(os)| ==> Successes(os)[k].tasks.completed <= Successes(os)[k].tasks.total
  {
    if os != [] {
      var init := os[..|os| - 1];
      assert forall i :: 0 <= i < |init| ==> init[i] == os[i];
      SuccessesRespect(init);
    }
  }

  // ---------------------------------------------------------------------
  // status filters

  /** The stage's name as its debug form prints it. */
  function StageName(s: Stage): string {
    match s
    case Bootstrap => "Bootstrap"
    case Specify => "Specify"
    case Plan => "Plan"
    case Tasks => "Tasks"
    case Implement => "Implement"
    case Test => "Test"
    case Review => "Review"
    case Done => "Done"
  }

  /** Lower-casing as far as it can produce ASCII: the ASCII capitals and
      the Kelvin sign, which lower-cases to `k`. Every other character
      lower-cases to something that is not an ASCII letter, or stays. */
  function FoldChar(c: char): (d: char)
    ensures 'A' <= c <= 'Z' ==> d as int == c as int + 32
    ensures c == 'K' ==> d == 'k'
    ensures !('A' <= c <= 'Z') && c != 'K' ==> d == c
  {
    if 'A' <= c <= 'Z' then (c as int + 32) as char
    else if c == 'K' then 'k'
    else c
  }

  /** `name` and `target` agree ignoring case, for a `target` made of
      lower-case ASCII letters. */
  predicate SameIgnoringCase(name: string, target: string) {
    |name| == |target| && forall i :: 0 <= i < |name| ==> FoldChar(name[i]) == target[i]
  }

  /** The lower-case form of an ASCII stage name. */
  function LowerAscii(s: string): (r: string)
    ensures |r| == |s|
    ensures forall i :: 0 <= i < |s| ==> r[i] == FoldChar(s[i])
  {
    seq(|s|, i requires 0 <= i < |s| => FoldChar(s[i]))
  }

  /** What a filter keeps. */
  datatype Keep =
    | AboveThreshold(threshold: real)
    | Incomplete
    | StageNamed(name: string)
    | Everything

  predicate Keeps(k: Keep, p: Project) {
    match k
    case AboveThreshold(t) => p.priority > t
    case Incomplete => p.tasks.completed < p.tasks.total
    case StageNamed(name) => SameIgnoringCase(name, LowerAscii(StageName(p.stage)))
    case Everything => true
  }

  const StagePrefix: string := "stage:"

  /** The filter a `--filter` value selects. */
  function ParseFilter(filter: Option<string>, threshold: real): (k: Keep)
    ensures filter == Some("needs-attention") ==> k == AboveThreshold(threshold)
    ensures filter == Some("incomplete") ==> k == Incomplete
    ensures (filter.Some? && filter.value != "needs-attention" && filter.value != "incomplete"
             && StartsWith(filter.value, StagePrefix)) ==> k == StageNamed(filter.value[|StagePrefix|..])
    ensures k == Everything <==>
              filter.None? || (filter.value != "needs-attention" && filter.value != "incomplete"
                               && !StartsWith(filter.value, StagePrefix))
  {
    match filter
    case None => Everything
    case Some(f) =>
      if f == "needs-attention" then AboveThreshold(threshold)
      else if f == "incomplete" then Incomplete
      else if StartsWith(f, StagePrefix) then StageNamed(f[|StagePrefix|..])
      else Everything
  }

  /** `retain`: the kept projects, in their order. */
  function Retain(ps: seq<Project>, k: Keep): (r: seq<Project>)
    ensures |r| <= |ps|
    ensures forall p :: p in r <==> p in ps && Keeps(k, p)
    ensures |ps| == 1 ==> r == (if Keeps(k, ps[0]) then ps else [])
  {
    if ps == [] then []
    else
      var init := ps[..|ps| - 1];
      var last := ps[|ps| - 1];
      assert ps == init + [last];
      Retain(init, k) + (if Keeps(k, last) then [last] else [])
  }

  /** A filter that keeps everything changes nothing. */
  lemma {:induction false} RetainEverything(ps: seq<Project>)
    ensures Retain(ps, Everything) == ps
  {
    if ps != [] {
      RetainEverything(ps[..|ps| - 1]);
      assert ps == ps[..|ps| - 1] + [ps[|ps| - 1]];
    }
  }

  /** Filtering twice by the same rule is filtering once. */
  lemma {:induction false} RetainIdempotent(ps: seq<Project>, k: Keep)
    ensures Retain(Retain(ps, k), k) == Retain(ps, k)
  {
    if ps != [] {
      var init := ps[..|ps| - 1];
      var last := ps[|ps| - 1];
      RetainIdempotent(init, k);
      var tail: seq<Project> := if Keeps(k, last) then [last] else [];
      RetainAppend(Retain(init, k), tail, k);
      if Keeps(k, last) {
        assert Retain([last], k) == Retain([], k) + [last] by { assert [last][..0] == []; }
      }
    }
  }

  /** Filtering keeps the projects in their order: the kept projects of
      consecutive blocks are the kept projects of each block, in turn. */
  lemma {:induction false} RetainAppend(a: seq<Project>, b: seq<Project>, k: Keep)
    ensures Retain(a + b, k) == Retain(a, k) + Retain(b, k)
    decreases |b|
  {
    if b == [] {
      assert a + b == a;
    } else {
      var init := b[..|b| - 1];
      var last := b[|b| - 1];
      var tail: seq<Project> := if Keeps(k, last) then [last] else [];
      var front := a + init;
      assert b == init + [last];
      assert a + b == front + [last];
      RetainSnoc(front, last, k);
      RetainSnoc(init, last, k);
      RetainAppend(a, init, k);
      var x, y, z := Retain(a, k), Retain(init, k), tail;
      assert Retain(a + b, k) == Retain(front, k) + z;
      assert Retain(front, k) == x + y;
      assert Retain(b, k) == y + z;
      ConcatAssociative(x, y, z);
    }
  }

  /** Regrouping a concatenation. Stated over an abstract element type so
      that the solver meets it outside `RetainAppend`'s large context. */
  lemma ConcatAssociative<T>(x: seq<T>, y: seq<T>, z: seq<T>)
    ensures (x + y) + z == x + (y + z)
  {
  }

  /** One more project at the end is kept or dropped on its own. */
  lemma RetainSnoc(ps: seq<Project>, x: Project, k: Keep)
    ensures Retain(ps + [x], k) == Retain(ps, k) + (if Keeps(k, x) then [x] else [])
  {
    assert (ps + [x])[..|ps + [x]| - 1] == ps;
  }

  /** A stage filter keeps a project exactly when the text after
      `stage:` is its stage's name, in any mix of cases. */
  lemma StageFilterMatchesName(p: Project)
    ensures Keeps(StageNamed(StageName(p.stage)), p)
    ensures Keeps(StageNamed(LowerAscii(StageName(p.stage))), p)
  {
  }

  // ---------------------------------------------------------------------
  // show_status

  /** What `show_status` does: shows the cached portfolio, filtered, or
      falls back to a fresh scan. */
  datatype StatusView = Show(portfolio: PortfolioStatus) | Rescan

  /** `show_status` at time `now`: a fresh cache is shown with the filter
      applied to its projects; a missing, stale or unreadable cache means a
      rescan. */
  function ShowStatus(file: Stored<StatusCache>, now: Instant, filter: Option<string>, cfg: Config): (v: StatusView)
    ensures v.Rescan? <==> !(LoadCache(file, now).Ok? && LoadCache(file, now).value.Some?)
    ensures v.Show? ==> file.Decoded?
                        && v.portfolio == file.value.data.(projects :=
                             Retain(file.value.data.projects, ParseFilter(filter, cfg.attentionThreshold)))
  {
    match LoadCache(file, now)
    case Ok(Some(cache)) =>
      var status := cache.data;
      Show(status.(projects := Retain(status.projects, ParseFilter(filter, cfg.attentionThreshold))))
    case _ => Rescan
  }

  /** Only the project list is filtered; the summary stays that of the
      whole portfolio, and an unknown filter shows everything. */
  lemma ShowStatusKeepsSummary(file: Stored<StatusCache>, now: Instant, filter: Option<string>, cfg: Config)
    requires ShowStatus(file, now, filter, cfg).Show?
    ensures ShowStatus(file, now, filter, cfg).portfolio.summary == file.value.data.summary
    ensures ShowStatus(file, now, filter, cfg).portfolio.scanStats == file.value.data.scanStats
    ensures ParseFilter(filter, cfg.attentionThreshold) == Everything ==>
              ShowStatus(file, now, filter, cfg).portfolio == file.value.data
  {
    if ParseFilter(filter, cfg.attentionThreshold) == Everything {
      RetainEverything(file.value.data.projects);
    }
  }
}
