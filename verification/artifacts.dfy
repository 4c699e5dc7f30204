/** Artifact resolution for one candidate directory (`specs/` or
    `.specify/`): the direct layout, where the four documents sit in the
    directory itself, and the numbered feature layout, where each numbered
    sub-directory holds one feature's documents and the newest wins. */
module Artifacts {
  import opened Base
  import opened Types
  import opened Text
  import opened Fs

  /** The four documents are markdown files named after their slot. */
  const Markdown: string := ".md"
  const ConstitutionFile: seq<string> := ["constitution" + Markdown]
  const MemoryConstitutionFile: seq<string> := ["memory", "constitution" + Markdown]
  const SpecFile: seq<string> := ["spec" + Markdown]
  const PlanFile: seq<string> := ["plan" + Markdown]
  const TasksFile: seq<string> := ["tasks" + Markdown]
  /** Where the feature layout looks for the constitution, relative to the
      parent of the scanned directory. */
  const SpecifyMemoryConstitution: seq<string> := [".specify", "memory", "constitution" + Markdown]

  /** The four artifact slots, to state one property for all of them. */
  datatype Slot = ConstitutionSlot | SpecSlot | PlanSlot | TasksSlot

  function SlotOf(a: ArtifactStatus, k: Slot): Option<FileInfo> {
    match k
    case ConstitutionSlot => a.constitution
    case SpecSlot => a.spec
    case PlanSlot => a.plan
    case TasksSlot => a.tasks
  }

  /** A path whose probing cannot fail: it is absent, or its metadata
      can be read. */
  predicate Readable(fs: FileSystem, p: Path) {
    !Exists(fs, p) || p in fs.meta
  }

  /** Looks one artifact up: absent when the path does not exist, an
      error when it exists but its metadata cannot be read. */
  function Probe(fs: FileSystem, p: Path): (r: Result<Option<FileInfo>, Error>)
    ensures r.Ok? <==> Readable(fs, p)
    ensures r.Ok? ==> (r.value.Some? <==> Exists(fs, p))
    ensures r.Ok? && r.value.Some? ==> r.value.value.path == p
    ensures r.Err? ==> r.error == IoError(p)
  {
    if Exists(fs, p) then
      var info :- FileInfoAt(fs, p);
      Ok(Some(info))
    else
      Ok(None)
  }

  /** The constitution path used for `dir`: `constitution.md` when it
      exists, otherwise `memory/constitution.md`. */
  function ConstitutionPath(fs: FileSystem, dir: Path): Path {
    if Exists(fs, dir + ConstitutionFile) then dir + ConstitutionFile else dir + MemoryConstitutionFile
  }

  /** `check_direct_artifacts`: the documents sitting directly in `dir`. */
  function CheckDirect(fs: FileSystem, dir: Path): (r: Result<ArtifactStatus, Error>)
    ensures r.Ok? <==> Readable(fs, ConstitutionPath(fs, dir)) && Readable(fs, dir + SpecFile)
                       && Readable(fs, dir + PlanFile) && Readable(fs, dir + TasksFile)
    ensures r.Ok? ==> (r.value.constitution.Some? <==>
                       Exists(fs, dir + ConstitutionFile) || Exists(fs, dir + MemoryConstitutionFile))
    ensures r.Ok? && r.value.constitution.Some? ==>
              r.value.constitution.value.path ==
                (if Exists(fs, dir + ConstitutionFile) then dir + ConstitutionFile else dir + MemoryConstitutionFile)
    ensures r.Ok? ==> (r.value.spec.Some? <==> Exists(fs, dir + SpecFile))
    ensures r.Ok? && r.value.spec.Some? ==> r.value.spec.value.path == dir + SpecFile
    ensures r.Ok? ==> (r.value.plan.Some? <==> Exists(fs, dir + PlanFile))
    ensures r.Ok? && r.value.plan.Some? ==> r.value.plan.value.path == dir + PlanFile
    ensures r.Ok? ==> (r.value.tasks.Some? <==> Exists(fs, dir + TasksFile))
    ensures r.Ok? && r.value.tasks.Some? ==> r.value.tasks.value.path == dir + TasksFile
  {
    var constitution :- Probe(fs, ConstitutionPath(fs, dir));
    var spec :- Probe(fs, dir + SpecFile);
    var plan :- Probe(fs, dir + PlanFile);
    var tasks :- Probe(fs, dir + TasksFile);
    Ok(ArtifactStatus(constitution, spec, plan, tasks))
  }

  /** A feature directory's name: its first (up to) three characters are
      all ASCII digits. */
  predicate IsFeatureName(name: string) {
    forall i :: 0 <= i < |name| && i < 3 ==> IsAsciiDigit(name[i])
  }

  /** Only the first three characters are inspected: a short all-digit
      name qualifies, and so does a long name with a digit prefix, while a
      name with a non-digit among its first three characters does not. */
  lemma FeatureNameExamples()
    ensures IsFeatureName("12") && IsFeatureName("001-login") && IsFeatureName("")
    ensures !IsFeatureName("01a-draft") && !IsFeatureName("a01")
  {
    assert !IsAsciiDigit("01a-draft"[2]);
    assert !IsAsciiDigit("a01"[0]);
  }

  /** The qualifying names among `entries`, in listing order: UTF-8 names
      of directories that look like feature directories. */
  function FeatureNamesIn(fs: FileSystem, dir: Path, entries: seq<EntryName>): (r: seq<string>)
    ensures forall n :: n in r ==> IsFeatureName(n) && IsDir(fs, dir + [n])
    ensures forall i :: (0 <= i < |entries| && entries[i].Utf8? && IsFeatureName(entries[i].text)
                         && IsDir(fs, dir + [entries[i].text])) ==> entries[i].text in r
    ensures forall n :: n in r ==> Utf8(n) in entries
  {
    if entries == [] then []
    else
      var e := entries[0];
      var rest := FeatureNamesIn(fs, dir, entries[1..]);
      assert forall n :: n in rest ==> Utf8(n) in entries[1..];
      if e.Utf8? && IsFeatureName(e.text) && IsDir(fs, dir + [e.text]) then [e.text] + rest else rest
  }

  /** The feature directories of `dir`, when `dir` can be listed. */
  function FeatureNames(fs: FileSystem, dir: Path): seq<string> {
    if dir in fs.listing then FeatureNamesIn(fs, dir, fs.listing[dir]) else []
  }

  /** Feature directories from the highest-sorting name to the lowest. */
  function NewestFirst(fs: FileSystem, dir: Path): seq<string> {
    Reverse(Sort(FeatureNames(fs, dir)))
  }

  /** Runs `check_direct_artifacts` on each named sub-directory in turn,
      stopping at the first error. */
  function CheckEach(fs: FileSystem, dir: Path, names: seq<string>): (r: Result<seq<ArtifactStatus>, Error>)
    ensures r.Ok? <==> forall i :: 0 <= i < |names| ==> CheckDirect(fs, dir + [names[i]]).Ok?
    ensures r.Ok? ==> |r.value| == |names|
    ensures r.Ok? ==> forall i :: 0 <= i < |names| ==> CheckDirect(fs, dir + [names[i]]) == Ok(r.value[i])
    ensures r.Err? ==> exists i :: 0 <= i < |names| && CheckDirect(fs, dir + [names[i]]) == Err(r.error)
                                   && forall j :: 0 <= j < i ==> CheckDirect(fs, dir + [names[j]]).Ok?
  {
    if names == [] then Ok([])
    else
      assert forall i :: 1 <= i < |names| ==> names[1..][i - 1] == names[i];
      var head :- CheckDirect(fs, dir + [names[0]]);
      var tail :- CheckEach(fs, dir, names[1..]);
      Ok([head] + tail)
  }

  /** `<parent>/.specify/memory/constitution.md`, when `dir` has a parent
      and that file exists. */
  function MemoryConstitution(fs: FileSystem, dir: Path): (r: Result<Option<FileInfo>, Error>)
    ensures Parent(dir).None? ==> r == Ok(None)
    ensures Parent(dir).Some? ==>
              var q := Parent(dir).value + SpecifyMemoryConstitution;
              (r.Ok? <==> Readable(fs, q))
              && (r.Ok? ==> (r.value.Some? <==> Exists(fs, q)))
              && (r.Err? ==> r.error == IoError(q))
    ensures r.Ok? && r.value.Some? ==>
              Parent(dir).Some? && r.value.value.path == Parent(dir).value + SpecifyMemoryConstitution
  {
    match Parent(dir)
    case None => Ok(None)
    case Some(parent) => Probe(fs, parent + SpecifyMemoryConstitution)
  }

  /** The options one slot takes across a sequence of statuses. */
  function Column(statuses: seq<ArtifactStatus>, k: Slot): (c: seq<Option<FileInfo>>)
    ensures |c| == |statuses|
    ensures forall i :: 0 <= i < |c| ==> c[i] == SlotOf(statuses[i], k)
  {
    seq(|statuses|, i requires 0 <= i < |statuses| => SlotOf(statuses[i], k))
  }

  /** Folds the per-feature statuses (newest first) as the scan does:
      the first spec and plan met win, every tasks file is collected and
      the first one collected is kept. */
  function Aggregate(constitution: Option<FileInfo>, statuses: seq<ArtifactStatus>): ArtifactStatus {
    var allTasks := Somes(Column(statuses, TasksSlot));
    ArtifactStatus(
      constitution,
      FirstSome(Column(statuses, SpecSlot)),
      FirstSome(Column(statuses, PlanSlot)),
      if allTasks != [] then Some(allTasks[0]) else None)
  }

  /** `parse_artifacts`: the direct layout if it holds anything, otherwise
      the numbered feature layout, otherwise nothing. */
  function ParseArtifacts(fs: FileSystem, dir: Path): (r: Result<ArtifactStatus, Error>)
    ensures CheckDirect(fs, dir).Err? ==> r == CheckDirect(fs, dir)
    ensures CheckDirect(fs, dir).Ok? && HasAnyArtifact(CheckDirect(fs, dir).value) ==> r == CheckDirect(fs, dir)
    ensures (CheckDirect(fs, dir).Ok? && !HasAnyArtifact(CheckDirect(fs, dir).value)
             && dir !in fs.listing) ==> r == Ok(EmptyArtifacts)
    ensures r.Ok? && !HasAnyArtifact(r.value) ==> r.value == EmptyArtifacts
    ensures FeatureLayout(fs, dir) ==>
              (r.Ok? <==> MemoryConstitution(fs, dir).Ok? && CheckEach(fs, dir, NewestFirst(fs, dir)).Ok?)
    ensures FeatureLayout(fs, dir) && MemoryConstitution(fs, dir).Err? ==>
              r == Err(MemoryConstitution(fs, dir).error)
    ensures FeatureLayout(fs, dir) && MemoryConstitution(fs, dir).Ok? && CheckEach(fs, dir, NewestFirst(fs, dir)).Err? ==>
              r == Err(CheckEach(fs, dir, NewestFirst(fs, dir)).error)
    ensures FeatureLayout(fs, dir) && r.Ok? ==> r.value.constitution == MemoryConstitution(fs, dir).value
  {
    var direct :- CheckDirect(fs, dir);
    if HasAnyArtifact(direct) then Ok(direct)
    else if dir !in fs.listing then Ok(EmptyArtifacts)
    else
      var constitution :- MemoryConstitution(fs, dir);
      var statuses :- CheckEach(fs, dir, NewestFirst(fs, dir));
      var aggregated := Aggregate(constitution, statuses);
      if HasAnyArtifact(aggregated) then Ok(aggregated) else Ok(EmptyArtifacts)
  }

  /** A listable directory with nothing directly in it, no feature
      directory and no constitution in the parent's memory resolves to
      the empty status, without error. */
  lemma FeatureScanFindsNothing(fs: FileSystem, dir: Path)
    requires FeatureLayout(fs, dir)
    requires FeatureNames(fs, dir) == []
    requires Parent(dir).None? || !Exists(fs, Parent(dir).value + SpecifyMemoryConstitution)
    ensures ParseArtifacts(fs, dir) == Ok(EmptyArtifacts)
  {
    assert NewestFirst(fs, dir) == [];
    assert CheckEach(fs, dir, []) == Ok([]);
    assert MemoryConstitution(fs, dir) == Ok(None);
  }

  /** In the feature layout, the scan succeeds whenever the memory
      constitution and every feature directory's documents can be probed:
      only an unreadable document makes it fail. */
  lemma FeatureScanSucceeds(fs: FileSystem, dir: Path)
    requires FeatureLayout(fs, dir)
    requires Parent(dir).Some? ==> Readable(fs, Parent(dir).value + SpecifyMemoryConstitution)
    requires forall n :: n in FeatureNames(fs, dir) ==> CheckDirect(fs, dir + [n]).Ok?
    ensures ParseArtifacts(fs, dir).Ok?
  {
    var nf := NewestFirst(fs, dir);
    NewestFirstOrder(fs, dir);
    forall i | 0 <= i < |nf| ensures CheckDirect(fs, dir + [nf[i]]).Ok? {
      assert nf[i] in FeatureNames(fs, dir);
    }
  }

  /** What a feature directory `n` of `dir` holds in slot `k`. */
  function FeatureSlot(fs: FileSystem, dir: Path, n: string, k: Slot): Option<FileInfo> {
    match CheckDirect(fs, dir + [n])
    case Ok(st) => SlotOf(st, k)
    case Err(_) => None
  }

  /** `dir` is resolved through the feature layout: it holds nothing
      directly and it can be listed. */
  predicate FeatureLayout(fs: FileSystem, dir: Path) {
    CheckDirect(fs, dir).Ok? && !HasAnyArtifact(CheckDirect(fs, dir).value) && dir in fs.listing
  }

  /** `nf` lists exactly `names`, from the highest-sorting to the lowest. */
  ghost predicate DescendingOf(nf: seq<string>, names: seq<string>) {
    (forall p, q :: 0 <= p <= q < |nf| ==> LexLe(nf[q], nf[p]))
    && (forall m :: m in names <==> m in nf)
  }

  /** Names from the highest-sorting to the lowest. */
  lemma NewestFirstDescending(names: seq<string>)
    ensures |Reverse(Sort(names))| == |names|
    ensures forall p, q :: 0 <= p <= q < |names| ==> LexLe(Reverse(Sort(names))[q], Reverse(Sort(names))[p])
  {
    var nf := Reverse(Sort(names));
    forall p, q | 0 <= p <= q < |names| ensures LexLe(nf[q], nf[p]) {
      if p == q { LexLeReflexive(nf[p]); }
    }
  }

  /** The newest-first list holds exactly the names. */
  lemma NewestFirstMembers(names: seq<string>, m: string)
    ensures m in names <==> m in Reverse(Sort(names))
  {
    SortMembers(names, m);
    ReverseMembers(Sort(names), m);
  }

  /** The newest-first order of a list of names is descending and holds
      exactly those names. */
  lemma NewestFirstOrder(fs: FileSystem, dir: Path)
    ensures |NewestFirst(fs, dir)| == |FeatureNames(fs, dir)|
    ensures DescendingOf(NewestFirst(fs, dir), FeatureNames(fs, dir))
  {
    var names := FeatureNames(fs, dir);
    NewestFirstDescending(names);
    forall m ensures m in names <==> m in NewestFirst(fs, dir) {
      NewestFirstMembers(names, m);
    }
  }

  /** The feature-layout result is the aggregate of the newest-first
      statuses. */
  lemma FeatureScanShape(fs: FileSystem, dir: Path, a: ArtifactStatus) returns (statuses: seq<ArtifactStatus>)
    requires FeatureLayout(fs, dir)
    requires ParseArtifacts(fs, dir) == Ok(a)
    ensures CheckEach(fs, dir, NewestFirst(fs, dir)) == Ok(statuses)
    ensures MemoryConstitution(fs, dir).Ok? && a.constitution == MemoryConstitution(fs, dir).value
    ensures a.spec == FirstSome(Column(statuses, SpecSlot))
    ensures a.plan == FirstSome(Column(statuses, PlanSlot))
    ensures a.tasks == FirstSome(Column(statuses, TasksSlot))
  {
    var mc := MemoryConstitution(fs, dir);
    var each := CheckEach(fs, dir, NewestFirst(fs, dir));
    statuses := each.value;
    var agg := Aggregate(mc.value, statuses);
    assert a == (if HasAnyArtifact(agg) then agg else EmptyArtifacts);
  }

  /** Scanning a column laid out in descending name order, the first
      present entry belongs to the highest-sorting name that has one. */
  lemma FirstInDescending(nf: seq<string>, names: seq<string>, col: seq<Option<FileInfo>>,
                          f: string -> Option<FileInfo>)
    requires |col| == |nf|
    requires forall i :: 0 <= i < |col| ==> col[i] == f(nf[i])
    requires DescendingOf(nf, names)
    ensures FirstSome(col).None? <==> forall m :: m in names ==> f(m).None?
    ensures FirstSome(col).Some? ==>
              exists n :: n in names && f(n) == FirstSome(col)
                && forall m :: m in names && f(m).Some? ==> LexLe(m, n)
  {
    if FirstSome(col).Some? {
      var at := FirstSomeAt(col);
      var n := nf[at];
      forall m | m in names && f(m).Some? ensures LexLe(m, n) {
        var i :| 0 <= i < |nf| && nf[i] == m;
        assert col[i].Some?;
      }
      assert n in names && f(n) == FirstSome(col);
    } else {
      forall m | m in names ensures f(m).None? {
        var i :| 0 <= i < |nf| && nf[i] == m;
        assert col[i].None?;
      }
    }
  }

  /** In the feature layout a spec, plan or tasks slot is empty exactly
      when no feature directory has that document, and otherwise is filled
      from the highest-sorting feature directory that has it (so spec and
      plan may come from different directories). */
  lemma FeatureSlotIsLatest(fs: FileSystem, dir: Path, k: Slot, a: ArtifactStatus)
    requires k != ConstitutionSlot
    requires FeatureLayout(fs, dir)
    requires ParseArtifacts(fs, dir) == Ok(a)
    ensures SlotOf(a, k).None? <==> forall m :: m in FeatureNames(fs, dir) ==> FeatureSlot(fs, dir, m, k).None?
    ensures SlotOf(a, k).Some? ==>
              exists n :: n in FeatureNames(fs, dir) && FeatureSlot(fs, dir, n, k) == SlotOf(a, k)
                && forall m :: m in FeatureNames(fs, dir) && FeatureSlot(fs, dir, m, k).Some? ==> LexLe(m, n)
  {
    var nf := NewestFirst(fs, dir);
    var statuses := FeatureScanShape(fs, dir, a);
    var col := Column(statuses, k);
    var f := m => FeatureSlot(fs, dir, m, k);
    forall i | 0 <= i < |col| ensures col[i] == f(nf[i]) {
      assert CheckDirect(fs, dir + [nf[i]]) == Ok(statuses[i]);
    }
    NewestFirstOrder(fs, dir);
    FirstInDescending(nf, FeatureNames(fs, dir), col, f);
  }

  /** In the feature layout the constitution comes only from
      `<parent>/.specify/memory/constitution.md`, never from a feature
      directory, and it is reported exactly when that file exists. */
  lemma FeatureConstitutionFromMemory(fs: FileSystem, dir: Path, a: ArtifactStatus)
    requires FeatureLayout(fs, dir)
    requires ParseArtifacts(fs, dir) == Ok(a)
    ensures a.constitution.Some? <==>
              Parent(dir).Some? && Exists(fs, Parent(dir).value + SpecifyMemoryConstitution)
    ensures a.constitution.Some? ==>
              Parent(dir).Some? && a.constitution.value.path == Parent(dir).value + SpecifyMemoryConstitution
  {
    var _ := FeatureScanShape(fs, dir, a);
  }
}
