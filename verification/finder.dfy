/** Project discovery: a directory is a project when a walk below the root
    meets a `.specify` or `specs` directory directly inside it, plus the
    project-type and ignore-list helpers. */
module Finder {
  import opened Base
  import opened Types
  import opened Text
  import opened Fs

  // ---------------------------------------------------------------------
  // the scanner's settings

  datatype Scanner = Scanner(root: Path, maxDepth: nat, globPattern: string)

  const DefaultPattern: string := "*/{.specify,specs}"

  /** `ProjectScanner::new`: the depth is widened from a byte; the pattern
      starts at its default. */
  function NewScanner(root: Path, maxDepth: U8): (sc: Scanner)
    ensures sc.root == root && sc.maxDepth == maxDepth as nat && sc.globPattern == DefaultPattern
  {
    Scanner(root, maxDepth as nat, DefaultPattern)
  }

  /** `with_max_depth`: only the depth changes. */
  function WithMaxDepth(sc: Scanner, depth: nat): (r: Scanner)
    ensures r.maxDepth == depth
    ensures r.root == sc.root && r.globPattern == sc.globPattern
  {
    sc.(maxDepth := depth)
  }

  /** `with_pattern`: only the pattern changes. */
  function WithPattern(sc: Scanner, pattern: string): (r: Scanner)
    ensures r.globPattern == pattern
    ensures r.root == sc.root && r.maxDepth == sc.maxDepth
  {
    sc.(globPattern := pattern)
  }

  // ---------------------------------------------------------------------
  // the walk

  /** One item a depth-first walk below the root yields: an entry at some
      depth (the root itself at depth 0), or an error, which is dropped. */
  datatype WalkItem =
    | Entry(path: Path, isDir: bool, depth: nat)
    | WalkFailure

  /** The marker that makes a path part of another project's `.specify`
      directory when it occurs in the rendered path. */
  const NestedMarker: string := "/.specify/"

  /** A directory entry's name: its last component, or the whole path when
      it has none. */
  function EntryFileName(p: Path): (name: string)
    ensures FileName(p).Some? ==> name == FileName(p).value
    ensures FileName(p).None? ==> name == Render(p)
  {
    match FileName(p)
    case Some(n) => n
    case None => Render(p)
  }

  /** `is_specify_dir`: a directory called `.specify`, or one called
      `specs` that does not lie inside a `.specify` directory. */
  predicate IsSpecifyDir(path: Path, isDir: bool) {
    isDir
    && var name := EntryFileName(path);
       name == ".specify" || (name == "specs" && !Contains(Render(path), NestedMarker))
  }

  /** The project a walk item proposes: the parent of a marker directory
      within the depth bound, unless that parent lies inside a `.specify`
      directory itself. */
  function CandidateOf(item: WalkItem, maxDepth: nat): (r: Option<Path>)
    ensures r.Some? <==> item.Entry? && item.depth <= maxDepth && IsSpecifyDir(item.path, item.isDir)
                         && Parent(item.path).Some? && !Contains(Render(Parent(item.path).value), NestedMarker)
    ensures r.Some? ==> item.path == r.value + [item.path[|item.path| - 1]]
                        && EntryFileName(item.path) in {".specify", "specs"}
  {
    match item
    case WalkFailure => None
    case Entry(path, isDir, depth) =>
      if depth <= maxDepth && IsSpecifyDir(path, isDir) then
        match Parent(path)
        case None => None
        case Some(parent) =>
          assert path == parent + [path[|path| - 1]];
          if Contains(Render(parent), NestedMarker) then None else Some(parent)
      else None
  }

  /** What each walk item proposes, item by item. */
  function Proposals(walk: seq<WalkItem>, maxDepth: nat): (os: seq<Option<Path>>)
    ensures |os| == |walk|
    ensures forall i :: 0 <= i < |walk| ==> os[i] == CandidateOf(walk[i], maxDepth)
  {
    seq(|walk|, i requires 0 <= i < |walk| => CandidateOf(walk[i], maxDepth))
  }

  /** Every proposed project, in walk order, repeats included. */
  function Candidates(walk: seq<WalkItem>, maxDepth: nat): (ps: seq<Path>)
    ensures |ps| <= |walk|
  {
    Somes(Proposals(walk, maxDepth))
  }

  /** A path is proposed exactly when some walk item proposes it. */
  lemma CandidatesMembers(walk: seq<WalkItem>, maxDepth: nat, p: Path)
    ensures p in Candidates(walk, maxDepth) <==>
              exists i :: 0 <= i < |walk| && CandidateOf(walk[i], maxDepth) == Some(p)
  {
    SomesMembers(Proposals(walk, maxDepth), p);
  }

  /** The first occurrence of each element, in order. */
  function Dedup(xs: seq<Path>): (r: seq<Path>)
    ensures NoDuplicates(r)
    ensures forall x :: x in r <==> x in xs
    ensures |r| <= |xs|
  {
    if xs == [] then []
    else
      var init := Dedup(xs[..|xs| - 1]);
      var x := xs[|xs| - 1];
      assert xs == xs[..|xs| - 1] + [x];
      if x in init then init else init + [x]
  }

  lemma DedupStep(xs: seq<Path>, x: Path)
    ensures Dedup(xs + [x]) == if x in Dedup(xs) then Dedup(xs) else Dedup(xs) + [x]
  {
    assert (xs + [x])[..|xs|] == xs;
  }

  /** Index of the first occurrence of `x` in `xs`. */
  function FirstIndex<T(==)>(xs: seq<T>, x: T): (k: nat)
    requires x in xs
    ensures k < |xs| && xs[k] == x
    ensures forall j :: 0 <= j < k ==> xs[j] != x
  {
    if xs[0] == x then 0 else 1 + FirstIndex(xs[1..], x)
  }

  lemma FirstIndexOfExtension<T>(xs: seq<T>, y: T, x: T)
    requires x in xs
    ensures FirstIndex(xs + [y], x) == FirstIndex(xs, x)
  {
    var k := FirstIndex(xs, x);
    assert (xs + [y])[k] == x;
    var k' := FirstIndex(xs + [y], x);
    assert forall j :: 0 <= j < |xs| ==> (xs + [y])[j] == xs[j];
  }

  /** `Dedup` keeps the elements in the order of their first occurrence. */
  lemma {:induction false} DedupOrder(xs: seq<Path>, i: nat, j: nat)
    requires i < j < |Dedup(xs)|
    ensures FirstIndex(xs, Dedup(xs)[i]) < FirstIndex(xs, Dedup(xs)[j])
  {
    var init := xs[..|xs| - 1];
    var x := xs[|xs| - 1];
    assert xs == init + [x];
    var d := Dedup(init);
    var a := Dedup(xs)[i];
    var b := Dedup(xs)[j];
    assert a in init by { assert a == d[i]; }
    FirstIndexOfExtension(init, x, a);
    if j < |d| {
      assert b == d[j];
      FirstIndexOfExtension(init, x, b);
      DedupOrder(init, i, j);
    } else {
      assert b == x && x !in d;
      assert FirstIndex(xs, b) == |init| by {
        assert xs[|init|] == x;
        forall k | 0 <= k < |init| ensures xs[k] != x {
          assert xs[k] == init[k];
        }
      }
    }
  }

  /** `find_projects`: the parents of marker directories the walk meets,
      each once, in the order first met. */
  method FindProjects(sc: Scanner, walk: seq<WalkItem>) returns (projects: seq<Path>)
    ensures projects == Dedup(Candidates(walk, sc.maxDepth))
    ensures NoDuplicates(projects)
    ensures forall p :: p in projects <==>
              exists i :: 0 <= i < |walk| && CandidateOf(walk[i], sc.maxDepth) == Some(p)
    ensures forall p :: p in projects ==> !Contains(Render(p), NestedMarker)
  {
    projects := KeepFirstProposals(Proposals(walk, sc.maxDepth));
    DiscoveredShape(walk, sc.maxDepth);
  }

  /** The proposed paths in order, each kept at its first proposal, with
      a set remembering what is already kept. */
  method KeepFirstProposals(proposals: seq<Option<Path>>) returns (kept: seq<Path>)
    ensures kept == Dedup(Somes(proposals))
  {
    kept := [];
    var seen: set<Path> := {};
    for i := 0 to |proposals|
      invariant kept == Dedup(Somes(proposals[..i]))
      invariant forall p :: p in seen <==> p in kept
    {
      KeepFirstStep(proposals, i);
      if proposals[i].Some? && proposals[i].value !in seen {
        seen := seen + {proposals[i].value};
        kept := kept + [proposals[i].value];
      }
    }
    assert proposals[..|proposals|] == proposals;
  }

  /** One more proposal adds its path unless it is already kept. */
  lemma KeepFirstStep(proposals: seq<Option<Path>>, i: nat)
    requires i < |proposals|
    ensures Dedup(Somes(proposals[..i + 1])) ==
              if proposals[i].Some? && proposals[i].value !in Dedup(Somes(proposals[..i]))
              then Dedup(Somes(proposals[..i])) + [proposals[i].value]
              else Dedup(Somes(proposals[..i]))
  {
    assert proposals[..i + 1] == proposals[..i] + [proposals[i]];
    SomesAppend(proposals[..i], proposals[i]);
    if proposals[i].Some? {
      DedupStep(Somes(proposals[..i]), proposals[i].value);
    } else {
      assert Somes(proposals[..i + 1]) == Somes(proposals[..i]);
    }
  }

  /** The discovered projects are exactly the proposed ones, each once, and
      none lies inside a `.specify` directory. */
  lemma DiscoveredShape(walk: seq<WalkItem>, maxDepth: nat)
    ensures forall p :: p in Dedup(Candidates(walk, maxDepth)) <==>
              exists i :: 0 <= i < |walk| && CandidateOf(walk[i], maxDepth) == Some(p)
    ensures forall p :: p in Dedup(Candidates(walk, maxDepth)) ==> !Contains(Render(p), NestedMarker)
  {
    forall p ensures p in Dedup(Candidates(walk, maxDepth)) <==>
                     exists i :: 0 <= i < |walk| && CandidateOf(walk[i], maxDepth) == Some(p) {
      CandidatesMembers(walk, maxDepth, p);
    }
    forall p | p in Dedup(Candidates(walk, maxDepth)) ensures !Contains(Render(p), NestedMarker) {
      CandidatesMembers(walk, maxDepth, p);
      var i :| 0 <= i < |walk| && CandidateOf(walk[i], maxDepth) == Some(p);
    }
  }

  // ---------------------------------------------------------------------
  // project type

  /** The marker files of each project type, in the order they are tried. */
  const TypeRules: seq<(seq<string>, ProjectType)> := [
    (["Cargo.toml"], Rust),
    (["package.json"], Node),
    (["pyproject.toml", "setup.py"], Python),
    (["go.mod"], Go),
    (["src", "lib"], Generic)
  ]

  predicate AnyExists(fs: FileSystem, dir: Path, names: seq<string>) {
    exists i :: 0 <= i < |names| && Exists(fs, dir + [names[i]])
  }

  /** The type of the first rule with a marker present, else `Unknown`. */
  function FirstMatchingRule(fs: FileSystem, dir: Path, rules: seq<(seq<string>, ProjectType)>): ProjectType
  {
    if rules == [] then Unknown
    else if AnyExists(fs, dir, rules[0].0) then rules[0].1
    else FirstMatchingRule(fs, dir, rules[1..])
  }

  /** `detect_project_type`. */
  function DetectProjectType(fs: FileSystem, dir: Path): (t: ProjectType)
    ensures t == Rust <==> Exists(fs, dir + ["Cargo.toml"])
    ensures t == Unknown <==>
              !Exists(fs, dir + ["Cargo.toml"]) && !Exists(fs, dir + ["package.json"])
              && !Exists(fs, dir + ["pyproject.toml"]) && !Exists(fs, dir + ["setup.py"])
              && !Exists(fs, dir + ["go.mod"]) && !Exists(fs, dir + ["src"]) && !Exists(fs, dir + ["lib"])
  {
    if Exists(fs, dir + ["Cargo.toml"]) then Rust
    else if Exists(fs, dir + ["package.json"]) then Node
    else if Exists(fs, dir + ["pyproject.toml"]) || Exists(fs, dir + ["setup.py"]) then Python
    else if Exists(fs, dir + ["go.mod"]) then Go
    else if Exists(fs, dir + ["src"]) || Exists(fs, dir + ["lib"]) then Generic
    else Unknown
  }

  lemma AnyExistsOne(fs: FileSystem, dir: Path, a: string)
    ensures AnyExists(fs, dir, [a]) <==> Exists(fs, dir + [a])
  {
    if Exists(fs, dir + [a]) { assert [a][0] == a; }
  }

  lemma AnyExistsTwo(fs: FileSystem, dir: Path, a: string, b: string)
    ensures AnyExists(fs, dir, [a, b]) <==> Exists(fs, dir + [a]) || Exists(fs, dir + [b])
  {
    if Exists(fs, dir + [a]) { assert [a, b][0] == a; }
    if Exists(fs, dir + [b]) { assert [a, b][1] == b; }
  }

  /** The detector is the first-match reading of the rule table. */
  lemma DetectProjectTypeByRules(fs: FileSystem, dir: Path)
    ensures DetectProjectType(fs, dir) == FirstMatchingRule(fs, dir, TypeRules)
  {
    AnyExistsOne(fs, dir, "Cargo.toml");
    AnyExistsOne(fs, dir, "package.json");
    AnyExistsTwo(fs, dir, "pyproject.toml", "setup.py");
    AnyExistsOne(fs, dir, "go.mod");
    AnyExistsTwo(fs, dir, "src", "lib");
    var r4 := [(["src", "lib"], Generic)];
    var r3 := [(["go.mod"], Go)] + r4;
    var r2 := [(["pyproject.toml", "setup.py"], Python)] + r3;
    var r1 := [(["package.json"], Node)] + r2;
    assert TypeRules == [(["Cargo.toml"], Rust)] + r1;
    assert r4[1..] == [] && r3[1..] == r4 && r2[1..] == r3 && r1[1..] == r2;
    assert FirstMatchingRule(fs, dir, r4) == if AnyExists(fs, dir, ["src", "lib"]) then Generic else Unknown;
    assert FirstMatchingRule(fs, dir, r3) == if AnyExists(fs, dir, ["go.mod"]) then Go else FirstMatchingRule(fs, dir, r4);
    assert FirstMatchingRule(fs, dir, r2)
        == if AnyExists(fs, dir, ["pyproject.toml", "setup.py"]) then Python else FirstMatchingRule(fs, dir, r3);
    assert FirstMatchingRule(fs, dir, r1) == if AnyExists(fs, dir, ["package.json"]) then Node else FirstMatchingRule(fs, dir, r2);
  }

  // ---------------------------------------------------------------------
  // ignore list

  const IgnoredDirs: seq<string> := ["node_modules", "target", ".git", "dist", "build", "__pycache__"]

  /** `should_ignore`: the path's last component is on the ignore list; a
      path without a last component is never ignored. */
  function ShouldIgnore(p: Path): (b: bool)
    ensures b <==> FileName(p).Some? && FileName(p).value in IgnoredDirs
  {
    match FileName(p)
    case Some(name) => name in IgnoredDirs
    case None => false
  }

  /** Only the last component counts: anything below an ignored directory
      is judged by its own name. */
  lemma ShouldIgnoreLastComponent(dir: Path, name: string)
    requires name !in {"", "..", "."}
    ensures ShouldIgnore(dir + [name]) <==> name in IgnoredDirs
  {
    assert (dir + [name])[|dir + [name]| - 1] == name;
  }
}
