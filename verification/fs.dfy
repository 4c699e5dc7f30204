/** An abstract, read-only filesystem: the engine only asks whether a path
    exists or is a directory, reads metadata and text, and lists a
    directory's entries, so a snapshot of those answers stands in for the
    real filesystem. */
module Fs {
  import opened Base
  import opened Types
  import opened Text

  /** A directory entry's name as listed; names that are not valid UTF-8
      carry no text. */
  datatype EntryName = Utf8(text: string) | NotUtf8

  datatype Metadata = Metadata(size: nat, modified: Instant)

  datatype FileSystem = FileSystem(
    present: set<Path>,                 // paths whose `exists()` holds
    dirs: set<Path>,                    // paths whose `is_dir()` holds
    meta: map<Path, Metadata>,          // paths whose metadata can be read
    contents: map<Path, string>,        // files readable as UTF-8 text
    listing: map<Path, seq<EntryName>>) // directories `read_dir` can list

  predicate Exists(fs: FileSystem, p: Path) {
    p in fs.present || p in fs.dirs
  }

  predicate IsDir(fs: FileSystem, p: Path) {
    p in fs.dirs
  }

  /** `Path::parent`: drop the last component; the empty path and the
      root have no parent. */
  function Parent(p: Path): (r: Option<Path>)
    ensures r.Some? ==> |r.value| + 1 == |p| && r.value == p[..|p| - 1]
    ensures r.None? <==> p == [] || p == [""]
  {
    if p == [] || p == [""] then None else Some(p[..|p| - 1])
  }

  /** Components as `Path::components` yields them: the root only first,
      `.` only first. */
  predicate Normalised(p: Path) {
    forall i :: 0 < i < |p| ==> p[i] != "" && p[i] != "."
  }

  /** `Path::file_name`: the last component, unless it is `..` or the
      path is empty, the root or `.` alone. */
  function FileName(p: Path): (r: Option<string>)
    ensures r.Some? ==> |p| > 0 && r.value == p[|p| - 1] && r.value !in {"", "..", "."}
    ensures |p| > 0 && p[|p| - 1] !in {"", "..", "."} ==> r == Some(p[|p| - 1])
  {
    if p == [] then None
    else
      var last := p[|p| - 1];
      if last == "" || last == ".." || last == "." then None else Some(last)
  }

  /** On a normalised path the name is absent exactly for the empty path,
      the root, `.` alone and a path ending in `..`. */
  lemma FileNameAbsent(p: Path)
    requires Normalised(p)
    ensures FileName(p).None? <==> p == [] || p == [""] || p == ["."] || p[|p| - 1] == ".."
  {
  }

  function JoinWith(parts: seq<string>, sep: string): string {
    if parts == [] then []
    else if |parts| == 1 then parts[0]
    else parts[0] + sep + JoinWith(parts[1..], sep)
  }

  /** The path as the text `to_string_lossy` shows. */
  function Render(p: Path): string {
    if p == [""] then "/" else JoinWith(p, "/")
  }

  /** `parse_file_info` with `validate_file`: metadata must be readable;
      the file is valid when its text is readable and not blank. */
  function FileInfoAt(fs: FileSystem, p: Path): (r: Result<FileInfo, Error>)
    ensures r.Ok? <==> p in fs.meta
    ensures r.Ok? ==> r.value.path == p
                      && r.value.size == fs.meta[p].size
                      && r.value.modified == fs.meta[p].modified
    ensures r.Ok? ==> (r.value.valid <==> p in fs.contents && Trim(fs.contents[p]) != [])
    ensures r.Err? ==> r.error == IoError(p)
  {
    if p in fs.meta then
      var m := fs.meta[p];
      Ok(FileInfo(p, m.size, m.modified, p in fs.contents && Trim(fs.contents[p]) != []))
    else
      Err(IoError(p))
  }
}
