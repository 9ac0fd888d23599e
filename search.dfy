/**
 * First-match searches over the source tree: `_find_file` (a file name tried
 * in each search directory) and `_find_scheme_source` (a metadata file's
 * Fortran companion, tried over a fixed list of extensions).
 *
 * The source tree is a set of existing paths; `p in fs` is `os.path.exists(p)`.
 */
module Search {
  import opened Wrappers
  import opened Paths

  /** The index of the first candidate that exists, if any. */
  function FirstIn(fs: set<string>, cands: seq<string>): (r: Option<nat>)
    ensures r.Some? ==> r.value < |cands| && cands[r.value] in fs
    ensures r.Some? ==> forall j :: 0 <= j < r.value ==> cands[j] !in fs
    ensures r.None? ==> forall j :: 0 <= j < |cands| ==> cands[j] !in fs
  {
    if cands == [] then None
    else if cands[0] in fs then Some(0)
    else
      match FirstIn(fs, cands[1..])
      case None => None
      case Some(k) => Some(k + 1)
  }

  /** The first candidate to exist is the only index with that property. */
  lemma FirstInUnique(fs: set<string>, cands: seq<string>, i: nat)
    requires i < |cands| && cands[i] in fs
    requires forall j :: 0 <= j < i ==> cands[j] !in fs
    ensures FirstIn(fs, cands) == Some(i)
  {
  }

  /** The paths `_find_file` tests, one per search directory, in order. */
  function Candidates(filename: string, searchDirs: seq<string>): (c: seq<string>)
    ensures |c| == |searchDirs|
    ensures forall i :: 0 <= i < |c| ==> c[i] == Join(searchDirs[i], filename)
  {
    seq(|searchDirs|, i requires 0 <= i < |searchDirs| => Join(searchDirs[i], filename))
  }

  /** What `_find_file(filename, search_dirs)` returns: (full path, matching directory) or (None, None). */
  function FileLookup(fs: set<string>, filename: string, searchDirs: seq<string>): (Option<string>, Option<string>)
  {
    match FirstIn(fs, Candidates(filename, searchDirs))
    case None => (None, None)
    case Some(i) => (Some(Join(searchDirs[i], filename)), Some(searchDirs[i]))
  }

  /**
   * The lookup finds the file in the first search directory that holds it, and
   * finds nothing only when no search directory holds it.
   */
  lemma FileLookupFound(fs: set<string>, filename: string, searchDirs: seq<string>)
    ensures var (matchFile, matchPath) := FileLookup(fs, filename, searchDirs);
            && (matchPath.None? ==> matchFile.None? && forall d :: d in searchDirs ==> Join(d, filename) !in fs)
            && (matchPath.Some? ==>
                  && matchFile == Some(Join(matchPath.value, filename))
                  && matchFile.value in fs
                  && exists i :: 0 <= i < |searchDirs| && searchDirs[i] == matchPath.value
                                 && forall j :: 0 <= j < i ==> Join(searchDirs[j], filename) !in fs)
  {
    var cands := Candidates(filename, searchDirs);
    if FirstIn(fs, cands).None? {
      forall d | d in searchDirs ensures Join(d, filename) !in fs {
        var i :| 0 <= i < |searchDirs| && searchDirs[i] == d;
        assert cands[i] == Join(d, filename);
      }
    }
  }

  /**
   * `_find_file`: scan the search directories in order and stop at the first one
   * holding `filename`.
   */
  method FindFile(fs: set<string>, filename: string, searchDirs: seq<string>)
    returns (matchFile: Option<string>, matchPath: Option<string>)
    ensures (matchFile, matchPath) == FileLookup(fs, filename, searchDirs)
  {
    matchFile, matchPath := None, None;
    var i := 0;
    while i < |searchDirs|
      invariant 0 <= i <= |searchDirs|
      invariant forall j :: 0 <= j < i ==> Join(searchDirs[j], filename) !in fs
    {
      var testPath := Join(searchDirs[i], filename);
      if testPath in fs {
        matchPath, matchFile := Some(searchDirs[i]), Some(testPath);
        FirstInUnique(fs, Candidates(filename, searchDirs), i);
        return;
      }
      i := i + 1;
    }
    assert forall j :: 0 <= j < |searchDirs| ==> Candidates(filename, searchDirs)[j] !in fs;
  }

  /** The extensions `_find_scheme_source` tries, in this order. */
  const FortranExtensions: seq<string> := [".F90", ".F", ".f", ".f90"]

  /** `metadata_path[0:-5]`: the path without its last five characters, or "" when shorter. */
  function MetadataBase(metadataPath: string): (base: string)
    ensures |metadataPath| >= 5 ==> metadataPath == base + metadataPath[|metadataPath| - 5..]
    ensures |metadataPath| < 5 ==> base == ""
  {
    if |metadataPath| >= 5 then metadataPath[..|metadataPath| - 5] else ""
  }

  /**
   * The Fortran paths tried for a metadata file, one per extension: for a path
   * ending in `.meta`, the k-th is that path with `.meta` replaced by the k-th
   * extension. The candidates are pairwise different, so the first one that
   * exists is a well-defined choice.
   */
  function SourceCandidates(metadataPath: string): (c: seq<string>)
    ensures |c| == |FortranExtensions|
    ensures forall k :: 0 <= k < |c| ==> EndsWith(c[k], FortranExtensions[k])
    ensures EndsWith(metadataPath, ".meta") ==>
              forall k :: 0 <= k < |c| ==> c[k] == metadataPath[..|metadataPath| - 5] + FortranExtensions[k]
    ensures forall j, k :: 0 <= j < k < |c| ==> c[j] != c[k]
  {
    var base := MetadataBase(metadataPath);
    [base + ".F90", base + ".F", base + ".f", base + ".f90"]
  }

  /** What `_find_scheme_source(metadata_path)` returns. */
  function SchemeSource(fs: set<string>, metadataPath: string): Option<string>
  {
    match FirstIn(fs, SourceCandidates(metadataPath))
    case None => None
    case Some(k) => Some(SourceCandidates(metadataPath)[k])
  }

  /**
   * The source found is the first existing path among the metadata path's base
   * with each Fortran extension in turn, and none is found only when none exists.
   */
  lemma SchemeSourceFound(fs: set<string>, metadataPath: string)
    ensures var sourceFile := SchemeSource(fs, metadataPath);
            && (sourceFile.Some? ==>
                  && sourceFile.value in fs
                  && exists k :: 0 <= k < |FortranExtensions|
                                 && sourceFile.value == MetadataBase(metadataPath) + FortranExtensions[k]
                                 && forall j :: 0 <= j < k ==> MetadataBase(metadataPath) + FortranExtensions[j] !in fs)
            && (sourceFile.None? ==>
                  forall k :: 0 <= k < |FortranExtensions| ==> MetadataBase(metadataPath) + FortranExtensions[k] !in fs)
  {
    var base := MetadataBase(metadataPath);
    assert SourceCandidates(metadataPath) == [base + ".F90", base + ".F", base + ".f", base + ".f90"];
  }

  /**
   * `_find_scheme_source`: try the Fortran extensions in order next to the metadata
   * file; a missing source is only a warning, so the result is then `None`.
   */
  method FindSchemeSource(fs: set<string>, metadataPath: string) returns (sourceFile: Option<string>)
    ensures sourceFile == SchemeSource(fs, metadataPath)
  {
    sourceFile := None;
    var base := MetadataBase(metadataPath);
    var i := 0;
    while i < |FortranExtensions|
      invariant 0 <= i <= |FortranExtensions|
      invariant forall j :: 0 <= j < i ==> base + FortranExtensions[j] !in fs
    {
      var testFile := base + FortranExtensions[i];
      if testFile in fs {
        sourceFile := Some(testFile);
        FirstInUnique(fs, SourceCandidates(metadataPath), i);
        return;
      }
      i := i + 1;
    }
    assert forall j :: 0 <= j < 4 ==> SourceCandidates(metadataPath)[j] !in fs;
  }
}
