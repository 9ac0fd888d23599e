/**
 * `_find_metadata_files`: the index from scheme name to (metadata file, Fortran
 * source) built by walking the physics source directories.
 *
 * As written, the guard `if file not in meta_files` compares a metadata FILE
 * name with a dictionary keyed by SCHEME names, and every scheme of a file is
 * then stored with `meta_files[scheme] = ...`; so a file met later replaces the
 * entry an earlier file made for the same scheme. The model follows the code.
 */
module MetadataIndex {
  import opened Wrappers
  import opened Paths
  import opened Search

  /** One step of `os.walk`: a directory and the names of the files directly in it. */
  datatype WalkEntry = WalkEntry(root: string, files: seq<string>)

  /** Scheme name to (metadata path, Fortran source path). */
  type Index = map<string, (string, string)>

  /** The schemes of one accepted metadata file all map to that file and its source. */
  function Record(m: Index, schemes: seq<string>, path: string, src: string): Index
  {
    m + map s | s in schemes :: (path, src)
  }

  lemma RecordSnoc(m: Index, schemes: seq<string>, x: string, path: string, src: string)
    ensures Record(m, schemes + [x], path, src) == Record(m, schemes, path, src)[x := (path, src)]
  {
    var l, r := Record(m, schemes + [x], path, src), Record(m, schemes, path, src)[x := (path, src)];
    assert forall k :: k in l <==> k in r;
    assert forall k | k in l :: l[k] == r[k];
  }

  /** `for scheme in schemes: meta_files[scheme] = (path, source_file)`. */
  method RecordSchemes(m0: Index, schemes: seq<string>, path: string, src: string) returns (m: Index)
    ensures m == Record(m0, schemes, path, src)
  {
    m := m0;
    var n := 0;
    while n < |schemes|
      invariant 0 <= n <= |schemes|
      invariant m == Record(m0, schemes[..n], path, src)
    {
      RecordSnoc(m0, schemes[..n], schemes[n], path, src);
      assert schemes[..n + 1] == schemes[..n] + [schemes[n]];
      m := m[schemes[n] := (path, src)];
      n := n + 1;
    }
    assert schemes[..n] == schemes;
  }

  /** The body of the loop over the files of one walk step. */
  function IndexFile(fs: set<string>, finder: string -> seq<string>, m: Index, root: string, file: string): Index
  {
    if !EndsWith(file, ".meta") || file in m then m
    else
      var path := Join(root, file);
      match SchemeSource(fs, path)
      case None => m
      case Some(src) => Record(m, finder(path), path, src)
  }

  function IndexFiles(fs: set<string>, finder: string -> seq<string>, m: Index, root: string, files: seq<string>): Index
    decreases |files|
  {
    if files == [] then m
    else IndexFile(fs, finder, IndexFiles(fs, finder, m, root, files[..|files| - 1]), root, files[|files| - 1])
  }

  /** One walk step: skipped entirely when its root contains ".git". */
  function IndexEntry(fs: set<string>, finder: string -> seq<string>, m: Index, e: WalkEntry): Index
  {
    if Contains(e.root, ".git") then m else IndexFiles(fs, finder, m, e.root, e.files)
  }

  function IndexEntries(fs: set<string>, finder: string -> seq<string>, m: Index, entries: seq<WalkEntry>): Index
    decreases |entries|
  {
    if entries == [] then m
    else IndexEntry(fs, finder, IndexEntries(fs, finder, m, entries[..|entries| - 1]), entries[|entries| - 1])
  }

  function IndexDirs(fs: set<string>, walk: string -> seq<WalkEntry>, finder: string -> seq<string>,
                     m: Index, dirs: seq<string>): Index
    decreases |dirs|
  {
    if dirs == [] then m
    else IndexEntries(fs, finder, IndexDirs(fs, walk, finder, m, dirs[..|dirs| - 1]), walk(dirs[|dirs| - 1]))
  }

  /** The dictionary `_find_metadata_files(source_dirs, scheme_finder)` returns. */
  function MetadataIndexOf(fs: set<string>, walk: string -> seq<WalkEntry>, finder: string -> seq<string>,
                           dirs: seq<string>): Index
  {
    IndexDirs(fs, walk, finder, map[], dirs)
  }

  /**
   * `_find_metadata_files`: `walk(d)` is the sequence `os.walk(d)` yields and
   * `schemeFinder(p)` the scheme names declared in metadata file `p`.
   */
  method FindMetadataFiles(fs: set<string>, walk: string -> seq<WalkEntry>, sourceDirs: seq<string>,
                           schemeFinder: string -> seq<string>)
    returns (metaFiles: Index)
    ensures metaFiles == MetadataIndexOf(fs, walk, schemeFinder, sourceDirs)
  {
    metaFiles := map[];
    var i := 0;
    while i < |sourceDirs|
      invariant 0 <= i <= |sourceDirs|
      invariant metaFiles == IndexDirs(fs, walk, schemeFinder, map[], sourceDirs[..i])
    {
      var entries := walk(sourceDirs[i]);
      ghost var beforeDir := metaFiles;
      var j := 0;
      while j < |entries|
        invariant 0 <= j <= |entries|
        invariant metaFiles == IndexEntries(fs, schemeFinder, beforeDir, entries[..j])
      {
        if !Contains(entries[j].root, ".git") {
          metaFiles := IndexWalkFiles(fs, schemeFinder, metaFiles, entries[j].root, entries[j].files);
        }
        assert entries[..j + 1][..j] == entries[..j];
        j := j + 1;
      }
      assert entries[..j] == entries;
      assert sourceDirs[..i + 1][..i] == sourceDirs[..i];
      i := i + 1;
    }
    assert sourceDirs[..i] == sourceDirs;
  }

  /**
   * The loop over the `*.meta` files of one walk step, updating the dictionary in
   * place; split out of `FindMetadataFiles` only to keep each proof small.
   */
  method IndexWalkFiles(fs: set<string>, schemeFinder: string -> seq<string>, metaFiles0: Index,
                        root: string, files: seq<string>)
    returns (metaFiles: Index)
    ensures metaFiles == IndexFiles(fs, schemeFinder, metaFiles0, root, files)
  {
    metaFiles := metaFiles0;
    var k := 0;
    while k < |files|
      invariant 0 <= k <= |files|
      invariant metaFiles == IndexFiles(fs, schemeFinder, metaFiles0, root, files[..k])
    {
      assert files[..k + 1][..k] == files[..k];
      metaFiles := IndexWalkFile(fs, schemeFinder, metaFiles, root, files[k]);
      k := k + 1;
    }
    assert files[..k] == files;
  }

  /**
   * One pass of the file loop: a `*.meta` file that is not already a key and has
   * a Fortran source records its schemes.
   */
  method IndexWalkFile(fs: set<string>, schemeFinder: string -> seq<string>, metaFiles0: Index,
                       root: string, file: string)
    returns (metaFiles: Index)
    ensures metaFiles == IndexFile(fs, schemeFinder, metaFiles0, root, file)
  {
    metaFiles := metaFiles0;
    if EndsWith(file, ".meta") && file !in metaFiles {
      var path := Join(root, file);
      var sourceFile := FindSchemeSource(fs, path);
      if sourceFile.Some? {
        metaFiles := RecordSchemes(metaFiles, schemeFinder(path), path, sourceFile.value);
      }
    }
  }

  // ---------------------------------------------------------------------------
  // What the index holds.
  // ---------------------------------------------------------------------------

  /** `v` is what file `f` of walk root `root` records for scheme `k`. */
  ghost predicate FromFile(fs: set<string>, finder: string -> seq<string>, root: string, f: string,
                           k: string, v: (string, string))
  {
    && EndsWith(f, ".meta")
    && v.0 == Join(root, f)
    && SchemeSource(fs, v.0) == Some(v.1)
    && k in finder(v.0)
  }

  /** Some file of a walk step whose root does not contain ".git" records `v` for `k`. */
  ghost predicate FromEntries(fs: set<string>, finder: string -> seq<string>, entries: seq<WalkEntry>,
                              k: string, v: (string, string))
  {
    exists e, f :: e in entries && f in e.files && !Contains(e.root, ".git") && FromFile(fs, finder, e.root, f, k, v)
  }

  /** A metadata file the walk accepts: not under ".git", named `*.meta`, with a Fortran source. */
  ghost predicate Accepted(fs: set<string>, e: WalkEntry, f: string)
  {
    !Contains(e.root, ".git") && EndsWith(f, ".meta") && SchemeSource(fs, Join(e.root, f)).Some?
  }

  /** No scheme name ends in ".meta": true of Fortran identifiers, which contain no '.'. */
  ghost predicate SchemeNamesAreNotFileNames(finder: string -> seq<string>)
  {
    forall p, s :: s in finder(p) ==> !EndsWith(s, ".meta")
  }

  ghost predicate NoMetaKeys(m: Index)
  {
    forall k :: k in m ==> !EndsWith(k, ".meta")
  }

  lemma IndexFileFacts(fs: set<string>, finder: string -> seq<string>, m: Index, root: string, f: string)
    ensures var r := IndexFile(fs, finder, m, root, f);
            && m.Keys <= r.Keys
            && (forall k | k in r :: (k in m && r[k] == m[k]) || FromFile(fs, finder, root, f, k, r[k]))
            && (SchemeNamesAreNotFileNames(finder) && NoMetaKeys(m) ==>
                  && NoMetaKeys(r)
                  && (Accepted(fs, WalkEntry(root, []), f) ==> forall s :: s in finder(Join(root, f)) ==> s in r))
  {
  }

  lemma {:induction false} IndexFilesFacts(fs: set<string>, finder: string -> seq<string>, m: Index, root: string,
                                           files: seq<string>)
    ensures var r := IndexFiles(fs, finder, m, root, files);
            && m.Keys <= r.Keys
            && (forall k | k in r :: (k in m && r[k] == m[k]) || exists f :: f in files && FromFile(fs, finder, root, f, k, r[k]))
            && (SchemeNamesAreNotFileNames(finder) && NoMetaKeys(m) ==>
                  && NoMetaKeys(r)
                  && forall f | f in files && Accepted(fs, WalkEntry(root, []), f) ::
                       forall s :: s in finder(Join(root, f)) ==> s in r)
    decreases |files|
  {
    if files != [] {
      var init, last := files[..|files| - 1], files[|files| - 1];
      var mid := IndexFiles(fs, finder, m, root, init);
      IndexFilesFacts(fs, finder, m, root, init);
      IndexFileFacts(fs, finder, mid, root, last);
      assert forall f :: f in files <==> f in init || f == last by {
        assert files == init + [last];
      }
    }
  }

  lemma {:induction false} IndexEntriesFacts(fs: set<string>, finder: string -> seq<string>, m: Index,
                                             entries: seq<WalkEntry>)
    ensures var r := IndexEntries(fs, finder, m, entries);
            && m.Keys <= r.Keys
            && (forall k | k in r :: (k in m && r[k] == m[k]) || FromEntries(fs, finder, entries, k, r[k]))
            && (SchemeNamesAreNotFileNames(finder) && NoMetaKeys(m) ==>
                  && NoMetaKeys(r)
                  && forall e, f | e in entries && f in e.files && Accepted(fs, e, f) ::
                       forall s :: s in finder(Join(e.root, f)) ==> s in r)
    decreases |entries|
  {
    if entries != [] {
      var init, last := entries[..|entries| - 1], entries[|entries| - 1];
      var mid := IndexEntries(fs, finder, m, init);
      var r := IndexEntries(fs, finder, m, entries);
      IndexEntriesFacts(fs, finder, m, init);
      assert forall e :: e in entries <==> e in init || e == last by {
        assert entries == init + [last];
      }
      if !Contains(last.root, ".git") {
        IndexFilesFacts(fs, finder, mid, last.root, last.files);
        if SchemeNamesAreNotFileNames(finder) && NoMetaKeys(m) {
          forall e, f, s | e in entries && f in e.files && Accepted(fs, e, f) && s in finder(Join(e.root, f))
            ensures s in r
          {
            if e == last {
              assert Accepted(fs, WalkEntry(last.root, []), f);
            } else {
              assert e in init && s in mid;
            }
          }
        }
        forall k | k in r
          ensures (k in m && r[k] == m[k]) || FromEntries(fs, finder, entries, k, r[k])
        {
          if !(k in mid && r[k] == mid[k]) {
            var f :| f in last.files && FromFile(fs, finder, last.root, f, k, r[k]);
            assert last in entries;
          } else if !(k in m && r[k] == m[k]) {
            assert FromEntries(fs, finder, init, k, r[k]);
            var e, f :| e in init && f in e.files && !Contains(e.root, ".git") && FromFile(fs, finder, e.root, f, k, r[k]);
            assert e in entries;
          }
        }
      } else {
        forall k | k in r
          ensures (k in m && r[k] == m[k]) || FromEntries(fs, finder, entries, k, r[k])
        {
          if !(k in m && r[k] == m[k]) {
            var e, f :| e in init && f in e.files && !Contains(e.root, ".git") && FromFile(fs, finder, e.root, f, k, r[k]);
            assert e in entries;
          }
        }
      }
    }
  }

  lemma {:induction false} IndexDirsFacts(fs: set<string>, walk: string -> seq<WalkEntry>, finder: string -> seq<string>,
                                          m: Index, dirs: seq<string>)
    ensures var r := IndexDirs(fs, walk, finder, m, dirs);
            && m.Keys <= r.Keys
            && (forall k | k in r :: (k in m && r[k] == m[k]) || exists d :: d in dirs && FromEntries(fs, finder, walk(d), k, r[k]))
            && (SchemeNamesAreNotFileNames(finder) && NoMetaKeys(m) ==>
                  && NoMetaKeys(r)
                  && forall d, e, f | d in dirs && e in walk(d) && f in e.files && Accepted(fs, e, f) ::
                       forall s :: s in finder(Join(e.root, f)) ==> s in r)
    decreases |dirs|
  {
    if dirs != [] {
      var init, last := dirs[..|dirs| - 1], dirs[|dirs| - 1];
      var mid := IndexDirs(fs, walk, finder, m, init);
      IndexDirsFacts(fs, walk, finder, m, init);
      IndexEntriesFacts(fs, finder, mid, walk(last));
      assert forall d :: d in dirs <==> d in init || d == last by {
        assert dirs == init + [last];
      }
    }
  }

  /**
   * Every entry of the index is (metadata path, source) for a `*.meta` file that the
   * walk reached outside any ".git" directory, its source is what the Fortran search
   * finds for it, and the key is one of the schemes that file declares.
   */
  lemma MetadataIndexSound(fs: set<string>, walk: string -> seq<WalkEntry>, finder: string -> seq<string>,
                           dirs: seq<string>, k: string)
    requires k in MetadataIndexOf(fs, walk, finder, dirs)
    ensures var v := MetadataIndexOf(fs, walk, finder, dirs)[k];
            && EndsWith(v.0, ".meta")
            && SchemeSource(fs, v.0) == Some(v.1)
            && k in finder(v.0)
            && exists d :: d in dirs && FromEntries(fs, finder, walk(d), k, v)
  {
    IndexDirsFacts(fs, walk, finder, map[], dirs);
    var v := MetadataIndexOf(fs, walk, finder, dirs)[k];
    var d :| d in dirs && FromEntries(fs, finder, walk(d), k, v);
    var e, f :| e in walk(d) && f in e.files && !Contains(e.root, ".git") && FromFile(fs, finder, e.root, f, k, v);
    JoinFacts(e.root, f);
    EndsWithTrans(v.0, f, ".meta");
  }

  /**
   * When no scheme name ends in ".meta", the guard on the file name never fires, so
   * every scheme declared by every accepted metadata file is a key of the index.
   */
  lemma MetadataIndexComplete(fs: set<string>, walk: string -> seq<WalkEntry>, finder: string -> seq<string>,
                              dirs: seq<string>, d: string, e: WalkEntry, f: string, s: string)
    requires SchemeNamesAreNotFileNames(finder)
    requires d in dirs && e in walk(d) && f in e.files && Accepted(fs, e, f)
    requires s in finder(Join(e.root, f))
    ensures s in MetadataIndexOf(fs, walk, finder, dirs)
  {
    IndexDirsFacts(fs, walk, finder, map[], dirs);
  }

  /** A walk step holding a single accepted metadata file records that file's schemes. */
  lemma SingleFileWalk(fs: set<string>, finder: string -> seq<string>, m: Index, root: string, f: string)
    requires !Contains(root, ".git") && EndsWith(f, ".meta") && f !in m
    requires SchemeSource(fs, Join(root, f)).Some?
    ensures IndexEntries(fs, finder, m, [WalkEntry(root, [f])])
            == Record(m, finder(Join(root, f)), Join(root, f), SchemeSource(fs, Join(root, f)).value)
  {
    var e := WalkEntry(root, [f]);
    assert [e][..0] == [];
    assert [f][..0] == [];
    assert IndexFiles(fs, finder, m, root, [f]) == IndexFile(fs, finder, m, root, f);
    assert IndexEntries(fs, finder, m, [e]) == IndexEntry(fs, finder, m, e);
  }

  /** The Fortran source next to `<dir>/kessler.meta` when only `<dir>/kessler.F90` exists. */
  lemma KesslerSource(fs: set<string>, dir: string)
    requires dir + "/kessler.F90" in fs
    ensures SchemeSource(fs, dir + "/kessler.meta") == Some(dir + "/kessler.F90")
  {
    var p := dir + "/kessler.meta";
    assert MetadataBase(p) == dir + "/kessler";
    assert SourceCandidates(p)[0] == dir + "/kessler.F90";
  }

  /**
   * The doc-comment's "only include the first file with a given name" does not hold:
   * two source directories each holding `kessler.meta` (with Fortran source) for
   * scheme `kessler` leave the entry of the SECOND directory in the index.
   */
  lemma LaterDirectoryReplacesEarlier(fs: set<string>, walk: string -> seq<WalkEntry>, finder: string -> seq<string>)
    requires "mods/kessler.F90" in fs && "phys/kessler.F90" in fs
    requires walk("mods") == [WalkEntry("mods", ["kessler.meta"])]
    requires walk("phys") == [WalkEntry("phys", ["kessler.meta"])]
    requires finder("mods/kessler.meta") == ["kessler"] && finder("phys/kessler.meta") == ["kessler"]
    ensures MetadataIndexOf(fs, walk, finder, ["mods", "phys"])
            == map["kessler" := ("phys/kessler.meta", "phys/kessler.F90")]
  {
    KesslerFirstDir(fs, walk, finder);
    KesslerSecondDir(fs, walk, finder);
    assert ["mods", "phys"][..1] == ["mods"];
  }

  lemma KesslerFirstDir(fs: set<string>, walk: string -> seq<WalkEntry>, finder: string -> seq<string>)
    requires "mods/kessler.F90" in fs
    requires walk("mods") == [WalkEntry("mods", ["kessler.meta"])]
    requires finder("mods/kessler.meta") == ["kessler"]
    ensures IndexDirs(fs, walk, finder, map[], ["mods"]) == map["kessler" := ("mods/kessler.meta", "mods/kessler.F90")]
  {
    assert "mods" + "/kessler.F90" == "mods/kessler.F90";
    assert "mods" + "/kessler.meta" == "mods/kessler.meta";
    IndexOneDir(fs, walk, finder, "mods");
    KesslerDir(fs, finder, map[], "mods");
    RecordOne("kessler", "mods/kessler.meta", "mods/kessler.F90");
  }

  /** Indexing a single directory is indexing its walk steps from the empty dictionary. */
  lemma IndexOneDir(fs: set<string>, walk: string -> seq<WalkEntry>, finder: string -> seq<string>, dir: string)
    ensures IndexDirs(fs, walk, finder, map[], [dir]) == IndexEntries(fs, finder, map[], walk(dir))
  {
    assert [dir][..0] == [];
  }

  /** Recording one scheme into the empty dictionary gives a one-entry dictionary. */
  lemma RecordOne(k: string, path: string, src: string)
    ensures Record(map[], [k], path, src) == map[k := (path, src)]
  {
    RecordSnoc(map[], [], k, path, src);
    assert Record(map[], [], path, src) == map[];
    assert [] + [k] == [k];
  }

  lemma KesslerSecondDir(fs: set<string>, walk: string -> seq<WalkEntry>, finder: string -> seq<string>)
    requires "phys/kessler.F90" in fs
    requires walk("phys") == [WalkEntry("phys", ["kessler.meta"])]
    requires finder("phys/kessler.meta") == ["kessler"]
    ensures IndexEntries(fs, finder, map["kessler" := ("mods/kessler.meta", "mods/kessler.F90")], walk("phys"))
            == map["kessler" := ("phys/kessler.meta", "phys/kessler.F90")]
  {
    var first := map["kessler" := ("mods/kessler.meta", "mods/kessler.F90")];
    assert "phys" + "/kessler.F90" == "phys/kessler.F90";
    assert "phys" + "/kessler.meta" == "phys/kessler.meta";
    assert "kessler.meta" != "kessler";
    KesslerDir(fs, finder, first, "phys");
    RecordReplaces("kessler", ("mods/kessler.meta", "mods/kessler.F90"), "phys/kessler.meta", "phys/kessler.F90");
  }

  /** Recording a scheme that is already a key replaces its entry. */
  lemma RecordReplaces(k: string, prev: (string, string), path: string, src: string)
    ensures Record(map[k := prev], [k], path, src) == map[k := (path, src)]
  {
    RecordSnoc(map[k := prev], [], k, path, src);
    assert Record(map[k := prev], [], path, src) == map[k := prev];
    assert [] + [k] == [k];
  }

  /** The walk step `(dir, ["kessler.meta"])` records the schemes of `dir/kessler.meta`. */
  lemma KesslerDir(fs: set<string>, finder: string -> seq<string>, m: Index, dir: string)
    requires dir == "mods" || dir == "phys"
    requires dir + "/kessler.F90" in fs && "kessler.meta" !in m
    ensures IndexEntries(fs, finder, m, [WalkEntry(dir, ["kessler.meta"])])
            == Record(m, finder(dir + "/kessler.meta"), dir + "/kessler.meta", dir + "/kessler.F90")
  {
    assert dir[0] != ".git"[0];
    assert !Contains(dir, ".git");
    assert EndsWith("kessler.meta", ".meta");
    assert Join(dir, "kessler.meta") == dir + "/kessler.meta";
    KesslerSource(fs, dir);
    SingleFileWalk(fs, finder, m, dir, "kessler.meta");
  }
}
