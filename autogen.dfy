/**
 * The three code-generation stages of a CAM build, in the order the build runs
 * them: the registry (`generate_registry`), the physics-suite caps
 * (`generate_physics_suites`) and the initialization routines
 * (`generate_init_routines`).
 *
 * Each stage decides whether its generated source is stale: it is when the
 * stage's output directory does not exist yet (the directory is then created),
 * when an upstream stage forces it, or when the build cache reports that the
 * stage's recorded inputs no longer match. A stale stage calls its external
 * generator, and only after the generator succeeds does it record the new
 * inputs in the build cache.
 *
 * The source tree is an immutable set of existing paths. The external
 * generators, the XML reader, the metadata scheme finder, `os.walk`, `glob` and
 * the build cache's comparison of a stored record against the current inputs
 * are functions held in a `Tools` value.
 */
module Autogen {
  import opened Wrappers
  import opened Paths
  import opened Search
  import opened Unique
  import opened SuiteDefinition
  import opened MetadataIndex

  /** A registered-file object returned by the registry generator; only its `file_path` is used here. */
  datatype RegFile = RegFile(filePath: Option<string>)

  /** The arguments of one `gen_registry` call. */
  datatype RegistryRequest = RegistryRequest(
    registryFile: Option<string>, dycore: string, config: string, outputDir: string,
    indent: int, sourceModsDir: string, atmRoot: string, schemaPaths: seq<string>)

  /** What `gen_registry` returns: a return code (0 on success) and the registered files. */
  datatype RegistryReply = RegistryReply(retcode: int, regFiles: seq<RegFile>)

  /** The arguments of the `capgen` call. */
  datatype CapgenRequest = CapgenRequest(
    hostFiles: seq<string>, schemeFiles: seq<string>, sdfs: seq<string>, capOutputFile: string,
    preprocDefs: string, genHostcap: bool, genDocfiles: bool, outputDir: string,
    hostName: string, kindPhys: string)

  /** The arguments of the `write_init_files` call. */
  datatype InitRequest = InitRequest(regFiles: seq<RegFile>, initDir: string, indent: int, capDatafile: string)

  /** The inputs the build cache records for the registry stage. */
  datatype RegistryInputs = RegistryInputs(
    genFile: Option<string>, registryFiles: seq<Option<string>>, dycore: string, config: string)

  /** The inputs the build cache records for the physics-suite stage. */
  datatype CcppInputs = CcppInputs(sdfs: seq<string>, schemeFiles: seq<string>, preprocDefs: string, kindPhys: string)

  /**
   * The collaborators of the stages. `capgen` is false when it raised; the three
   * `...Mismatch` functions are the build cache's verdict on a stored record (None
   * when nothing was recorded) against the current inputs.
   */
  datatype Tools = Tools(
    genRegistry: RegistryRequest -> RegistryReply,
    capgen: CapgenRequest -> bool,
    writeInitFiles: InitRequest -> string,
    readXmlFile: string -> Node,
    findSchemeNames: string -> seq<string>,
    walk: string -> seq<WalkEntry>,
    globMeta: string -> seq<string>,
    registryMismatch: (Option<RegistryInputs>, RegistryInputs) -> bool,
    ccppMismatch: (Option<CcppInputs>, CcppInputs) -> bool,
    initWriteMismatch: (Option<Option<string>>, Option<string>) -> bool)

  /** What the stages raise. */
  datatype Error =
    | RegistryGenFailed(registryFile: Option<string>, retcode: int)  // `expect(retcode == 0, ...)`
    | SdfNotFound                                                    // no `suite_<name>.xml` in the search path
    | SchemeNotFound(scheme: string)                                 // a suite calls a scheme with no metadata
    | CapgenFailed                                                   // `capgen` raised
    | CapOutputUnbound                                               // `cap_output_file` read before assignment
    | InitGenFailed(message: string)                                 // `expect(retmsg == "", ...)`

  /** A call a stage makes on the build cache or on an external generator. */
  datatype Call =
    | RegistryMismatchQuery(registryInputs: RegistryInputs)
    | GenRegistry(registryRequest: RegistryRequest)
    | UpdateRegistry(registryInputs: RegistryInputs)
    | CcppMismatchQuery(ccppInputs: CcppInputs)
    | Capgen(capgenRequest: CapgenRequest)
    | UpdateCcpp(ccppInputs: CcppInputs)
    | InitWriteMismatchQuery(genInitFile: Option<string>)
    | WriteInitFiles(initRequest: InitRequest)
    | UpdateInitGen(genInitFile: Option<string>)

  /** What `generate_registry` returns. */
  datatype RegistryOutput = RegistryOutput(genregDir: string, regenerated: bool, regFiles: seq<RegFile>)

  /** What `generate_physics_suites` returns. */
  datatype PhysicsOutput = PhysicsOutput(dirs: seq<string>, regenerated: bool, capOutputFile: string)

  // ---------------------------------------------------------------------------
  // Registry stage: the `gen_registry` loop.
  // ---------------------------------------------------------------------------

  /** The outcome of calling `gen_registry` on a list of registry files. */
  datatype RegistryRun = RegistryRun(calls: seq<Call>, regFiles: seq<RegFile>, failure: Option<Error>)

  /**
   * The `gen_registry` calls for `files` in order: each reply's registered files
   * are appended, and the first non-zero return code stops the loop.
   */
  function RunRegistry(tools: Tools, base: RegistryRequest, files: seq<Option<string>>): RegistryRun
    decreases |files|
  {
    if files == [] then RegistryRun([], [], None)
    else
      var prev := RunRegistry(tools, base, files[..|files| - 1]);
      if prev.failure.Some? then prev
      else
        var req := base.(registryFile := files[|files| - 1]);
        var reply := tools.genRegistry(req);
        if reply.retcode != 0 then
          RegistryRun(prev.calls + [GenRegistry(req)], prev.regFiles, Some(RegistryGenFailed(req.registryFile, reply.retcode)))
        else
          RegistryRun(prev.calls + [GenRegistry(req)], prev.regFiles + reply.regFiles, None)
  }

  /** Once a call failed, later registry files are not processed. */
  lemma {:induction false} RunRegistryStops(tools: Tools, base: RegistryRequest, files: seq<Option<string>>, k: nat)
    requires k <= |files| && RunRegistry(tools, base, files[..k]).failure.Some?
    ensures RunRegistry(tools, base, files) == RunRegistry(tools, base, files[..k])
    decreases |files| - k
  {
    if k < |files| {
      assert files[..k + 1][..k] == files[..k];
      RunRegistryStops(tools, base, files, k + 1);
    } else {
      assert files[..k] == files;
    }
  }

  /**
   * The run succeeds exactly when every registry file's `gen_registry` returned 0;
   * it then called `gen_registry` once per file, in order, and collected every
   * reply's registered files in order.
   */
  lemma {:induction false} RunRegistrySucceeds(tools: Tools, base: RegistryRequest, files: seq<Option<string>>)
    ensures var run := RunRegistry(tools, base, files);
            && (run.failure.None? <==>
                  forall i :: 0 <= i < |files| ==> tools.genRegistry(base.(registryFile := files[i])).retcode == 0)
            && (run.failure.None? ==>
                  && run.calls == seq(|files|, i requires 0 <= i < |files| => GenRegistry(base.(registryFile := files[i])))
                  && run.regFiles == RepliesFiles(tools, base, files))
    decreases |files|
  {
    if files != [] {
      var init := files[..|files| - 1];
      RunRegistrySucceeds(tools, base, init);
      var run := RunRegistry(tools, base, files);
      if RunRegistry(tools, base, init).failure.Some? {
        var i :| 0 <= i < |init| && tools.genRegistry(base.(registryFile := init[i])).retcode != 0;
        assert files[i] == init[i];
      }
      if run.failure.None? {
        assert run.calls == seq(|files|, i requires 0 <= i < |files| => GenRegistry(base.(registryFile := files[i])));
      }
    }
  }

  /** The registered files of every reply, concatenated in order. */
  function RepliesFiles(tools: Tools, base: RegistryRequest, files: seq<Option<string>>): seq<RegFile>
    decreases |files|
  {
    if files == [] then []
    else RepliesFiles(tools, base, files[..|files| - 1]) + tools.genRegistry(base.(registryFile := files[|files| - 1])).regFiles
  }

  /** The inputs `generate_registry` fingerprints: the generator script, the registry file, the dycore and configuration. */
  function RegistryInputsOf(fs: set<string>, dataSearch: seq<string>, dycore: string, regConfig: string): RegistryInputs
  {
    RegistryInputs(FileLookup(fs, "generate_registry_data.py", dataSearch).0,
                   [FileLookup(fs, "registry.xml", dataSearch).0], dycore, regConfig)
  }

  // ---------------------------------------------------------------------------
  // Physics-suite stage: resolving the schemes of the configured suites.
  // ---------------------------------------------------------------------------

  /** `[source_mods_dir, os.path.join(atm_root, "src", "physics", "ncar_ccpp")]`. */
  function SourceSearch(sourceModsDir: string, atmRoot: string): seq<string>
  {
    [sourceModsDir, Join(Join(Join(atmRoot, "src"), "physics"), "ncar_ccpp")]
  }

  /** The SDF file name searched for a suite. */
  function SdfName(suite: string): string
  {
    "suite_" + suite + ".xml"
  }

  /**
   * The lists the suite loop builds: the SDF paths, the scheme metadata files
   * (without repeats), the Fortran source copied for each of those, and the error
   * that stopped the loop, if any.
   */
  datatype Scan = Scan(sdfs: seq<string>, schemeFiles: seq<string>, sources: seq<string>, failure: Option<Error>)

  /** The loop body for one scheme name of an SDF. */
  function ResolveScheme(index: Index, sc: Scan, scheme: string): Scan
  {
    if scheme !in index then sc.(failure := Some(SchemeNotFound(scheme)))
    else if index[scheme].0 in sc.schemeFiles then sc
    else sc.(schemeFiles := sc.schemeFiles + [index[scheme].0], sources := sc.sources + [index[scheme].1])
  }

  /** The loop over the schemes of one SDF, stopping at the first unknown scheme. */
  function ResolveSchemes(index: Index, sc: Scan, schemes: seq<string>): Scan
    decreases |schemes|
  {
    if schemes == [] then sc
    else
      var prev := ResolveSchemes(index, sc, schemes[..|schemes| - 1]);
      if prev.failure.Some? then prev else ResolveScheme(index, prev, schemes[|schemes| - 1])
  }

  /** The loop body for one suite name. */
  function ScanSuite(fs: set<string>, readXml: string -> Node, index: Index, search: seq<string>,
                     sc: Scan, suite: string): Scan
  {
    match FileLookup(fs, SdfName(suite), search).0
    case None => sc.(failure := Some(SdfNotFound))
    case Some(path) => ResolveSchemes(index, sc.(sdfs := sc.sdfs + [path]), FindSchemesInSdf(readXml(path)))
  }

  /** The loop over the `;`-separated suite names, stopping at the first error. */
  function ScanSuites(fs: set<string>, readXml: string -> Node, index: Index, search: seq<string>,
                      suites: seq<string>): Scan
    decreases |suites|
  {
    if suites == [] then Scan([], [], [], None)
    else
      var prev := ScanSuites(fs, readXml, index, search, suites[..|suites| - 1]);
      if prev.failure.Some? then prev else ScanSuite(fs, readXml, index, search, prev, suites[|suites| - 1])
  }

  /** The loop over the first `j + 1` schemes is one more pass after the first `j` raised nothing. */
  lemma ResolveSchemesNext(index: Index, sc: Scan, schemes: seq<string>, j: nat)
    requires j < |schemes| && ResolveSchemes(index, sc, schemes[..j]).failure.None?
    ensures ResolveSchemes(index, sc, schemes[..j + 1]) == ResolveScheme(index, ResolveSchemes(index, sc, schemes[..j]), schemes[j])
  {
    assert schemes[..j + 1][..j] == schemes[..j];
  }

  lemma {:induction false} ResolveSchemesStops(index: Index, sc: Scan, schemes: seq<string>, k: nat)
    requires k <= |schemes| && ResolveSchemes(index, sc, schemes[..k]).failure.Some?
    ensures ResolveSchemes(index, sc, schemes) == ResolveSchemes(index, sc, schemes[..k])
    decreases |schemes| - k
  {
    if k < |schemes| {
      assert schemes[..k + 1][..k] == schemes[..k];
      ResolveSchemesStops(index, sc, schemes, k + 1);
    } else {
      assert schemes[..k] == schemes;
    }
  }

  lemma {:induction false} ScanSuitesStops(fs: set<string>, readXml: string -> Node, index: Index, search: seq<string>,
                                           suites: seq<string>, k: nat)
    requires k <= |suites| && ScanSuites(fs, readXml, index, search, suites[..k]).failure.Some?
    ensures ScanSuites(fs, readXml, index, search, suites) == ScanSuites(fs, readXml, index, search, suites[..k])
    decreases |suites| - k
  {
    if k < |suites| {
      assert suites[..k + 1][..k] == suites[..k];
      ScanSuitesStops(fs, readXml, index, search, suites, k + 1);
    } else {
      assert suites[..k] == suites;
    }
  }

  /** The metadata file of every scheme in `schemes` that the index knows, in order. */
  function MetaPaths(index: Index, schemes: seq<string>): seq<string>
    decreases |schemes|
  {
    if schemes == [] then []
    else MetaPaths(index, schemes[..|schemes| - 1]) + (if schemes[|schemes| - 1] in index then [index[schemes[|schemes| - 1]].0] else [])
  }

  /** Every scheme the given SDFs call, SDF by SDF, in the order each SDF lists them. */
  function Referenced(readXml: string -> Node, sdfs: seq<string>): seq<string>
    decreases |sdfs|
  {
    if sdfs == [] then [] else Referenced(readXml, sdfs[..|sdfs| - 1]) + FindSchemesInSdf(readXml(sdfs[|sdfs| - 1]))
  }

  /**
   * The scan keeps one source per metadata file: the scheme files have no repeats,
   * and the i-th source copied is the source that the index pairs with the i-th
   * scheme file, so every scheme file's source is copied exactly once.
   */
  ghost predicate Paired(index: Index, sc: Scan)
  {
    && NoDuplicates(sc.schemeFiles)
    && |sc.sources| == |sc.schemeFiles|
    && forall i :: 0 <= i < |sc.schemeFiles| ==> (sc.schemeFiles[i], sc.sources[i]) in index.Values
  }

  lemma ResolveSchemesFacts(index: Index, sc: Scan, schemes: seq<string>)
    requires sc.failure.None?
    ensures var r := ResolveSchemes(index, sc, schemes);
            && r.sdfs == sc.sdfs
            && (Paired(index, sc) ==> Paired(index, r))
            && (r.failure.None? <==> forall i :: 0 <= i < |schemes| ==> schemes[i] in index)
            && (r.failure.None? ==> r.schemeFiles == Merge(sc.schemeFiles, MetaPaths(index, schemes)))
            && (r.failure.Some? ==> exists s :: s in schemes && s !in index && r.failure == Some(SchemeNotFound(s)))
  {
    ResolveSchemesKeepsSdfs(index, sc, schemes);
    if Paired(index, sc) {
      ResolveSchemesPaired(index, sc, schemes);
    }
    ResolveSchemesSucceeds(index, sc, schemes);
    ResolveSchemesMissing(index, sc, schemes);
  }

  /** The scheme loop of one SDF leaves the list of SDFs alone. */
  lemma {:induction false} ResolveSchemesKeepsSdfs(index: Index, sc: Scan, schemes: seq<string>)
    ensures ResolveSchemes(index, sc, schemes).sdfs == sc.sdfs
    decreases |schemes|
  {
    if schemes != [] {
      ResolveSchemesKeepsSdfs(index, sc, schemes[..|schemes| - 1]);
    }
  }

  /** The scheme loop of one SDF keeps scheme files and copied sources paired. */
  lemma {:induction false} ResolveSchemesPaired(index: Index, sc: Scan, schemes: seq<string>)
    requires Paired(index, sc)
    ensures Paired(index, ResolveSchemes(index, sc, schemes))
    decreases |schemes|
  {
    if schemes != [] {
      var init := schemes[..|schemes| - 1];
      ResolveSchemesPaired(index, sc, init);
      var prev := ResolveSchemes(index, sc, init);
      if prev.failure.None? {
        ResolveSchemePaired(index, prev, schemes[|schemes| - 1]);
      }
    }
  }

  /**
   * The scheme loop of one SDF raises nothing exactly when every scheme is in the
   * index, and then appends the metadata files of its schemes, in order, to those
   * listed before.
   */
  lemma {:induction false} ResolveSchemesSucceeds(index: Index, sc: Scan, schemes: seq<string>)
    requires sc.failure.None?
    ensures var r := ResolveSchemes(index, sc, schemes);
            && (r.failure.None? <==> forall i :: 0 <= i < |schemes| ==> schemes[i] in index)
            && (r.failure.None? ==> r.schemeFiles == Merge(sc.schemeFiles, MetaPaths(index, schemes)))
    decreases |schemes|
  {
    if schemes != [] {
      var init, last := schemes[..|schemes| - 1], schemes[|schemes| - 1];
      ResolveSchemesSucceeds(index, sc, init);
      var prev := ResolveSchemes(index, sc, init);
      if prev.failure.None? && last in index {
        MergeSnoc(sc.schemeFiles, MetaPaths(index, init), index[last].0);
      }
      if prev.failure.Some? {
        var i :| 0 <= i < |init| && init[i] !in index;
        assert schemes[i] == init[i];
      }
    }
  }

  /** The scheme loop of one SDF stops only on a scheme it was given that is missing from the index. */
  lemma {:induction false} ResolveSchemesMissing(index: Index, sc: Scan, schemes: seq<string>)
    requires sc.failure.None?
    ensures var r := ResolveSchemes(index, sc, schemes);
            r.failure.Some? ==> exists s :: s in schemes && s !in index && r.failure == Some(SchemeNotFound(s))
    decreases |schemes|
  {
    if schemes != [] {
      var init, last := schemes[..|schemes| - 1], schemes[|schemes| - 1];
      ResolveSchemesMissing(index, sc, init);
      var prev := ResolveSchemes(index, sc, init);
      assert forall s :: s in init ==> s in schemes by {
        assert schemes == init + [last];
      }
      if prev.failure.None? && last !in index {
        assert last in schemes;
      }
    }
  }

  /** One pass of the scheme loop keeps scheme files and copied sources paired. */
  lemma ResolveSchemePaired(index: Index, sc: Scan, scheme: string)
    requires Paired(index, sc)
    ensures Paired(index, ResolveScheme(index, sc, scheme))
  {
    var r := ResolveScheme(index, sc, scheme);
    if scheme in index && index[scheme].0 !in sc.schemeFiles {
      forall i | 0 <= i < |r.schemeFiles|
        ensures (r.schemeFiles[i], r.sources[i]) in index.Values
      {
        if i == |sc.schemeFiles| {
          assert index[scheme] == (r.schemeFiles[i], r.sources[i]);
        } else {
          assert r.schemeFiles[i] == sc.schemeFiles[i] && r.sources[i] == sc.sources[i];
        }
      }
    }
  }

  /** Every prefix of the suite loop keeps one copied source per listed metadata file. */
  lemma {:induction false} ScanSuitesPaired(fs: set<string>, readXml: string -> Node, index: Index, search: seq<string>,
                                            suites: seq<string>)
    ensures Paired(index, ScanSuites(fs, readXml, index, search, suites))
    decreases |suites|
  {
    if suites != [] {
      var init, last := suites[..|suites| - 1], suites[|suites| - 1];
      ScanSuitesPaired(fs, readXml, index, search, init);
      var prev := ScanSuites(fs, readXml, index, search, init);
      if prev.failure.None? {
        match FileLookup(fs, SdfName(last), search).0
        case None =>
        case Some(path) =>
          ResolveSchemesFacts(index, prev.(sdfs := prev.sdfs + [path]), FindSchemesInSdf(readXml(path)));
      }
    }
  }

  /**
   * The SDFs a suite loop read are those of the suite names it got through, in
   * order, each the first match on the search path; a loop that runs to the end
   * found one SDF per suite name.
   */
  lemma {:induction false} ScanSuitesSdfs(fs: set<string>, readXml: string -> Node, index: Index, search: seq<string>,
                                          suites: seq<string>)
    ensures var r := ScanSuites(fs, readXml, index, search, suites);
            && |r.sdfs| <= |suites|
            && (r.failure.None? ==> |r.sdfs| == |suites|)
            && forall i :: 0 <= i < |r.sdfs| ==> FileLookup(fs, SdfName(suites[i]), search).0 == Some(r.sdfs[i])
    decreases |suites|
  {
    if suites != [] {
      var init, last := suites[..|suites| - 1], suites[|suites| - 1];
      var prev := ScanSuites(fs, readXml, index, search, init);
      var r := ScanSuites(fs, readXml, index, search, suites);
      ScanSuitesSdfs(fs, readXml, index, search, init);
      ScanSuitesLast(fs, readXml, index, search, suites);
      var found := FileLookup(fs, SdfName(last), search).0;
      SdfLookupsWiden(fs, search, suites, prev.sdfs);
      if prev.failure.None? && found.Some? {
        var sc := prev.(sdfs := prev.sdfs + [found.value]);
        var schemes := FindSchemesInSdf(readXml(found.value));
        assert r == ResolveSchemes(index, sc, schemes);
        ResolveSchemesKeepsSdfs(index, sc, schemes);
        assert r.sdfs == prev.sdfs + [found.value];
        assert suites[|prev.sdfs|] == last;
        SdfLookupsSnoc(fs, search, suites, prev.sdfs, found.value);
      } else {
        assert r.sdfs == prev.sdfs;
      }
    }
  }

  /** The SDFs found for the suite names but the last are found for all of them. */
  lemma SdfLookupsWiden(fs: set<string>, search: seq<string>, suites: seq<string>, sdfs: seq<string>)
    requires suites != [] && |sdfs| < |suites|
    requires forall i :: 0 <= i < |sdfs| ==> FileLookup(fs, SdfName(suites[..|suites| - 1][i]), search).0 == Some(sdfs[i])
    ensures forall i :: 0 <= i < |sdfs| ==> FileLookup(fs, SdfName(suites[i]), search).0 == Some(sdfs[i])
  {
    forall i | 0 <= i < |sdfs| ensures FileLookup(fs, SdfName(suites[i]), search).0 == Some(sdfs[i]) {
      assert suites[..|suites| - 1][i] == suites[i];
    }
  }

  /** The SDFs found for the first suite names, followed by the one found for the next. */
  lemma SdfLookupsSnoc(fs: set<string>, search: seq<string>, suites: seq<string>, sdfs: seq<string>, path: string)
    requires |sdfs| < |suites|
    requires forall i :: 0 <= i < |sdfs| ==> FileLookup(fs, SdfName(suites[i]), search).0 == Some(sdfs[i])
    requires FileLookup(fs, SdfName(suites[|sdfs|]), search).0 == Some(path)
    ensures forall i :: 0 <= i < |sdfs + [path]| ==> FileLookup(fs, SdfName(suites[i]), search).0 == Some((sdfs + [path])[i])
  {
  }

  /** The loop over the first `i + 1` suite names is one more pass after the first `i` raised nothing. */
  lemma ScanSuitesNext(fs: set<string>, readXml: string -> Node, index: Index, search: seq<string>,
                       suites: seq<string>, i: nat)
    requires i < |suites| && ScanSuites(fs, readXml, index, search, suites[..i]).failure.None?
    ensures ScanSuites(fs, readXml, index, search, suites[..i + 1])
            == ScanSuite(fs, readXml, index, search, ScanSuites(fs, readXml, index, search, suites[..i]), suites[i])
  {
    assert suites[..i + 1][..i] == suites[..i];
  }

  /** One more suite name: the loop body runs only when the earlier names raised nothing. */
  lemma ScanSuitesLast(fs: set<string>, readXml: string -> Node, index: Index, search: seq<string>,
                       suites: seq<string>)
    requires suites != []
    ensures var prev := ScanSuites(fs, readXml, index, search, suites[..|suites| - 1]);
            var found := FileLookup(fs, SdfName(suites[|suites| - 1]), search).0;
            var r := ScanSuites(fs, readXml, index, search, suites);
            && (prev.failure.Some? ==> r == prev)
            && (prev.failure.None? && found.None? ==> r == prev.(failure := Some(SdfNotFound)))
            && (prev.failure.None? && found.Some? ==>
                  r == ResolveSchemes(index, prev.(sdfs := prev.sdfs + [found.value]), FindSchemesInSdf(readXml(found.value))))
  {
  }

  /**
   * A suite loop that runs to the end lists the metadata files of the schemes its
   * SDFs call, merged in order, and every one of those schemes is in the index.
   */
  lemma {:induction false} ScanSuitesSchemeFiles(fs: set<string>, readXml: string -> Node, index: Index,
                                                 search: seq<string>, suites: seq<string>)
    requires ScanSuites(fs, readXml, index, search, suites).failure.None?
    ensures var r := ScanSuites(fs, readXml, index, search, suites);
            && (forall s :: s in Referenced(readXml, r.sdfs) ==> s in index)
            && r.schemeFiles == Merge([], MetaPaths(index, Referenced(readXml, r.sdfs)))
    decreases |suites|
  {
    if suites != [] {
      var init, last := suites[..|suites| - 1], suites[|suites| - 1];
      var prev := ScanSuites(fs, readXml, index, search, init);
      var r := ScanSuites(fs, readXml, index, search, suites);
      ScanSuitesLast(fs, readXml, index, search, suites);
      assert prev.failure.None?;
      ScanSuitesSchemeFiles(fs, readXml, index, search, init);
      var path := FileLookup(fs, SdfName(last), search).0.value;
      var schemes := FindSchemesInSdf(readXml(path));
      var sc := prev.(sdfs := prev.sdfs + [path]);
      assert r == ResolveSchemes(index, sc, schemes);
      ResolveSchemesFacts(index, sc, schemes);
      ResolveSchemesKeepsSdfs(index, sc, schemes);
      ReferencedSnoc(readXml, prev.sdfs, path);
      SchemeFilesAppend(index, Referenced(readXml, prev.sdfs), schemes, prev.schemeFiles);
    }
  }

  /** The merged metadata files of the schemes called so far, extended by those of one more SDF. */
  lemma SchemeFilesAppend(index: Index, before: seq<string>, schemes: seq<string>, files: seq<string>)
    requires forall s :: s in before ==> s in index
    requires forall i :: 0 <= i < |schemes| ==> schemes[i] in index
    requires files == Merge([], MetaPaths(index, before))
    ensures forall s :: s in before + schemes ==> s in index
    ensures Merge(files, MetaPaths(index, schemes)) == Merge([], MetaPaths(index, before + schemes))
  {
    forall s | s in before + schemes ensures s in index {
      if s !in before {
        var i :| 0 <= i < |schemes| && schemes[i] == s;
      }
    }
    MetaPathsAppend(index, before, schemes);
    MergeAppend([], MetaPaths(index, before), MetaPaths(index, schemes));
  }

  lemma ReferencedSnoc(readXml: string -> Node, sdfs: seq<string>, path: string)
    ensures Referenced(readXml, sdfs + [path]) == Referenced(readXml, sdfs) + FindSchemesInSdf(readXml(path))
  {
    assert (sdfs + [path])[..|sdfs|] == sdfs;
  }

  /**
   * A suite loop stops on a missing SDF only for a suite name no search directory
   * holds an SDF for, and on a missing scheme only for a scheme with no metadata
   * that one of the SDFs it read calls.
   */
  lemma {:induction false} ScanSuitesFailure(fs: set<string>, readXml: string -> Node, index: Index, search: seq<string>,
                                             suites: seq<string>)
    ensures var r := ScanSuites(fs, readXml, index, search, suites);
            && (r.failure == Some(SdfNotFound) ==>
                  exists i :: 0 <= i < |suites| && FileLookup(fs, SdfName(suites[i]), search).0.None?)
            && (forall s :: r.failure == Some(SchemeNotFound(s)) ==> s !in index && s in Referenced(readXml, r.sdfs))
            && (r.failure.None? || r.failure == Some(SdfNotFound) || r.failure.value.SchemeNotFound?)
    decreases |suites|
  {
    if suites != [] {
      var init, last := suites[..|suites| - 1], suites[|suites| - 1];
      ScanSuitesFailure(fs, readXml, index, search, init);
      var prev := ScanSuites(fs, readXml, index, search, init);
      var r := ScanSuites(fs, readXml, index, search, suites);
      if prev.failure.None? {
        match FileLookup(fs, SdfName(last), search).0
        case None =>
          assert suites[|suites| - 1] == last;
        case Some(path) =>
          ResolveSchemesFacts(index, prev.(sdfs := prev.sdfs + [path]), FindSchemesInSdf(readXml(path)));
          ReferencedSnoc(readXml, prev.sdfs, path);
      } else if r.failure == Some(SdfNotFound) {
        var i :| 0 <= i < |init| && FileLookup(fs, SdfName(init[i]), search).0.None?;
        assert suites[i] == init[i];
      }
    }
  }

  lemma {:induction false} MetaPathsAppend(index: Index, xs: seq<string>, ys: seq<string>)
    ensures MetaPaths(index, xs + ys) == MetaPaths(index, xs) + MetaPaths(index, ys)
    decreases |ys|
  {
    if ys == [] {
      assert xs + ys == xs;
    } else {
      var init, last := ys[..|ys| - 1], ys[|ys| - 1];
      MetaPathsAppend(index, xs, init);
      assert (xs + ys)[..|xs + ys| - 1] == xs + init;
      assert (xs + ys)[|xs + ys| - 1] == last;
    }
  }

  /**
   * When every suite resolves, the scheme files are the metadata files of the
   * referenced schemes, without repeats, in order of first reference across the
   * suites, and every scheme the SDFs call is in the index.
   */
  lemma SchemeFilesInFirstReferenceOrder(fs: set<string>, readXml: string -> Node, index: Index, search: seq<string>,
                                         suites: seq<string>)
    requires ScanSuites(fs, readXml, index, search, suites).failure.None?
    ensures var r := ScanSuites(fs, readXml, index, search, suites);
            && (forall s :: s in Referenced(readXml, r.sdfs) ==> s in index)
            && r.schemeFiles == Dedup(MetaPaths(index, Referenced(readXml, r.sdfs)))
  {
    var r := ScanSuites(fs, readXml, index, search, suites);
    ScanSuitesSchemeFiles(fs, readXml, index, search, suites);
    MergeIsDedup([], MetaPaths(index, Referenced(readXml, r.sdfs)));
    assert [] + MetaPaths(index, Referenced(readXml, r.sdfs)) == MetaPaths(index, Referenced(readXml, r.sdfs));
  }

  /** Where `_update_file` puts the copy of a scheme source. */
  function Destination(physicsBldDir: string, src: string): string
  {
    Join(physicsBldDir, Basename(src))
  }

  /** A scheme is referenced exactly when one of the SDFs calls it. */
  lemma {:induction false} ReferencedMembers(readXml: string -> Node, sdfs: seq<string>, s: string)
    ensures s in Referenced(readXml, sdfs) <==> exists j :: 0 <= j < |sdfs| && s in FindSchemesInSdf(readXml(sdfs[j]))
    decreases |sdfs|
  {
    if sdfs != [] {
      var init, last := sdfs[..|sdfs| - 1], sdfs[|sdfs| - 1];
      ReferencedMembers(readXml, init, s);
      if s in Referenced(readXml, sdfs) && s !in Referenced(readXml, init) {
        assert s in FindSchemesInSdf(readXml(sdfs[|sdfs| - 1]));
      }
      if j :| 0 <= j < |sdfs| && s in FindSchemesInSdf(readXml(sdfs[j])) {
        if j < |init| {
          assert init[j] == sdfs[j];
        }
      }
    }
  }

  /**
   * The suite loop runs to the end exactly when every suite name has an SDF on the
   * search path and every scheme those SDFs call has metadata in the index.
   */
  lemma ScanSuitesSucceeds(fs: set<string>, readXml: string -> Node, index: Index, search: seq<string>,
                           suites: seq<string>)
    ensures ScanSuites(fs, readXml, index, search, suites).failure.None? <==>
              && (forall i :: 0 <= i < |suites| ==> FileLookup(fs, SdfName(suites[i]), search).0.Some?)
              && (forall i, s :: 0 <= i < |suites| && s in FindSchemesInSdf(readXml(FileLookup(fs, SdfName(suites[i]), search).0.value))
                                 ==> s in index)
  {
    var r := ScanSuites(fs, readXml, index, search, suites);
    ScanSuitesSdfs(fs, readXml, index, search, suites);
    ScanSuitesFailure(fs, readXml, index, search, suites);
    if r.failure.None? {
      ScanSuitesSchemeFiles(fs, readXml, index, search, suites);
      forall i, s | 0 <= i < |suites| && s in FindSchemesInSdf(readXml(FileLookup(fs, SdfName(suites[i]), search).0.value))
        ensures s in index
      {
        assert FileLookup(fs, SdfName(suites[i]), search).0 == Some(r.sdfs[i]);
        ReferencedMembers(readXml, r.sdfs, s);
      }
    } else if r.failure != Some(SdfNotFound) {
      var s := r.failure.value.scheme;
      ReferencedMembers(readXml, r.sdfs, s);
      var j :| 0 <= j < |r.sdfs| && s in FindSchemesInSdf(readXml(r.sdfs[j]));
      assert FileLookup(fs, SdfName(suites[j]), search).0 == Some(r.sdfs[j]);
    }
  }

  /** The destinations `_update_file` writes for the copied sources. */
  function CopiedSources(physicsBldDir: string, sources: seq<string>): set<string>
    decreases |sources|
  {
    if sources == [] then {}
    else CopiedSources(physicsBldDir, sources[..|sources| - 1]) + {Destination(physicsBldDir, sources[|sources| - 1])}
  }

  /** The non-empty `file_path` of each registered file, in order. */
  function RegisteredPaths(regFiles: seq<RegFile>): seq<string>
    decreases |regFiles|
  {
    if regFiles == [] then []
    else
      var last := regFiles[|regFiles| - 1];
      RegisteredPaths(regFiles[..|regFiles| - 1])
        + (if last.filePath.Some? && last.filePath.value != "" then [last.filePath.value] else [])
  }

  /** A path is listed exactly when some registered file carries it as a non-empty `file_path`. */
  lemma {:induction false} RegisteredPathsListed(regFiles: seq<RegFile>, p: string)
    ensures p in RegisteredPaths(regFiles) <==> p != "" && exists i :: 0 <= i < |regFiles| && regFiles[i].filePath == Some(p)
    decreases |regFiles|
  {
    if regFiles != [] {
      var init := regFiles[..|regFiles| - 1];
      RegisteredPathsListed(init, p);
      if exists i :: 0 <= i < |regFiles| && regFiles[i].filePath == Some(p) {
        var i :| 0 <= i < |regFiles| && regFiles[i].filePath == Some(p);
        if i < |init| {
          assert init[i] == regFiles[i];
        }
      }
      if exists i :: 0 <= i < |init| && init[i].filePath == Some(p) {
        var i :| 0 <= i < |init| && init[i].filePath == Some(p);
        assert regFiles[i] == init[i];
      }
    }
  }

  /**
   * `host_files`: the registry directory's metadata files first (they define the
   * derived types the rest depend on), then the non-empty `file_path` of each
   * registered file in order.
   */
  method CollectHostFiles(regDirMeta: seq<string>, regFiles: seq<RegFile>) returns (hostFiles: seq<string>)
    ensures hostFiles == regDirMeta + RegisteredPaths(regFiles)
  {
    hostFiles := regDirMeta;
    var i := 0;
    while i < |regFiles|
      invariant 0 <= i <= |regFiles|
      invariant hostFiles == regDirMeta + RegisteredPaths(regFiles[..i])
    {
      var regFile := regFiles[i];
      if regFile.filePath.Some? && regFile.filePath.value != "" {
        hostFiles := hostFiles + [regFile.filePath.value];
      }
      assert regFiles[..i + 1][..i] == regFiles[..i];
      i := i + 1;
    }
    assert regFiles[..i] == regFiles;
  }

  // ---------------------------------------------------------------------------
  // The build state the stages change.
  // ---------------------------------------------------------------------------

  /**
   * The state a build of the case works on: the build directories that exist, the
   * physics sources copied into `ccpp_physics`, the source of every `_update_file`
   * call made so far in call order, the build cache's record for each stage, and
   * the calls made so far on the cache and the external generators.
   */
  class Build {
    var dirs: set<string>
    var copied: set<string>
    var copies: seq<string>
    var registryRecord: Option<RegistryInputs>
    var ccppRecord: Option<CcppInputs>
    var initRecord: Option<Option<string>>
    var trace: seq<Call>

    constructor (dirs0: set<string>, registry0: Option<RegistryInputs>, ccpp0: Option<CcppInputs>,
                 init0: Option<Option<string>>)
      ensures dirs == dirs0 && copied == {} && copies == [] && trace == []
      ensures registryRecord == registry0 && ccppRecord == ccpp0 && initRecord == init0
    {
      dirs, copied, copies, trace := dirs0, {}, [], [];
      registryRecord, ccppRecord, initRecord := registry0, ccpp0, init0;
    }

    /** `os.makedirs(path)` / `os.mkdir(path)`. */
    method MakeDirs(path: string)
      modifies this`dirs
      ensures dirs == old(dirs) + {path}
    {
      dirs := dirs + {path};
    }

    /** `if not os.path.isdir(path): os.makedirs(path)`. */
    method EnsureDir(path: string)
      modifies this`dirs
      ensures dirs == old(dirs) + {path}
    {
      if path !in dirs {
        MakeDirs(path);
      }
    }

    /**
     * `_update_file(filename, source_path, bld_dir)`: afterwards `bld_dir/filename`
     * exists as a copy of the source. Whether an existing copy is replaced depends on
     * file contents, which are not modelled.
     */
    method UpdateFile(filename: string, sourcePath: string, bldDir: string)
      modifies this`copied, this`copies
      ensures copied == old(copied) + {Join(bldDir, filename)}
      ensures copies == old(copies) + [sourcePath]
    {
      copied := copied + {Join(bldDir, filename)};
      copies := copies + [sourcePath];
    }

    /** `build_cache.registry_mismatch(...)`. */
    method RegistryMismatch(tools: Tools, q: RegistryInputs) returns (mismatch: bool)
      modifies this`trace
      ensures mismatch == tools.registryMismatch(registryRecord, q)
      ensures trace == old(trace) + [RegistryMismatchQuery(q)]
    {
      mismatch := tools.registryMismatch(registryRecord, q);
      trace := trace + [RegistryMismatchQuery(q)];
    }

    /** `build_cache.update_registry(...)`. */
    method UpdateRegistryRecord(q: RegistryInputs)
      modifies this`registryRecord, this`trace
      ensures registryRecord == Some(q)
      ensures trace == old(trace) + [UpdateRegistry(q)]
    {
      registryRecord := Some(q);
      trace := trace + [UpdateRegistry(q)];
    }

    /** `build_cache.ccpp_mismatch(...)`. */
    method CcppMismatch(tools: Tools, q: CcppInputs) returns (mismatch: bool)
      modifies this`trace
      ensures mismatch == tools.ccppMismatch(ccppRecord, q)
      ensures trace == old(trace) + [CcppMismatchQuery(q)]
    {
      mismatch := tools.ccppMismatch(ccppRecord, q);
      trace := trace + [CcppMismatchQuery(q)];
    }

    /** `build_cache.update_ccpp(...)`. */
    method UpdateCcppRecord(q: CcppInputs)
      modifies this`ccppRecord, this`trace
      ensures ccppRecord == Some(q)
      ensures trace == old(trace) + [UpdateCcpp(q)]
    {
      ccppRecord := Some(q);
      trace := trace + [UpdateCcpp(q)];
    }

    /** `build_cache.init_write_mismatch(gen_init_file)`. */
    method InitWriteMismatch(tools: Tools, genInitFile: Option<string>) returns (mismatch: bool)
      modifies this`trace
      ensures mismatch == tools.initWriteMismatch(initRecord, genInitFile)
      ensures trace == old(trace) + [InitWriteMismatchQuery(genInitFile)]
    {
      mismatch := tools.initWriteMismatch(initRecord, genInitFile);
      trace := trace + [InitWriteMismatchQuery(genInitFile)];
    }

    /** `build_cache.update_init_gen(gen_init_file)`. */
    method UpdateInitGenRecord(genInitFile: Option<string>)
      modifies this`initRecord, this`trace
      ensures initRecord == Some(genInitFile)
      ensures trace == old(trace) + [UpdateInitGen(genInitFile)]
    {
      initRecord := Some(genInitFile);
      trace := trace + [UpdateInitGen(genInitFile)];
    }

    /**
     * `generate_registry`: regenerate when `cam_registry` is missing (it is then
     * created) or else when the cache reports a mismatch; call `gen_registry` for
     * each registry file, fail on the first non-zero return code, and record the
     * inputs only once every call returned 0.
     */
    method GenerateRegistry(fs: set<string>, tools: Tools, dataSearch: seq<string>, atmRoot: string,
                            bldroot: string, sourceModsDir: string, dycore: string, genFortIndent: int,
                            regConfig: string)
      returns (r: Result<RegistryOutput, Error>)
      modifies this
      ensures copied == old(copied) && copies == old(copies)
      ensures ccppRecord == old(ccppRecord) && initRecord == old(initRecord)
      ensures dirs == old(dirs) + {Join(bldroot, "cam_registry")}
      ensures var genregDir := Join(bldroot, "cam_registry");
              var q := RegistryInputsOf(fs, dataSearch, dycore, regConfig);
              var existed := genregDir in old(dirs);
              var doGen := !existed || tools.registryMismatch(old(registryRecord), q);
              var base := RegistryRequest(None, dycore, regConfig, genregDir, genFortIndent, sourceModsDir,
                                          atmRoot, dataSearch);
              var run := RunRegistry(tools, base, q.registryFiles);
              && trace == old(trace)
                          + (if existed then [RegistryMismatchQuery(q)] else [])
                          + (if doGen then run.calls + (if run.failure.None? then [UpdateRegistry(q)] else []) else [])
              && registryRecord == (if doGen && run.failure.None? then Some(q) else old(registryRecord))
              && r == (if !doGen then Ok(RegistryOutput(genregDir, false, []))
                       else if run.failure.Some? then Err(run.failure.value)
                       else Ok(RegistryOutput(genregDir, true, run.regFiles)))
    {
      var genRegFile, _ := FindFile(fs, "generate_registry_data.py", dataSearch);
      var registryFile, _ := FindFile(fs, "registry.xml", dataSearch);
      var registryFiles := [registryFile];
      var genregDir := Join(bldroot, "cam_registry");
      var q := RegistryInputs(genRegFile, registryFiles, dycore, regConfig);
      var regFilesList: seq<RegFile> := [];
      var doGenRegistry;
      if genregDir in dirs {
        doGenRegistry := RegistryMismatch(tools, q);
      } else {
        MakeDirs(genregDir);
        doGenRegistry := true;
      }
      if doGenRegistry {
        var base := RegistryRequest(None, dycore, regConfig, genregDir, genFortIndent, sourceModsDir,
                                    atmRoot, dataSearch);
        var failure;
        regFilesList, failure := CallGenRegistry(tools, base, registryFiles);
        if failure.Some? {
          return Err(failure.value);
        }
        UpdateRegistryRecord(q);
      }
      return Ok(RegistryOutput(genregDir, doGenRegistry, regFilesList));
    }

    /**
     * The `gen_registry` loop of `generate_registry`: one call per registry file,
     * stopping at the first non-zero return code.
     */
    method CallGenRegistry(tools: Tools, base: RegistryRequest, registryFiles: seq<Option<string>>)
      returns (regFiles: seq<RegFile>, failure: Option<Error>)
      modifies this`trace
      ensures var run := RunRegistry(tools, base, registryFiles);
              regFiles == run.regFiles && failure == run.failure && trace == old(trace) + run.calls
    {
      regFiles := [];
      var i := 0;
      while i < |registryFiles|
        invariant 0 <= i <= |registryFiles|
        invariant RunRegistry(tools, base, registryFiles[..i]).failure.None?
        invariant regFiles == RunRegistry(tools, base, registryFiles[..i]).regFiles
        invariant trace == old(trace) + RunRegistry(tools, base, registryFiles[..i]).calls
      {
        var req := base.(registryFile := registryFiles[i]);
        var reply := tools.genRegistry(req);
        trace := trace + [GenRegistry(req)];
        assert registryFiles[..i + 1][..i] == registryFiles[..i];
        if reply.retcode != 0 {
          RunRegistryStops(tools, base, registryFiles, i + 1);
          return regFiles, Some(RegistryGenFailed(req.registryFile, reply.retcode));
        }
        regFiles := regFiles + reply.regFiles;
        i := i + 1;
      }
      assert registryFiles[..i] == registryFiles;
      return regFiles, None;
    }

    /**
     * The loop over the schemes of one SDF in `generate_physics_suites`: resolve each
     * scheme through the index, and for each metadata file not yet listed, list it
     * and copy its source into the physics build directory.
     */
    method ResolveSdfSchemes(index: Index, sc: Scan, sdfSchemes: seq<string>, physicsBldDir: string,
                             ghost copied0: set<string>, ghost copies0: seq<string>)
      returns (r: Scan)
      requires sc.failure.None?
      requires copied == copied0 + CopiedSources(physicsBldDir, sc.sources)
      requires copies == copies0 + sc.sources
      modifies this`copied, this`copies
      ensures r == ResolveSchemes(index, sc, sdfSchemes)
      ensures copied == copied0 + CopiedSources(physicsBldDir, r.sources)
      ensures copies == copies0 + r.sources
    {
      r := sc;
      var j := 0;
      while j < |sdfSchemes| && r.failure.None?
        invariant 0 <= j <= |sdfSchemes|
        invariant r == ResolveSchemes(index, sc, sdfSchemes[..j])
        invariant copied == copied0 + CopiedSources(physicsBldDir, r.sources)
        invariant copies == copies0 + r.sources
      {
        ResolveSchemesNext(index, sc, sdfSchemes, j);
        r := ResolveSdfScheme(index, r, sdfSchemes[j], physicsBldDir, copied0, copies0);
        j := j + 1;
      }
      if r.failure.Some? {
        ResolveSchemesStops(index, sc, sdfSchemes, j);
      } else {
        assert sdfSchemes[..j] == sdfSchemes;
      }
    }

    /**
     * One pass of the scheme loop: a scheme missing from the index is an error; the
     * first scheme naming a metadata file lists it and copies its source.
     */
    method ResolveSdfScheme(index: Index, sc: Scan, scheme: string, physicsBldDir: string,
                            ghost copied0: set<string>, ghost copies0: seq<string>)
      returns (r: Scan)
      requires copied == copied0 + CopiedSources(physicsBldDir, sc.sources)
      requires copies == copies0 + sc.sources
      modifies this`copied, this`copies
      ensures r == ResolveScheme(index, sc, scheme)
      ensures copied == copied0 + CopiedSources(physicsBldDir, r.sources)
      ensures copies == copies0 + r.sources
    {
      r := sc;
      if scheme in index {
        var schemeFile := index[scheme].0;
        if schemeFile !in r.schemeFiles {
          var schemeSrc := index[scheme].1;
          CopiedSourcesSnoc(physicsBldDir, r.sources, schemeSrc);
          r := r.(schemeFiles := r.schemeFiles + [schemeFile], sources := r.sources + [schemeSrc]);
          UpdateFile(Basename(schemeSrc), schemeSrc, physicsBldDir);
        }
      } else {
        r := r.(failure := Some(SchemeNotFound(scheme)));
      }
    }

    /**
     * One pass of the suite loop of `generate_physics_suites`: find the suite's SDF
     * and resolve its schemes, copying the sources of newly listed metadata files.
     */
    method ScanPhysicsSuite(fs: set<string>, tools: Tools, index: Index, search: seq<string>, sc: Scan, sdf: string,
                            physicsBldDir: string, ghost copied0: set<string>, ghost copies0: seq<string>)
      returns (next: Scan)
      requires sc.failure.None?
      requires copied == copied0 + CopiedSources(physicsBldDir, sc.sources)
      requires copies == copies0 + sc.sources
      modifies this`copied, this`copies
      ensures next == ScanSuite(fs, tools.readXmlFile, index, search, sc, sdf)
      ensures copied == copied0 + CopiedSources(physicsBldDir, next.sources)
      ensures copies == copies0 + next.sources
    {
      var sdfPath, _ := FindFile(fs, SdfName(sdf), search);
      if sdfPath.None? {
        return sc.(failure := Some(SdfNotFound));
      }
      var suite := tools.readXmlFile(sdfPath.value);
      var sdfSchemes := FindSchemesInSdf(suite);
      next := ResolveSdfSchemes(index, sc.(sdfs := sc.sdfs + [sdfPath.value]), sdfSchemes, physicsBldDir,
                                copied0, copies0);
    }

    /**
     * The suite loop of `generate_physics_suites`: find each suite's SDF and resolve
     * its schemes, stopping at the first SDF or scheme that cannot be found.
     */
    method ScanPhysicsSuites(fs: set<string>, tools: Tools, index: Index, search: seq<string>, suites: seq<string>,
                             physicsBldDir: string)
      returns (sc: Scan)
      modifies this`copied, this`copies
      ensures sc == ScanSuites(fs, tools.readXmlFile, index, search, suites)
      ensures copied == old(copied) + CopiedSources(physicsBldDir, sc.sources)
      ensures copies == old(copies) + sc.sources
    {
      sc := Scan([], [], [], None);
      var i := 0;
      while i < |suites|
        invariant 0 <= i <= |suites|
        invariant sc == ScanSuites(fs, tools.readXmlFile, index, search, suites[..i]) && sc.failure.None?
        invariant copied == old(copied) + CopiedSources(physicsBldDir, sc.sources)
        invariant copies == old(copies) + sc.sources
      {
        ScanSuitesNext(fs, tools.readXmlFile, index, search, suites, i);
        sc := ScanPhysicsSuite(fs, tools, index, search, sc, suites[i], physicsBldDir, old(copied), old(copies));
        if sc.failure.Some? {
          ScanSuitesStops(fs, tools.readXmlFile, index, search, suites, i + 1);
          return;
        }
        i := i + 1;
      }
      assert suites[..i] == suites;
    }

    /**
     * `generate_physics_suites`: index the scheme metadata, resolve every scheme of
     * every configured suite (copying its source), then regenerate the caps when
     * `ccpp` is missing (it is then created) or else when `force` is set or the cache
     * reports a mismatch; record the inputs only after `capgen` returned.
     */
    method GeneratePhysicsSuites(fs: set<string>, tools: Tools, atmRoot: string, bldroot: string, regDir: string,
                                 regFiles: seq<RegFile>, sourceModsDir: string, force: bool,
                                 physicsSuites: string, preprocDefs: string, hostName: string)
      returns (r: Result<PhysicsOutput, Error>)
      modifies this
      ensures registryRecord == old(registryRecord) && initRecord == old(initRecord)
      ensures var physicsBldDir := Join(bldroot, "ccpp_physics");
              var search := SourceSearch(sourceModsDir, atmRoot);
              var index := MetadataIndexOf(fs, tools.walk, tools.findSchemeNames, search);
              var scan := ScanSuites(fs, tools.readXmlFile, index, search, Split(physicsSuites, ';'));
              && copied == old(copied) + CopiedSources(physicsBldDir, scan.sources)
              && copies == old(copies) + scan.sources
              && (scan.failure.Some? ==>
                    && r == Err(scan.failure.value)
                    && dirs == old(dirs) + {physicsBldDir}
                    && trace == old(trace) && ccppRecord == old(ccppRecord))
      ensures var physicsBldDir := Join(bldroot, "ccpp_physics");
              var genccppDir := Join(bldroot, "ccpp");
              var search := SourceSearch(sourceModsDir, atmRoot);
              var index := MetadataIndexOf(fs, tools.walk, tools.findSchemeNames, search);
              var scan := ScanSuites(fs, tools.readXmlFile, index, search, Split(physicsSuites, ';'));
              var q := CcppInputs(scan.sdfs, scan.schemeFiles, preprocDefs, "REAL64");
              var existed := genccppDir in old(dirs);
              var doGen := !existed || force || tools.ccppMismatch(old(ccppRecord), q);
              var capOutputFile := Join(genccppDir, "capfiles.txt");
              var req := CapgenRequest(tools.globMeta(regDir) + RegisteredPaths(regFiles), scan.schemeFiles,
                                       scan.sdfs, capOutputFile, preprocDefs, true, false, genccppDir,
                                       hostName, "REAL64");
              var ok := tools.capgen(req);
              scan.failure.None? ==>
                && dirs == old(dirs) + {physicsBldDir, genccppDir}
                && trace == old(trace)
                            + (if existed && !force then [CcppMismatchQuery(q)] else [])
                            + (if doGen then [Capgen(req)] + (if ok then [UpdateCcpp(q)] else []) else [])
                && ccppRecord == (if doGen && ok then Some(q) else old(ccppRecord))
                && r == (if !doGen then Err(CapOutputUnbound)
                         else if !ok then Err(CapgenFailed)
                         else Ok(PhysicsOutput([physicsBldDir, genccppDir], true, capOutputFile)))
    {
      var physicsBldDir := Join(bldroot, "ccpp_physics");
      var sc := PrepareScan(fs, tools, atmRoot, physicsBldDir, sourceModsDir, physicsSuites);
      if sc.failure.Some? {
        return Err(sc.failure.value);
      }
      r := GenerateCaps(tools, bldroot, physicsBldDir, regDir, regFiles, sc, force, preprocDefs, hostName, old(dirs));
    }

    /**
     * The first half of `generate_physics_suites`: create `ccpp_physics`, index the
     * scheme metadata of the source search path, and run the suite loop.
     */
    method PrepareScan(fs: set<string>, tools: Tools, atmRoot: string, physicsBldDir: string, sourceModsDir: string,
                       physicsSuites: string)
      returns (sc: Scan)
      modifies this`dirs, this`copied, this`copies
      ensures var search := SourceSearch(sourceModsDir, atmRoot);
              var index := MetadataIndexOf(fs, tools.walk, tools.findSchemeNames, search);
              sc == ScanSuites(fs, tools.readXmlFile, index, search, Split(physicsSuites, ';'))
      ensures dirs == old(dirs) + {physicsBldDir}
      ensures copied == old(copied) + CopiedSources(physicsBldDir, sc.sources)
      ensures copies == old(copies) + sc.sources
    {
      EnsureDir(physicsBldDir);
      var sourceSearch := SourceSearch(sourceModsDir, atmRoot);
      var allSchemeFiles := FindMetadataFiles(fs, tools.walk, sourceSearch, tools.findSchemeNames);
      var suites := Split(physicsSuites, ';');
      sc := ScanPhysicsSuites(fs, tools, allSchemeFiles, sourceSearch, suites, physicsBldDir);
    }

    /**
     * The second half of `generate_physics_suites`, once every suite resolved:
     * collect the host files, decide whether the caps are stale, run `capgen`, and
     * record its inputs.
     */
    method GenerateCaps(tools: Tools, bldroot: string, physicsBldDir: string, regDir: string, regFiles: seq<RegFile>,
                        sc: Scan, force: bool, preprocDefs: string, hostName: string, ghost dirs0: set<string>)
      returns (r: Result<PhysicsOutput, Error>)
      requires physicsBldDir == Join(bldroot, "ccpp_physics") && dirs == dirs0 + {physicsBldDir}
      modifies this`dirs, this`trace, this`ccppRecord
      ensures var genccppDir := Join(bldroot, "ccpp");
              var q := CcppInputs(sc.sdfs, sc.schemeFiles, preprocDefs, "REAL64");
              var existed := genccppDir in dirs0;
              var doGen := !existed || force || tools.ccppMismatch(old(ccppRecord), q);
              var capOutputFile := Join(genccppDir, "capfiles.txt");
              var req := CapgenRequest(tools.globMeta(regDir) + RegisteredPaths(regFiles), sc.schemeFiles, sc.sdfs,
                                       capOutputFile, preprocDefs, true, false, genccppDir, hostName, "REAL64");
              var ok := tools.capgen(req);
              && dirs == dirs0 + {physicsBldDir, genccppDir}
              && trace == old(trace)
                          + (if existed && !force then [CcppMismatchQuery(q)] else [])
                          + (if doGen then [Capgen(req)] + (if ok then [UpdateCcpp(q)] else []) else [])
              && ccppRecord == (if doGen && ok then Some(q) else old(ccppRecord))
              && r == (if !doGen then Err(CapOutputUnbound)
                       else if !ok then Err(CapgenFailed)
                       else Ok(PhysicsOutput([physicsBldDir, genccppDir], true, capOutputFile)))
    {
      var genccppDir := Join(bldroot, "ccpp");
      JoinDistinct(bldroot, "ccpp_physics", "ccpp");
      var kindPhys := "REAL64";
      var regDirMeta := tools.globMeta(regDir);
      var hostFiles := CollectHostFiles(regDirMeta, regFiles);
      var q := CcppInputs(sc.sdfs, sc.schemeFiles, preprocDefs, kindPhys);
      var doGenCcpp;
      if genccppDir in dirs {
        if force {
          doGenCcpp := true;
        } else {
          doGenCcpp := CcppMismatch(tools, q);
        }
      } else {
        MakeDirs(genccppDir);
        doGenCcpp := true;
      }
      if !doGenCcpp {
        return Err(CapOutputUnbound);
      }
      var capOutputFile := Join(genccppDir, "capfiles.txt");
      var req := CapgenRequest(hostFiles, sc.schemeFiles, sc.sdfs, capOutputFile, preprocDefs, true, false,
                               genccppDir, hostName, kindPhys);
      var ok := tools.capgen(req);
      trace := trace + [Capgen(req)];
      if !ok {
        return Err(CapgenFailed);
      }
      UpdateCcppRecord(q);
      return Ok(PhysicsOutput([physicsBldDir, genccppDir], true, capOutputFile));
    }

    /**
     * `generate_init_routines`: regenerate when `phys_init` is missing (it is then
     * created), or else when either upstream stage forces it, and only otherwise
     * ask the cache whether `write_init_files.py` changed; record it only when the
     * writer returned an empty message.
     */
    method GenerateInitRoutines(fs: set<string>, tools: Tools, dataSearch: seq<string>, bldroot: string,
                                regFiles: seq<RegFile>, forceReg: bool, forceCcpp: bool, genFortIndent: int,
                                capDatafile: string)
      returns (r: Result<string, Error>)
      modifies this
      ensures copied == old(copied) && copies == old(copies)
      ensures registryRecord == old(registryRecord) && ccppRecord == old(ccppRecord)
      ensures dirs == old(dirs) + {Join(bldroot, "phys_init")}
      ensures var initDir := Join(bldroot, "phys_init");
              var genInitFile := FileLookup(fs, "write_init_files.py", dataSearch).0;
              var existed := initDir in old(dirs);
              var forced := forceReg || forceCcpp;
              var doGen := !existed || forced || tools.initWriteMismatch(old(initRecord), genInitFile);
              var req := InitRequest(regFiles, initDir, genFortIndent, capDatafile);
              var msg := tools.writeInitFiles(req);
              && trace == old(trace)
                          + (if existed && !forced then [InitWriteMismatchQuery(genInitFile)] else [])
                          + (if doGen then [WriteInitFiles(req)] + (if msg == "" then [UpdateInitGen(genInitFile)] else []) else [])
              && initRecord == (if doGen && msg == "" then Some(genInitFile) else old(initRecord))
              && r == (if doGen && msg != "" then Err(InitGenFailed(msg)) else Ok(initDir))
    {
      var genInitFile, _ := FindFile(fs, "write_init_files.py", dataSearch);
      var initDir := Join(bldroot, "phys_init");
      var doGenInit;
      if initDir in dirs {
        if forceReg || forceCcpp {
          doGenInit := true;
        } else {
          doGenInit := InitWriteMismatch(tools, genInitFile);
        }
      } else {
        MakeDirs(initDir);
        doGenInit := true;
      }
      if doGenInit {
        var req := InitRequest(regFiles, initDir, genFortIndent, capDatafile);
        var retmsg := tools.writeInitFiles(req);
        trace := trace + [WriteInitFiles(req)];
        if retmsg != "" {
          return Err(InitGenFailed(retmsg));
        }
        UpdateInitGenRecord(genInitFile);
      }
      return Ok(initDir);
    }
  }

  lemma CopiedSourcesSnoc(dir: string, sources: seq<string>, src: string)
    ensures CopiedSources(dir, sources + [src]) == CopiedSources(dir, sources) + {Destination(dir, src)}
  {
    assert (sources + [src])[..|sources|] == sources;
  }
}
