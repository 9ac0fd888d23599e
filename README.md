# CAM source autogeneration: a Dafny model

This project models the build-time code generation of CAM
(`cime_config/cam_autogen.py`). A CAM build runs three generation stages in
order:

1. the **registry** stage (`generate_registry`) turns `registry.xml` into data
   structures;
2. the **physics-suite** stage (`generate_physics_suites`) resolves every scheme
   that the configured suite definition files (SDFs) call, copies each scheme's
   Fortran source into `ccpp_physics`, and runs the CCPP cap generator;
3. the **init** stage (`generate_init_routines`) writes the initialization
   routines.

Each stage regenerates only when its output is stale:

- its output directory is missing (the stage then creates it);
- or an upstream stage forces it;
- or the build cache reports that the recorded inputs no longer match.

A stage records its new inputs in the cache only after its generator succeeds.

The model also covers the helpers the stages rely on:

- the first-match file search (`_find_file`);
- the Fortran companion of a metadata file (`_find_scheme_source`);
- the scheme names of an SDF (`_find_schemes_in_sdf`);
- the scheme index over the physics source tree (`_find_metadata_files`);
- the copy into the build directory (`_update_file`, abstractly).

Layout, one module per concern:

| file | module | models |
|---|---|---|
| `wrappers.dfy` | `Wrappers` | `Option` / `Result` |
| `paths.dfy` | `Paths` | `os.path.join`, `os.path.basename`, `endswith`, substring `in`, `str.split` |
| `search.dfy` | `Search` | `_find_file`, `_find_scheme_source` |
| `unique.dfy` | `Unique` | the `if x not in xs: xs.append(x)` idiom and its reference definition |
| `suite_definition.dfy` | `SuiteDefinition` | `_find_schemes_in_sdf` |
| `metadata_index.dfy` | `MetadataIndex` | `_find_metadata_files` |
| `autogen.dfy` | `Autogen` | the three `generate_*` stages, as methods of class `Build` |

Modelling choices:

- **Source tree.** The source tree is a set of existing paths: `p in fs` is `os.path.exists(p)`.
- **Build state.** The state a build changes lives in the fields of class `Autogen.Build`:
  - the build directories that exist;
  - the files copied into build directories, and the source of every `_update_file` call in call order;
  - the build cache's record for each stage;
  - the calls made so far on the cache and on the generators, in order.
- **Collaborators.** The outside world is the function values of `Autogen.Tools`:
  - `gen_registry`, `capgen`, `write_init_files` and `read_xml_file`;
  - `MetadataTable.find_scheme_names`;
  - the sequences that `os.walk` and `glob` yield;
  - the cache's verdict on a stored record against the current inputs.
- **Errors.** An exception raised by the code is an `Err` result:
  - `expect` failures;
  - `CamConfigError`;
  - an exception from `capgen`;
  - the unbound `cap_output_file`.
  
  A stage that fails leaves its cache record unchanged.

Where the documentation and the code disagree, the model follows the code:

- **Metadata index.** The doc comment of `_find_metadata_files` says only the first file with a given name is included. The code compares the file name against a dictionary keyed by scheme names, then stores every scheme of the file. So a later directory's entry replaces an earlier one for the same scheme. `MetadataIndex.LaterDirectoryReplacesEarlier` shows this on a two-directory example.
- **Copies before a missing scheme.** Schemes resolved before a missing scheme have already had their source copied when the error is raised. The model keeps those copies: `Autogen.Build.GeneratePhysicsSuites` states the copies made in every outcome.

## Model

| member | source | states |
|---|---|---|
| Paths.JoinFacts | cime_config/cam_autogen.py:51 | `os.path.join(d, f)` ends with `f`, is `f` itself for an absolute `f`, else starts with `d`, with a `/` inserted when `d` does not end in one |
| Paths.JoinDistinct | cime_config/cam_autogen.py:261-301 | two different relative names under the same build root give different directories (`ccpp_physics` and `ccpp` never coincide) |
| Paths.BasenameFacts | cime_config/cam_autogen.py:291 | `os.path.basename` holds no `/`, is a suffix of the path, and a `/` precedes it when it is not the whole path |
| Paths.ContainsIffOccurs | cime_config/cam_autogen.py:153 | `'.git' in root` holds exactly when `.git` occurs at some position of `root` |
| Paths.Split | cime_config/cam_autogen.py:274 | `split(';')` always yields at least one field and no field contains the separator |
| Paths.JoinSplit | cime_config/cam_autogen.py:274 | re-joining the fields of `split(';')` gives back the configured string, so no suite name is lost or invented |
| Paths.SplitJoin | cime_config/cam_autogen.py:274 | splitting a join of separator-free names gives back exactly those names, in order, empty ones included |
| Paths.SplitField | cime_config/cam_autogen.py:274 | a single suite name without `;` splits to itself |
| Paths.SplitPrefix | cime_config/cam_autogen.py:274 | splitting `f;t` yields `f` followed by the fields of `t` |
| Search.FirstIn | cime_config/cam_autogen.py:48-58 | the index found is the first candidate that exists: every earlier candidate is absent, and none is found only when no candidate exists |
| Search.FileLookupFound | cime_config/cam_autogen.py:44-58 | `_find_file` returns `(join(d, filename), d)` for the first search directory `d` holding the file, none earlier holds it, and it returns `(None, None)` exactly when no directory holds it |
| Search.FindFile | cime_config/cam_autogen.py:44-58 | the loop with its early `break` returns the first-match lookup |
| Search.MetadataBase | cime_config/cam_autogen.py:91 | `metadata_path[0:-5]` drops the last five characters, and is empty for a path shorter than five |
| Search.SourceCandidates | cime_config/cam_autogen.py:88-93 | for a path ending in `.meta`, the k-th path tried is that path with `.meta` replaced by the k-th of `.F90`, `.F`, `.f`, `.f90`; every candidate ends with its extension, and no two candidates are equal |
| Search.SchemeSourceFound | cime_config/cam_autogen.py:81-103 | the source returned is the base with the first extension whose file exists; `None` (only a warning) exactly when none exists |
| Search.FindSchemeSource | cime_config/cam_autogen.py:81-103 | the loop over the extensions returns that first existing source |
| Unique.Dedup | cime_config/cam_autogen.py:117-118 | the first-occurrence deduplication has no repeats and holds exactly the elements of its input |
| Unique.MergeAppend | cime_config/cam_autogen.py:129-131 | appending-if-absent over a concatenation is appending over each half in turn |
| Unique.MergeIsDedup | cime_config/cam_autogen.py:288-289 | from a repeat-free list, the append-if-absent idiom computes the first-occurrence deduplication of the whole |
| Unique.MergeDedup | cime_config/cam_autogen.py:128-131 | merging an already deduplicated recursive result adds exactly what merging the raw names adds |
| Unique.MergeElements | cime_config/cam_autogen.py:129-131 | the idiom keeps the list's elements, gains exactly the merged ones, and never creates a repeat |
| Unique.DedupKeepsFirstOccurrenceOrder | cime_config/cam_autogen.py:112 | the deduplicated list orders its elements by their first occurrence in the input |
| Unique.FirstIndexPrefix | cime_config/cam_autogen.py:112 | an element already present before the last position is first found there |
| SuiteDefinition.Lower | cime_config/cam_autogen.py:114 | `tag.lower()` keeps the length, leaves no ASCII capital, turns each capital into the small letter at the same place in the alphabet, and keeps every other character |
| SuiteDefinition.SchemeTagIgnoresCase | cime_config/cam_autogen.py:114-115 | a node is a scheme exactly when each letter of its tag is that of `scheme` in either case |
| SuiteDefinition.SectionsMerge | cime_config/cam_autogen.py:113-137 | the outer loop merges the names of the children it visits, in order |
| SuiteDefinition.SubSectionsMerge | cime_config/cam_autogen.py:121-135 | the inline one-level look-ahead merges the names of the grandchildren, in order |
| SuiteDefinition.SubSectionMerge | cime_config/cam_autogen.py:122-133 | a grandchild scheme is recorded inline, any other grandchild through the recursive call, with the same effect as merging its names |
| SuiteDefinition.FindSchemesIsDedup | cime_config/cam_autogen.py:106-138 | the walk as written equals a uniform pre-order descent that stops at scheme nodes, followed by first-occurrence deduplication |
| SuiteDefinition.FindSchemesWellFormed | cime_config/cam_autogen.py:116-118 | the scheme list has no repeats and no empty or missing name |
| SuiteDefinition.FindSchemesComplete | cime_config/cam_autogen.py:106-138 | a name is listed exactly when it is non-empty and is the text of a scheme node reachable through non-scheme nodes |
| SuiteDefinition.NamesReachable | cime_config/cam_autogen.py:113-133 | the raw pre-order names below a node are exactly the non-empty texts of the scheme nodes reachable through non-scheme nodes |
| SuiteDefinition.SchemeChildrenIgnored | cime_config/cam_autogen.py:115-118 | a scheme node is never descended into: replacing its children leaves the result unchanged |
| MetadataIndex.RecordSchemes | cime_config/cam_autogen.py:161-163 | the loop maps every scheme of the file to (path, source), overwriting earlier entries |
| MetadataIndex.RecordSnoc | cime_config/cam_autogen.py:162-163 | recording one more scheme is one more dictionary assignment |
| MetadataIndex.IndexWalkFiles | cime_config/cam_autogen.py:154-166 | the loop over one walk step's files computes the fold of the file step over those files |
| MetadataIndex.IndexWalkFile | cime_config/cam_autogen.py:154-163 | one file of a walk step is indexed only when it ends in `.meta`, is not already a key and has a Fortran source; its schemes then map to `(path, source)` |
| MetadataIndex.FindMetadataFiles | cime_config/cam_autogen.py:141-171 | the nested loops over directories and walk steps build exactly the index the fold defines |
| MetadataIndex.IndexDirsFacts | cime_config/cam_autogen.py:150-171 | the fold only adds keys, each value comes from an accepted file of some directory, and every scheme of every accepted file is a key when scheme names never end in `.meta` |
| MetadataIndex.MetadataIndexSound | cime_config/cam_autogen.py:151-171 | every value is `(path, src)` with `path` ending in `.meta`, `src == _find_scheme_source(path)` and non-None, the key among `scheme_finder(path)`, and the walk root free of `.git` |
| MetadataIndex.MetadataIndexComplete | cime_config/cam_autogen.py:151-163 | every scheme declared by an accepted metadata file is a key, given that scheme names never end in `.meta` |
| MetadataIndex.SingleFileWalk | cime_config/cam_autogen.py:153-163 | a walk step holding one accepted metadata file records its schemes with that file and its source |
| MetadataIndex.LaterDirectoryReplacesEarlier | cime_config/cam_autogen.py:144-163 | with `kessler.meta` in two source directories, the second directory's entry is the one left, contrary to the doc comment |
| MetadataIndex.RecordReplaces | cime_config/cam_autogen.py:163 | storing a scheme that is already a key replaces its entry |
| Autogen.RunRegistryStops | cime_config/cam_autogen.py:224 | after a non-zero return code no further registry file is processed |
| Autogen.RunRegistrySucceeds | cime_config/cam_autogen.py:215-228 | the registry loop succeeds exactly when every `gen_registry` call returned 0, and then made one call per registry file in order and collected all their registered files in order |
| Autogen.Build.CallGenRegistry | cime_config/cam_autogen.py:216-228 | the loop's calls, collected files and failure are those of the registry run |
| Autogen.Build.GenerateRegistry | cime_config/cam_autogen.py:174-235 | regenerates exactly when `cam_registry` was absent or the cache reports a mismatch; the directory exists afterwards; the cache is queried only when the directory existed; `update_registry` happens only after every return code was 0; the file list is empty when nothing was regenerated |
| Autogen.ResolveSchemesFacts | cime_config/cam_autogen.py:285-298 | the scheme loop of one SDF keeps scheme files and copied sources paired, succeeds exactly when every scheme is in the index, then appends the new metadata files in order, and otherwise stops on a scheme missing from the index |
| Autogen.ResolveSchemesPaired | cime_config/cam_autogen.py:287-292 | the scheme loop keeps every listed scheme file paired with the source copied for it |
| Autogen.ResolveSchemesSucceeds | cime_config/cam_autogen.py:285-296 | the scheme loop raises nothing exactly when every scheme is in the index, and then appends the new metadata files of its schemes, in order |
| Autogen.ResolveSchemesMissing | cime_config/cam_autogen.py:293-296 | the scheme loop fails only with a scheme of that SDF that is missing from the index |
| Autogen.ResolveSchemesStops | cime_config/cam_autogen.py:294-296 | after a missing scheme no further scheme is processed |
| Autogen.ScanSuitesStops | cime_config/cam_autogen.py:276-278 | after a missing SDF or scheme no further suite is processed |
| Autogen.ScanSuitesPaired | cime_config/cam_autogen.py:285-292 | the scheme files have no repeats, and each is paired with the source copied for it, from one index entry, so each metadata file's source is copied exactly once |
| Autogen.ScanSuitesSdfs | cime_config/cam_autogen.py:274-280 | in every outcome the SDFs read are those of a prefix of the `;`-separated suite names, in order, each the first `suite_<name>.xml` on the search path; on success there is one per suite name |
| Autogen.ScanSuitesSchemeFiles | cime_config/cam_autogen.py:283-298 | on success every scheme the SDFs call is in the index and the scheme files are the merge of their metadata files in order |
| Autogen.ScanSuitesFailure | cime_config/cam_autogen.py:274-298 | the suite loop fails only on a suite name with no SDF on the search path or on a scheme absent from the index that one of the SDFs it read calls |
| Autogen.ReferencedMembers | cime_config/cam_autogen.py:281-283 | a scheme is among those the SDFs call exactly when one of the SDFs lists it |
| Autogen.ScanSuitesSucceeds | cime_config/cam_autogen.py:274-298 | the suite loop raises no error exactly when every suite name has an SDF on the search path and every scheme those SDFs call is in the metadata index |
| Autogen.SchemeFilesInFirstReferenceOrder | cime_config/cam_autogen.py:274-299 | on success `scheme_files` is the duplicate-free list of the referenced schemes' metadata files in order of first reference across the suites |
| Autogen.RegisteredPathsListed | cime_config/cam_autogen.py:309-313 | a path is added exactly when some registered file carries it as a non-empty `file_path` |
| Autogen.CollectHostFiles | cime_config/cam_autogen.py:306-313 | `host_files` is the registry directory's `.meta` glob followed by the non-empty `file_path` values in order |
| Autogen.Build.ResolveSdfSchemes | cime_config/cam_autogen.py:285-298 | the scheme loop computes the scheme-resolution spec; the `_update_file` calls it makes are exactly one per newly listed metadata file, in order, with that file's source |
| Autogen.Build.ResolveSdfScheme | cime_config/cam_autogen.py:286-296 | one scheme step: a scheme missing from the index fails, a scheme file seen before changes nothing, a new one is listed and its source copied once |
| Autogen.Build.ScanPhysicsSuite | cime_config/cam_autogen.py:275-298 | one suite step: no SDF on the search path fails, otherwise the SDF is listed and its schemes are resolved |
| Autogen.Build.ScanPhysicsSuites | cime_config/cam_autogen.py:274-299 | the suite loop computes the suite-scan spec; its `_update_file` calls are exactly the scan's sources in order, one per listed metadata file, even when it stops on an error |
| Autogen.Build.EnsureDir | cime_config/cam_autogen.py:261-263 | the directory exists afterwards, whether or not it did before, and no other directory is created |
| Autogen.Build.PrepareScan | cime_config/cam_autogen.py:260-299 | creates `ccpp_physics`, indexes the two source directories and scans the suites; the `_update_file` calls are exactly the scan's sources |
| Autogen.Build.GenerateCaps | cime_config/cam_autogen.py:300-346 | regenerates exactly when `ccpp` was absent or else `force` or a cache mismatch, without consulting the cache when forced; `update_ccpp` happens only after `capgen` returned; not regenerating is the unbound `cap_output_file` error |
| Autogen.Build.GeneratePhysicsSuites | cime_config/cam_autogen.py:238-346 | creates `ccpp_physics`; on a missing SDF or scheme fails with nothing queried or recorded; otherwise passes `capgen` the host files, the SDFs and the scheme files of the scan, and decides and records as above; in every outcome the `_update_file` calls made are exactly the scan's sources, in order, so each metadata file's source is copied once |
| Autogen.Build.GenerateInitRoutines | cime_config/cam_autogen.py:349-410 | regenerates exactly when `phys_init` was absent or else a force flag or the cache reports a mismatch, with the cache not consulted when forced; `update_init_gen` happens only when `write_init_files` returned `""`; the result is always `join(bldroot, "phys_init")` on success |
| Autogen.Build.UpdateFile | cime_config/cam_autogen.py:61-78 | afterwards `bld_dir/filename` exists and the call is logged with its source; nothing else changes |
| Autogen.Build.MakeDirs | cime_config/cam_autogen.py:212 | the directory exists afterwards |
| Autogen.Build.RegistryMismatch | cime_config/cam_autogen.py:208-210 | returns the cache's verdict on the stored registry record and logs the query |
| Autogen.Build.UpdateRegistryRecord | cime_config/cam_autogen.py:231-232 | the registry record becomes the current inputs |
| Autogen.Build.CcppMismatch | cime_config/cam_autogen.py:316-318 | returns the cache's verdict on the stored physics record and logs the query |
| Autogen.Build.UpdateCcppRecord | cime_config/cam_autogen.py:344 | the physics record becomes the current inputs |
| Autogen.Build.InitWriteMismatch | cime_config/cam_autogen.py:389 | returns the cache's verdict on the stored init record and logs the query |
| Autogen.Build.UpdateInitGenRecord | cime_config/cam_autogen.py:407 | the init record becomes the current `write_init_files.py` path |

## Left out

- Module loading: the `CIMEROOT` check, the `sys.path` additions and the dynamic imports with their `ImportError` → `CamConfigError` paths (lines 20-28, 184-197, 246-258, 362-376). This includes the undefined `spin_scripts_path` at line 256.
- Logging and message text. The message at line 278 formats the missing `sdf_path` (always None) instead of the suite name; the model raises `SdfNotFound` without a message. The `logger` arguments and the constant `error_on_no_validate=True` are not part of the modelled `gen_registry` request.
- The generators, `read_xml_file` and `MetadataTable.find_scheme_names` are abstract function values; what they generate is not modelled.
- The build cache's internals. Its mismatch checks are abstract predicates over the stored record and the current inputs, and its updates replace the stored record.
- File-system order: `os.walk` and `glob` are given as sequences. The model does not derive their order from the file system.
- The build directories are assumed to be distinct from the source search directories: creating or copying into them does not change the set `fs` that the searches see.
- `os.makedirs` creating missing parents is not modelled; only the directory itself is recorded.
- Autogen.Build.UpdateFile: records only that the destination exists, not its contents. The branch for an existing destination calls `filecmp.cmp`, but the file never imports `filecmp` (line 72). As written, a copy onto an existing file therefore raises `NameError`, and the model does not reproduce that.
- SuiteDefinition.Lower: lowers ASCII capitals only. Python's `str.lower` also lowers other letters, but no non-ASCII letter lowers to a letter of `scheme`, so the scheme test is unaffected.
