# gosod `TemplateDir`: a Dafny model of the extraction engine

gosod copies a directory tree of "template directories" into a target
directory. Files whose names contain the template marker (`.tmpl`) are
rendered with Go's `text/template`, with the marker cut out of their names.
Every other file is copied byte for byte. Files whose base name the
caller registers are skipped; directories are never skipped. The engine in `internal/templatedir/templatedir.go` runs in four
steps:

1. Make the target directory if it is missing.
2. Walk the source tree and sort every entry into three lists: directories,
   templates and standard files.
3. Make every directory.
4. Render every template, then copy every standard file.

Every step stops at its first error and returns it.

The model is split into these modules:

- `Paths` treats paths as sequences of components. It models
  `filepath.Base`, `filepath.Dir`, `strings.TrimPrefix` on paths, and
  `filepath.Join` of one name.
- `Strings` models `strings.Index` and `strings.ReplaceAll(s, pat, "")`.
  `CutScan` is an independent reference definition of `ReplaceAll`.
- `Errors` lists the errors a run can return.
- `FailFast` holds the one loop shape every pass uses (`ForEach`): items in
  order, stop at the first error, keep what earlier items did.
- `FileSystem` models the target file system as a map from paths to nodes.
  It defines `os.MkdirAll`, `os.Create`, and the `os.IsNotExist(os.Stat(p))`
  test on that map. The only permission
  modelled is whether a directory accepts new entries.
- `TemplateDirectory` holds the engine value, `New`, `IgnoreFilename`, the
  categorising callback, and the source-to-target path mapping.
- `Extraction` holds the three passes, `processTemplateDirFiles` and
  `Extract`. Everything the engine does not control is a `World` parameter:
  - the entries `filepath.Walk` reports;
  - the contents of the source files;
  - which destination files fail to close;
  - the template library (`Renderer`).

  An `Extraction` result records the engine, the final target file system,
  the error returned, and a log of the calls made in order. `Replay` makes
  the logged calls again from the starting file system. Replaying a run's
  own log reproduces its result, which is how fail-fast is stated: the last
  logged call is the one that failed.
- `Scenarios` works one concrete tree through `Extract` from start to
  finish.

The engine's callers do not all match its code; the model follows the code:

- The test files and the example programs call `New` with a file-system
  value, `IgnoreFile`, and `SetTemplateFilters` with a list of markers
  (`gosod_test.go:21,30,62`, `internal/templatedir/templatedir_test.go:21,29-30`,
  `examples/filters/main.go:18,21`). The engine has none of these: `New`
  takes a path string, the method is `IgnoreFilename`, and there is one
  fixed marker, `.tmpl` (`internal/templatedir/templatedir.go:24-43`).
- A target name is the source name with every occurrence of the marker
  cut out. Nothing else renames a file.
- The three lists are never reset. A second `Extract` with the same engine
  lists every entry twice (`TemplateDirectory.WalkingTwiceListsTwice`), so
  every directory, template and file is processed twice.

## Model

| member | source | states |
|---|---|---|
| TemplateDirectory.New | internal/templatedir/templatedir.go:24-37 | fails with a path-does-not-exist error exactly when the path is missing; otherwise the engine has the given root, the `.tmpl` marker, no ignored names and three empty lists |
| TemplateDirectory.IgnoreFilename | internal/templatedir/templatedir.go:41-43 | adds exactly the one name to the ignore set and leaves the root, the marker and the lists as they were |
| TemplateDirectory.IgnoreFilenameIdempotent | internal/templatedir/templatedir.go:41-43 | ignoring the same name twice gives the same engine as ignoring it once; ignoring a name that is already ignored changes nothing |
| TemplateDirectory.Classify | internal/templatedir/templatedir.go:111-137 | an entry is the source root or a subdirectory exactly when it is a directory; a dropped file has an ignored base name |
| TemplateDirectory.CategoriseFile | internal/templatedir/templatedir.go:104-138 | the callback succeeds exactly on a visited entry; on a walk error it returns that error and changes nothing; it keeps the rules, only appends to the lists, and appends at most one path |
| TemplateDirectory.CategoriseFiles | internal/templatedir/templatedir.go:100-102 | the walk keeps the rules and only appends to the three lists, whether it stops early or not |
| TemplateDirectory.ClassifyRules | internal/templatedir/templatedir.go:104-138 | a directory is listed exactly when it is not the source root; a file is dropped exactly when its base name is ignored; any other file is a template exactly when its base name contains the marker, and a standard file otherwise |
| TemplateDirectory.DirectoriesIgnoreNameRules | internal/templatedir/templatedir.go:111-118 | the category of a directory does not depend on the ignore set or the marker |
| TemplateDirectory.IgnoredNameIsDropped | internal/templatedir/templatedir.go:120-127 | after ignoring a name, every file with that base name is dropped |
| TemplateDirectory.IgnoredTemplateIsDropped | internal/templatedir/templatedir.go:123-133 | the ignore test runs before the template test, so an ignored `x.tmpl` is dropped and not rendered |
| TemplateDirectory.MarkerAnywhereMakesTemplate | internal/templatedir/templatedir.go:129-133 | template detection is containment, not a suffix test: `a.tmpl.go` and `foo.tmplx` are templates |
| TemplateDirectory.NoMarkerMakesStandard | internal/templatedir/templatedir.go:135-136 | `main.go` has no marker and is a standard file |
| TemplateDirectory.CategoriseFileAppends | internal/templatedir/templatedir.go:104-138 | one callback on a visited entry succeeds, appends its path to the list of its category and to no other list, and leaves the rules unchanged |
| TemplateDirectory.CategoriseFilesAppends | internal/templatedir/templatedir.go:100-138 | the walk only appends: each list ends up as its old contents followed by the visited paths of its category in walk order, as given by the reference `Select`; the rules do not change |
| TemplateDirectory.CategoriseFilesError | internal/templatedir/templatedir.go:100-109 | categorising succeeds exactly when the walk reports no error; otherwise it returns the first reported error, after calling the callback on every entry up to that error |
| TemplateDirectory.SelectMembership | internal/templatedir/templatedir.go:104-138 | a path is in the reference list of a category exactly when some visited entry with that path falls in that category |
| TemplateDirectory.ClassificationExhaustiveExclusive | internal/templatedir/templatedir.go:104-138 | after a fresh engine walks a tree without error, each visited path is in `dirs`, `templateFiles` or `standardFiles` exactly when its category says so, so it is in exactly one list unless it is the root or an ignored file |
| TemplateDirectory.WalkingTwiceListsTwice | internal/templatedir/templatedir.go:17-19 | the lists are never cleared, so walking the same tree twice with one engine lists every entry twice, in walk order |
| TemplateDirectory.ConvertPathTargetRoundTrip | internal/templatedir/templatedir.go:140-144 | the plain target is the target root followed by exactly the components below the source root; mapping it back from the target root to the source root gives the source path |
| TemplateDirectory.ConvertPathTargetInjective | internal/templatedir/templatedir.go:140-144 | two source paths under the root never share a plain target |
| TemplateDirectory.ConvertPathTarget | internal/templatedir/templatedir.go:140-144 | the result lies at or below the target root; below the source root, the source root followed by what follows the target root gives the path back |
| TemplateDirectory.ConvertKeepsBaseAndDir | internal/templatedir/templatedir.go:140-144 | strictly below the source root, the plain target keeps the base name, and its directory is the plain target of the source's directory |
| TemplateDirectory.TemplateTargetRenamesBase | internal/templatedir/templatedir.go:177-183 | a template keeps the plain target's directory, which is the target of its source directory; only the base name changes, to the old name with every occurrence of the marker cut out, shorter by the marker's length for each cut |
| TemplateDirectory.TemplateTargetWithoutMarker | internal/templatedir/templatedir.go:177-183 | a template whose name lacks the marker goes where a plain file would |
| TemplateDirectory.TemplateNamedLikeMarker | internal/templatedir/templatedir.go:180-183 | a file named exactly like the marker has an empty stripped name, and `filepath.Join` then yields the target of its directory |
| TemplateDirectory.TemplateTargetPlacement | internal/templatedir/templatedir.go:177-183 | a template's target is the target root, an ancestor of it (a stripped name `..` climbs one level), or a path below it; it is never beside the target root |
| TemplateDirectory.MarkerSuffixIsStripped | internal/templatedir/templatedir.go:130-182 | `main.go.tmpl` contains the marker at position 7 and becomes `main.go`; `go.mod` does not contain it |
| TemplateDirectory.MainGoTemplateIndex | internal/templatedir/templatedir.go:130 | `strings.Index("main.go.tmpl", ".tmpl")` is 7 |
| TemplateDirectory.MainGoTemplateStripped | internal/templatedir/templatedir.go:182 | cutting `.tmpl` out of `main.go.tmpl` gives `main.go` |
| TemplateDirectory.GoModHasNoMarker | internal/templatedir/templatedir.go:130 | `go.mod` does not contain `.tmpl` |
| Paths.Base | internal/templatedir/templatedir.go:121 | the base name is the last component, `/` for the root; the directory followed by the base name gives the path back |
| Paths.Dir | internal/templatedir/templatedir.go:180 | the directory is a prefix of the path, one component shorter unless the path is the root, which is its own directory |
| Paths.TrimPrefix | internal/templatedir/templatedir.go:141 | with the root a prefix, the root followed by the result gives the path back; otherwise the path is returned unchanged |
| Paths.JoinNameCleans | internal/templatedir/templatedir.go:183 | `filepath.Join` of a clean directory and a separator-free name is the lexical `Clean` of the two joined (empty names and `.` dropped, `..` removing the last kept name, `/..` staying `/`), and the result is clean again |
| Strings.Index | internal/templatedir/templatedir.go:130 | the answer is -1 or a position at which the pattern fits inside the name |
| Strings.RemoveAll | internal/templatedir/templatedir.go:182 | the result is never longer than the name |
| Strings.RemoveAllOfItself | internal/templatedir/templatedir.go:180-183 | cutting a non-empty marker out of a name equal to it leaves the empty name |
| Strings.IndexIsLeftmost | internal/templatedir/templatedir.go:130 | `strings.Index` returns the leftmost occurrence, and -1 exactly when there is none |
| Strings.IndexUnique | internal/templatedir/templatedir.go:130 | any position that is an occurrence with no occurrence before it, or -1 when there is none at all, is the answer of `strings.Index` |
| Strings.IndexFindsIff | internal/templatedir/templatedir.go:130 | `strings.Index(name, marker) > -1` is exactly substring containment |
| Strings.RemoveAllLength | internal/templatedir/templatedir.go:182 | `ReplaceAll(name, marker, "")` is shorter than the name by the marker's length times the number of cuts |
| Strings.RemoveAllWithoutOccurrence | internal/templatedir/templatedir.go:182 | a name without the marker is left unchanged, with nothing cut |
| Strings.CountPositiveIff | internal/templatedir/templatedir.go:182 | with a non-empty marker, something is cut exactly when the marker occurs, and that is exactly when the name gets shorter |
| Strings.RemoveAllIsCutScan | internal/templatedir/templatedir.go:182 | Go's find-leftmost-and-cut loop agrees on every input with the position-by-position reference `CutScan` |
| Strings.StrippedNameMayStillContainFilter | internal/templatedir/templatedir.go:182 | cutting happens once: `.tm.tmplpl` becomes `.tmpl`, which still contains the marker |
| FailFast.ForEach | internal/templatedir/templatedir.go:149-160 | a loop starts on at most all its items; it starts on all of them when it succeeds, and on at least one when it fails |
| FailFast.ForEachStopsAtFirstError | internal/templatedir/templatedir.go:207-214 | when a loop fails, every item before the last one it started on went through without error, and the result is exactly what the step on that last item returned |
| FailFast.ForEachAppend | internal/templatedir/templatedir.go:168-199 | a loop over `a + b` runs over `a` and, only if that succeeds, continues over `b` from the state `a` left |
| FailFast.ForEachAttempted | internal/templatedir/templatedir.go:149-160 | running a loop again over only the items it started on gives the same result |
| FailFast.ForEachAlike | internal/templatedir/templatedir.go:149-160 | two loops whose steps agree item by item give the same result |
| FileSystem.StatNotExistIff | internal/templatedir/templatedir.go:54-55 | `os.IsNotExist(os.Stat(p))` holds exactly when the path is missing and every ancestor that exists is a directory; an existing file on the way gives "not a directory" instead |
| FileSystem.CreateBelowFile | internal/templatedir/templatedir.go:225 | creating anything below an existing file fails with not-a-directory and changes nothing |
| FileSystem.StatBesideAndBelow | internal/templatedir/templatedir.go:54-55 | a name missing from an existing directory does not exist; a path below an existing file is not reported as missing |
| FileSystem.MkdirAll | internal/templatedir/templatedir.go:154 | `os.MkdirAll` only adds directories, and only on the path and its ancestors; on success the path is a directory, and an existing directory is left untouched; every error is not-a-directory, no-such-directory or permission-denied |
| FileSystem.Create | internal/templatedir/templatedir.go:186 | `os.Create` succeeds exactly on an existing file or on a new name in a directory that accepts entries, and then leaves an empty file there; a failed call changes nothing; a directory gives an is-a-directory error; with the parent missing, the error is not-a-directory when a file stands on the way and no-such-directory otherwise |
| FileSystem.MkdirAllIdempotent | internal/templatedir/templatedir.go:154-159 | making a directory that a previous `MkdirAll` made succeeds and changes nothing |
| FileSystem.MkdirAllWellFormed | internal/templatedir/templatedir.go:154 | `MkdirAll` keeps the tree a tree, whether it succeeds or not |
| FileSystem.CreateWellFormed | internal/templatedir/templatedir.go:186 | `Create` keeps the tree a tree |
| FileSystem.WritesAtPersists | internal/templatedir/templatedir.go:225 | a single create-and-write removes no node, changes no directory, keeps files files, and keeps the tree a tree |
| FileSystem.AncestorsAreDirs | internal/templatedir/templatedir.go:154 | in a tree, every ancestor of an existing node is a directory |
| FileSystem.MkdirAllUnderReadOnly | internal/templatedir/templatedir_test.go:62-68 | below an empty directory that accepts no entries, `MkdirAll` fails and changes nothing |
| FileSystem.CreateNearReadOnly | internal/templatedir/templatedir_test.go:62-68 | at, above, or below an empty directory that accepts no entries, `Create` fails and changes nothing |
| Extraction.Extract | internal/templatedir/templatedir.go:46-70 | keeps the rules; removes nothing and changes no existing directory; when `os.Stat` reports the target missing, the first logged call makes it; a failure always logged a call |
| Extraction.ProcessTemplateDirFiles | internal/templatedir/templatedir.go:72-98 | keeps the rules; removes nothing and changes no existing directory; on success it logged one call per walk entry and per listed directory, template and file; a failure always logged a call |
| Extraction.CreateDirectories | internal/templatedir/templatedir.go:146-163 | removes nothing and changes no existing directory; on success the target of every listed directory is a directory |
| Extraction.ProcessTemplates | internal/templatedir/templatedir.go:165-202 | removes nothing and changes no existing directory; on success every template read, parsed and executed cleanly, and its target is a file |
| Extraction.CopyFiles | internal/templatedir/templatedir.go:204-217 | removes nothing and changes no existing directory; on success, with the files below the source root, every file read through and its target holds exactly its bytes |
| Extraction.RenderTemplate | internal/templatedir/templatedir.go:168-199 | one template writes at most its stripped-name target; it succeeds exactly when the source reads, parses, the target can be created and execution finishes, and then the target holds the output; an execution error leaves the partial output in the created file |
| Extraction.CopyFile | internal/templatedir/templatedir.go:219-234 | one copy writes at most its destination; it succeeds exactly when the source reads, the destination can be created and it closes cleanly; the destination then holds the source's bytes, also when the close fails; a missing source changes nothing; a close error names the destination |
| Extraction.DirStepKeeps | internal/templatedir/templatedir.go:149-160 | each directory step removes nothing and keeps the tree a tree |
| Extraction.WriteStepsWriteAtTarget | internal/templatedir/templatedir.go:177-210 | a template step writes at most its template target, and a copy step at most its plain target |
| Extraction.WriteStepsKeep | internal/templatedir/templatedir.go:165-217 | template and copy steps remove nothing and keep the tree a tree, whether they fail or not |
| Extraction.CopyStepKeeps | internal/templatedir/templatedir.go:204-234 | a copy step removes nothing and keeps the tree a tree, whether it fails or not |
| Extraction.PassKeeps | internal/templatedir/templatedir.go:146-217 | a whole pass removes nothing and keeps the tree a tree, whether it stops early or not |
| Extraction.DirectoriesMade | internal/templatedir/templatedir.go:146-163 | when the directory pass succeeds, the target of every listed directory is a directory |
| Extraction.FilesCopied | internal/templatedir/templatedir.go:204-234 | when the copy pass succeeds, every source read through and its plain target holds exactly its bytes |
| Extraction.PassTouchesOnlyKeys | internal/templatedir/templatedir.go:204-217 | a pass whose steps write only at their items' targets leaves every other path exactly as it was |
| Extraction.TemplatesRendered | internal/templatedir/templatedir.go:165-202 | when the template pass succeeds, every template rendered cleanly and its target is a file; the last write wins, so a template whose target no later template shares holds its output |
| Extraction.TemplatesIgnoreCloseFaults | internal/templatedir/templatedir.go:191-197 | close failures have no effect on the template pass, because it drops those errors |
| Extraction.ProcessSuccessShape | internal/templatedir/templatedir.go:72-98 | a successful `processTemplateDirFiles` ran the whole walk and then all three passes over the whole lists, and logged exactly those calls |
| Extraction.ExtractSuccessShape | internal/templatedir/templatedir.go:46-70 | a successful `Extract` made the target if `os.Stat` reported it missing, then processed the tree without error; its log is the target's creation, if any, followed by the processing's log |
| Extraction.ExtractRunsEveryStep | internal/templatedir/templatedir.go:54-98 | a successful `Extract` ran every step in order without error: target creation if needed, the whole walk, every directory, every template, every standard file |
| Extraction.ExtractPersists | internal/templatedir/templatedir.go:46-234 | whatever the outcome, `Extract` removes nothing from the target file system, changes no existing directory, keeps files files and keeps a tree a tree |
| Extraction.ExtractMakesDirectories | internal/templatedir/templatedir.go:54-61 | after a successful `Extract`, the target and the target of every listed directory are directories |
| Extraction.CategorisedBelow | internal/templatedir/templatedir.go:100-138 | a walk that stays below the source root lists only paths strictly below it |
| Extraction.ExtractCopiesFiles | internal/templatedir/templatedir.go:204-234 | after a successful `Extract`, every standard file read through and its plain target holds exactly its bytes |
| Extraction.ExtractRendersTemplates | internal/templatedir/templatedir.go:165-217 | after a successful `Extract`, every template rendered cleanly and its target is a file; it holds the rendered output unless a later template or a standard file has the same target |
| Extraction.TraceOrdered | internal/templatedir/templatedir.go:72-98 | a log of walk entries, then directories, then templates, then copies is in pass order |
| Extraction.ProcessLog | internal/templatedir/templatedir.go:72-98 | `processTemplateDirFiles` logs its calls in pass order: no directory before the walk ends, no template before every directory, no copy before every template |
| Extraction.ExtractLog | internal/templatedir/templatedir.go:54-67 | `Extract`'s log is in pass order, and the target is made first, and only when `os.Stat` reports it missing |
| Extraction.WalkReplays | internal/templatedir/templatedir.go:100-109 | the walk entries the callback was given, made again, write nothing and stop with the callback's own result |
| Extraction.DirsReplay | internal/templatedir/templatedir.go:149-160 | making the logged directories again is the directory pass over them |
| Extraction.RendersReplay | internal/templatedir/templatedir.go:168-199 | rendering the logged templates again is the template pass over them |
| Extraction.CopiesReplay | internal/templatedir/templatedir.go:207-214 | copying the logged files again is the copy pass over them |
| Extraction.ReplayAppend | internal/templatedir/templatedir.go:72-98 | when one log goes through, a log extended by more calls continues from where the first left off |
| Extraction.WritesReplay | internal/templatedir/templatedir.go:86-95 | the logged template and copy calls, made again, stop where those passes stopped |
| Extraction.HeadReplays | internal/templatedir/templatedir.go:74-83 | the walk and the logged directories, made again from the start, stop where the directory pass stopped |
| Extraction.ProcessReplays | internal/templatedir/templatedir.go:72-98 | `processTemplateDirFiles` made exactly the calls it logged: making them again in order from its starting file system gives its final file system and error, stopping at the same call |
| Extraction.RootReplays | internal/templatedir/templatedir.go:55-60 | making the missing target again is the one `os.MkdirAll` call |
| Extraction.RootedShape | internal/templatedir/templatedir.go:55-67 | when the missing target is made, `Extract` is `processTemplateDirFiles` on the result, with that `MkdirAll` logged first |
| Extraction.ExtractReplays | internal/templatedir/templatedir.go:46-70 | `Extract` made exactly the calls it logged: making them again in order from its starting file system gives its final file system and error, stopping at the same call |
| Extraction.Blame | internal/templatedir/templatedir.go:72-98 | in a failed run that replays to its own result, every call before the last goes through, leaving some file system, and the last call made on that file system returns exactly the final file system and error |
| Extraction.ProcessBlame | internal/templatedir/templatedir.go:72-98 | fail-fast: when `processTemplateDirFiles` fails, every logged call but the last goes through when made again from its starting file system, and the last, made on the file system that leaves, returns exactly the final file system and error |
| Extraction.ExtractBlame | internal/templatedir/templatedir.go:46-70 | fail-fast: when `Extract` fails, every logged call but the last goes through when made again from the starting file system, and the last, made on the file system that leaves, returns exactly the final file system and error; by the log's order, no later pass ran |
| Extraction.AnsweredExecError | internal/templatedir/templatedir.go:191-195 | when the last logged call, made on some file system, returns the final file system and an execution error, that call rendered the template; its source read and parsed, execution failed with that reason, and the target holds the partial output |
| Extraction.ExecErrorLeavesPartialOutput | internal/templatedir/templatedir.go:186-195 | when `Extract` fails executing a template, that template was the last call, its source read and parsed, execution failed with that reason, and the created target stays behind with the partial output |
| Extraction.AnsweredCloseError | internal/templatedir/templatedir.go:229-233 | when the last logged call, made on some file system, returns the final file system and a close error, that call copied a readable file onto that destination, which holds all of the source's bytes |
| Extraction.CloseErrorAfterFullCopy | internal/templatedir/templatedir.go:219-233 | when `Extract` fails closing a destination, the last call copied a readable file there, and the destination holds all of its bytes |
| Extraction.DirPassReadOnly | internal/templatedir/templatedir_test.go:62-68 | below an empty read-only target, the directory pass writes nothing and succeeds only with no directories |
| Extraction.TemplatePassReadOnly | internal/templatedir/templatedir_test.go:62-68 | into an empty read-only target, the template pass writes nothing and succeeds only with no templates |
| Extraction.RenderIntoReadOnly | internal/templatedir/templatedir_test.go:62-68 | a template below the source root cannot be rendered into an empty read-only target, and the attempt writes nothing |
| Extraction.CopyPassReadOnly | internal/templatedir/templatedir_test.go:62-68 | into an empty read-only target, the copy pass writes nothing and succeeds only with no standard files |
| Extraction.ReadOnlyTargetUntouched | internal/templatedir/templatedir_test.go:62-68 | extracting into an existing, empty, read-only target changes nothing there; it succeeds only when the walk goes through and finds nothing to make, render or copy |
| Scenarios.SampleClassified | internal/templatedir/templatedir.go:111-137 | in the sample tree the root is skipped, `.DS_Store` is dropped, `cmd` is a directory, `main.go.tmpl` a template and `go.mod` a standard file |
| Scenarios.SampleCategorised | internal/templatedir/templatedir.go:100-138 | walking `/src` with `cmd/main.go.tmpl`, `go.mod` and an ignored `.DS_Store` lists `cmd` as a directory, `main.go.tmpl` as a template and `go.mod` as a standard file |
| Scenarios.SampleExtraction | internal/templatedir/templatedir.go:46-234 | extracting that tree into a missing `/out` succeeds and leaves exactly `/out`, `/out/cmd`, the rendered `/out/cmd/main.go` and a verbatim `/out/go.mod` |
| Scenarios.SampleProcess | internal/templatedir/templatedir.go:72-98 | processing the sample tree into the freshly made `/out` succeeds and leaves `/out/cmd`, the rendered `main.go` and a verbatim `go.mod` |
| Scenarios.BelowFileLists | internal/templatedir/templatedir.go:100-138 | walking `/src` holding one plain file `x` lists it as the one standard file and nothing else |
| Scenarios.TargetBelowFile | internal/templatedir/templatedir.go:54-67 | a target below an existing file is "not a directory", not missing: `Extract` does not try to make it and goes straight on to the walk |
| Scenarios.CopyBelowFile | internal/templatedir/templatedir.go:46-70 | with the target below a file and one standard file, the target is not made, and copying fails with not-a-directory on the destination and writes nothing |

## Left out

- `filepath.Abs` (line 49): the target is already an absolute path in the model, so this step cannot fail.
- `os.Stat` errors other than "does not exist" and "not a directory" (lines 27 and 55), such as permission or I/O errors: the model's file system has no search permissions and no I/O faults, so these cannot arise.
- `New`'s `os.Stat` call: its answer is the `pathExists` parameter.
- The `syscall.EEXIST` comparison (line 157): `os.MkdirAll` returns nil for an existing directory and a `*PathError` otherwise. It never returns the bare `EEXIST` value, so every `MkdirAll` error is returned, and the model has no separate branch for it.
- Permission bits: mode `0755` and the owner/group/other split are reduced to whether a directory accepts new entries. New directories and files are always writable.
- `filepath.Walk` internals: the walk is an input sequence of entries, in the order Walk reports them. A failing entry stands for the I/O error Walk passes to the callback.
- `text/template`: parsing and execution are the `Renderer` parameter. Execution reports what it wrote before stopping. Template reads are folded into `ParseFiles` (line 171).
- Close errors: a template's close error is dropped (lines 193 and 197), which the model follows. The source file's deferred `Close` in `copyFile` (line 224) is not modelled, because its error is discarded.
- A source tree that overlaps its target: the walk is fixed before any pass runs, so files the passes write are never walked. Source contents are a fixed map, so a copy onto its own source cannot show what Go does there: `os.Create` empties the file before `io.Copy` reads it (lines 225-229).
- `gosod.go`, a one-line wrapper over `New`, and the `examples/` programs, which only do I/O.
- Concurrency: the engine is not safe for concurrent use, and the model is sequential.
- Extraction.ExtractRendersTemplates: the template-content clause assumes that no later template and no standard file shares the template's target. When one does, the later write wins, and `Extract` reports no error for it.
- Extraction.ExtractCopiesFiles: stated for walks whose visited paths stay below the source root (`WalkBelow`), as `filepath.Walk` guarantees for a clean source root.
- TemplateDirectory.ConvertPathTarget: stated for clean absolute source roots only. For a root such as `/a//src`, `./tpl` or `/src/.`, the paths Walk reports no longer start with the root's text, so `strings.TrimPrefix` leaves them whole; components cannot express that.
- TemplateDirectory.ConvertPathTarget: a path not below the source root is appended to the target root whole. Go's `strings.TrimPrefix` is textual, so a sibling such as `/srcfoo/x` of the root `/src` becomes `/out/foo/x` in Go. Walk of a clean root never reports such a path, so no run reaches this case.
