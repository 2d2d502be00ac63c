/**
  The `TemplateDir` engine value, its constructor and configuration, the
  categorising callback that `filepath.Walk` drives, and the mapping of a
  source path to its target path.
 */
module TemplateDirectory {
  import opened Wrappers
  import opened Strings
  import opened Paths
  import opened Errors
  import opened FailFast

  /** The marker a fresh engine looks for in file names. */
  const DefaultTemplateFilter: string := ".tmpl"

  /**
    The engine: the source root, the template marker, the three lists the
    walk fills (only ever appended to, never cleared) and the ignored
    base names.
   */
  datatype TemplateDir = TemplateDir(
    path: Path,
    templateFilter: string,
    dirs: seq<Path>,
    standardFiles: seq<Path>,
    templateFiles: seq<Path>,
    ignoredFiles: set<string>)

  /** One call of the walk callback: a visited entry, or the I/O error the walk hit at a path. */
  datatype WalkEntry = Visit(path: Path, isDir: bool) | WalkFailed(path: Path, reason: string)

  /** Where `categoriseFile` puts a visited entry. */
  datatype Category = SourceRoot | Subdirectory | Ignored | Template | Standard

  /**
    `New(path)`: fails when `os.Stat` says the path does not exist (the
    answer is the `pathExists` parameter); otherwise a fresh engine with the
    default marker, nothing ignored and empty lists.
   */
  function New(path: Path, pathExists: bool): (r: Result<TemplateDir, Error>)
    ensures r.Failure? <==> !pathExists
    ensures r.Failure? ==> r.error == PathDoesNotExist(path)
    ensures r.Success? ==> r.value.path == path && r.value.templateFilter == ".tmpl"
    ensures r.Success? ==> r.value.ignoredFiles == {}
    ensures r.Success? ==> r.value.dirs == [] && r.value.standardFiles == [] && r.value.templateFiles == []
  {
    if !pathExists then
      Failure(PathDoesNotExist(path))
    else
      Success(TemplateDir(path, DefaultTemplateFilter, [], [], [], {}))
  }

  /** `IgnoreFilename`: add one base name to the ignore set; nothing else changes. */
  function IgnoreFilename(t: TemplateDir, filename: string): (r: TemplateDir)
    ensures r.ignoredFiles == t.ignoredFiles + {filename}
    ensures r.(ignoredFiles := t.ignoredFiles) == t
  {
    t.(ignoredFiles := t.ignoredFiles + {filename})
  }

  /** Ignoring a name that is already ignored changes nothing, so `IgnoreFilename` is idempotent. */
  lemma IgnoreFilenameIdempotent(t: TemplateDir, filename: string)
    ensures IgnoreFilename(IgnoreFilename(t, filename), filename) == IgnoreFilename(t, filename)
    ensures filename in t.ignoredFiles ==> IgnoreFilename(t, filename) == t
  {
  }

  /** The decision `categoriseFile` takes for one visited entry. */
  function Classify(t: TemplateDir, path: Path, isDir: bool): (r: Category)
    ensures r == SourceRoot || r == Subdirectory <==> isDir
    ensures r == Ignored ==> Base(path) in t.ignoredFiles
  {
    if isDir then
      if path != t.path then Subdirectory else SourceRoot
    else if Base(path) in t.ignoredFiles then
      Ignored
    else if Index(Base(path), t.templateFilter) > -1 then
      Template
    else
      Standard
  }

  /**
    The classification rules: a directory is a directory whatever its name
    (only the source root is skipped); a file is dropped exactly when its
    base name is ignored, which is checked before anything else; any other
    file is a template exactly when its base name contains the marker
    anywhere, and a standard file otherwise.
   */
  lemma ClassifyRules(t: TemplateDir, path: Path, isDir: bool)
    ensures isDir ==> (Classify(t, path, isDir) == Subdirectory <==> path != t.path)
    ensures isDir ==> (Classify(t, path, isDir) == SourceRoot <==> path == t.path)
    ensures !isDir ==> (Classify(t, path, isDir) == Ignored <==> Base(path) in t.ignoredFiles)
    ensures !isDir && Base(path) !in t.ignoredFiles ==>
              (Classify(t, path, isDir) == Template <==> Contains(Base(path), t.templateFilter))
    ensures !isDir && Base(path) !in t.ignoredFiles ==>
              (Classify(t, path, isDir) == Standard <==> !Contains(Base(path), t.templateFilter))
  {
    IndexFindsIff(Base(path), t.templateFilter);
  }

  /** A directory's category depends neither on the ignore set nor on the marker. */
  lemma DirectoriesIgnoreNameRules(t: TemplateDir, path: Path, ignored: set<string>, filter: string)
    ensures Classify(t, path, true) == Classify(t.(ignoredFiles := ignored, templateFilter := filter), path, true)
  {
  }

  /** After `IgnoreFilename(t, name)`, every file called `name` is dropped, even one that carries the marker. */
  lemma IgnoredNameIsDropped(t: TemplateDir, name: string, path: Path)
    requires Base(path) == name
    ensures Classify(IgnoreFilename(t, name), path, false) == Ignored
  {
  }

  /** Detection is containment, not a suffix test: a marker in the middle or followed by more text still makes a template. */
  lemma MarkerAnywhereMakesTemplate(root: Path)
    ensures var t := TemplateDir(root, ".tmpl", [], [], [], {});
            && Classify(t, root + ["a.tmpl.go"], false) == Template
            && Classify(t, root + ["foo.tmplx"], false) == Template
  {
    assert OccursAt("a.tmpl.go", ".tmpl", 1) by { assert "a.tmpl.go"[1..6] == ".tmpl"; }
    IndexFindsIff("a.tmpl.go", ".tmpl");
    assert OccursAt("foo.tmplx", ".tmpl", 3) by { assert "foo.tmplx"[3..8] == ".tmpl"; }
    IndexFindsIff("foo.tmplx", ".tmpl");
  }

  /** A name without the marker is a standard file. */
  lemma NoMarkerMakesStandard(root: Path)
    ensures Classify(TemplateDir(root, ".tmpl", [], [], [], {}), root + ["main.go"], false) == Standard
  {
    var t := TemplateDir(root, ".tmpl", [], [], [], {});
    var name := "main.go";
    ClassifyRules(t, root + [name], false);
    forall i | 0 <= i <= |name|
      ensures !OccursAt(name, ".tmpl", i)
    {
      if i + 5 <= |name| {
        assert name[i] != '.';
      }
    }
  }

  /** The ignore test comes first: an ignored `x.tmpl` is dropped, not rendered. */
  lemma IgnoredTemplateIsDropped(root: Path)
    ensures Classify(IgnoreFilename(TemplateDir(root, ".tmpl", [], [], [], {}), "x.tmpl"), root + ["x.tmpl"], false) == Ignored
  {
  }

  /**
    `categoriseFile`: a walk error is returned as is; a visited entry is
    appended to the list its category names, or dropped.
   */
  function CategoriseFile(e: WalkEntry, t: TemplateDir): (r: Effect<TemplateDir>)
    ensures r.Ok() <==> e.Visit?
    ensures !r.Ok() ==> r == Effect(t, Some(WalkError(e.path, e.reason)))
    ensures Grows(t, r.state)
    ensures |r.state.dirs| + |r.state.templateFiles| + |r.state.standardFiles|
              <= |t.dirs| + |t.templateFiles| + |t.standardFiles| + 1
  {
    match e
    case WalkFailed(p, why) =>
      Effect(t, Some(WalkError(p, why)))
    case Visit(p, isDir) =>
      match Classify(t, p, isDir)
      case Subdirectory => Effect(t.(dirs := t.dirs + [p]), None)
      case Template => Effect(t.(templateFiles := t.templateFiles + [p]), None)
      case Standard => Effect(t.(standardFiles := t.standardFiles + [p]), None)
      case _ => Effect(t, None)
  }

  /** `categoriseFiles`: `filepath.Walk` calling `categoriseFile` on each entry in walk order until one returns an error. */
  function CategoriseFiles(t: TemplateDir, walk: seq<WalkEntry>): (r: Pass<TemplateDir>)
    ensures Grows(t, r.state)
  {
    ForEachKeeps(walk, t, CategoriseFile, GrowsStep());
    ForEach(walk, t, CategoriseFile)
  }

  /** `u` classifies like `t` and its lists extend `t`'s: what categorising can do to an engine. */
  predicate Grows(t: TemplateDir, u: TemplateDir) {
    && SameRules(t, u)
    && t.dirs <= u.dirs && t.templateFiles <= u.templateFiles && t.standardFiles <= u.standardFiles
  }

  function GrowsStep(): (TemplateDir, TemplateDir) -> bool {
    (t: TemplateDir, u: TemplateDir) => Grows(t, u)
  }

  /** The entries the callback gets to see: the walk up to, not including, its first error. */
  function Visited(walk: seq<WalkEntry>): (r: seq<WalkEntry>)
    ensures r <= walk
    ensures forall i :: 0 <= i < |r| ==> r[i].Visit?
    ensures |r| < |walk| ==> walk[|r|].WalkFailed?
  {
    if |walk| == 0 || walk[0].WalkFailed? then [] else [walk[0]] + Visited(walk[1..])
  }

  /** The path of `e` as a one-element list when it is a visited entry of category `c`, else nothing. */
  function Pick(t: TemplateDir, e: WalkEntry, c: Category): seq<Path> {
    if e.Visit? && Classify(t, e.path, e.isDir) == c then [e.path] else []
  }

  /** Reference for the lists: the paths of the visited entries of category `c`, in walk order. */
  function Select(t: TemplateDir, entries: seq<WalkEntry>, c: Category): seq<Path> {
    if |entries| == 0 then [] else Pick(t, entries[0], c) + Select(t, entries[1..], c)
  }

  /** One callback on a visited entry appends its path to the list of its category and to no other. */
  lemma CategoriseFileAppends(e: WalkEntry, t: TemplateDir)
    requires e.Visit?
    ensures var u := CategoriseFile(e, t);
            && u.Ok()
            && u.state.path == t.path && u.state.templateFilter == t.templateFilter
            && u.state.ignoredFiles == t.ignoredFiles
            && u.state.dirs == t.dirs + Pick(t, e, Subdirectory)
            && u.state.templateFiles == t.templateFiles + Pick(t, e, Template)
            && u.state.standardFiles == t.standardFiles + Pick(t, e, Standard)
  {
  }

  /** Two engines that classify alike: same root, same marker, same ignore set. */
  predicate SameRules(t: TemplateDir, u: TemplateDir) {
    t.path == u.path && t.templateFilter == u.templateFilter && t.ignoredFiles == u.ignoredFiles
  }

  lemma {:induction false} SelectSameRules(t: TemplateDir, u: TemplateDir, entries: seq<WalkEntry>, c: Category)
    requires SameRules(t, u)
    ensures Select(t, entries, c) == Select(u, entries, c)
    decreases |entries|
  {
    if |entries| > 0 {
      SelectSameRules(t, u, entries[1..], c);
    }
  }

  /**
    The walk only appends: each list ends up as its old contents followed by
    the visited entries of its category in walk order, and the rules do not
    change.
   */
  lemma {:induction false} CategoriseFilesAppends(t: TemplateDir, walk: seq<WalkEntry>)
    ensures var r := CategoriseFiles(t, walk);
            && SameRules(t, r.state)
            && r.state.dirs == t.dirs + Select(t, Visited(walk), Subdirectory)
            && r.state.templateFiles == t.templateFiles + Select(t, Visited(walk), Template)
            && r.state.standardFiles == t.standardFiles + Select(t, Visited(walk), Standard)
    decreases |walk|
  {
    if |walk| > 0 && walk[0].Visit? {
      CategoriseFileAppends(walk[0], t);
      var u := CategoriseFile(walk[0], t).state;
      var rest := walk[1..];
      assert CategoriseFiles(t, walk).state == CategoriseFiles(u, rest).state;
      CategoriseFilesAppends(u, rest);
      assert Visited(walk) == [walk[0]] + Visited(rest);
      SelectStep(t, u, walk, Subdirectory);
      SelectStep(t, u, walk, Template);
      SelectStep(t, u, walk, Standard);
    }
  }

  /** `Select` over the visited walk, split into its first entry and the rest, re-bracketed. */
  lemma SelectStep(t: TemplateDir, u: TemplateDir, walk: seq<WalkEntry>, c: Category)
    requires SameRules(t, u) && |walk| > 0 && walk[0].Visit?
    ensures forall front: seq<Path> :: front + Select(t, Visited(walk), c)
              == (front + Pick(t, walk[0], c)) + Select(u, Visited(walk[1..]), c)
  {
    var rest := walk[1..];
    assert Visited(walk) == [walk[0]] + Visited(rest);
    assert Visited(walk)[1..] == Visited(rest);
    SelectSameRules(t, u, Visited(rest), c);
    assert Select(t, Visited(walk), c) == Pick(t, walk[0], c) + Select(u, Visited(rest), c);
    forall front: seq<Path>
      ensures front + Select(t, Visited(walk), c) == (front + Pick(t, walk[0], c)) + Select(u, Visited(rest), c)
    {
      assert front + (Pick(t, walk[0], c) + Select(u, Visited(rest), c))
          == (front + Pick(t, walk[0], c)) + Select(u, Visited(rest), c);
    }
  }

  /** The walk's first error, if any, is what categorising returns; with none it succeeds. */
  lemma {:induction false} CategoriseFilesError(t: TemplateDir, walk: seq<WalkEntry>)
    ensures var r := CategoriseFiles(t, walk);
            && (r.Ok() <==> Visited(walk) == walk)
            && (!r.Ok() ==> r.err == Some(WalkError(walk[|Visited(walk)|].path, walk[|Visited(walk)|].reason)))
            && r.attempted == if r.Ok() then |walk| else |Visited(walk)| + 1
    decreases |walk|
  {
    if |walk| > 0 && walk[0].Visit? {
      var u := CategoriseFile(walk[0], t).state;
      var rest := walk[1..];
      assert CategoriseFiles(t, walk).state == CategoriseFiles(u, rest).state;
      CategoriseFilesError(u, rest);
      assert Visited(walk) == [walk[0]] + Visited(rest);
      if Visited(rest) == rest {
        assert walk == [walk[0]] + rest;
      }
    }
  }

  /** A path is selected for `c` exactly when some visited entry with that path falls in `c`. */
  lemma {:induction false} SelectMembership(t: TemplateDir, entries: seq<WalkEntry>, c: Category, p: Path)
    ensures p in Select(t, entries, c) <==>
              exists i :: 0 <= i < |entries| && entries[i].Visit? && entries[i].path == p
                          && Classify(t, p, entries[i].isDir) == c
    decreases |entries|
  {
    if |entries| > 0 {
      SelectMembership(t, entries[1..], c, p);
      if p in Select(t, entries[1..], c) {
        var i :| 0 <= i < |entries[1..]| && entries[1..][i].Visit? && entries[1..][i].path == p
                 && Classify(t, p, entries[1..][i].isDir) == c;
        assert entries[i + 1] == entries[1..][i];
      }
      if exists i :: 0 <= i < |entries| && entries[i].Visit? && entries[i].path == p
                     && Classify(t, p, entries[i].isDir) == c {
        var i :| 0 <= i < |entries| && entries[i].Visit? && entries[i].path == p
                 && Classify(t, p, entries[i].isDir) == c;
        if i > 0 {
          assert entries[1..][i - 1] == entries[i];
        }
      }
    }
  }

  /** No two visited entries share a path, as with a real directory walk. */
  predicate UniquePaths(entries: seq<WalkEntry>) {
    forall i, j :: 0 <= i < |entries| && 0 <= j < |entries| && entries[i].path == entries[j].path ==> i == j
  }

  /**
    Exhaustive and exclusive classification: after a fresh engine walks a
    tree without error, every visited entry's path is in `dirs`,
    `templateFiles` or `standardFiles` exactly when its category says so,
    so it is in exactly one of them unless it is the root or an ignored file.
   */
  lemma ClassificationExhaustiveExclusive(t: TemplateDir, walk: seq<WalkEntry>, i: nat)
    requires t.dirs == [] && t.templateFiles == [] && t.standardFiles == []
    requires Visited(walk) == walk && UniquePaths(walk)
    requires i < |walk|
    ensures var r := CategoriseFiles(t, walk).state;
            var c := Classify(t, walk[i].path, walk[i].isDir);
            && (walk[i].path in r.dirs <==> c == Subdirectory)
            && (walk[i].path in r.templateFiles <==> c == Template)
            && (walk[i].path in r.standardFiles <==> c == Standard)
  {
    CategoriseFilesAppends(t, walk);
    var p := walk[i].path;
    SelectMembership(t, walk, Subdirectory, p);
    SelectMembership(t, walk, Template, p);
    SelectMembership(t, walk, Standard, p);
  }

  /**
    Because the lists are never cleared, walking the same tree a second time
    with the same engine lists every entry twice.
   */
  lemma WalkingTwiceListsTwice(t: TemplateDir, walk: seq<WalkEntry>)
    requires Visited(walk) == walk
    ensures var once := CategoriseFiles(t, walk).state;
            var twice := CategoriseFiles(once, walk).state;
            && twice.dirs == t.dirs + Select(t, walk, Subdirectory) + Select(t, walk, Subdirectory)
            && twice.templateFiles == t.templateFiles + Select(t, walk, Template) + Select(t, walk, Template)
            && twice.standardFiles == t.standardFiles + Select(t, walk, Standard) + Select(t, walk, Standard)
  {
    var once := CategoriseFiles(t, walk).state;
    CategoriseFilesAppends(t, walk);
    CategoriseFilesAppends(once, walk);
    SelectSameRules(t, once, walk, Subdirectory);
    SelectSameRules(t, once, walk, Template);
    SelectSameRules(t, once, walk, Standard);
  }

  /** `convertPathTarget`: the part of the path below the source root, joined onto the target root. */
  function ConvertPathTarget(t: TemplateDir, p: Path, target: Path): (r: Path)
    ensures target <= r
    ensures t.path <= p ==> t.path + r[|target|..] == p
    ensures !(t.path <= p) ==> r == target + p
  {
    target + TrimPrefix(p, t.path)
  }

  /**
    The target of a template: the plain target with the marker cut out of
    its base name by `strings.ReplaceAll`, joined back with `filepath.Join`.
   */
  function TemplateTarget(t: TemplateDir, p: Path, target: Path): Path {
    var full := ConvertPathTarget(t, p, target);
    if |full| == 0 then full else JoinName(Dir(full), RemoveAll(Base(full), t.templateFilter))
  }

  /**
    The plain target is the target root followed by exactly the source path's
    components below the source root, so mapping it back from the target root
    to the source root gives the source path again.
   */
  lemma ConvertPathTargetRoundTrip(t: TemplateDir, p: Path, target: Path)
    requires t.path <= p
    ensures ConvertPathTarget(t, p, target) == target + p[|t.path|..]
    ensures ConvertPathTarget(t.(path := target), ConvertPathTarget(t, p, target), t.path) == p
  {
    var q := ConvertPathTarget(t, p, target);
    assert target <= q;
    assert q[|target|..] == p[|t.path|..];
    assert t.path + p[|t.path|..] == p;
  }

  /** Two source paths below the root never share a plain target. */
  lemma ConvertPathTargetInjective(t: TemplateDir, p: Path, q: Path, target: Path)
    requires t.path <= p && t.path <= q
    requires ConvertPathTarget(t, p, target) == ConvertPathTarget(t, q, target)
    ensures p == q
  {
    ConvertPathTargetRoundTrip(t, p, target);
    ConvertPathTargetRoundTrip(t, q, target);
  }

  /**
    A template strictly below the root keeps the plain target's directory;
    only its base name changes, to the old name with every occurrence of the
    marker cut out left to right, shorter by the marker's length per cut.
   */
  lemma TemplateTargetRenamesBase(t: TemplateDir, p: Path, target: Path)
    requires t.path < p
    requires RemoveAll(Base(p), t.templateFilter) !in {"", ".", ".."}
    ensures var name := RemoveAll(Base(p), t.templateFilter);
            && TemplateTarget(t, p, target) == Dir(ConvertPathTarget(t, p, target)) + [name]
            && Dir(ConvertPathTarget(t, p, target)) == ConvertPathTarget(t, Dir(p), target)
            && |name| == |Base(p)| - Count(Base(p), t.templateFilter) * |t.templateFilter|
  {
    ConvertKeepsBaseAndDir(t, p, target);
    RemoveAllLength(Base(p), t.templateFilter);
  }

  /** A template whose name does not contain the marker goes where a plain file would. */
  lemma TemplateTargetWithoutMarker(t: TemplateDir, p: Path, target: Path)
    requires t.path < p
    requires !Contains(Base(p), t.templateFilter) && Base(p) !in {"", ".", ".."}
    ensures TemplateTarget(t, p, target) == ConvertPathTarget(t, p, target)
  {
    var full := ConvertPathTarget(t, p, target);
    ConvertPathTargetRoundTrip(t, p, target);
    assert Base(full) == Base(p);
    RemoveAllWithoutOccurrence(Base(p), t.templateFilter);
    assert Dir(full) + [Base(full)] == full;
  }

  /**
    A file named exactly like the marker has an empty stripped name, and
    `filepath.Join` then yields the target of its directory: the template's
    destination is a directory.
   */
  lemma TemplateNamedLikeMarker(t: TemplateDir, p: Path, target: Path)
    requires t.path < p && Base(p) == t.templateFilter && |t.templateFilter| > 0
    ensures TemplateTarget(t, p, target) == ConvertPathTarget(t, Dir(p), target)
  {
    var full := ConvertPathTarget(t, p, target);
    ConvertKeepsBaseAndDir(t, p, target);
    RemoveAllOfItself(t.templateFilter);
    assert RemoveAll(Base(full), t.templateFilter) == "";
  }

  /** Below the source root, the plain target keeps the source's base name, and its directory is the plain target of the source's directory. */
  lemma ConvertKeepsBaseAndDir(t: TemplateDir, p: Path, target: Path)
    requires t.path < p
    ensures |ConvertPathTarget(t, p, target)| > 0
    ensures Base(ConvertPathTarget(t, p, target)) == Base(p)
    ensures Dir(ConvertPathTarget(t, p, target)) == ConvertPathTarget(t, Dir(p), target)
  {
    ConvertPathTargetRoundTrip(t, p, target);
    ConvertPathTargetRoundTrip(t, Dir(p), target);
    assert Dir(p)[|t.path|..] == p[|t.path|..][..|p| - |t.path| - 1];
  }

  /**
    The target of a template strictly below the source root is never
    beside the target root: it is the target root, an ancestor of it (a
    stripped name of `..` climbs one level), or something below it.
   */
  lemma TemplateTargetPlacement(t: TemplateDir, p: Path, target: Path)
    requires t.path < p
    ensures TemplateTarget(t, p, target) <= target || target < TemplateTarget(t, p, target)
  {
    var full := ConvertPathTarget(t, p, target);
    ConvertPathTargetRoundTrip(t, p, target);
    assert |full| > |target|;
    var dir := Dir(full);
    assert target <= dir;
    var name := RemoveAll(Base(full), t.templateFilter);
    if name == ".." {
      if dir == target {
        assert Dir(dir) <= target;
      } else {
        assert target <= Dir(dir);
      }
    }
  }

  /** The usual case: `main.go.tmpl` is a template and becomes `main.go`; `go.mod` is a standard file. */
  lemma MarkerSuffixIsStripped()
    ensures Index("main.go.tmpl", ".tmpl") == 7
    ensures RemoveAll("main.go.tmpl", ".tmpl") == "main.go"
    ensures Index("go.mod", ".tmpl") == -1
  {
    MainGoTemplateIndex();
    MainGoTemplateStripped();
    GoModHasNoMarker();
  }

  /** The marker's only occurrence in `main.go.tmpl` starts at position 7. */
  lemma MainGoTemplateIndex()
    ensures Index("main.go.tmpl", ".tmpl") == 7
  {
    var s, pat := "main.go.tmpl", ".tmpl";
    assert OccursAt(s, pat, 7) by { assert s[7..12] == pat; }
    forall j | 0 <= j < 7
      ensures !OccursAt(s, pat, j)
    {
      if j == 4 {
        assert s[5] != pat[1];
      } else {
        assert s[j] != '.';
      }
    }
    IndexUnique(s, pat, 7);
  }

  /** Cutting the marker out of `main.go.tmpl` leaves `main.go`. */
  lemma MainGoTemplateStripped()
    ensures RemoveAll("main.go.tmpl", ".tmpl") == "main.go"
  {
    var s, pat := "main.go.tmpl", ".tmpl";
    MainGoTemplateIndex();
    assert s[12..] == "";
    RemoveAllCut(s, pat, 7, "");
    assert s[..7] == "main.go";
  }

  /** `go.mod` holds no occurrence of the marker. */
  lemma GoModHasNoMarker()
    ensures Index("go.mod", ".tmpl") == -1
  {
    var m, pat := "go.mod", ".tmpl";
    forall j
      ensures !OccursAt(m, pat, j)
    {
      if 0 <= j && j + 5 <= |m| {
        assert m[j] != '.';
      }
    }
    IndexUnique(m, pat, -1);
  }
}
