/**
  End-to-end runs of the engine on a small source tree: `/src` holding
  `cmd/main.go.tmpl`, `go.mod` and a `.DS_Store` that the caller asked to
  ignore, extracted into a missing `/out`.
 */
module Scenarios {
  import opened Wrappers
  import opened Paths
  import opened Strings
  import opened Errors
  import opened FailFast
  import opened FileSystem
  import opened TemplateDirectory
  import opened Extraction

  /** The entries `filepath.Walk` reports for `/src`, in lexical order. */
  function SampleWalk(): seq<WalkEntry> {
    [ Visit(["src"], true),
      Visit(["src", ".DS_Store"], false),
      Visit(["src", "cmd"], true),
      Visit(["src", "cmd", "main.go.tmpl"], false),
      Visit(["src", "go.mod"], false) ]
  }

  /** `New("/src")` followed by `IgnoreFilename(".DS_Store")`. */
  function SampleEngine(): TemplateDir {
    IgnoreFilename(New(["src"], true).value, ".DS_Store")
  }

  /** How the engine classifies each entry of the sample walk. */
  lemma SampleClassified()
    ensures var t, walk := SampleEngine(), SampleWalk();
            && Classify(t, walk[0].path, true) == SourceRoot
            && Classify(t, walk[1].path, false) == Ignored
            && Classify(t, walk[2].path, true) == Subdirectory
            && Classify(t, walk[3].path, false) == Template
            && Classify(t, walk[4].path, false) == Standard
  {
    var t, walk := SampleEngine(), SampleWalk();
    assert t.path == ["src"] && t.templateFilter == ".tmpl" && t.ignoredFiles == {".DS_Store"};
    assert Classify(t, walk[1].path, false) == Ignored by {
      assert Base(walk[1].path) == ".DS_Store";
    }
    assert Classify(t, walk[2].path, true) == Subdirectory by {
      assert |walk[2].path| != |t.path|;
    }
    assert Classify(t, walk[3].path, false) == Template by {
      assert Base(walk[3].path) == "main.go.tmpl" && "main.go.tmpl" != ".DS_Store";
      MainGoTemplateIndex();
    }
    assert Classify(t, walk[4].path, false) == Standard by {
      assert Base(walk[4].path) == "go.mod" && "go.mod" != ".DS_Store";
      GoModHasNoMarker();
    }
  }

  /** The walk puts `cmd` in the directories, `main.go.tmpl` in the templates, `go.mod` in the standard files, and drops the rest. */
  lemma SampleCategorised()
    ensures var r := CategoriseFiles(SampleEngine(), SampleWalk());
            && r.Ok()
            && r.state.dirs == [["src", "cmd"]]
            && r.state.templateFiles == [["src", "cmd", "main.go.tmpl"]]
            && r.state.standardFiles == [["src", "go.mod"]]
  {
    var t := SampleEngine();
    var walk := SampleWalk();
    SampleClassified();
    var s1 := CategoriseFile(walk[0], t).state;
    var s2 := CategoriseFile(walk[1], s1).state;
    var s3 := CategoriseFile(walk[2], s2).state;
    var s4 := CategoriseFile(walk[3], s3).state;
    var s5 := CategoriseFile(walk[4], s4).state;
    assert s2 == t;
    assert ForEach(walk[4..], s4, CategoriseFile) == Pass(s5, 1, None);
    assert ForEach(walk[3..], s3, CategoriseFile) == Pass(s5, 2, None);
    assert ForEach(walk[2..], s2, CategoriseFile) == Pass(s5, 3, None);
    assert ForEach(walk[1..], s1, CategoriseFile) == Pass(s5, 4, None);
  }

  /** The world of the sample: the two sources read through, nothing fails to close. */
  function SampleWorld<D>(renderer: Renderer<D>, body: Bytes, mod: Bytes): World<D> {
    World(SampleWalk(), map[["src", "cmd", "main.go.tmpl"] := Readable(body), ["src", "go.mod"] := Readable(mod)], {}, renderer)
  }

  /** The target file system before, and after each pass of, the sample extraction. */
  function Before(): FS { map[[] := Directory(true)] }
  function AfterRoot(): FS { Before()[["out"] := Directory(true)] }
  function AfterDirs(): FS { AfterRoot()[["out", "cmd"] := Directory(true)] }
  function AfterTemplates(out: Bytes): FS { AfterDirs()[["out", "cmd", "main.go"] := File(out)] }
  function AfterCopies(out: Bytes, mod: Bytes): FS { AfterTemplates(out)[["out", "go.mod"] := File(mod)] }

  /** The rules of the engine after the sample walk. */
  predicate SampleLists(u: TemplateDir) {
    && u.path == ["src"] && u.templateFilter == ".tmpl"
    && u.dirs == [["src", "cmd"]]
    && u.templateFiles == [["src", "cmd", "main.go.tmpl"]]
    && u.standardFiles == [["src", "go.mod"]]
  }

  lemma SampleListsAfterWalk()
    ensures CategoriseFiles(SampleEngine(), SampleWalk()).Ok()
    ensures SampleLists(CategoriseFiles(SampleEngine(), SampleWalk()).state)
  {
    SampleCategorised();
    var t := SampleEngine();
    assert New(["src"], true).value.path == ["src"];
    assert t.path == ["src"] && t.templateFilter == ".tmpl";
    CategoriseFilesAppends(t, SampleWalk());
    assert SameRules(t, CategoriseFiles(t, SampleWalk()).state);
  }

  lemma SampleDirectories(u: TemplateDir)
    requires SampleLists(u)
    ensures CreateDirectories(u, ["out"], AfterRoot()) == Pass(AfterDirs(), 1, None)
  {
    assert ConvertPathTarget(u, ["src", "cmd"], ["out"]) == ["out", "cmd"];
    assert Dir(["out", "cmd"]) == ["out"];
    assert MkdirAll(AfterRoot(), ["out", "cmd"]) == Effect(AfterDirs(), None);
    var step := DirStep(u, ["out"]);
    assert step(u.dirs[0], AfterRoot()) == Effect(AfterDirs(), None);
    assert u.dirs[1..] == [];
    assert ForEach(u.dirs[1..], AfterDirs(), step) == Pass(AfterDirs(), 0, None);
  }

  lemma SampleTemplates<D>(u: TemplateDir, data: D, renderer: Renderer<D>, body: Bytes, out: Bytes, mod: Bytes)
    requires SampleLists(u)
    requires renderer.parse(body) == None && renderer.execute(body, data) == Executed(out)
    ensures ProcessTemplates(u, ["out"], data, SampleWorld(renderer, body, mod), AfterDirs()) == Pass(AfterTemplates(out), 1, None)
  {
    var main: Path := ["out", "cmd", "main.go"];
    MarkerSuffixIsStripped();
    assert TemplateTarget(u, ["src", "cmd", "main.go.tmpl"], ["out"]) == main;
    assert Dir(main) == ["out", "cmd"];
    assert main !in AfterDirs() by {
      assert |main| == 3;
    }
    assert Create(AfterDirs(), main).Ok();
    var w := SampleWorld(renderer, body, mod);
    assert w.sources[["src", "cmd", "main.go.tmpl"]] == Readable(body);
    var e := RenderTemplate(u, ["out"], data, w, ["src", "cmd", "main.go.tmpl"], AfterDirs());
    assert e == Effect(AfterTemplates(out), None);
    var step := TemplateStep(u, ["out"], data, w);
    assert step(u.templateFiles[0], AfterDirs()) == e;
    assert u.templateFiles[1..] == [];
    assert ForEach(u.templateFiles[1..], AfterTemplates(out), step) == Pass(AfterTemplates(out), 0, None);
  }

  lemma SampleCopies<D>(u: TemplateDir, renderer: Renderer<D>, body: Bytes, out: Bytes, mod: Bytes)
    requires SampleLists(u)
    ensures CopyFiles(u, ["out"], SampleWorld(renderer, body, mod), AfterTemplates(out)) == Pass(AfterCopies(out, mod), 1, None)
  {
    var gomod: Path := ["out", "go.mod"];
    assert ConvertPathTarget(u, ["src", "go.mod"], ["out"]) == gomod;
    assert Dir(gomod) == ["out"];
    assert gomod !in AfterTemplates(out) by {
      assert gomod != ["out", "cmd"] by { assert gomod[1] != "cmd"; }
    }
    assert Create(AfterTemplates(out), gomod).Ok();
    var w := SampleWorld(renderer, body, mod);
    assert w.sources[["src", "go.mod"]] == Readable(mod);
    var e := CopyFile(w, ["src", "go.mod"], gomod, AfterTemplates(out));
    assert e == Effect(AfterCopies(out, mod), None);
    var step := CopyStep(u, ["out"], w);
    assert step(u.standardFiles[0], AfterTemplates(out)) == e;
    assert u.standardFiles[1..] == [];
    assert ForEach(u.standardFiles[1..], AfterCopies(out, mod), step) == Pass(AfterCopies(out, mod), 0, None);
  }

  /**
    Extracting the sample into a missing `/out` under a writable `/`
    makes `/out` and `/out/cmd`, writes the rendered `main.go` without its
    marker, copies `go.mod` verbatim, leaves `.DS_Store` out, and touches
    nothing else.
   */
  lemma SampleExtraction<D>(data: D, renderer: Renderer<D>, body: Bytes, out: Bytes, mod: Bytes)
    requires renderer.parse(body) == None && renderer.execute(body, data) == Executed(out)
    ensures var r := Extract(SampleEngine(), ["out"], data, SampleWorld(renderer, body, mod), map[[] := Directory(true)]);
            && r.Ok()
            && r.fs == map[
                 [] := Directory(true),
                 ["out"] := Directory(true),
                 ["out", "cmd"] := Directory(true),
                 ["out", "cmd", "main.go"] := File(out),
                 ["out", "go.mod"] := File(mod)]
  {
    var target: Path := ["out"];
    assert target[..0] == [] && target[..1] == target;
    assert StatNotExist(Before(), target);
    assert MkdirAll(Before(), target) == Effect(AfterRoot(), None);
    SampleProcess(data, renderer, body, out, mod);
    RootedShape(SampleEngine(), target, data, SampleWorld(renderer, body, mod), Before());
  }

  /** Processing the sample into the freshly made `/out` runs every pass through. */
  lemma SampleProcess<D>(data: D, renderer: Renderer<D>, body: Bytes, out: Bytes, mod: Bytes)
    requires renderer.parse(body) == None && renderer.execute(body, data) == Executed(out)
    ensures var r := ProcessTemplateDirFiles(SampleEngine(), ["out"], data, SampleWorld(renderer, body, mod), AfterRoot());
            r.Ok() && r.fs == AfterCopies(out, mod)
  {
    SampleListsAfterWalk();
    var u := CategoriseFiles(SampleEngine(), SampleWalk()).state;
    SampleDirectories(u);
    SampleTemplates(u, data, renderer, body, out, mod);
    SampleCopies(u, renderer, body, out, mod);
  }

  /**
    A target below an existing file: `os.Stat` answers "not a directory",
    which is not "does not exist", so the target is not made; a walk that
    finds only the source root leaves nothing to make, render or copy, and
    the extraction succeeds without touching the file system.
   */
  lemma TargetBelowFile<D>(data: D, renderer: Renderer<D>)
    ensures var fs := map[[] := Directory(true), ["a"] := File([])];
            var w := World([Visit(["src"], true)], map[], {}, renderer);
            var r := Extract(New(["src"], true).value, ["a", "out"], data, w, fs);
            && !StatNotExist(fs, ["a", "out"])
            && r.Ok() && r.fs == fs && r.log == [Walked(Visit(["src"], true))]
  {
    var fs := map[[] := Directory(true), ["a"] := File([])];
    var target := ["a", "out"];
    assert target[..0] == [] && target[..1] == ["a"];
    assert !StatNotExist(fs, target);
    var t := New(["src"], true).value;
    var walk := [Visit(["src"], true)];
    assert CategoriseFile(walk[0], t) == Effect(t, None);
    assert walk[1..] == [];
    assert CategoriseFiles(t, walk) == Pass(t, 1, None);
    assert walk[..1] == walk;
  }

  /** The walk of `CopyBelowFile`: the source root and one standard file `x`. */
  function BelowFileWorld<D>(renderer: Renderer<D>): World<D> {
    World([Visit(["src"], true), Visit(["src", "x"], false)], map[["src", "x"] := Readable([])], {}, renderer)
  }

  /** Walking `/src` with one plain file `x` lists it as the one standard file. */
  lemma BelowFileLists<D>(renderer: Renderer<D>)
    ensures var t := New(["src"], true).value;
            CategoriseFiles(t, BelowFileWorld(renderer).walk) == Pass(t.(standardFiles := [["src", "x"]]), 2, None)
  {
    var t := New(["src"], true).value;
    var walk := BelowFileWorld(renderer).walk;
    assert Classify(t, ["src", "x"], false) == Standard by {
      assert Base(["src", "x"]) == "x" && Index("x", ".tmpl") == -1;
    }
    assert t.standardFiles == [] && t.path == ["src"];
    var u := t.(standardFiles := t.standardFiles + [["src", "x"]]);
    assert walk[0] == Visit(["src"], true) && walk[1] == Visit(["src", "x"], false);
    assert CategoriseFile(walk[0], t) == Effect(t, None);
    assert CategoriseFile(walk[1], t) == Effect(u, None);
    assert walk[1..][1..] == [];
    assert u == t.(standardFiles := [["src", "x"]]);
  }

  /**
    The same target below a file, with one standard file to copy: the
    target is not made, and creating the copy's destination runs into the
    file on the way, so the extraction fails with "not a directory" and
    writes nothing.
   */
  lemma CopyBelowFile<D>(data: D, renderer: Renderer<D>)
    ensures var fs := map[[] := Directory(true), ["a"] := File([])];
            var r := Extract(New(["src"], true).value, ["a", "out"], data, BelowFileWorld(renderer), fs);
            && r.err == Some(NotADirectory(["a", "out", "x"]))
            && r.fs == fs
  {
    var fs := map[[] := Directory(true), ["a"] := File([])];
    var target := ["a", "out"];
    assert target[..0] == [] && target[..1] == ["a"];
    assert !StatNotExist(fs, target);
    var w := BelowFileWorld(renderer);
    var t := New(["src"], true).value;
    BelowFileLists(renderer);
    var u := t.(standardFiles := [["src", "x"]]);
    assert u.dirs == [] && u.templateFiles == [];
    assert CreateDirectories(u, target, fs) == Pass(fs, 0, None);
    assert ProcessTemplates(u, target, data, w, fs) == Pass(fs, 0, None);
    var dest := ConvertPathTarget(u, ["src", "x"], target);
    assert dest == ["a", "out", "x"];
    CreateBelowFile(fs, ["a"], dest);
    assert CopyFile(w, ["src", "x"], dest, fs) == Effect(fs, Some(NotADirectory(dest)));
    assert CopyFiles(u, target, w, fs).err == Some(NotADirectory(dest));
  }
}
