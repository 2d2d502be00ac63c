/**
  `Extract` and the passes behind it: make the target root if it is
  missing, categorise the source tree, make every directory, render every
  template, copy every standard file, each pass stopping at its first
  error.  Everything outside the engine that one call depends on (what the
  walk reports, what the source files hold, where closing a file fails,
  and the template library) is a parameter, the `World`.
 */
module Extraction {
  import opened Wrappers
  import opened Paths
  import opened Errors
  import opened FailFast
  import opened FileSystem
  import opened TemplateDirectory

  /** What executing a parsed template wrote before it stopped. */
  datatype Execution = Executed(output: Bytes) | ExecFailed(partial: Bytes, reason: string)

  /**
    The `text/template` library, outside the model: whether a body parses
    (`Some(reason)` when it does not), and what executing it with the data
    writes.
   */
  datatype Renderer<!D> = Renderer(parse: Bytes -> Option<string>, execute: (Bytes, D) -> Execution)

  /** A source file that opens: either all of it can be read, or reading stops with an error after `prefix`. */
  datatype SourceFile = Readable(content: Bytes) | Unreadable(prefix: Bytes, reason: string)

  /**
    The world one `Extract` call runs against: the entries `filepath.Walk`
    reports for the source root in order, the source files that open,
    the destination files whose `Close` reports an error, and the template
    library.
   */
  datatype World<!D> = World(
    walk: seq<WalkEntry>,
    sources: map<Path, SourceFile>,
    closeFaults: set<Path>,
    renderer: Renderer<D>)

  /** One call the engine made, in the order it made them. */
  datatype Op =
    | MadeRoot(target: Path)
    | Walked(entry: WalkEntry)
    | MadeDir(dir: Path)
    | Rendered(template: Path)
    | Copied(file: Path)

  /** Which pass of `Extract` an operation belongs to. */
  function Phase(op: Op): nat {
    match op
    case MadeRoot(_) => 0
    case Walked(_) => 1
    case MadeDir(_) => 2
    case Rendered(_) => 3
    case Copied(_) => 4
  }

  /** What `Extract` leaves behind: the engine, the target file system, the calls made, and the error returned. */
  datatype Extraction = Extraction(engine: TemplateDir, fs: FS, log: seq<Op>, err: Option<Error>) {
    predicate Ok() {
      err.None?
    }
  }

  function WalkOps(es: seq<WalkEntry>): (r: seq<Op>)
    ensures |r| == |es| && forall i :: 0 <= i < |r| ==> r[i] == Walked(es[i])
  {
    seq(|es|, i requires 0 <= i < |es| => Walked(es[i]))
  }

  function DirOps(ps: seq<Path>): (r: seq<Op>)
    ensures |r| == |ps| && forall i :: 0 <= i < |r| ==> r[i] == MadeDir(ps[i])
  {
    seq(|ps|, i requires 0 <= i < |ps| => MadeDir(ps[i]))
  }

  function RenderOps(ps: seq<Path>): (r: seq<Op>)
    ensures |r| == |ps| && forall i :: 0 <= i < |r| ==> r[i] == Rendered(ps[i])
  {
    seq(|ps|, i requires 0 <= i < |ps| => Rendered(ps[i]))
  }

  function CopyOps(ps: seq<Path>): (r: seq<Op>)
    ensures |r| == |ps| && forall i :: 0 <= i < |r| ==> r[i] == Copied(ps[i])
  {
    seq(|ps|, i requires 0 <= i < |ps| => Copied(ps[i]))
  }

  /** One iteration of `createDirectories`: `os.MkdirAll` on the directory's target. */
  function DirStep(t: TemplateDir, target: Path): (Path, FS) -> Effect<FS> {
    (d: Path, fs: FS) => MkdirAll(fs, ConvertPathTarget(t, d, target))
  }

  /**
    One iteration of `processTemplateDirs`: parse the source (which reads
    it), create the target with the marker cut out of its name, execute
    into it.  An execution error leaves the partial output in the created
    file; the error of closing it is dropped on both paths.
   */
  function RenderTemplate<D>(t: TemplateDir, target: Path, data: D, w: World<D>, p: Path, fs: FS): (r: Effect<FS>)
    ensures WritesAt(fs, r.state, TemplateTarget(t, p, target))
    ensures r.Ok() <==>
              && p in w.sources && w.sources[p].Readable?
              && w.renderer.parse(w.sources[p].content).None?
              && Create(fs, TemplateTarget(t, p, target)).Ok()
              && w.renderer.execute(w.sources[p].content, data).Executed?
    ensures r.Ok() ==>
              r.state == fs[TemplateTarget(t, p, target) := File(w.renderer.execute(w.sources[p].content, data).output)]
    ensures r.err.Some? && r.err.value.TemplateExecError? ==>
              && p in w.sources && w.sources[p].Readable?
              && w.renderer.parse(w.sources[p].content).None?
              && var run := w.renderer.execute(w.sources[p].content, data);
              && run.ExecFailed? && r.err.value == TemplateExecError(p, run.reason)
              && r.state == fs[TemplateTarget(t, p, target) := File(run.partial)]
  {
    if p !in w.sources then
      Effect(fs, Some(NoSuchFile(p)))
    else
      match w.sources[p]
      case Unreadable(_, why) => Effect(fs, Some(ReadError(p, why)))
      case Readable(body) =>
        match w.renderer.parse(body)
        case Some(why) => Effect(fs, Some(TemplateParseError(p, why)))
        case None =>
          var dest := TemplateTarget(t, p, target);
          var created := Create(fs, dest);
          if !created.Ok() then
            created
          else
            match w.renderer.execute(body, data)
            case Executed(out) => Effect(created.state[dest := File(out)], None)
            case ExecFailed(partial, why) => Effect(created.state[dest := File(partial)], Some(TemplateExecError(p, why)))
  }

  function TemplateStep<D>(t: TemplateDir, target: Path, data: D, w: World<D>): (Path, FS) -> Effect<FS> {
    (p: Path, fs: FS) => RenderTemplate(t, target, data, w, p, fs)
  }

  /**
    `copyFile`: open the source, create the destination, copy the bytes,
    and return the error of closing the destination.  A read error leaves
    what was copied so far.
   */
  function CopyFile<D>(w: World<D>, source: Path, dest: Path, fs: FS): (r: Effect<FS>)
    ensures WritesAt(fs, r.state, dest)
    ensures r.Ok() <==>
              source in w.sources && w.sources[source].Readable? && Create(fs, dest).Ok() && dest !in w.closeFaults
    ensures source in w.sources && w.sources[source].Readable? && Create(fs, dest).Ok() ==>
              r.state == fs[dest := File(w.sources[source].content)]
    ensures source !in w.sources ==> r == Effect(fs, Some(NoSuchFile(source)))
    ensures r.err == Some(CloseError(dest)) <==>
              source in w.sources && w.sources[source].Readable? && Create(fs, dest).Ok() && dest in w.closeFaults
    ensures r.err.Some? && r.err.value.CloseError? ==> r.err.value.path == dest
    ensures r.err.Some? ==> !r.err.value.TemplateExecError? && !r.err.value.TemplateParseError?
  {
    if source !in w.sources then
      Effect(fs, Some(NoSuchFile(source)))
    else
      var created := Create(fs, dest);
      if !created.Ok() then
        created
      else
        match w.sources[source]
        case Unreadable(prefix, why) => Effect(created.state[dest := File(prefix)], Some(ReadError(source, why)))
        case Readable(content) =>
          var written := created.state[dest := File(content)];
          if dest in w.closeFaults then Effect(written, Some(CloseError(dest))) else Effect(written, None)
  }

  function CopyStep<D>(t: TemplateDir, target: Path, w: World<D>): (Path, FS) -> Effect<FS> {
    (p: Path, fs: FS) => CopyFile(w, p, ConvertPathTarget(t, p, target), fs)
  }

  /**
    `createDirectories`: `os.MkdirAll` on the target of every listed
    directory.  Nothing is removed, and when the pass goes through every
    listed directory's target is a directory.
   */
  function CreateDirectories(t: TemplateDir, target: Path, fs: FS): (r: Pass<FS>)
    ensures Persists(fs, r.state)
    ensures r.Ok() ==> forall i :: 0 <= i < |t.dirs| ==> IsDir(r.state, ConvertPathTarget(t, t.dirs[i], target))
  {
    var r := ForEach(t.dirs, fs, DirStep(t, target));
    DirStepKeeps(t, target);
    PassKeeps(t.dirs, fs, DirStep(t, target));
    if r.Ok() then (DirectoriesMade(t, target, t.dirs, fs); r) else r
  }

  /**
    `processTemplateDirs`: render every listed template.  Nothing is
    removed, and when the pass goes through every template read, parsed
    and executed cleanly and its target is a file.
   */
  function ProcessTemplates<D>(t: TemplateDir, target: Path, data: D, w: World<D>, fs: FS): (r: Pass<FS>)
    ensures Persists(fs, r.state)
    ensures r.Ok() ==> forall i :: 0 <= i < |t.templateFiles| ==>
              RendersCleanly(w, data, t.templateFiles[i]) && IsFile(r.state, TemplateTarget(t, t.templateFiles[i], target))
  {
    var r := ForEach(t.templateFiles, fs, TemplateStep(t, target, data, w));
    WriteStepsKeep(t, target, data, w);
    PassKeeps(t.templateFiles, fs, TemplateStep(t, target, data, w));
    if r.Ok() then (TemplatesRendered(t, target, data, w, t.templateFiles, fs); r) else r
  }

  /**
    `copyFiles`: copy every listed standard file.  Nothing is removed, and
    when the pass goes through over files below the source root, every
    file read through and its target holds exactly the source's bytes.
   */
  function CopyFiles<D>(t: TemplateDir, target: Path, w: World<D>, fs: FS): (r: Pass<FS>)
    ensures Persists(fs, r.state)
    ensures r.Ok() && AllUnder(t.standardFiles, t.path) ==> forall i :: 0 <= i < |t.standardFiles| ==>
              && ReadsCleanly(w, t.standardFiles[i])
              && ConvertPathTarget(t, t.standardFiles[i], target) in r.state
              && r.state[ConvertPathTarget(t, t.standardFiles[i], target)] == File(w.sources[t.standardFiles[i]].content)
  {
    var r := ForEach(t.standardFiles, fs, CopyStep(t, target, w));
    CopyStepKeeps(t, target, w);
    PassKeeps(t.standardFiles, fs, CopyStep(t, target, w));
    if r.Ok() && AllUnder(t.standardFiles, t.path) then (FilesCopied(t, target, w, t.standardFiles, fs); r) else r
  }

  /** The calls `processTemplateDirFiles` makes: walk entries, then directories, then templates, then files. */
  function Trace(a: seq<WalkEntry>, b: seq<Path>, c: seq<Path>, d: seq<Path>): seq<Op> {
    WalkOps(a) + DirOps(b) + RenderOps(c) + CopyOps(d)
  }

  /**
    `processTemplateDirFiles`: categorise, then the three passes in order,
    returning the first error.  Every pass runs over the whole accumulated
    list, including entries left there by earlier calls.
   */
  function ProcessTemplateDirFiles<D>(t: TemplateDir, target: Path, data: D, w: World<D>, fs: FS): (r: Extraction)
    ensures SameRules(t, r.engine)
    ensures Persists(fs, r.fs)
    ensures r.Ok() ==> |r.log| == |w.walk| + |r.engine.dirs| + |r.engine.templateFiles| + |r.engine.standardFiles|
    ensures !r.Ok() ==> |r.log| > 0
  {
    var walked := CategoriseFiles(t, w.walk);
    var u := walked.state;
    var seen := w.walk[..walked.attempted];
    if !walked.Ok() then
      Extraction(u, fs, Trace(seen, [], [], []), walked.err)
    else
      var made := CreateDirectories(u, target, fs);
      var dirs := u.dirs[..made.attempted];
      if !made.Ok() then
        Extraction(u, made.state, Trace(seen, dirs, [], []), made.err)
      else
        var rendered := ProcessTemplates(u, target, data, w, made.state);
        var templates := u.templateFiles[..rendered.attempted];
        if !rendered.Ok() then
          Extraction(u, rendered.state, Trace(seen, dirs, templates, []), rendered.err)
        else
          var copied := CopyFiles(u, target, w, rendered.state);
          Extraction(u, copied.state, Trace(seen, dirs, templates, u.standardFiles[..copied.attempted]), copied.err)
  }

  /**
    `Extract(targetDirectory, data)` on an already absolute target: make
    the target with `os.MkdirAll` only when `os.Stat` says it does not
    exist, then process the source tree into it.  Any other outcome of
    `os.Stat`, "not a directory" included, goes straight on to processing.
   */
  function Extract<D>(t: TemplateDir, target: Path, data: D, w: World<D>, fs: FS): (r: Extraction)
    ensures SameRules(t, r.engine)
    ensures Persists(fs, r.fs)
    ensures StatNotExist(fs, target) ==> |r.log| > 0 && r.log[0] == MadeRoot(target)
    ensures !r.Ok() ==> |r.log| > 0
  {
    if !StatNotExist(fs, target) then
      ProcessTemplateDirFiles(t, target, data, w, fs)
    else
      var root := MkdirAll(fs, target);
      if !root.Ok() then
        Extraction(t, root.state, [MadeRoot(target)], root.err)
      else
        var r := ProcessTemplateDirFiles(t, target, data, w, root.state);
        r.(log := [MadeRoot(target)] + r.log)
  }

  /** The source opens and reads through, it parses, and executing it with `data` finishes. */
  predicate RendersCleanly<D>(w: World<D>, data: D, p: Path) {
    && p in w.sources && w.sources[p].Readable?
    && w.renderer.parse(w.sources[p].content).None?
    && w.renderer.execute(w.sources[p].content, data).Executed?
  }

  /** The source opens and reads through. */
  predicate ReadsCleanly<D>(w: World<D>, p: Path) {
    p in w.sources && w.sources[p].Readable?
  }

  /** The relation every step of every pass keeps between the target before and after it. */
  function Keep(): (FS, FS) -> bool {
    (u: FS, v: FS) => Persists(u, v) && (WellFormed(u) ==> WellFormed(v))
  }

  /** `Keep` is a preorder. */
  lemma KeepIsPreorder()
    ensures forall u :: Keep()(u, u)
    ensures forall u, v, x :: Keep()(u, v) && Keep()(v, x) ==> Keep()(u, x)
  {
    forall u, v, x | Keep()(u, v) && Keep()(v, x)
      ensures Keep()(u, x)
    {
      PersistsTransitive(u, v, x);
    }
  }

  /** Making a directory keeps `Keep`, whether it fails or not. */
  lemma DirStepKeeps(t: TemplateDir, target: Path)
    ensures forall d, u :: Keep()(u, DirStep(t, target)(d, u).state)
  {
    forall d, u
      ensures Keep()(u, DirStep(t, target)(d, u).state)
    {
      ExtendsPersists(u, MkdirAll(u, ConvertPathTarget(t, d, target)).state);
      if WellFormed(u) {
        MkdirAllWellFormed(u, ConvertPathTarget(t, d, target));
      }
    }
  }

  /** Rendering a template or copying a file writes at most its own target. */
  lemma WriteStepsWriteAtTarget<D>(t: TemplateDir, target: Path, data: D, w: World<D>)
    ensures forall p, u :: WritesAt(u, TemplateStep(t, target, data, w)(p, u).state, TemplateTarget(t, p, target))
    ensures forall p, u :: WritesAt(u, CopyStep(t, target, w)(p, u).state, ConvertPathTarget(t, p, target))
  {
  }

  /** Rendering a template and copying a file keep `Keep`, whether they fail or not. */
  lemma WriteStepsKeep<D>(t: TemplateDir, target: Path, data: D, w: World<D>)
    ensures forall p, u :: Keep()(u, TemplateStep(t, target, data, w)(p, u).state)
    ensures forall p, u :: Keep()(u, CopyStep(t, target, w)(p, u).state)
  {
    forall p, u
      ensures Keep()(u, TemplateStep(t, target, data, w)(p, u).state)
    {
      WritesAtPersists(u, RenderTemplate(t, target, data, w, p, u).state, TemplateTarget(t, p, target));
    }
    CopyStepKeeps(t, target, w);
  }

  /** Copying a file keeps `Keep`, whether it fails or not. */
  lemma CopyStepKeeps<D>(t: TemplateDir, target: Path, w: World<D>)
    ensures forall p, u :: Keep()(u, CopyStep(t, target, w)(p, u).state)
  {
    forall p, u
      ensures Keep()(u, CopyStep(t, target, w)(p, u).state)
    {
      WritesAtPersists(u, CopyFile(w, p, ConvertPathTarget(t, p, target), u).state, ConvertPathTarget(t, p, target));
    }
  }

  /** A pass keeps `Keep` between the target before it and after it, whether it stops early or not. */
  lemma PassKeeps<T>(items: seq<T>, fs: FS, step: (T, FS) -> Effect<FS>)
    requires forall x, u :: Keep()(u, step(x, u).state)
    ensures Persists(fs, ForEach(items, fs, step).state)
    ensures WellFormed(fs) ==> WellFormed(ForEach(items, fs, step).state)
  {
    KeepIsPreorder();
    ForEachKeeps(items, fs, step, Keep());
  }

  /** When the directory pass goes through, the target of every listed directory is a directory. */
  lemma {:induction false} DirectoriesMade(t: TemplateDir, target: Path, ds: seq<Path>, fs: FS)
    requires ForEach(ds, fs, DirStep(t, target)).Ok()
    ensures forall i :: 0 <= i < |ds| ==> IsDir(ForEach(ds, fs, DirStep(t, target)).state, ConvertPathTarget(t, ds[i], target))
    decreases |ds|
  {
    if |ds| > 0 {
      var step := DirStep(t, target);
      var e := step(ds[0], fs);
      var rest := ds[1..];
      DirectoriesMade(t, target, rest, e.state);
      DirStepKeeps(t, target);
      PassKeeps(rest, e.state, step);
      forall i | 0 <= i < |ds|
        ensures IsDir(ForEach(ds, fs, step).state, ConvertPathTarget(t, ds[i], target))
      {
        if i > 0 {
          assert ds[i] == rest[i - 1];
        }
      }
    }
  }

  /**
    When the copy pass goes through over files below the source root,
    every file's source read through and its plain target holds exactly
    the source's bytes.
   */
  lemma {:induction false} FilesCopied<D>(t: TemplateDir, target: Path, w: World<D>, files: seq<Path>, fs: FS)
    requires ForEach(files, fs, CopyStep(t, target, w)).Ok()
    requires AllUnder(files, t.path)
    ensures var after := ForEach(files, fs, CopyStep(t, target, w)).state;
            forall i :: 0 <= i < |files| ==>
              && ReadsCleanly(w, files[i])
              && ConvertPathTarget(t, files[i], target) in after
              && after[ConvertPathTarget(t, files[i], target)] == File(w.sources[files[i]].content)
    decreases |files|
  {
    if |files| > 0 {
      var step := CopyStep(t, target, w);
      var n := |files| - 1;
      var init, last := files[..n], files[n];
      assert files == init + [last];
      ForEachAppend(init, [last], fs, step);
      var mid := ForEach(init, fs, step);
      assert mid.Ok();
      FilesCopied(t, target, w, init, fs);
      var dest := ConvertPathTarget(t, last, target);
      assert ForEach([last], mid.state, step).state == CopyFile(w, last, dest, mid.state).state;
      var after := ForEach(files, fs, step).state;
      assert after == mid.state[dest := File(w.sources[last].content)];
      forall i | 0 <= i < |files|
        ensures && ReadsCleanly(w, files[i])
                && ConvertPathTarget(t, files[i], target) in after
                && after[ConvertPathTarget(t, files[i], target)] == File(w.sources[files[i]].content)
      {
        if i < n {
          assert files[i] == init[i];
          if ConvertPathTarget(t, files[i], target) == dest {
            ConvertPathTargetInjective(t, files[i], last, target);
          }
        }
      }
    }
  }

  /** A pass whose every step writes only at its item's `key` leaves a path that is no item's key as it was. */
  lemma {:induction false} PassTouchesOnlyKeys<T>(items: seq<T>, fs: FS, step: (T, FS) -> Effect<FS>, key: T -> Path, q: Path)
    requires forall x, u :: WritesAt(u, step(x, u).state, key(x))
    requires forall i :: 0 <= i < |items| ==> key(items[i]) != q
    ensures (q in ForEach(items, fs, step).state <==> q in fs)
    ensures q in fs ==> ForEach(items, fs, step).state[q] == fs[q]
    decreases |items|
  {
    if |items| > 0 {
      var e := step(items[0], fs);
      assert WritesAt(fs, e.state, key(items[0]));
      var rest := items[1..];
      forall i | 0 <= i < |rest|
        ensures key(rest[i]) != q
      {
        assert rest[i] == items[i + 1];
      }
      PassTouchesOnlyKeys(rest, e.state, step, key, q);
    }
  }

  /**
    When the template pass goes through, every template rendered cleanly
    and its target is a file; the last template written to a target wins,
    so a template whose target no later template shares holds its output.
   */
  lemma {:induction false} TemplatesRendered<D>(t: TemplateDir, target: Path, data: D, w: World<D>, ps: seq<Path>, fs: FS)
    requires ForEach(ps, fs, TemplateStep(t, target, data, w)).Ok()
    ensures var after := ForEach(ps, fs, TemplateStep(t, target, data, w)).state;
            forall i :: 0 <= i < |ps| ==>
              && RendersCleanly(w, data, ps[i])
              && IsFile(after, TemplateTarget(t, ps[i], target))
              && ((forall j :: i < j < |ps| ==> TemplateTarget(t, ps[j], target) != TemplateTarget(t, ps[i], target)) ==>
                    after[TemplateTarget(t, ps[i], target)] == File(w.renderer.execute(w.sources[ps[i]].content, data).output))
    decreases |ps|
  {
    if |ps| > 0 {
      var step := TemplateStep(t, target, data, w);
      var n := |ps| - 1;
      var init, last := ps[..n], ps[n];
      assert ps == init + [last];
      ForEachAppend(init, [last], fs, step);
      var mid := ForEach(init, fs, step);
      assert mid.Ok();
      TemplatesRendered(t, target, data, w, init, fs);
      var dest := TemplateTarget(t, last, target);
      assert ForEach([last], mid.state, step).state == RenderTemplate(t, target, data, w, last, mid.state).state;
      var after := ForEach(ps, fs, step).state;
      assert after == mid.state[dest := File(w.renderer.execute(w.sources[last].content, data).output)];
      forall i | 0 <= i < n
        ensures && RendersCleanly(w, data, ps[i])
                && IsFile(after, TemplateTarget(t, ps[i], target))
                && ((forall j :: i < j < |ps| ==> TemplateTarget(t, ps[j], target) != TemplateTarget(t, ps[i], target)) ==>
                      after[TemplateTarget(t, ps[i], target)] == File(w.renderer.execute(w.sources[ps[i]].content, data).output))
      {
        assert ps[i] == init[i];
        if forall j :: i < j < |ps| ==> TemplateTarget(t, ps[j], target) != TemplateTarget(t, ps[i], target) {
          assert TemplateTarget(t, ps[n], target) != TemplateTarget(t, ps[i], target);
          forall j | i < j < n
            ensures TemplateTarget(t, init[j], target) != TemplateTarget(t, init[i], target)
          {
            assert init[j] == ps[j];
          }
        }
      }
    }
  }

  /** The target after `Extract`'s first step: made with `os.MkdirAll` when it did not exist. */
  function RootState(fs: FS, target: Path): FS {
    if !StatNotExist(fs, target) then fs else MkdirAll(fs, target).state
  }

  /** The log entry of that first step, present only when the target did not exist. */
  function RootOps(fs: FS, target: Path): seq<Op> {
    if !StatNotExist(fs, target) then [] else [MadeRoot(target)]
  }

  /** A successful `processTemplateDirFiles` ran the whole walk and all three passes over the whole lists. */
  lemma ProcessSuccessShape<D>(t: TemplateDir, target: Path, data: D, w: World<D>, fs: FS)
    requires ProcessTemplateDirFiles(t, target, data, w, fs).Ok()
    ensures var r := ProcessTemplateDirFiles(t, target, data, w, fs);
            var walked := CategoriseFiles(t, w.walk);
            var u := walked.state;
            var made := CreateDirectories(u, target, fs);
            var rendered := ProcessTemplates(u, target, data, w, made.state);
            var copied := CopyFiles(u, target, w, rendered.state);
            && walked.Ok() && made.Ok() && rendered.Ok() && copied.Ok()
            && r.engine == u && r.fs == copied.state
            && r.log == Trace(w.walk, u.dirs, u.templateFiles, u.standardFiles)
  {
    var walked := CategoriseFiles(t, w.walk);
    var u := walked.state;
    var made := CreateDirectories(u, target, fs);
    var rendered := ProcessTemplates(u, target, data, w, made.state);
    var copied := CopyFiles(u, target, w, rendered.state);
    assert walked.Ok();
    assert w.walk[..walked.attempted] == w.walk;
    assert made.Ok();
    assert u.dirs[..made.attempted] == u.dirs;
    assert rendered.Ok();
    assert u.templateFiles[..rendered.attempted] == u.templateFiles;
    assert u.standardFiles[..copied.attempted] == u.standardFiles;
  }

  /**
    A successful extraction made the target if it was missing and then
    processed the source tree into it without error; its log is the
    target's creation, if any, followed by the processing's.
   */
  lemma ExtractSuccessShape<D>(t: TemplateDir, target: Path, data: D, w: World<D>, fs: FS)
    requires Extract(t, target, data, w, fs).Ok()
    ensures var r := Extract(t, target, data, w, fs);
            var p := ProcessTemplateDirFiles(t, target, data, w, RootState(fs, target));
            && (StatNotExist(fs, target) ==> MkdirAll(fs, target).Ok())
            && p.Ok() && r.engine == p.engine && r.fs == p.fs
            && r.log == RootOps(fs, target) + p.log
  {
    var r := Extract(t, target, data, w, fs);
    if !StatNotExist(fs, target) {
      assert r == ProcessTemplateDirFiles(t, target, data, w, fs);
      assert RootOps(fs, target) + r.log == r.log;
    } else {
      var root := MkdirAll(fs, target);
      assert root.Ok();
      var p := ProcessTemplateDirFiles(t, target, data, w, root.state);
      assert r == p.(log := [MadeRoot(target)] + p.log);
    }
  }

  /**
    A successful extraction ran every step: the target's creation if it
    was missing, the whole walk, then every directory, every template and
    every standard file of the accumulated lists, in that order, each
    without error.
   */
  lemma ExtractRunsEveryStep<D>(t: TemplateDir, target: Path, data: D, w: World<D>, fs: FS)
    requires Extract(t, target, data, w, fs).Ok()
    ensures var r := Extract(t, target, data, w, fs);
            var walked := CategoriseFiles(t, w.walk);
            var u := walked.state;
            var made := CreateDirectories(u, target, RootState(fs, target));
            var rendered := ProcessTemplates(u, target, data, w, made.state);
            var copied := CopyFiles(u, target, w, rendered.state);
            && (StatNotExist(fs, target) ==> MkdirAll(fs, target).Ok())
            && walked.Ok() && made.Ok() && rendered.Ok() && copied.Ok()
            && r.engine == u && r.fs == copied.state
            && r.log == RootOps(fs, target) + Trace(w.walk, u.dirs, u.templateFiles, u.standardFiles)
  {
    ExtractSuccessShape(t, target, data, w, fs);
    ProcessSuccessShape(t, target, data, w, RootState(fs, target));
  }

  /**
    Whatever the outcome, extraction removes nothing from the target file
    system: existing directories stay as they were, existing files stay
    files, and a tree stays a tree.
   */
  lemma ExtractPersists<D>(t: TemplateDir, target: Path, data: D, w: World<D>, fs: FS)
    ensures Persists(fs, Extract(t, target, data, w, fs).fs)
    ensures WellFormed(fs) ==> WellFormed(Extract(t, target, data, w, fs).fs)
  {
    var fs0 := RootState(fs, target);
    if StatNotExist(fs, target) {
      ExtendsPersists(fs, fs0);
      if WellFormed(fs) {
        MkdirAllWellFormed(fs, target);
      }
    }
    var u := CategoriseFiles(t, w.walk).state;
    DirStepKeeps(u, target);
    WriteStepsKeep(u, target, data, w);
    var made := CreateDirectories(u, target, fs0);
    PassKeeps(u.dirs, fs0, DirStep(u, target));
    var rendered := ProcessTemplates(u, target, data, w, made.state);
    PassKeeps(u.templateFiles, made.state, TemplateStep(u, target, data, w));
    var copied := CopyFiles(u, target, w, rendered.state);
    PassKeeps(u.standardFiles, rendered.state, CopyStep(u, target, w));
    PersistsTransitive(fs, fs0, made.state);
    PersistsTransitive(fs, made.state, rendered.state);
    PersistsTransitive(fs, rendered.state, copied.state);
  }

  /** After a successful extraction, the target and the target of every listed directory are directories. */
  lemma ExtractMakesDirectories<D>(t: TemplateDir, target: Path, data: D, w: World<D>, fs: FS)
    requires Extract(t, target, data, w, fs).Ok()
    ensures var r := Extract(t, target, data, w, fs);
            && (StatNotExist(fs, target) ==> IsDir(r.fs, target))
            && forall i :: 0 <= i < |r.engine.dirs| ==> IsDir(r.fs, ConvertPathTarget(r.engine, r.engine.dirs[i], target))
  {
    ExtractRunsEveryStep(t, target, data, w, fs);
    var u := CategoriseFiles(t, w.walk).state;
    var fs0 := RootState(fs, target);
    var made := CreateDirectories(u, target, fs0);
    var rendered := ProcessTemplates(u, target, data, w, made.state);
    var copied := CopyFiles(u, target, w, rendered.state);
    DirectoriesMade(u, target, u.dirs, fs0);
    WriteStepsKeep(u, target, data, w);
    PassKeeps(u.templateFiles, made.state, TemplateStep(u, target, data, w));
    PassKeeps(u.standardFiles, rendered.state, CopyStep(u, target, w));
    PersistsTransitive(made.state, rendered.state, copied.state);
    if StatNotExist(fs, target) {
      DirStepKeeps(u, target);
      PassKeeps(u.dirs, fs0, DirStep(u, target));
      PersistsTransitive(fs0, made.state, copied.state);
    }
  }

  /**
    The engine's lists and the walk stay below the source root: every
    listed path and every visited path lies strictly below it, except the
    visit of the root directory itself, as with `filepath.Walk` started at
    a directory.
   */
  predicate WalkBelow(t: TemplateDir, walk: seq<WalkEntry>) {
    && AllBelow(t.dirs, t.path) && AllBelow(t.templateFiles, t.path) && AllBelow(t.standardFiles, t.path)
    && forall i :: 0 <= i < |walk| ==> walk[i].Visit? ==> VisitBelow(t, walk[i])
  }

  /** A visited entry strictly below the source root, or the root directory itself. */
  predicate VisitBelow(t: TemplateDir, e: WalkEntry)
    requires e.Visit?
  {
    t.path < e.path || (e.path == t.path && e.isDir)
  }

  lemma AllBelowAppend(a: seq<Path>, b: seq<Path>, root: Path)
    requires AllBelow(a, root) && AllBelow(b, root)
    ensures AllBelow(a + b, root)
  {
    forall i | 0 <= i < |a + b|
      ensures root < (a + b)[i]
    {
      if i >= |a| {
        assert (a + b)[i] == b[i - |a|];
      }
    }
  }

  lemma {:induction false} SelectBelow(t: TemplateDir, entries: seq<WalkEntry>, c: Category)
    requires c != SourceRoot
    requires forall i :: 0 <= i < |entries| ==> entries[i].Visit? ==> VisitBelow(t, entries[i])
    ensures AllBelow(Select(t, entries, c), t.path)
    decreases |entries|
  {
    if |entries| > 0 {
      forall i | 0 <= i < |entries[1..]|
        ensures entries[1..][i].Visit? ==> VisitBelow(t, entries[1..][i])
      {
        assert entries[1..][i] == entries[i + 1];
      }
      SelectBelow(t, entries[1..], c);
      AllBelowAppend(Pick(t, entries[0], c), Select(t, entries[1..], c), t.path);
    }
  }

  /** Categorising a walk that stays below the root lists only paths strictly below the root. */
  lemma CategorisedBelow(t: TemplateDir, walk: seq<WalkEntry>)
    requires WalkBelow(t, walk)
    ensures var u := CategoriseFiles(t, walk).state;
            && u.path == t.path
            && AllBelow(u.dirs, t.path) && AllBelow(u.templateFiles, t.path) && AllBelow(u.standardFiles, t.path)
  {
    CategoriseFilesAppends(t, walk);
    var v := Visited(walk);
    forall i | 0 <= i < |v|
      ensures v[i].Visit? ==> VisitBelow(t, v[i])
    {
      assert v[i] == walk[i];
    }
    SelectBelow(t, v, Subdirectory);
    SelectBelow(t, v, Template);
    SelectBelow(t, v, Standard);
    AllBelowAppend(t.dirs, Select(t, v, Subdirectory), t.path);
    AllBelowAppend(t.templateFiles, Select(t, v, Template), t.path);
    AllBelowAppend(t.standardFiles, Select(t, v, Standard), t.path);
  }

  /**
    After a successful extraction of a walk below the source root, every
    standard file read through and its plain target holds exactly its bytes.
   */
  lemma ExtractCopiesFiles<D>(t: TemplateDir, target: Path, data: D, w: World<D>, fs: FS)
    requires WalkBelow(t, w.walk)
    requires Extract(t, target, data, w, fs).Ok()
    ensures var r := Extract(t, target, data, w, fs);
            forall i :: 0 <= i < |r.engine.standardFiles| ==>
              var f := r.engine.standardFiles[i];
              && ReadsCleanly(w, f)
              && ConvertPathTarget(r.engine, f, target) in r.fs
              && r.fs[ConvertPathTarget(r.engine, f, target)] == File(w.sources[f].content)
  {
    ExtractRunsEveryStep(t, target, data, w, fs);
    CategorisedBelow(t, w.walk);
    CategoriseFilesAppends(t, w.walk);
    var u := CategoriseFiles(t, w.walk).state;
    var made := CreateDirectories(u, target, RootState(fs, target));
    var rendered := ProcessTemplates(u, target, data, w, made.state);
    FilesCopied(u, target, w, u.standardFiles, rendered.state);
  }

  /** The plain target of a standard file, as a function of the file. */
  function CopyTarget(t: TemplateDir, target: Path): Path -> Path {
    p => ConvertPathTarget(t, p, target)
  }

  /**
    After a successful extraction every template rendered cleanly and its
    target is a file; a template whose target no later template and no
    standard file shares holds its rendered output.
   */
  lemma ExtractRendersTemplates<D>(t: TemplateDir, target: Path, data: D, w: World<D>, fs: FS)
    requires Extract(t, target, data, w, fs).Ok()
    ensures var r := Extract(t, target, data, w, fs);
            var ps := r.engine.templateFiles;
            forall i :: 0 <= i < |ps| ==>
              var dest := TemplateTarget(r.engine, ps[i], target);
              && RendersCleanly(w, data, ps[i])
              && IsFile(r.fs, dest)
              && ((&& (forall j :: i < j < |ps| ==> TemplateTarget(r.engine, ps[j], target) != dest)
                   && (forall j :: 0 <= j < |r.engine.standardFiles| ==> ConvertPathTarget(r.engine, r.engine.standardFiles[j], target) != dest))
                  ==> r.fs[dest] == File(w.renderer.execute(w.sources[ps[i]].content, data).output))
  {
    ExtractRunsEveryStep(t, target, data, w, fs);
    var u := CategoriseFiles(t, w.walk).state;
    var made := CreateDirectories(u, target, RootState(fs, target));
    var rendered := ProcessTemplates(u, target, data, w, made.state);
    var copied := CopyFiles(u, target, w, rendered.state);
    TemplatesRendered(u, target, data, w, u.templateFiles, made.state);
    WriteStepsKeep(u, target, data, w);
    PassKeeps(u.standardFiles, rendered.state, CopyStep(u, target, w));
    WriteStepsWriteAtTarget(u, target, data, w);
    var ps := u.templateFiles;
    forall i | 0 <= i < |ps|
      ensures var dest := TemplateTarget(u, ps[i], target);
              (forall j :: 0 <= j < |u.standardFiles| ==> ConvertPathTarget(u, u.standardFiles[j], target) != dest) ==>
                copied.state[dest] == rendered.state[dest]
    {
      var dest := TemplateTarget(u, ps[i], target);
      if forall j :: 0 <= j < |u.standardFiles| ==> ConvertPathTarget(u, u.standardFiles[j], target) != dest {
        PassTouchesOnlyKeys(u.standardFiles, rendered.state, CopyStep(u, target, w), CopyTarget(u, target), dest);
      }
    }
  }

  /** No operation in `log` belongs to a later pass than one after it. */
  predicate PhaseOrdered(log: seq<Op>) {
    forall i, j :: 0 <= i < j < |log| ==> Phase(log[i]) <= Phase(log[j])
  }

  predicate PhasesAtMost(log: seq<Op>, k: nat) {
    forall i :: 0 <= i < |log| ==> Phase(log[i]) <= k
  }

  predicate PhasesAre(log: seq<Op>, k: nat) {
    forall i :: 0 <= i < |log| ==> Phase(log[i]) == k
  }

  lemma OrderedAppend(a: seq<Op>, b: seq<Op>, k: nat)
    requires PhaseOrdered(a) && PhasesAtMost(a, k) && PhasesAre(b, k)
    ensures PhaseOrdered(a + b) && PhasesAtMost(a + b, k)
  {
    forall i, j | 0 <= i < j < |a + b|
      ensures Phase((a + b)[i]) <= Phase((a + b)[j])
    {
      if j >= |a| {
        assert (a + b)[j] == b[j - |a|];
        if i >= |a| {
          assert (a + b)[i] == b[i - |a|];
        }
      }
    }
    forall i | 0 <= i < |a + b|
      ensures Phase((a + b)[i]) <= k
    {
      if i >= |a| {
        assert (a + b)[i] == b[i - |a|];
      }
    }
  }

  /** A trace is in pass order and holds nothing from before the walk. */
  lemma TraceOrdered(a: seq<WalkEntry>, b: seq<Path>, c: seq<Path>, d: seq<Path>)
    ensures PhaseOrdered(Trace(a, b, c, d))
    ensures forall i :: 0 <= i < |Trace(a, b, c, d)| ==> Phase(Trace(a, b, c, d)[i]) >= 1
  {
    OrderedAppend([], WalkOps(a), 1);
    assert [] + WalkOps(a) == WalkOps(a);
    OrderedAppend(WalkOps(a), DirOps(b), 2);
    OrderedAppend(WalkOps(a) + DirOps(b), RenderOps(c), 3);
    OrderedAppend(WalkOps(a) + DirOps(b) + RenderOps(c), CopyOps(d), 4);
    var tr := Trace(a, b, c, d);
    forall i | 0 <= i < |tr|
      ensures Phase(tr[i]) >= 1
    {
      if i < |a| {
        assert tr[i] == WalkOps(a)[i];
      }
    }
  }

  /** `processTemplateDirFiles` logs a trace of the four kinds of calls, in pass order. */
  lemma ProcessLog<D>(t: TemplateDir, target: Path, data: D, w: World<D>, fs: FS)
    ensures var r := ProcessTemplateDirFiles(t, target, data, w, fs);
            && PhaseOrdered(r.log)
            && forall i :: 0 <= i < |r.log| ==> Phase(r.log[i]) >= 1
  {
    var walked := CategoriseFiles(t, w.walk);
    var u := walked.state;
    var made := CreateDirectories(u, target, fs);
    var rendered := ProcessTemplates(u, target, data, w, made.state);
    var copied := CopyFiles(u, target, w, rendered.state);
    var a := w.walk[..walked.attempted];
    var b := u.dirs[..made.attempted];
    var c := u.templateFiles[..rendered.attempted];
    TraceOrdered(a, [], [], []);
    TraceOrdered(a, b, [], []);
    TraceOrdered(a, b, c, []);
    TraceOrdered(a, b, c, u.standardFiles[..copied.attempted]);
  }

  /**
    Extraction's calls come in pass order (no directory made before the
    walk is over, no template rendered before every directory is made, no
    file copied before every template is rendered), and the target is
    made first, and only when `os.Stat` reports it missing.
   */
  lemma ExtractLog<D>(t: TemplateDir, target: Path, data: D, w: World<D>, fs: FS)
    ensures var r := Extract(t, target, data, w, fs);
            && PhaseOrdered(r.log)
            && (forall i :: 0 <= i < |r.log| ==> (r.log[i].MadeRoot? <==> i == 0 && StatNotExist(fs, target)))
            && (StatNotExist(fs, target) ==> |r.log| > 0 && r.log[0] == MadeRoot(target))
  {
    if StatNotExist(fs, target) && MkdirAll(fs, target).Ok() {
      var p := ProcessTemplateDirFiles(t, target, data, w, MkdirAll(fs, target).state);
      ProcessLog(t, target, data, w, MkdirAll(fs, target).state);
      var log := [MadeRoot(target)] + p.log;
      forall i, j | 0 <= i < j < |log|
        ensures Phase(log[i]) <= Phase(log[j])
      {
        assert log[j] == p.log[j - 1];
        if i > 0 {
          assert log[i] == p.log[i - 1];
        }
      }
      forall i | 0 < i < |log|
        ensures !log[i].MadeRoot?
      {
        assert log[i] == p.log[i - 1];
      }
    } else if !StatNotExist(fs, target) {
      ProcessLog(t, target, data, w, fs);
    }
  }

  /**
    Making one logged call again on the target as it stands: the target
    file system the call leaves and the error it returns.  A walk entry
    writes nothing, and fails exactly when it is the walk's error.
   */
  function Perform<D>(t: TemplateDir, target: Path, data: D, w: World<D>, op: Op, fs: FS): Effect<FS> {
    match op
    case MadeRoot(p) => MkdirAll(fs, p)
    case Walked(e) => if e.WalkFailed? then Effect(fs, Some(WalkError(e.path, e.reason))) else Effect(fs, None)
    case MadeDir(d) => DirStep(t, target)(d, fs)
    case Rendered(p) => TemplateStep(t, target, data, w)(p, fs)
    case Copied(f) => CopyStep(t, target, w)(f, fs)
  }

  function PerformStep<D>(t: TemplateDir, target: Path, data: D, w: World<D>): (Op, FS) -> Effect<FS> {
    (op: Op, fs: FS) => Perform(t, target, data, w, op, fs)
  }

  /** Making the logged calls again in order from `fs`, stopping at the first that fails. */
  function Replay<D>(t: TemplateDir, target: Path, data: D, w: World<D>, log: seq<Op>, fs: FS): Pass<FS> {
    ForEach(log, fs, PerformStep(t, target, data, w))
  }

  /** The walk entries the callback was given replay to the callback's outcome, writing nothing. */
  lemma {:induction false} WalkReplays<D>(t: TemplateDir, walk: seq<WalkEntry>, u: TemplateDir, target: Path, data: D, w: World<D>, fs: FS)
    ensures var c := CategoriseFiles(t, walk);
            Replay(u, target, data, w, WalkOps(walk[..c.attempted]), fs) == Pass(fs, c.attempted, c.err)
    decreases |walk|
  {
    var c := CategoriseFiles(t, walk);
    var ops := WalkOps(walk[..c.attempted]);
    if |walk| == 0 {
      assert ops == [];
    } else {
      var e := CategoriseFile(walk[0], t);
      assert ops[0] == Walked(walk[0]);
      if e.err.Some? {
        assert ops == [Walked(walk[0])];
      } else {
        var tail := walk[1..];
        WalkReplays(e.state, tail, u, target, data, w, fs);
        var k := CategoriseFiles(e.state, tail).attempted;
        assert ops[1..] == WalkOps(tail[..k]);
      }
    }
  }

  /** Replaying the logged directories is the directory pass over them. */
  lemma DirsReplay<D>(u: TemplateDir, target: Path, data: D, w: World<D>, ds: seq<Path>, fs: FS)
    ensures Replay(u, target, data, w, DirOps(ds), fs) == ForEach(ds, fs, DirStep(u, target))
  {
    ForEachAlike(ds, DirOps(ds), fs, DirStep(u, target), PerformStep(u, target, data, w));
  }

  /** Replaying the logged templates is the template pass over them. */
  lemma RendersReplay<D>(u: TemplateDir, target: Path, data: D, w: World<D>, ps: seq<Path>, fs: FS)
    ensures Replay(u, target, data, w, RenderOps(ps), fs) == ForEach(ps, fs, TemplateStep(u, target, data, w))
  {
    ForEachAlike(ps, RenderOps(ps), fs, TemplateStep(u, target, data, w), PerformStep(u, target, data, w));
  }

  /** Replaying the logged copies is the copy pass over them. */
  lemma CopiesReplay<D>(u: TemplateDir, target: Path, data: D, w: World<D>, files: seq<Path>, fs: FS)
    ensures Replay(u, target, data, w, CopyOps(files), fs) == ForEach(files, fs, CopyStep(u, target, w))
  {
    ForEachAlike(files, CopyOps(files), fs, CopyStep(u, target, w), PerformStep(u, target, data, w));
  }

  /** A log that replays without error, followed by more calls, replays as the latter from where the former left off. */
  lemma ReplayAppend<D>(u: TemplateDir, target: Path, data: D, w: World<D>, a: seq<Op>, b: seq<Op>, fs: FS, mid: FS)
    requires Replay(u, target, data, w, a, fs) == Pass(mid, |a|, None)
    ensures var rb := Replay(u, target, data, w, b, mid);
            Replay(u, target, data, w, a + b, fs) == Pass(rb.state, |a| + rb.attempted, rb.err)
  {
    ForEachAppend(a, b, fs, PerformStep(u, target, data, w));
  }

  /** The calls of the template and copy passes, the copies only when every template went through. */
  function WriteOps<D>(u: TemplateDir, target: Path, data: D, w: World<D>, fs: FS): seq<Op> {
    var rendered := ProcessTemplates(u, target, data, w, fs);
    var c := u.templateFiles[..rendered.attempted];
    if !rendered.Ok() then RenderOps(c)
    else RenderOps(c) + CopyOps(u.standardFiles[..CopyFiles(u, target, w, rendered.state).attempted])
  }

  /** Where the template and copy passes stop: the template pass's result if it failed, else the copy pass's. */
  function WriteEnd<D>(u: TemplateDir, target: Path, data: D, w: World<D>, fs: FS): Pass<FS> {
    var rendered := ProcessTemplates(u, target, data, w, fs);
    if !rendered.Ok() then rendered else CopyFiles(u, target, w, rendered.state)
  }

  /** The calls of the template and copy passes replay to where those passes stop. */
  lemma WritesReplay<D>(u: TemplateDir, target: Path, data: D, w: World<D>, fs: FS)
    ensures var e := WriteEnd(u, target, data, w, fs);
            Replay(u, target, data, w, WriteOps(u, target, data, w, fs), fs)
              == Pass(e.state, |WriteOps(u, target, data, w, fs)|, e.err)
  {
    var rendered := ProcessTemplates(u, target, data, w, fs);
    var c := u.templateFiles[..rendered.attempted];
    RendersReplay(u, target, data, w, c, fs);
    ForEachAttempted(u.templateFiles, fs, TemplateStep(u, target, data, w));
    if rendered.Ok() {
      var copied := CopyFiles(u, target, w, rendered.state);
      var d := u.standardFiles[..copied.attempted];
      CopiesReplay(u, target, data, w, d, rendered.state);
      ForEachAttempted(u.standardFiles, rendered.state, CopyStep(u, target, w));
      ReplayAppend(u, target, data, w, RenderOps(c), CopyOps(d), fs, rendered.state);
    }
  }

  /** With the walk and the directory pass through, `processTemplateDirFiles` is their calls followed by the writes. */
  lemma WritesShape<D>(t: TemplateDir, target: Path, data: D, w: World<D>, fs: FS)
    requires CategoriseFiles(t, w.walk).Ok()
    requires CreateDirectories(CategoriseFiles(t, w.walk).state, target, fs).Ok()
    ensures var u := CategoriseFiles(t, w.walk).state;
            var made := CreateDirectories(u, target, fs);
            var e := WriteEnd(u, target, data, w, made.state);
            ProcessTemplateDirFiles(t, target, data, w, fs)
              == Extraction(u, e.state, (WalkOps(w.walk) + DirOps(u.dirs)) + WriteOps(u, target, data, w, made.state), e.err)
  {
    var walked := CategoriseFiles(t, w.walk);
    var u := walked.state;
    var made := CreateDirectories(u, target, fs);
    var rendered := ProcessTemplates(u, target, data, w, made.state);
    var c := u.templateFiles[..rendered.attempted];
    var d := if rendered.Ok() then u.standardFiles[..CopyFiles(u, target, w, rendered.state).attempted] else [];
    assert w.walk[..walked.attempted] == w.walk;
    assert u.dirs[..made.attempted] == u.dirs;
    TraceSplit(w.walk, u.dirs, c, d);
  }

  /** A trace is the walk and directory calls followed by the template and copy calls. */
  lemma TraceSplit(a: seq<WalkEntry>, b: seq<Path>, c: seq<Path>, d: seq<Path>)
    ensures Trace(a, b, c, d) == (WalkOps(a) + DirOps(b)) + (RenderOps(c) + CopyOps(d))
    ensures d == [] ==> RenderOps(c) + CopyOps(d) == RenderOps(c)
  {
    assert d == [] ==> CopyOps(d) == [];
  }

  /** The walk and the directories a pass made replay, from the start, to that pass's result. */
  lemma HeadReplays<D>(t: TemplateDir, target: Path, data: D, w: World<D>, fs: FS)
    requires CategoriseFiles(t, w.walk).Ok()
    ensures var u := CategoriseFiles(t, w.walk).state;
            var made := CreateDirectories(u, target, fs);
            var b := u.dirs[..made.attempted];
            Replay(u, target, data, w, WalkOps(w.walk) + DirOps(b), fs) == Pass(made.state, |w.walk| + made.attempted, made.err)
  {
    var walked := CategoriseFiles(t, w.walk);
    var u := walked.state;
    var made := CreateDirectories(u, target, fs);
    var b := u.dirs[..made.attempted];
    WalkReplays(t, w.walk, u, target, data, w, fs);
    assert w.walk[..walked.attempted] == w.walk;
    DirsReplay(u, target, data, w, b, fs);
    ForEachAttempted(u.dirs, fs, DirStep(u, target));
    ReplayAppend(u, target, data, w, WalkOps(w.walk), DirOps(b), fs, fs);
  }

  /**
    `processTemplateDirFiles` made exactly the calls it logged: replaying
    its log from the file system it started on stops where it stopped,
    with its final file system and its error.
   */
  lemma ProcessReplays<D>(t: TemplateDir, target: Path, data: D, w: World<D>, fs: FS)
    ensures var r := ProcessTemplateDirFiles(t, target, data, w, fs);
            Replay(r.engine, target, data, w, r.log, fs) == Pass(r.fs, |r.log|, r.err)
  {
    var walked := CategoriseFiles(t, w.walk);
    var u := walked.state;
    if !walked.Ok() {
      WalkReplays(t, w.walk, u, target, data, w, fs);
      assert Trace(w.walk[..walked.attempted], [], [], []) == WalkOps(w.walk[..walked.attempted]);
    } else {
      var made := CreateDirectories(u, target, fs);
      HeadReplays(t, target, data, w, fs);
      if !made.Ok() {
        assert Trace(w.walk, u.dirs[..made.attempted], [], []) == WalkOps(w.walk) + DirOps(u.dirs[..made.attempted]);
        assert w.walk[..walked.attempted] == w.walk;
      } else {
        assert u.dirs[..made.attempted] == u.dirs;
        WritesShape(t, target, data, w, fs);
        WritesReplay(u, target, data, w, made.state);
        ReplayAppend(u, target, data, w, WalkOps(w.walk) + DirOps(u.dirs), WriteOps(u, target, data, w, made.state), fs, made.state);
      }
    }
  }

  /**
    `Extract` made exactly the calls it logged: replaying its log from the
    file system it started on (the target's creation, the walk, then the
    three passes) stops where it stopped, with its final file system and
    its error.  On success every logged call went through.
   */
  lemma ExtractReplays<D>(t: TemplateDir, target: Path, data: D, w: World<D>, fs: FS)
    ensures var r := Extract(t, target, data, w, fs);
            Replay(r.engine, target, data, w, r.log, fs) == Pass(r.fs, |r.log|, r.err)
  {
    if !StatNotExist(fs, target) {
      ProcessReplays(t, target, data, w, fs);
    } else {
      var root := MkdirAll(fs, target);
      if root.Ok() {
        var p := ProcessTemplateDirFiles(t, target, data, w, root.state);
        ProcessReplays(t, target, data, w, root.state);
        RootReplays(p.engine, target, data, w, fs);
        ReplayAppend(p.engine, target, data, w, [MadeRoot(target)], p.log, fs, root.state);
        RootedShape(t, target, data, w, fs);
      }
    }
  }

  /** Making the missing target replays as the one `os.MkdirAll` call. */
  lemma RootReplays<D>(u: TemplateDir, target: Path, data: D, w: World<D>, fs: FS)
    ensures var root := MkdirAll(fs, target);
            Replay(u, target, data, w, [MadeRoot(target)], fs) == Pass(root.state, 1, root.err)
  {
    var step := PerformStep(u, target, data, w);
    var root := MkdirAll(fs, target);
    assert step(MadeRoot(target), fs) == root;
    assert [MadeRoot(target)][1..] == [];
    assert ForEach([MadeRoot(target)][1..], root.state, step) == Pass(root.state, 0, None);
  }

  /**
    Fail-fast, for any run that replays to its own result: when it failed,
    every call it logged before the last went through when made again from
    `fs`, leaving `before`, and the last call, made on `before`, returned
    exactly the final file system and the error.
   */
  lemma Blame<D>(r: Extraction, target: Path, data: D, w: World<D>, fs: FS) returns (before: FS)
    requires Replay(r.engine, target, data, w, r.log, fs) == Pass(r.fs, |r.log|, r.err)
    requires !r.Ok()
    ensures var n := |r.log| - 1;
            && |r.log| > 0
            && Replay(r.engine, target, data, w, r.log[..n], fs) == Pass(before, n, None)
            && Perform(r.engine, target, data, w, r.log[n], before) == Effect(r.fs, r.err)
  {
    ForEachStopsAtFirstError(r.log, fs, PerformStep(r.engine, target, data, w));
    before := Replay(r.engine, target, data, w, r.log[..|r.log| - 1], fs).state;
  }

  /**
    Fail-fast: when `processTemplateDirFiles` fails, every call it logged
    before the last went through when made again from the file system it
    started on, leaving `before`; the last call, made on `before`, returns
    exactly the final file system and the error.
   */
  lemma ProcessBlame<D>(t: TemplateDir, target: Path, data: D, w: World<D>, fs: FS) returns (before: FS)
    requires !ProcessTemplateDirFiles(t, target, data, w, fs).Ok()
    ensures var r := ProcessTemplateDirFiles(t, target, data, w, fs);
            var n := |r.log| - 1;
            && |r.log| > 0
            && Replay(r.engine, target, data, w, r.log[..n], fs) == Pass(before, n, None)
            && Perform(r.engine, target, data, w, r.log[n], before) == Effect(r.fs, r.err)
  {
    ProcessReplays(t, target, data, w, fs);
    before := Blame(ProcessTemplateDirFiles(t, target, data, w, fs), target, data, w, fs);
  }

  /**
    Fail-fast: when extraction fails, every call it logged before the last
    went through when made again from the file system it started on,
    leaving `before`; the last call, made on `before`, returns exactly the
    final file system and the error.  By the pass order of the log, no
    later pass ran.
   */
  lemma ExtractBlame<D>(t: TemplateDir, target: Path, data: D, w: World<D>, fs: FS) returns (before: FS)
    requires !Extract(t, target, data, w, fs).Ok()
    ensures var r := Extract(t, target, data, w, fs);
            var n := |r.log| - 1;
            && |r.log| > 0
            && Replay(r.engine, target, data, w, r.log[..n], fs) == Pass(before, n, None)
            && Perform(r.engine, target, data, w, r.log[n], before) == Effect(r.fs, r.err)
  {
    ExtractReplays(t, target, data, w, fs);
    before := Blame(Extract(t, target, data, w, fs), target, data, w, fs);
  }

  /** With the missing target made, extraction is `processTemplateDirFiles` on the result, its log headed by `MadeRoot`. */
  lemma RootedShape<D>(t: TemplateDir, target: Path, data: D, w: World<D>, fs: FS)
    requires StatNotExist(fs, target) && MkdirAll(fs, target).Ok()
    ensures var p := ProcessTemplateDirFiles(t, target, data, w, MkdirAll(fs, target).state);
            Extract(t, target, data, w, fs) == p.(log := [MadeRoot(target)] + p.log)
  {
  }

  /** What an execution error answered by the last logged call says about that call and the file system it left. */
  lemma AnsweredExecError<D>(r: Extraction, target: Path, data: D, w: World<D>, p: Path, why: string, before: FS)
    requires |r.log| > 0 && Perform(r.engine, target, data, w, r.log[|r.log| - 1], before) == Effect(r.fs, r.err)
    requires r.err == Some(TemplateExecError(p, why))
    ensures && r.log[|r.log| - 1] == Rendered(p)
            && p in w.sources && w.sources[p].Readable?
            && w.renderer.parse(w.sources[p].content).None?
            && var run := w.renderer.execute(w.sources[p].content, data);
            && run.ExecFailed? && run.reason == why
            && TemplateTarget(r.engine, p, target) in r.fs
            && r.fs[TemplateTarget(r.engine, p, target)] == File(run.partial)
  {
    match r.log[|r.log| - 1]
    case MadeRoot(_) =>
    case Walked(_) =>
    case MadeDir(_) =>
    case Copied(_) =>
    case Rendered(q) =>
  }

  /**
    A template whose execution fails ends the extraction with that error,
    and the file created for it stays behind holding the partial output.
   */
  lemma ExecErrorLeavesPartialOutput<D>(t: TemplateDir, target: Path, data: D, w: World<D>, fs: FS, p: Path, why: string)
    requires Extract(t, target, data, w, fs).err == Some(TemplateExecError(p, why))
    ensures var r := Extract(t, target, data, w, fs);
            && |r.log| > 0 && r.log[|r.log| - 1] == Rendered(p)
            && p in w.sources && w.sources[p].Readable?
            && w.renderer.parse(w.sources[p].content).None?
            && var run := w.renderer.execute(w.sources[p].content, data);
            && run.ExecFailed? && run.reason == why
            && TemplateTarget(r.engine, p, target) in r.fs
            && r.fs[TemplateTarget(r.engine, p, target)] == File(run.partial)
  {
    var before := ExtractBlame(t, target, data, w, fs);
    AnsweredExecError(Extract(t, target, data, w, fs), target, data, w, p, why, before);
  }

  /** What a close error answered by the last logged call says about that call and the file system it left. */
  lemma AnsweredCloseError<D>(r: Extraction, target: Path, data: D, w: World<D>, q: Path, before: FS)
    requires |r.log| > 0 && Perform(r.engine, target, data, w, r.log[|r.log| - 1], before) == Effect(r.fs, r.err)
    requires r.err == Some(CloseError(q))
    ensures && r.log[|r.log| - 1].Copied?
            && var f := r.log[|r.log| - 1].file;
            && ConvertPathTarget(r.engine, f, target) == q && q in w.closeFaults
            && ReadsCleanly(w, f) && q in r.fs && r.fs[q] == File(w.sources[f].content)
  {
    match r.log[|r.log| - 1]
    case MadeRoot(_) =>
    case Walked(_) =>
    case MadeDir(_) =>
    case Rendered(_) =>
    case Copied(f) =>
  }

  /**
    A close error on a copied file ends the extraction with that error,
    yet the file was created and holds all of the source's bytes.
   */
  lemma CloseErrorAfterFullCopy<D>(t: TemplateDir, target: Path, data: D, w: World<D>, fs: FS, q: Path)
    requires Extract(t, target, data, w, fs).err == Some(CloseError(q))
    ensures var r := Extract(t, target, data, w, fs);
            && |r.log| > 0 && r.log[|r.log| - 1].Copied?
            && var f := r.log[|r.log| - 1].file;
            && ConvertPathTarget(r.engine, f, target) == q && q in w.closeFaults
            && ReadsCleanly(w, f) && q in r.fs && r.fs[q] == File(w.sources[f].content)
  {
    var before := ExtractBlame(t, target, data, w, fs);
    AnsweredCloseError(Extract(t, target, data, w, fs), target, data, w, q, before);
  }

  /** Where closing a destination fails has no bearing on rendering: `processTemplateDirs` drops those errors. */
  lemma {:induction false} TemplatesIgnoreCloseFaults<D>(t: TemplateDir, target: Path, data: D, w: World<D>, faults: set<Path>, ps: seq<Path>, fs: FS)
    ensures ForEach(ps, fs, TemplateStep(t, target, data, w)) == ForEach(ps, fs, TemplateStep(t, target, data, w.(closeFaults := faults)))
    decreases |ps|
  {
    if |ps| > 0 {
      var e := RenderTemplate(t, target, data, w, ps[0], fs);
      assert e == RenderTemplate(t, target, data, w.(closeFaults := faults), ps[0], fs);
      TemplatesIgnoreCloseFaults(t, target, data, w, faults, ps[1..], e.state);
    }
  }

  /** Below an empty read-only target, the directory pass fails on its first directory and writes nothing. */
  lemma DirPassReadOnly(u: TemplateDir, target: Path, fs: FS)
    requires ReadOnlyEmptyDir(fs, target) && AllBelow(u.dirs, u.path)
    ensures CreateDirectories(u, target, fs).state == fs
    ensures CreateDirectories(u, target, fs).Ok() <==> u.dirs == []
  {
    if |u.dirs| > 0 {
      var d := u.dirs[0];
      ConvertPathTargetRoundTrip(u, d, target);
      MkdirAllUnderReadOnly(fs, target, ConvertPathTarget(u, d, target));
    }
  }

  /** Into an empty read-only target, the template pass fails on its first template and writes nothing. */
  lemma TemplatePassReadOnly<D>(u: TemplateDir, target: Path, data: D, w: World<D>, fs: FS)
    requires WellFormed(fs) && ReadOnlyEmptyDir(fs, target) && AllBelow(u.templateFiles, u.path)
    ensures ProcessTemplates(u, target, data, w, fs).state == fs
    ensures ProcessTemplates(u, target, data, w, fs).Ok() <==> u.templateFiles == []
  {
    if |u.templateFiles| > 0 {
      var p := u.templateFiles[0];
      var step := TemplateStep(u, target, data, w);
      RenderIntoReadOnly(u, target, data, w, p, fs);
      assert step(p, fs) == RenderTemplate(u, target, data, w, p, fs);
      assert ForEach(u.templateFiles, fs, step) == Pass(fs, 1, RenderTemplate(u, target, data, w, p, fs).err);
    }
  }

  /** A template strictly below the source root cannot be rendered into an empty read-only target, and the attempt writes nothing. */
  lemma RenderIntoReadOnly<D>(u: TemplateDir, target: Path, data: D, w: World<D>, p: Path, fs: FS)
    requires WellFormed(fs) && ReadOnlyEmptyDir(fs, target) && u.path < p
    ensures !RenderTemplate(u, target, data, w, p, fs).Ok()
    ensures RenderTemplate(u, target, data, w, p, fs).state == fs
  {
    var dest := TemplateTarget(u, p, target);
    TemplateTargetPlacement(u, p, target);
    CreateNearReadOnly(fs, target, dest);
    if p in w.sources && w.sources[p].Readable? && w.renderer.parse(w.sources[p].content).None? {
      assert RenderTemplate(u, target, data, w, p, fs) == Create(fs, dest);
    }
  }

  /** Into an empty read-only target, the copy pass fails on its first file and writes nothing. */
  lemma CopyPassReadOnly<D>(u: TemplateDir, target: Path, w: World<D>, fs: FS)
    requires WellFormed(fs) && ReadOnlyEmptyDir(fs, target) && AllBelow(u.standardFiles, u.path)
    ensures CopyFiles(u, target, w, fs).state == fs
    ensures CopyFiles(u, target, w, fs).Ok() <==> u.standardFiles == []
  {
    if |u.standardFiles| > 0 {
      var f := u.standardFiles[0];
      ConvertPathTargetRoundTrip(u, f, target);
      CreateNearReadOnly(fs, target, ConvertPathTarget(u, f, target));
      var e := CopyFile(w, f, ConvertPathTarget(u, f, target), fs);
      assert !e.Ok() && e.state == fs;
    }
  }

  /**
    Extracting into an existing, empty, read-only target changes nothing
    there, and succeeds only when the walk goes through and finds nothing
    to make, render or copy.
   */
  lemma ReadOnlyTargetUntouched<D>(t: TemplateDir, target: Path, data: D, w: World<D>, fs: FS)
    requires WellFormed(fs) && ReadOnlyEmptyDir(fs, target) && WalkBelow(t, w.walk)
    ensures var r := Extract(t, target, data, w, fs);
            && r.fs == fs
            && (r.Ok() <==> CategoriseFiles(t, w.walk).Ok() && r.engine.dirs == [] && r.engine.templateFiles == [] && r.engine.standardFiles == [])
  {
    CategorisedBelow(t, w.walk);
    StatNotExistIff(fs, target);
    var u := CategoriseFiles(t, w.walk).state;
    DirPassReadOnly(u, target, fs);
    TemplatePassReadOnly(u, target, data, w, fs);
    CopyPassReadOnly(u, target, w, fs);
    assert Extract(t, target, data, w, fs) == ProcessTemplateDirFiles(t, target, data, w, fs);
  }
}
