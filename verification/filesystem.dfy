/**
  The target file system as a value: a map from absolute paths to nodes,
  and the three `os` calls the engine writes through (`os.MkdirAll`,
  `os.Create` and writing a created file's content).  Permission bits are
  reduced to whether a directory accepts new entries.
 */
module FileSystem {
  import opened Wrappers
  import opened Paths
  import opened Errors
  import opened FailFast

  newtype byte = x: int | 0 <= x < 256
  type Bytes = seq<byte>

  datatype Node = Directory(writable: bool) | File(content: Bytes)

  type FS = map<Path, Node>

  predicate IsDir(fs: FS, p: Path) {
    p in fs && fs[p].Directory?
  }

  predicate IsFile(fs: FS, p: Path) {
    p in fs && fs[p].File?
  }

  /**
    Whether `os.Stat(p)` fails with an error `os.IsNotExist` accepts.  The
    lookup resolves `p[..i]` for growing `i`: the first missing one gives
    "no such file or directory", unless a file stood in the way before it,
    which gives "not a directory" instead; a path that resolves exists.
   */
  predicate StatNotExist(fs: FS, p: Path) {
    StatNotExistFrom(fs, p, 0)
  }

  /** The lookup of `StatNotExist`, from the prefix `p[..i]` on. */
  predicate StatNotExistFrom(fs: FS, p: Path, i: nat)
    requires i <= |p|
    decreases |p| - i
  {
    if p[..i] !in fs then true
    else if i == |p| || fs[p[..i]].File? then false
    else StatNotExistFrom(fs, p, i + 1)
  }

  /** A real tree: the root is a directory and every other node hangs in a directory. */
  predicate WellFormed(fs: FS) {
    && IsDir(fs, [])
    && forall p | p in fs :: |p| > 0 ==> IsDir(fs, Dir(p))
  }

  /** Everything in `fs` is still in `fs'`, unchanged: nodes were only added. */
  predicate Extends(fs: FS, fs': FS) {
    forall p | p in fs :: p in fs' && fs'[p] == fs[p]
  }

  /** Every directory of `fs` is still there, unchanged (files may have been rewritten). */
  predicate KeepsDirectories(fs: FS, fs': FS) {
    forall p | p in fs :: fs[p].Directory? ==> p in fs' && fs'[p] == fs[p]
  }

  /** Every file of `fs` is still a file (its content may have changed). */
  predicate KeepsFiles(fs: FS, fs': FS) {
    forall p | p in fs :: fs[p].File? ==> IsFile(fs', p)
  }

  /** Nothing is removed: directories stay exactly as they were and files stay files. */
  predicate Persists(fs: FS, fs': FS) {
    KeepsDirectories(fs, fs') && KeepsFiles(fs, fs')
  }

  /**
    `fs'` is `fs`, or `fs` with one file written at `p`, where `p` was a
    file already or is new in a directory: the only change a create-and-write
    can make.
   */
  predicate WritesAt(fs: FS, fs': FS, p: Path) {
    || fs' == fs
    || (&& p in fs' && fs'[p].File? && fs' == fs[p := fs'[p]]
        && (IsFile(fs, p) || (p !in fs && |p| > 0 && IsDir(fs, Dir(p)))))
  }

  /**
    `os.MkdirAll(p, 0755)`: an existing directory is success and an
    existing file is an error; otherwise the parent is made first and then
    `p` itself, which needs the parent to accept new entries.  Directories
    made before a failure stay.
   */
  function MkdirAll(fs: FS, p: Path): (r: Effect<FS>)
    ensures Extends(fs, r.state)
    ensures forall q :: q in r.state && q !in fs ==> q <= p && r.state[q] == Directory(true)
    ensures r.Ok() ==> IsDir(r.state, p)
    ensures r.Ok() && IsDir(fs, p) ==> r.state == fs
    ensures r.err.Some? ==> r.err.value.NotADirectory? || r.err.value.NoSuchDirectory? || r.err.value.PermissionDenied?
    decreases |p|
  {
    if p in fs then
      if fs[p].Directory? then Effect(fs, None) else Effect(fs, Some(NotADirectory(p)))
    else if |p| == 0 then
      Effect(fs, Some(NoSuchDirectory(p)))
    else
      var up := MkdirAll(fs, Dir(p));
      if up.err.Some? then
        up
      else if up.state[Dir(p)].writable then
        Effect(up.state[p := Directory(true)], None)
      else
        Effect(up.state, Some(PermissionDenied(p)))
  }

  /**
    `os.Create(p)`: truncate an existing file, or make a new empty one in a
    directory that accepts new entries.  A failed call changes nothing.
    With the parent missing, `open(2)` resolves the parent like `os.Stat`
    does: a file met on the way gives "not a directory", a missing
    component "no such file or directory".
   */
  function Create(fs: FS, p: Path): (r: Effect<FS>)
    ensures r.Ok() ==> r.state == fs[p := File([])]
    ensures !r.Ok() ==> r.state == fs
    ensures r.Ok() <==> IsFile(fs, p) || (p !in fs && |p| > 0 && Dir(p) in fs && fs[Dir(p)] == Directory(true))
    ensures IsDir(fs, p) ==> r.err == Some(IsADirectory(p))
    ensures p !in fs && |p| > 0 && Dir(p) !in fs ==>
              r.err == (if StatNotExist(fs, Dir(p)) then Some(NoSuchDirectory(p)) else Some(NotADirectory(p)))
    ensures r.err.Some? ==> r.err.value.IsADirectory? || r.err.value.NotADirectory? || r.err.value.NoSuchDirectory? || r.err.value.PermissionDenied?
  {
    if p in fs then
      if fs[p].Directory? then Effect(fs, Some(IsADirectory(p))) else Effect(fs[p := File([])], None)
    else if |p| == 0 then
      Effect(fs, Some(NoSuchDirectory(p)))
    else if Dir(p) !in fs then
      if StatNotExist(fs, Dir(p)) then Effect(fs, Some(NoSuchDirectory(p))) else Effect(fs, Some(NotADirectory(p)))
    else
      match fs[Dir(p)]
      case File(_) => Effect(fs, Some(NotADirectory(p)))
      case Directory(w) => if w then Effect(fs[p := File([])], None) else Effect(fs, Some(PermissionDenied(p)))
  }

  /** Creating the same directory twice: the second call succeeds and changes nothing. */
  lemma MkdirAllIdempotent(fs: FS, p: Path)
    requires MkdirAll(fs, p).Ok()
    ensures MkdirAll(MkdirAll(fs, p).state, p) == Effect(MkdirAll(fs, p).state, None)
  {
  }

  /** `MkdirAll` keeps a well-formed tree well-formed, whether it succeeds or not. */
  lemma {:induction false} MkdirAllWellFormed(fs: FS, p: Path)
    requires WellFormed(fs)
    ensures WellFormed(MkdirAll(fs, p).state)
    decreases |p|
  {
    if p !in fs && |p| > 0 {
      MkdirAllWellFormed(fs, Dir(p));
    }
  }

  /** `Create` keeps a well-formed tree well-formed. */
  lemma CreateWellFormed(fs: FS, p: Path)
    requires WellFormed(fs)
    ensures WellFormed(Create(fs, p).state)
  {
  }

  /** Adding nodes removes nothing. */
  lemma ExtendsPersists(fs: FS, fs': FS)
    requires Extends(fs, fs')
    ensures Persists(fs, fs')
  {
  }

  /** A single create-and-write removes nothing and keeps a tree a tree. */
  lemma WritesAtPersists(fs: FS, fs': FS, p: Path)
    requires WritesAt(fs, fs', p)
    ensures Persists(fs, fs')
    ensures WellFormed(fs) ==> WellFormed(fs')
  {
  }

  /** `Persists` composes. */
  lemma PersistsTransitive(a: FS, b: FS, c: FS)
    requires Persists(a, b) && Persists(b, c)
    ensures Persists(a, c)
  {
  }

  /** In a tree, every ancestor of an existing node is a directory. */
  lemma {:induction false} AncestorsAreDirs(fs: FS, p: Path, a: Path)
    requires WellFormed(fs) && p in fs && a < p
    ensures IsDir(fs, a)
    decreases |p|
  {
    assert IsDir(fs, Dir(p));
    if Dir(p) != a {
      assert a < Dir(p);
      AncestorsAreDirs(fs, Dir(p), a);
    }
  }

  /**
    In a tree, `os.Stat` reports "does not exist" exactly when the path is
    missing and every ancestor of it that exists is a directory: a file
    above the path makes the answer "not a directory" instead.
   */
  lemma StatNotExistIff(fs: FS, p: Path)
    requires WellFormed(fs)
    ensures StatNotExist(fs, p) <==>
              p !in fs && forall i :: 0 <= i < |p| && p[..i] in fs ==> fs[p[..i]].Directory?
  {
    StatNotExistFromIff(fs, p, 0);
  }

  lemma {:induction false} StatNotExistFromIff(fs: FS, p: Path, i: nat)
    requires WellFormed(fs) && i <= |p|
    ensures StatNotExistFrom(fs, p, i) <==>
              p !in fs && forall j :: i <= j < |p| && p[..j] in fs ==> fs[p[..j]].Directory?
    decreases |p| - i
  {
    assert p[..|p|] == p;
    if p[..i] !in fs {
      if p in fs && i < |p| {
        assert p[..i] < p;
        AncestorsAreDirs(fs, p, p[..i]);
      }
      forall j | i < j < |p| && p[..j] in fs
        ensures false
      {
        assert p[..i] < p[..j];
        AncestorsAreDirs(fs, p[..j], p[..i]);
      }
    } else if i == |p| {
      assert p[..i] == p;
    } else if !fs[p[..i]].File? {
      StatNotExistFromIff(fs, p, i + 1);
    }
  }

  /** A name missing from an existing directory does not exist; one below an existing file is "not a directory". */
  lemma StatBesideAndBelow(fs: FS, p: Path, q: Path)
    requires WellFormed(fs) && |p| > 0
    ensures p !in fs && IsDir(fs, Dir(p)) ==> StatNotExist(fs, p)
    ensures q < p && IsFile(fs, q) ==> !StatNotExist(fs, p)
  {
    StatNotExistIff(fs, p);
    if p !in fs && IsDir(fs, Dir(p)) {
      forall i | 0 <= i < |p| && p[..i] in fs
        ensures fs[p[..i]].Directory?
      {
        if p[..i] != Dir(p) {
          assert p[..i] < Dir(p);
          AncestorsAreDirs(fs, Dir(p), p[..i]);
        }
      }
    }
    if q < p && IsFile(fs, q) {
      assert p[..|q|] == q;
    }
  }

  /** In a tree, creating anything below an existing file fails with "not a directory" and changes nothing. */
  lemma CreateBelowFile(fs: FS, q: Path, p: Path)
    requires WellFormed(fs) && IsFile(fs, q) && q < p
    ensures Create(fs, p) == Effect(fs, Some(NotADirectory(p)))
  {
    assert p !in fs by {
      if p in fs {
        AncestorsAreDirs(fs, p, q);
      }
    }
    if Dir(p) != q {
      assert q < Dir(p);
      assert Dir(p) !in fs by {
        if Dir(p) in fs {
          AncestorsAreDirs(fs, Dir(p), q);
        }
      }
      StatBesideAndBelow(fs, Dir(p), q);
    }
  }

  /** `top` is an empty directory that accepts no new entries. */
  predicate ReadOnlyEmptyDir(fs: FS, top: Path) {
    && top in fs && fs[top] == Directory(false)
    && forall q | q in fs :: !(top < q)
  }

  /**
    Below an empty directory that accepts no new entries, `MkdirAll` fails
    and leaves the tree as it was.
   */
  lemma {:induction false} MkdirAllUnderReadOnly(fs: FS, top: Path, p: Path)
    requires ReadOnlyEmptyDir(fs, top)
    requires top < p
    ensures !MkdirAll(fs, p).Ok() && MkdirAll(fs, p).state == fs
    decreases |p|
  {
    assert p !in fs;
    if Dir(p) != top {
      assert top < Dir(p);
      MkdirAllUnderReadOnly(fs, top, Dir(p));
    }
  }

  /**
    At or above an existing directory, or below an empty directory that
    accepts no new entries, `Create` fails and changes nothing.
   */
  lemma CreateNearReadOnly(fs: FS, top: Path, p: Path)
    requires WellFormed(fs) && ReadOnlyEmptyDir(fs, top)
    requires p <= top || top < p
    ensures !Create(fs, p).Ok() && Create(fs, p).state == fs
  {
    if p < top {
      AncestorsAreDirs(fs, top, p);
    } else if top < p {
      assert p !in fs;
      assert top <= Dir(p);
      if Dir(p) != top {
        assert top < Dir(p);
        assert Dir(p) !in fs;
      } else {
        assert fs[Dir(p)] == Directory(false);
        assert Create(fs, p) == Effect(fs, Some(PermissionDenied(p)));
      }
    } else {
      assert p == top;
    }
  }
}
