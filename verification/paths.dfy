/**
  File-system paths as sequences of components.  A clean absolute path such
  as `/home/me/tpl/sub/a.txt` is `["home", "me", "tpl", "sub", "a.txt"]`,
  and `/` is the empty sequence.  Paths are taken to be clean: when the
  source root is clean and absolute, `filepath.Walk` yields the root joined
  with plain names, and on those a string prefix test against the root
  agrees with a component prefix test.  A root such as `/a//src`, `./tpl`
  or `/src/.` breaks that agreement (Walk's cleaned child paths no longer
  start with the root's text) and has no counterpart here.
 */
module Paths {

  type Component = string
  type Path = seq<Component>

  /** `filepath.Base`: the last component; Go reports `/` for the root. */
  function Base(p: Path): (r: Component)
    ensures |p| == 0 ==> r == "/"
    ensures |p| > 0 ==> Dir(p) + [r] == p
  {
    if |p| == 0 then "/" else p[|p| - 1]
  }

  /** `filepath.Dir`: everything but the last component; the root is its own directory. */
  function Dir(p: Path): (r: Path)
    ensures r <= p
    ensures |p| > 0 ==> |r| == |p| - 1
    ensures |p| == 0 ==> r == []
  {
    if |p| == 0 then p else p[..|p| - 1]
  }

  /**
    `strings.TrimPrefix(p, root)`: the part of `p` below `root`, or `p`
    itself when `root` is not a prefix of it.
   */
  function TrimPrefix(p: Path, root: Path): (r: Path)
    ensures root <= p ==> root + r == p
    ensures !(root <= p) ==> r == p
  {
    if root <= p then p[|root|..] else p
  }

  /**
    `filepath.Join(dir, name)` for a single name: `Join` drops an empty
    element and `Clean` folds `.` into the directory and `..` into its
    parent (the parent of `/` is `/`).
   */
  function JoinName(dir: Path, name: Component): (r: Path)
    ensures name !in {"", ".", ".."} ==> r == dir + [name]
    ensures name in {"", "."} ==> r == dir
    ensures name == ".." ==> r == Dir(dir)
  {
    if name == "" || name == "." then dir
    else if name == ".." then Dir(dir)
    else dir + [name]
  }

  /** A clean path has no empty, `.` or `..` component, and no component holds a separator. */
  predicate IsClean(p: Path) {
    forall i :: 0 <= i < |p| ==> p[i] != "" && p[i] != "." && p[i] != ".." && '/' !in p[i]
  }

  /**
    `filepath.Clean` on an absolute path given as components, read left to
    right: an empty name and `.` are dropped, `..` removes the last name
    kept so far (and stays at `/` when there is none), anything else is kept.
   */
  function Clean(p: Path): Path {
    CleanOnto([], p)
  }

  /** The cleaning scan of `rest`, with `kept` the names kept so far. */
  function CleanOnto(kept: Path, rest: Path): Path
    decreases |rest|
  {
    if |rest| == 0 then kept
    else if rest[0] == "" || rest[0] == "." then CleanOnto(kept, rest[1..])
    else if rest[0] == ".." then CleanOnto(if |kept| == 0 then kept else kept[..|kept| - 1], rest[1..])
    else CleanOnto(kept + [rest[0]], rest[1..])
  }

  /** A clean path goes through the scan unchanged. */
  lemma {:induction false} CleanOntoClean(kept: Path, rest: Path)
    requires IsClean(rest)
    ensures CleanOnto(kept, rest) == kept + rest
    decreases |rest|
  {
    if |rest| > 0 {
      assert IsClean(rest[1..]) by {
        forall i | 0 <= i < |rest[1..]|
          ensures rest[1..][i] != "" && rest[1..][i] != "." && rest[1..][i] != ".." && '/' !in rest[1..][i]
        {
          assert rest[1..][i] == rest[i + 1];
        }
      }
      CleanOntoClean(kept + [rest[0]], rest[1..]);
      assert (kept + [rest[0]]) + rest[1..] == kept + rest;
    }
  }

  /** The scan of `a + b` is the scan of `b` continued from where the scan of `a` stopped. */
  lemma {:induction false} CleanOntoAppend(kept: Path, a: Path, b: Path)
    ensures CleanOnto(kept, a + b) == CleanOnto(CleanOnto(kept, a), b)
    decreases |a|
  {
    if |a| > 0 {
      assert (a + b)[0] == a[0] && (a + b)[1..] == a[1..] + b;
      var next := if a[0] == "" || a[0] == "." then kept
                  else if a[0] == ".." then (if |kept| == 0 then kept else kept[..|kept| - 1])
                  else kept + [a[0]];
      CleanOntoAppend(next, a[1..], b);
    } else {
      assert a + b == b;
    }
  }

  /**
    `filepath.Join(dir, name)` is `Clean(dir + "/" + name)`: joining one
    separator-free name onto a clean directory gives the cleaned path, and
    the result is clean again.
   */
  lemma JoinNameCleans(dir: Path, name: Component)
    requires IsClean(dir) && '/' !in name
    ensures JoinName(dir, name) == Clean(dir + [name])
    ensures IsClean(JoinName(dir, name))
  {
    CleanOntoAppend([], dir, [name]);
    CleanOntoClean([], dir);
    assert [] + dir == dir;
    assert [name][1..] == [];
    if name == ".." && |dir| > 0 {
      assert Dir(dir) == dir[..|dir| - 1];
    }
  }

  /** Every element of `ps` lies at or below `root`. */
  predicate AllUnder(ps: seq<Path>, root: Path) {
    forall i :: 0 <= i < |ps| ==> root <= ps[i]
  }

  /** Every element of `ps` lies strictly below `root`. */
  predicate AllBelow(ps: seq<Path>, root: Path) {
    forall i :: 0 <= i < |ps| ==> root < ps[i]
  }
}
