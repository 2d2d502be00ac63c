/**
  The shape shared by every loop of the engine: visit the items in order,
  stop at the first error and return it, keeping whatever the earlier
  items already did.  `filepath.Walk` driving `categoriseFile` and the
  three `for ... range` loops of `createDirectories`, `processTemplateDirs`
  and `copyFiles` are all instances.
 */
module FailFast {
  import opened Wrappers
  import opened Errors

  /** What one call leaves behind: the new state, and the error it returned if it failed. */
  datatype Effect<S> = Effect(state: S, err: Option<Error>) {
    predicate Ok() {
      err.None?
    }
  }

  /** What a loop leaves behind: the state, how many items it started on, and the error it stopped at. */
  datatype Pass<S> = Pass(state: S, attempted: nat, err: Option<Error>) {
    predicate Ok() {
      err.None?
    }
  }

  /** `for _, x := range items { if err := step(x); err != nil { return err } }`, with the state threaded through. */
  function ForEach<T, S>(items: seq<T>, s: S, step: (T, S) -> Effect<S>): (r: Pass<S>)
    ensures r.attempted <= |items|
    ensures r.Ok() ==> r.attempted == |items|
    ensures !r.Ok() ==> r.attempted > 0
    decreases |items|
  {
    if |items| == 0 then
      Pass(s, 0, None)
    else
      var e := step(items[0], s);
      if e.err.Some? then
        Pass(e.state, 1, e.err)
      else
        var rest := ForEach(items[1..], e.state, step);
        Pass(rest.state, rest.attempted + 1, rest.err)
  }

  /**
    Fail-fast: when the loop stops with an error, every item before the
    last one it started on went through without error, and the result is
    exactly what the step on that last item returned.
   */
  lemma {:induction false} ForEachStopsAtFirstError<T, S>(items: seq<T>, s: S, step: (T, S) -> Effect<S>)
    requires !ForEach(items, s, step).Ok()
    ensures var r := ForEach(items, s, step);
            var before := ForEach(items[..r.attempted - 1], s, step);
            && before.Ok()
            && step(items[r.attempted - 1], before.state) == Effect(r.state, r.err)
    decreases |items|
  {
    var e := step(items[0], s);
    if e.err.None? {
      var r := ForEach(items, s, step);
      var tail := items[1..];
      ForEachStopsAtFirstError(tail, e.state, step);
      var k := r.attempted - 1;
      assert items[..k] == [items[0]] + tail[..k - 1];
      assert items[..k][1..] == tail[..k - 1];
      assert items[k] == tail[k - 1];
    } else {
      assert items[..0] == [];
    }
  }

  /** Running over `a + b` is running over `a` and then, if that went through, over `b`. */
  lemma {:induction false} ForEachAppend<T, S>(a: seq<T>, b: seq<T>, s: S, step: (T, S) -> Effect<S>)
    ensures var ra := ForEach(a, s, step);
            var rb := ForEach(b, ra.state, step);
            ForEach(a + b, s, step) == if !ra.Ok() then ra else Pass(rb.state, |a| + rb.attempted, rb.err)
    decreases |a|
  {
    if |a| == 0 {
      assert a + b == b;
    } else {
      assert (a + b)[0] == a[0];
      assert (a + b)[1..] == a[1..] + b;
      var e := step(a[0], s);
      if e.err.None? {
        ForEachAppend(a[1..], b, e.state, step);
      }
    }
  }

  /**
    The prefix a loop started on replays to the same result: run over just
    the items it attempted, it ends in the same state with the same error.
   */
  lemma {:induction false} ForEachAttempted<T, S>(items: seq<T>, s: S, step: (T, S) -> Effect<S>)
    ensures var r := ForEach(items, s, step);
            ForEach(items[..r.attempted], s, step) == r
    decreases |items|
  {
    var r := ForEach(items, s, step);
    if |items| == 0 {
      assert items[..0] == [];
    } else {
      var e := step(items[0], s);
      if e.err.Some? {
        assert items[..1] == [items[0]];
      } else {
        var tail := items[1..];
        ForEachAttempted(tail, e.state, step);
        var k := ForEach(tail, e.state, step).attempted;
        assert items[..r.attempted][0] == items[0];
        assert items[..r.attempted][1..] == tail[..k];
      }
    }
  }

  /**
    Two loops whose steps agree item by item, on every state, run alike:
    same final state, same number of items started, same error.
   */
  lemma {:induction false} ForEachAlike<T, U, S>(xs: seq<T>, ys: seq<U>, s: S, step: (T, S) -> Effect<S>, step': (U, S) -> Effect<S>)
    requires |ys| == |xs|
    requires forall i, u :: 0 <= i < |xs| ==> step'(ys[i], u) == step(xs[i], u)
    ensures ForEach(ys, s, step') == ForEach(xs, s, step)
    decreases |xs|
  {
    if |xs| > 0 {
      assert step'(ys[0], s) == step(xs[0], s);
      var e := step(xs[0], s);
      forall i, u | 0 <= i < |xs| - 1
        ensures step'(ys[1..][i], u) == step(xs[1..][i], u)
      {
        assert step'(ys[i + 1], u) == step(xs[i + 1], u);
      }
      ForEachAlike(xs[1..], ys[1..], e.state, step, step');
    }
  }

  /**
    A relation that every step keeps between the state before and the state
    after, and that composes, holds between the loop's first and last state,
    whether or not it stopped early.
   */
  lemma {:induction false} ForEachKeeps<T, S>(items: seq<T>, s: S, step: (T, S) -> Effect<S>, keep: (S, S) -> bool)
    requires forall u :: keep(u, u)
    requires forall x, u :: keep(u, step(x, u).state)
    requires forall u, v, w :: keep(u, v) && keep(v, w) ==> keep(u, w)
    ensures keep(s, ForEach(items, s, step).state)
    decreases |items|
  {
    if |items| > 0 {
      var e := step(items[0], s);
      assert keep(s, e.state);
      if e.err.None? {
        ForEachKeeps(items[1..], e.state, step, keep);
        assert keep(e.state, ForEach(items[1..], e.state, step).state);
      }
    }
  }
}
