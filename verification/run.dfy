/**
 * Running a list of steps in order where any step's error is fatal, as
 * setup and paint do with `must` and `log.Fatal`. A step is anything whose
 * effect, given the trace position of its first call, is an Outcome.
 */
module Run {
  import opened Wrappers
  import opened Kernel

  /** The calls an operation made, in order, and the error it returned. */
  datatype Outcome = Outcome(events: seq<Event>, err: Option<Error>)

  /** `a` and then, unless it failed, `b`, whose first call follows `a`'s last. */
  function Then(a: Outcome, b: Outcome): Outcome {
    if a.err.Some? then a else Outcome(a.events + b.events, b.err)
  }

  /**
   * Two phases over trace snapshots: the trace is `base` plus `a`'s calls,
   * and then, unless `a` failed, `b`'s.
   */
  lemma ThenStep(a: Outcome, b: Outcome, base: seq<Event>, t0: seq<Event>, e0: Option<Error>, t1: seq<Event>, e1: Option<Error>)
    requires t0 == base + a.events && e0 == a.err
    requires e0.None? ==> t1 == t0 + b.events && e1 == b.err
    ensures e0.Some? ==> t0 == base + Then(a, b).events && e0 == Then(a, b).err
    ensures e0.None? ==> t1 == base + Then(a, b).events && e1 == Then(a, b).err
  {
  }

  /**
   * What running `acts` from trace position `n` does: the steps up to and
   * including the first one that fails, and its error.
   */
  function RunOutcome<A>(step: (A, nat) -> Outcome, acts: seq<A>, n: nat): Outcome
    decreases |acts|
  {
    if acts == [] then Outcome([], None)
    else
      var o := step(acts[0], n);
      if o.err.Some? then o
      else
        var r := RunOutcome(step, acts[1..], n + |o.events|);
        Outcome(o.events + r.events, r.err)
  }

  /** Running one more step after a successful run appends that step's outcome. */
  lemma {:induction false} RunSnoc<A>(step: (A, nat) -> Outcome, acts: seq<A>, a: A, n: nat)
    requires RunOutcome(step, acts, n).err.None?
    ensures var o := RunOutcome(step, acts, n);
      var x := step(a, n + |o.events|);
      RunOutcome(step, acts + [a], n) == Outcome(o.events + x.events, x.err)
    decreases |acts|
  {
    if acts == [] {
      assert [a][1..] == [];
    } else {
      assert (acts + [a])[0] == acts[0];
      assert (acts + [a])[1..] == acts[1..] + [a];
      RunSnoc(step, acts[1..], a, n + |step(acts[0], n).events|);
    }
  }

  /** Once a run has failed, no later step happens. */
  lemma {:induction false} RunStops<A>(step: (A, nat) -> Outcome, acts: seq<A>, rest: seq<A>, n: nat)
    requires RunOutcome(step, acts, n).err.Some?
    ensures RunOutcome(step, acts + rest, n) == RunOutcome(step, acts, n)
    decreases |acts|
  {
    assert (acts + rest)[0] == acts[0];
    assert (acts + rest)[1..] == acts[1..] + rest;
    var o := step(acts[0], n);
    if o.err.None? {
      RunStops(step, acts[1..], rest, n + |o.events|);
    }
  }

  /** A run of two lists is the run of the first, then, if it succeeded, the run of the second. */
  lemma {:induction false} RunAppend<A>(step: (A, nat) -> Outcome, xs: seq<A>, ys: seq<A>, n: nat)
    ensures var o := RunOutcome(step, xs, n);
      RunOutcome(step, xs + ys, n) ==
        if o.err.Some? then o
        else var r := RunOutcome(step, ys, n + |o.events|); Outcome(o.events + r.events, r.err)
    decreases |xs|
  {
    if xs == [] {
      assert xs + ys == ys;
    } else {
      assert (xs + ys)[0] == xs[0];
      assert (xs + ys)[1..] == xs[1..] + ys;
      var o := step(xs[0], n);
      if o.err.None? {
        RunAppend(step, xs[1..], ys, n + |o.events|);
      }
    }
  }

  /**
   * A failed run is a successful run of the steps before some step `i`,
   * followed by step `i`, which failed: the failing step's calls are the
   * last ones made.
   */
  lemma RunFailure<A>(step: (A, nat) -> Outcome, acts: seq<A>, n: nat) returns (i: nat)
    requires RunOutcome(step, acts, n).err.Some?
    ensures i < |acts|
    ensures var pre := RunOutcome(step, acts[..i], n);
      var x := step(acts[i], n + |pre.events|);
      pre.err.None? && x.err.Some? && RunOutcome(step, acts, n) == Outcome(pre.events + x.events, x.err)
  {
    i := 0;
    assert acts[..0] == [];
    while true
      invariant i < |acts| && RunOutcome(step, acts[..i], n).err.None?
      decreases |acts| - i
    {
      Advance(step, acts, i, n);
      if RunOutcome(step, acts[..i + 1], n).err.Some? {
        return;
      }
      i := i + 1;
    }
  }

  /**
   * A phase that went through followed by a run that failed: the failing
   * step of the run is the last thing that happens.
   */
  lemma ThenFailure<A>(a: Outcome, step: (A, nat) -> Outcome, acts: seq<A>, n: nat) returns (i: nat)
    requires a.err.None? && RunOutcome(step, acts, n + |a.events|).err.Some?
    ensures i < |acts|
    ensures var m := n + |a.events|;
      var pre := RunOutcome(step, acts[..i], m);
      var x := step(acts[i], m + |pre.events|);
      pre.err.None? && x.err.Some? && Then(a, RunOutcome(step, acts, m)) == Outcome(a.events + (pre.events + x.events), x.err)
  {
    i := RunFailure(step, acts, n + |a.events|);
  }

  /**
   * The run of the first `i` steps, extended by step `i`; if that step
   * fails, it is where the whole run ends.
   */
  lemma Advance<A>(step: (A, nat) -> Outcome, acts: seq<A>, i: nat, n: nat)
    requires i < |acts| && RunOutcome(step, acts[..i], n).err.None?
    ensures var o := RunOutcome(step, acts[..i], n);
      var x := step(acts[i], n + |o.events|);
      RunOutcome(step, acts[..i + 1], n) == Outcome(o.events + x.events, x.err) &&
      (x.err.Some? || i + 1 == |acts| ==> RunOutcome(step, acts, n) == RunOutcome(step, acts[..i + 1], n))
  {
    assert acts[..i + 1] == acts[..i] + [acts[i]];
    RunSnoc(step, acts[..i], acts[i], n);
    if RunOutcome(step, acts[..i + 1], n).err.Some? {
      RunStops(step, acts[..i + 1], acts[i + 1..], n);
      assert acts[..i + 1] + acts[i + 1..] == acts;
    }
    assert i + 1 == |acts| ==> acts[..i + 1] == acts;
  }

  /**
   * One step of code that runs `acts`, over snapshots of the trace: if the
   * trace `t0` is `base` plus the successful run of the first `i` steps,
   * and step `i` then appends the calls of `x`, the trace `t1` is `base`
   * plus the run of the first `i + 1` steps, which is the whole run if `x`
   * failed.
   */
  lemma RunStep<A>(step: (A, nat) -> Outcome, acts: seq<A>, i: nat, m: nat, base: seq<Event>, t0: seq<Event>, x: Outcome, t1: seq<Event>)
    requires i < |acts| && |base| == m
    requires RunOutcome(step, acts[..i], m).err.None?
    requires t0 == base + RunOutcome(step, acts[..i], m).events
    requires x == step(acts[i], |t0|) && t1 == t0 + x.events
    ensures x.err.Some? ==> t1 == base + RunOutcome(step, acts, m).events && x.err == RunOutcome(step, acts, m).err
    ensures x.err.None? ==> RunOutcome(step, acts[..i + 1], m).err.None? && t1 == base + RunOutcome(step, acts[..i + 1], m).events
  {
    Advance(step, acts, i, m);
  }
}
