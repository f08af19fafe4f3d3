/**
 Building runs step by step, and the continuations of a run.
 */
module DispatcherRuns {
  import opened DispatcherModel
  import opened DispatcherInvariant

  /** Append one step to a run. */
  lemma Extend(tr: seq<State>, steps: seq<Step>, st: Step, s': State)
    requires IsRun(tr, steps) && Enabled(tr[|steps|], st) && s' == Apply(tr[|steps|], st)
    ensures IsRun(tr + [s'], steps + [st])
    ensures (tr + [s'])[|steps + [st]|] == s'
  {
    var (tr', steps') := (tr + [s'], steps + [st]);
    forall k | 0 <= k < |steps'| ensures IsStep(tr', steps', k) {
      if k < |steps| {
        assert IsStep(tr, steps, k);
      }
    }
  }

  /** The second run begins with the first. */
  ghost predicate Continues(tr: seq<State>, steps: seq<Step>, tr': seq<State>, steps': seq<Step>) {
    && IsRun(tr, steps) && IsRun(tr', steps') && |steps| <= |steps'|
    && (forall k :: 0 <= k <= |steps| ==> tr'[k] == tr[k])
    && (forall k :: 0 <= k < |steps| ==> steps'[k] == steps[k])
  }

  lemma ContinuesTransitively(tr: seq<State>, steps: seq<Step>, tr1: seq<State>, steps1: seq<Step>,
                              tr2: seq<State>, steps2: seq<Step>)
    requires Continues(tr, steps, tr1, steps1) && Continues(tr1, steps1, tr2, steps2)
    ensures Continues(tr, steps, tr2, steps2)
  {
  }

  /** A continuation by one step. */
  lemma OneMore(tr: seq<State>, steps: seq<Step>, st: Step) returns (tr': seq<State>, steps': seq<Step>)
    requires IsRun(tr, steps) && Enabled(tr[|steps|], st)
    ensures Continues(tr, steps, tr', steps') && |steps'| == |steps| + 1 && steps'[|steps|] == st
    ensures tr'[|steps'|] == Apply(tr[|steps|], st)
  {
    var s' := Apply(tr[|steps|], st);
    Extend(tr, steps, st, s');
    tr', steps' := tr + [s'], steps + [st];
  }
}
