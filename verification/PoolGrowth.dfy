/**
  How the pool of workpool.c grows when several callers ask stage 0 for a buffer.
  Each tests elements against max_elements, makes a buffer, and counts it by a read
  and a write of elements, with no lock around any two of these.
 */
module PoolGrowth {
  datatype Caller = Outside | Passed | Counting(seen: int)

  // counted: pool->elements.  made: the buffers there are.
  datatype State = State(callers: seq<Caller>, counted: int, made: int)

  datatype Step = Test(t: nat) | Make(t: nat) | Count(t: nat)

  predicate Enabled(s: State, step: Step, max: int) {
    && step.t < |s.callers|
    && match step
       case Test(t) => s.callers[t].Outside? && s.counted < max
       case Make(t) => s.callers[t].Passed?
       case Count(t) => s.callers[t].Counting?
  }

  function Apply(s: State, step: Step, max: int): State
    requires Enabled(s, step, max)
  {
    match step
    case Test(t) => s.(callers := s.callers[t := Passed])
    case Make(t) => s.(callers := s.callers[t := Counting(s.counted)], made := s.made + 1)
    case Count(t) => s.(callers := s.callers[t := Outside], counted := s.callers[t].seen + 1)
  }

  function Empty(n: nat): State { State(seq(n, i => Outside), 0, 0) }

  ghost predicate IsRun(states: seq<State>, steps: seq<Step>, n: nat, max: int) {
    && |states| == |steps| + 1 && states[0] == Empty(n)
    && forall i :: 0 <= i < |steps| ==>
         Enabled(states[i], steps[i], max) && states[i + 1] == Apply(states[i], steps[i], max)
  }

  /* One caller. */

  predicate Exact(s: State, max: int) {
    && |s.callers| <= 1 && s.counted <= s.made
    && (s.callers == [] ==> s.made == 0)
    && (|s.callers| == 1 ==>
          match s.callers[0]
          case Outside => s.made == s.counted && (s.made <= max || s.made == 0)
          case Passed => s.made == s.counted < max
          case Counting(seen) => s.made == s.counted + 1 <= max && seen == s.counted)
  }

  lemma {:induction false} ExactInRuns(states: seq<State>, steps: seq<Step>, n: nat, max: int, k: nat)
    requires IsRun(states, steps, n, max) && n <= 1 && k < |states|
    ensures Exact(states[k], max)
  {
    if k > 0 { ExactInRuns(states, steps, n, max, k - 1); }
  }

  lemma NobodyPasses(states: seq<State>, steps: seq<Step>, n: nat, max: int, k: nat)
    requires IsRun(states, steps, n, max) && max <= 0 && k < |states|
    ensures states[k] == Empty(n)
  {
    if |steps| > 0 { Closed(n, max, steps[0]); }
  }

  lemma Closed(n: nat, max: int, step: Step)
    requires max <= 0
    ensures !Enabled(Empty(n), step, max)
  {
  }

  /* Two callers. */

  lemma Extend(states: seq<State>, steps: seq<Step>, n: nat, max: int, step: Step) returns (more: seq<State>)
    requires IsRun(states, steps, n, max) && |states| > 0 && Enabled(states[|states| - 1], step, max)
    ensures IsRun(more, steps + [step], n, max) && |more| > 0
    ensures more[|more| - 1] == Apply(states[|states| - 1], step, max)
  {
    more := states + [Apply(states[|states| - 1], step, max)];
    var all := steps + [step];
    forall i | 0 <= i < |all| ensures Enabled(more[i], all[i], max) && more[i + 1] == Apply(more[i], all[i], max) {
      if i < |steps| { assert states[i + 1] == Apply(states[i], steps[i], max); }
    }
  }

  // All outside, m buffers made and counted.
  predicate Settled(s: State, n: nat, m: nat) {
    |s.callers| == n && (forall t :: 0 <= t < n ==> s.callers[t].Outside?) && s.counted == s.made == m
  }

  lemma {:induction false} GrowTo(n: nat, max: int, m: nat) returns (states: seq<State>, steps: seq<Step>)
    requires n >= 1 && m <= max
    ensures IsRun(states, steps, n, max) && |states| > 0 && Settled(states[|states| - 1], n, m)
  {
    if m == 0 {
      states, steps := [Empty(n)], [];
    } else {
      hide IsRun;
      states, steps := GrowTo(n, max, m - 1);
      states := Extend(states, steps, n, max, Test(0));
      steps := steps + [Test(0)];
      states := Extend(states, steps, n, max, Make(0));
      steps := steps + [Make(0)];
      states := Extend(states, steps, n, max, Count(0));
      steps := steps + [Count(0)];
    }
  }

  // Both callers pass the test for the last buffer.
  lemma Overgrow(n: nat, max: int) returns (states: seq<State>, steps: seq<Step>)
    requires n >= 2 && max >= 1
    ensures IsRun(states, steps, n, max) && |states| > 0 && states[|states| - 1].made == max + 1
  {
    hide IsRun;
    states, steps := GrowTo(n, max, max - 1);
    states := Extend(states, steps, n, max, Test(0));
    steps := steps + [Test(0)];
    states := Extend(states, steps, n, max, Test(1));
    steps := steps + [Test(1)];
    states := Extend(states, steps, n, max, Make(0));
    steps := steps + [Make(0)];
    states := Extend(states, steps, n, max, Make(1));
    steps := steps + [Make(1)];
  }

  // The pool keeps to its limit in every run exactly when at most one caller ever
  // takes buffers from stage 0.
  lemma BoundExactly(n: nat, max: int)
    ensures (forall states: seq<State>, steps: seq<Step>, k :: IsRun(states, steps, n, max) && 0 <= k < |states| ==>
               states[k].made <= max || states[k].made == 0)
       <==> n <= 1 || max <= 0
  {
    if n <= 1 || max <= 0 {
      forall states: seq<State>, steps: seq<Step>, k | IsRun(states, steps, n, max) && 0 <= k < |states|
        ensures states[k].made <= max || states[k].made == 0
      {
        if max <= 0 { NobodyPasses(states, steps, n, max, k); } else { ExactInRuns(states, steps, n, max, k); }
      }
    } else {
      var states, steps := Overgrow(n, max);
      var k := |states| - 1;
      assert IsRun(states, steps, n, max) && 0 <= k < |states| && states[k].made == max + 1;
    }
  }
}
