/**
  Device references and list operations of the transfer lifecycle, whatever update
  handle_timeout loses.
 */
module TransferReferences {
  import opened TransferLifecycle
  import opened TransferSafety
  import opened TransferFates
  import opened TransferCallbacks

  // No list corruption: a transfer is added when it is off the list and removed
  // when it is on it.
  lemma ListOperationsAreLegal(states: seq<State>, steps: seq<Step>, k: nat)
    requires IsRun(states, steps) && k < |steps| && Patient(states, steps, k)
    ensures Inv(states[k])
    ensures steps[k].AddToList? ==> states[k].subs[steps[k].sid].x !in states[k].flying
    ensures steps[k].RemoveFailed? ==> states[k].subs[steps[k].sid].x in states[k].flying
    ensures steps[k].RemoveCompleted? ==> states[k].ev.x in states[k].flying
  {
    RunInv(states, steps, k);
    var s := states[k];
    if SubmitStep(steps[k]) {
      assert SubInvAt(s, steps[k].sid) && XInvAt(s, s.subs[steps[k].sid].x);
    } else if steps[k].RemoveCompleted? {
      assert XInvAt(s, s.ev.x);
    }
  }

  /* Device references. */

  ghost function FlyingOf(s: State, h: nat): set<nat> {
    set x: nat | x in s.flying && x < |s.xs| && s.xs[x].handle == h
  }

  // Calls that are on the list without holding a reference.
  ghost function Unreferenced(s: State, h: nat): set<nat>
    requires Indexed(s)
  {
    set sid: nat | sid < |s.subs| && IsUnreferenced(s.subs[sid].pc)
                   && s.xs[s.subs[sid].x].handle == h
  }

  // The event handler holds the reference of a transfer it took off the list.
  function HandlerHolds(s: State, h: nat): nat
    requires Indexed(s)
  {
    B((s.ev.EFlags? || s.ev.ECall? || s.ev.EUnref?) && s.xs[s.ev.x].handle == h)
  }

  ghost predicate RefInv(s: State, h: nat)
    requires Indexed(s) && h < |s.refs|
  {
    s.refs[h] == |FlyingOf(s, h)| - |Unreferenced(s, h)| + HandlerHolds(s, h)
  }

  lemma SetDelta(a: set<nat>, b: set<nat>, e: nat)
    requires a - {e} == b - {e}
    ensures |b| - |a| == B(e in b) - B(e in a)
  {
    if e in a { assert a == (a - {e}) + {e}; } else { assert a == a - {e}; }
    if e in b { assert b == (b - {e}) + {e}; } else { assert b == b - {e}; }
  }

  lemma FlyingSubmit(s: State, step: Step, h: nat)
    requires Inv(s) && Enabled(s, step) && SubmitStep(step)
    ensures Indexed(s) && step.sid < |s.subs| && var x := s.subs[step.sid].x;
            |FlyingOf(Apply(s, step), h)| - |FlyingOf(s, h)| ==
            if s.xs[x].handle != h then 0
            else if step.AddToList? then 1 else if step.RemoveFailed? then -1 else 0
  {
    hide Apply, Enabled, XInvAt, Inv;
    Facts(s, step);
    var s', x := Apply(s, step), s.subs[step.sid].x;
    SubmitFrame(s, step);
    Moves(s, step);
    assert FlyingOf(s, h) - {x} == FlyingOf(s', h) - {x};
    SetDelta(FlyingOf(s, h), FlyingOf(s', h), x);
  }

  lemma Facts(s: State, step: Step)
    requires Inv(s) && Enabled(s, step) && SubmitStep(step)
    ensures Indexed(s) && step.sid < |s.subs| && SubInvAt(s, step.sid) && XInvAt(s, s.subs[step.sid].x)
  {
    hide XInvAt, SubInvAt;
    ThisCall(s, step);
  }

  lemma Moves(s: State, step: Step)
    requires Indexed(s) && Enabled(s, step) && SubmitStep(step)
    requires SubInvAt(s, step.sid) && XInvAt(s, s.subs[step.sid].x)
    ensures var x := s.subs[step.sid].x;
            B(x in Apply(s, step).flying) - B(x in s.flying) ==
            if step.AddToList? then 1 else if step.RemoveFailed? then -1 else 0
  {
    hide HandlerApply, OtherApply, HandlerEnabled, OtherEnabled;
  }

  // On the list without a reference before, and after.
  predicate IsUnreferenced(pc: Pc) { pc.Ref? || pc.Remove? }

  lemma OnlyThisCall(s: State, step: Step, h: nat)
    requires Indexed(s) && Enabled(s, step) && SubmitStep(step) && Indexed(Apply(s, step))
    ensures Unreferenced(s, h) - {step.sid} == Unreferenced(Apply(s, step), h) - {step.sid}
  {
    hide Apply, Enabled;
    SubmitFrame(s, step);
  }

  lemma ThisCallMoves(s: State, step: Step)
    requires Indexed(s) && Enabled(s, step) && SubmitStep(step)
    ensures var s', x := Apply(s, step), s.subs[step.sid].x;
            && step.sid < |s.subs| == |s'.subs| && s'.subs[step.sid].x == x
            && |s'.xs| == |s.xs| && s'.xs[x].handle == s.xs[x].handle
            && B(IsUnreferenced(s'.subs[step.sid].pc)) - B(IsUnreferenced(s.subs[step.sid].pc)) ==
               if step.AddToList? || step.DropRef? then 1
               else if step.TakeRef? || step.RemoveFailed? then -1 else 0
  {
    hide HandlerApply, OtherApply, HandlerEnabled, OtherEnabled;
  }

  lemma UnreferencedSubmit(s: State, step: Step, h: nat)
    requires Indexed(s) && Enabled(s, step) && SubmitStep(step) && Indexed(Apply(s, step))
    ensures step.sid < |s.subs|
    ensures |Unreferenced(Apply(s, step), h)| - |Unreferenced(s, h)| ==
            if s.xs[s.subs[step.sid].x].handle != h then 0
            else if step.AddToList? || step.DropRef? then 1
            else if step.TakeRef? || step.RemoveFailed? then -1 else 0
  {
    hide Apply, Enabled, Indexed;
    ThisCallMoves(s, step);
    OnlyThisCall(s, step, h);
    SetDelta(Unreferenced(s, h), Unreferenced(Apply(s, step), h), step.sid);
  }

  lemma RefSubmit(s: State, step: Step, h: nat)
    requires Inv(s) && Enabled(s, step) && Indexed(Apply(s, step)) && h < |s.refs| && RefInv(s, h)
    requires SubmitStep(step)
    ensures RefInv(Apply(s, step), h)
  {
    FlyingSubmit(s, step, h);
    UnreferencedSubmit(s, step, h);
    HandlerSubmit(s, step, h);
  }

  lemma HandlerSubmit(s: State, step: Step, h: nat)
    requires Indexed(s) && Enabled(s, step) && SubmitStep(step) && Indexed(Apply(s, step)) && h < |s.refs|
    ensures HandlerHolds(Apply(s, step), h) == HandlerHolds(s, h)
    ensures Apply(s, step).refs[h] - s.refs[h] ==
            if s.xs[s.subs[step.sid].x].handle != h then 0
            else if step.TakeRef? then 1 else if step.DropRef? then -1 else 0
  {
    hide HandlerApply, OtherApply, HandlerEnabled, OtherEnabled;
  }

  lemma RefEvent(s: State, step: Step, h: nat)
    requires Inv(s) && Enabled(s, step) && Indexed(Apply(s, step)) && h < |s.refs| && RefInv(s, h)
    requires EventStep(step)
    ensures RefInv(Apply(s, step), h)
  {
    hide SubmitApply, OtherApply, SubmitEnabled, OtherEnabled;
    var s' := Apply(s, step);
    assert Unreferenced(s, h) == Unreferenced(s', h);
    if step.RemoveCompleted? {
      assert XInvAt(s, s.ev.x);
      assert FlyingOf(s, h) - {s.ev.x} == FlyingOf(s', h) - {s.ev.x};
      SetDelta(FlyingOf(s, h), FlyingOf(s', h), s.ev.x);
    } else {
      assert FlyingOf(s, h) == FlyingOf(s', h);
    }
  }

  // Other steps move nothing on or off the list and no call.
  lemma SweepMovesNothing(s: State, step: Step)
    requires Indexed(s) && Enabled(s, step) && SweepStep(step)
    ensures Apply(s, step).flying == s.flying && Apply(s, step).refs == s.refs
  {
    hide SubmitApply, OtherApply, SubmitEnabled, OtherEnabled;
  }

  lemma NothingMoves(s: State, step: Step)
    requires Indexed(s) && Enabled(s, step) && !SubmitStep(step) && !EventStep(step)
    ensures var s' := Apply(s, step);
            && s'.flying == s.flying && s'.refs == s.refs && |s'.xs| == |s.xs|
            && (forall x :: 0 <= x < |s.xs| ==> s'.xs[x].handle == s.xs[x].handle)
            && s'.subs == s.subs + (if step.Submit? then [Sub(step.x, WaitLock)] else [])
  {
    hide Apply, Enabled;
    if SweepStep(step) {
      HandlerFrame(s, step);
      SweepMovesNothing(s, step);
    } else {
      OtherFrame(s, step);
    }
  }

  lemma HandlerElsewhere(s: State, step: Step, h: nat)
    requires Indexed(s) && Enabled(s, step) && !SubmitStep(step) && !EventStep(step) && Indexed(Apply(s, step))
    ensures HandlerHolds(Apply(s, step), h) == HandlerHolds(s, h)
  {
    hide Apply, Enabled;
    if SweepStep(step) {
      HandlerFrame(s, step);
      SweepHoldsNothing(s, step);
    } else {
      OtherFrame(s, step);
    }
  }

  lemma SweepHoldsNothing(s: State, step: Step)
    requires Indexed(s) && Enabled(s, step) && SweepStep(step)
    ensures var ev, ev' := s.ev, Apply(s, step).ev;
            !(ev.EFlags? || ev.ECall? || ev.EUnref?) && !(ev'.EFlags? || ev'.ECall? || ev'.EUnref?)
  {
    hide SubmitApply, OtherApply, SubmitEnabled, OtherEnabled;
  }

  lemma RefOther(s: State, step: Step, h: nat)
    requires Indexed(s) && Enabled(s, step) && Indexed(Apply(s, step)) && h < |s.refs| && RefInv(s, h)
    requires !SubmitStep(step) && !EventStep(step)
    ensures h < |Apply(s, step).refs| && RefInv(Apply(s, step), h)
  {
    hide Apply, Enabled, HandlerHolds;
    NothingMoves(s, step);
    HandlerElsewhere(s, step, h);
    var s' := Apply(s, step);
    assert Unreferenced(s, h) == Unreferenced(s', h);
    assert FlyingOf(s, h) == FlyingOf(s', h);
  }

  lemma {:induction false} RefsInRuns(states: seq<State>, steps: seq<Step>, k: nat, h: nat)
    requires IsRun(states, steps) && k < |states| && Patient(states, steps, k) && h < |states[0].refs|
    ensures Inv(states[k]) && |states[k].refs| == |states[0].refs| && RefInv(states[k], h)
  {
    hide Apply, Enabled, Inv, RefInv;
    RunInv(states, steps, k);
    if k == 0 {
      NoRefsAtFirst(states[0], h);
    } else {
      var s, step := states[k - 1], steps[k - 1];
      RefsInRuns(states, steps, k - 1, h);
      IndexedAfter(s, step);
      if SubmitStep(step) {
        RefSubmit(s, step, h);
      } else if EventStep(step) {
        RefEvent(s, step, h);
      } else {
        RefOther(s, step, h);
      }
    }
  }

  lemma NoRefsAtFirst(s: State, h: nat)
    requires Init(s) && Indexed(s) && h < |s.refs|
    ensures RefInv(s, h)
  {
    assert FlyingOf(s, h) == {} && Unreferenced(s, h) == {};
  }

  lemma IndexedAfter(s: State, step: Step)
    requires Inv(s) && Enabled(s, step)
    ensures Indexed(s) && Indexed(Apply(s, step)) && |Apply(s, step).refs| == |s.refs|
  {
    hide Apply, Enabled;
    LinkedStep(s, step);
    Lengths(s, step);
  }

  // No call and no completion is half-way.
  predicate Quiescent(s: State) {
    s.ev.EIdle? && forall sid :: 0 <= sid < |s.subs| ==> s.subs[sid].pc.Done?
  }

  // At rest each device is referenced once for each of its transfers on the list;
  // those are exactly the transfers that the backend has and, if no update was lost,
  // the ones marked in flight.
  lemma ReferencesMatchTheList(states: seq<State>, steps: seq<Step>, k: nat, h: nat)
    requires IsRun(states, steps) && k < |states| && Patient(states, steps, k) && h < |states[0].refs|
    requires Quiescent(states[k])
    ensures h < |states[k].refs| && states[k].refs[h] == |FlyingOf(states[k], h)|
    ensures forall x: nat :: x < |states[k].xs| ==> (x in states[k].flying <==> x in states[k].accepted)
    ensures NothingLost(states, steps, k) ==>
              forall x: nat :: x < |states[k].xs| ==> (x in states[k].flying <==> states[k].xs[x].flags.inFlight)
  {
    hide AllTrusted;
    RefsInRuns(states, steps, k, h);
    var s := states[k];
    assert Unreferenced(s, h) == {};
    if NothingLost(states, steps, k) { RunTrusted(states, steps, k); }
    forall x: nat | x < |s.xs|
      ensures x in s.flying <==> x in s.accepted
      ensures AllTrusted(s) ==> (x in s.flying <==> s.xs[x].flags.inFlight)
    {
      AtRest(s, x);
    }
  }

  lemma AtRest(s: State, x: nat)
    requires Inv(s) && Quiescent(s) && x < |s.xs|
    ensures x in s.flying <==> x in s.accepted
    ensures AllTrusted(s) ==> (x in s.flying <==> s.xs[x].flags.inFlight)
  {
    assert XInvAt(s, x) && LockLinked(s, x);
    if AllTrusted(s) { assert TrustedAt(s, x); }
  }
}
