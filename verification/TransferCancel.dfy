/**
  libusb_cancel_transfer, called by the user and by handle_timeout: what it changes,
  and that the backend is asked to cancel a submission at most once, unless
  handle_timeout's unlocked "flags |= bit" loses CANCELLING.
 */
module TransferCancel {
  import opened TransferLifecycle
  import opened TransferSafety
  import opened TransferFates
  import opened TransferCallbacks
  import opened TransferFailures

  // A user's cancellation marks a transfer in flight that is not being cancelled yet,
  // and its device as gone if the backend says so; it changes nothing else.
  lemma CancelChanges(s: State, x: nat, result: CancelResult)
    requires Indexed(s) && Enabled(s, Cancel(x, result))
    ensures x < |s.xs| && var s', f := Apply(s, Cancel(x, result)), s.xs[x].flags;
            && |s'.xs| == |s.xs| && var g := s'.xs[x].flags;
            && s' == s.(xs := s'.xs) && s'.xs == s.xs[x := s.xs[x].(flags := g)]
            && g.inFlight == f.inFlight && g.completed == f.completed && g.submitting == f.submitting
            && g.timeoutHandled == f.timeoutHandled && g.timedOut == f.timedOut
            && (g.cancelling <==> f.cancelling || f.inFlight)
            && (g.disappeared <==> f.disappeared || (f.inFlight && !f.cancelling && result == NoDevice))
  {
  }

  // The cancellation by handle_timeout changes the flags likewise, and goes on to mark
  // the transfer as timed out exactly if the backend cancelled it.
  lemma TimeoutCancelChanges(s: State, result: CancelResult)
    requires Indexed(s) && Enabled(s, TCancelIt(result))
    ensures s.tm.TCancel? && s.tm.x < |s.xs| && var s', x := Apply(s, TCancelIt(result)), s.tm.x;
            && |s'.xs| == |s.xs| && var f, g := s.xs[x].flags, s'.xs[x].flags;
            && s' == s.(xs := s'.xs, tm := s'.tm) && s'.xs == s.xs[x := s.xs[x].(flags := g)]
            && g.inFlight == f.inFlight && g.completed == f.completed && g.submitting == f.submitting
            && g.timeoutHandled == f.timeoutHandled && g.timedOut == f.timedOut
            && (g.cancelling <==> f.cancelling || f.inFlight)
            && (g.disappeared <==> f.disappeared || (f.inFlight && !f.cancelling && result == NoDevice))
            && s'.tm == if f.inFlight && !f.cancelling && result == Cancelled then TCancelled(x) else THeld
  {
  }

  // The step asks the backend to cancel x.
  predicate AsksBackend(s: State, step: Step, x: nat)
    requires Indexed(s) && Enabled(s, step)
  {
    && ((step.Cancel? && step.x == x) || (step.TCancelIt? && s.tm.x == x))
    && s.xs[x].flags.inFlight && !s.xs[x].flags.cancelling
  }

  // The step begins a new submission of x, or tries to.
  predicate Resets(s: State, step: Step, x: nat)
    requires Indexed(s) && Enabled(s, step)
  {
    step.CheckFlags? && s.subs[step.sid].x == x && !s.xs[x].flags.inFlight
  }

  // The backend has been asked to cancel the present submission of x.
  ghost predicate Asked(states: seq<State>, steps: seq<Step>, k: nat, x: nat)
    requires IsRun(states, steps) && k <= |steps|
  {
    k > 0 && (AsksBackend(states[k - 1], steps[k - 1], x)
              || (Asked(states, steps, k - 1, x) && !Resets(states[k - 1], steps[k - 1], x)))
  }

  // handle_timeout writes back flags without the CANCELLING set meanwhile.
  predicate DropsCancelling(s: State, step: Step)
    requires Indexed(s) && Enabled(s, step)
  {
    step.TWrite? && s.xs[s.tm.x].flags.cancelling && !s.tm.saved.cancelling && s.tm.saved.inFlight
  }

  ghost predicate CancellingKept(states: seq<State>, steps: seq<Step>, k: nat)
    requires IsRun(states, steps) && k <= |steps|
  {
    forall i :: 0 <= i < k ==> !DropsCancelling(states[i], steps[i])
  }

  // CANCELLING is only ever set by asking the backend, in the flags and in what
  // handle_timeout has read of them.
  predicate OnlyAsked(s: State, x: nat, asked: bool) {
    x < |s.xs| ==>
      && (s.xs[x].flags.cancelling ==> asked)
      && (s.tm.TSaved? && s.tm.x == x && s.tm.saved.cancelling ==> asked)
  }

  // Whose cancellation was asked for is marked, and not being submitted.
  predicate Marked(s: State, x: nat, asked: bool) {
    x < |s.xs| && asked ==> !BusyAt(s, x) && (s.xs[x].flags.inFlight ==> s.xs[x].flags.cancelling)
  }

  // asked after the step.
  predicate AskedAfter(s: State, step: Step, x: nat, asked: bool)
    requires Indexed(s) && Enabled(s, step)
  {
    AsksBackend(s, step, x) || (asked && !Resets(s, step, x))
  }

  /* Steps of a call. */

  lemma CallHere(s: State, step: Step, x: nat, asked: bool)
    requires Indexed(s) && Enabled(s, step) && SubmitStep(step) && !Resubmits(s, step)
    requires SubInvAt(s, step.sid) && s.subs[step.sid].x == x && XInvAt(s, x) && OnlyAsked(s, x, asked)
    ensures OnlyAsked(Apply(s, step), x, AskedAfter(s, step, x, asked))
    ensures Marked(s, x, asked) ==> Marked(Apply(s, step), x, AskedAfter(s, step, x, asked))
  {
    hide HandlerApply, OtherApply, HandlerEnabled, OtherEnabled;
  }

  lemma CallElsewhere(s: State, step: Step, x: nat, asked: bool)
    requires Indexed(s) && Enabled(s, step) && SubmitStep(step) && SubInvAt(s, step.sid)
    requires s.subs[step.sid].x != x && LockLinked(s, x) && OnlyAsked(s, x, asked)
    ensures OnlyAsked(Apply(s, step), x, AskedAfter(s, step, x, asked))
    ensures Marked(s, x, asked) ==> Marked(Apply(s, step), x, AskedAfter(s, step, x, asked))
  {
    hide Apply, Enabled;
    SubmitFrame(s, step);
  }

  /* Other steps. */

  // The event handler only ever clears IN_FLIGHT, and leaves CANCELLING alone.
  lemma HandlerClears(s: State, step: Step, x: nat)
    requires Indexed(s) && Enabled(s, step) && (EventStep(step) || SweepStep(step)) && x < |s.xs|
    ensures x < |Apply(s, step).xs| && var f, g := s.xs[x].flags, Apply(s, step).xs[x].flags;
            g.cancelling == f.cancelling && (g.inFlight ==> f.inFlight)
  {
    hide SubmitApply, OtherApply, SubmitEnabled, OtherEnabled;
  }

  lemma HandlerCancels(s: State, step: Step, x: nat, asked: bool)
    requires Indexed(s) && Enabled(s, step) && (EventStep(step) || SweepStep(step)) && OnlyAsked(s, x, asked)
    ensures OnlyAsked(Apply(s, step), x, AskedAfter(s, step, x, asked))
    ensures Marked(s, x, asked) ==> Marked(Apply(s, step), x, AskedAfter(s, step, x, asked))
  {
    hide Apply, Enabled;
    HandlerFrame(s, step);
    if x < |s.xs| { HandlerClears(s, step, x); }
  }

  lemma CancelCancels(s: State, step: Step, x: nat, asked: bool)
    requires Indexed(s) && Enabled(s, step) && (step.Cancel? || step.TCancelIt?) && OnlyAsked(s, x, asked)
    requires x < |s.xs| ==> XInvAt(s, x)
    ensures OnlyAsked(Apply(s, step), x, AskedAfter(s, step, x, asked))
    ensures Marked(s, x, asked) ==> Marked(Apply(s, step), x, AskedAfter(s, step, x, asked))
  {
    hide SubmitApply, HandlerApply, SubmitEnabled, HandlerEnabled;
  }

  lemma WriteCancels(s: State, step: Step, x: nat, asked: bool)
    requires Indexed(s) && Enabled(s, step) && step.TWrite? && OnlyAsked(s, x, asked)
    requires x < |s.xs| ==> XInvAt(s, x)
    ensures OnlyAsked(Apply(s, step), x, AskedAfter(s, step, x, asked))
    ensures Marked(s, x, asked) && !DropsCancelling(s, step) ==>
              Marked(Apply(s, step), x, AskedAfter(s, step, x, asked))
  {
    hide SubmitApply, HandlerApply, SubmitEnabled, HandlerEnabled;
  }

  lemma TimeoutCancels(s: State, step: Step, x: nat, asked: bool)
    requires Indexed(s) && Enabled(s, step) && (TimeoutStep(step) || step.Submit?) && OnlyAsked(s, x, asked)
    requires LockLinked(s, x)
    ensures OnlyAsked(Apply(s, step), x, AskedAfter(s, step, x, asked))
    ensures Marked(s, x, asked) ==> Marked(Apply(s, step), x, AskedAfter(s, step, x, asked))
  {
    hide SubmitApply, HandlerApply, SubmitEnabled, HandlerEnabled;
  }

  lemma StepCancels(s: State, step: Step, x: nat, asked: bool)
    requires Inv(s) && Enabled(s, step) && !Resubmits(s, step) && OnlyAsked(s, x, asked)
    ensures OnlyAsked(Apply(s, step), x, AskedAfter(s, step, x, asked))
    ensures Marked(s, x, asked) && !DropsCancelling(s, step) ==>
              Marked(Apply(s, step), x, AskedAfter(s, step, x, asked))
  {
    hide Apply, Enabled, SubInvAt, XInvAt, OnlyAsked, Marked, AskedAfter, Resubmits, DropsCancelling;
    assert LockLinked(s, x);
    if SubmitStep(step) {
      ThisCall(s, step);
      OwnTransfer(s, step.sid);
      if s.subs[step.sid].x == x { CallHere(s, step, x, asked); } else { CallElsewhere(s, step, x, asked); }
    } else if EventStep(step) || SweepStep(step) {
      HandlerCancels(s, step, x, asked);
    } else if step.TWrite? {
      WriteCancels(s, step, x, asked);
    } else if step.Cancel? || step.TCancelIt? {
      CancelCancels(s, step, x, asked);
    } else {
      TimeoutCancels(s, step, x, asked);
    }
  }

  lemma OwnTransfer(s: State, sid: nat)
    requires Inv(s) && sid < |s.subs|
    ensures XInvAt(s, s.subs[sid].x)
  {
    hide XInvAt;
  }

  lemma {:induction false} AskedInRuns(states: seq<State>, steps: seq<Step>, k: nat, x: nat)
    requires IsRun(states, steps) && k < |states| && Patient(states, steps, k)
    ensures OnlyAsked(states[k], x, Asked(states, steps, k, x))
    ensures CancellingKept(states, steps, k) ==> Marked(states[k], x, Asked(states, steps, k, x))
  {
    hide Apply, Enabled, Inv, OnlyAsked, Marked, Resets, AsksBackend, DropsCancelling;
    if k == 0 {
      NoneAsked(states[0], x);
    } else {
      AskedInRuns(states, steps, k - 1, x);
      RunInv(states, steps, k - 1);
      StepCancels(states[k - 1], steps[k - 1], x, Asked(states, steps, k - 1, x));
      SameTransfers(states[k - 1], steps[k - 1]);
    }
  }

  lemma NoneAsked(s: State, x: nat)
    requires Init(s)
    ensures OnlyAsked(s, x, false) && Marked(s, x, false)
  {
  }

  lemma SameTransfers(s: State, step: Step)
    requires Inv(s) && Enabled(s, step)
    ensures |Apply(s, step).xs| == |s.xs|
  {
    hide Apply;
    Lengths(s, step);
  }

  /* The result. */

  // In flight although its cancellation was asked for, and not marked so: the next
  // cancellation would reach the backend again.
  ghost predicate Exposed(states: seq<State>, steps: seq<Step>, k: nat, x: nat)
    requires IsRun(states, steps) && k <= |steps|
  {
    var s := states[k];
    x < |s.xs| && Asked(states, steps, k, x) && s.xs[x].flags.inFlight && !s.xs[x].flags.cancelling
  }

  // No transfer is ever exposed exactly if handle_timeout never drops CANCELLING.
  lemma ExposedExactly(states: seq<State>, steps: seq<Step>)
    requires IsRun(states, steps) && Patient(states, steps, |steps|)
    ensures (forall k: nat, x: nat :: k <= |steps| ==> !Exposed(states, steps, k, x))
       <==> CancellingKept(states, steps, |steps|)
  {
    hide Apply, Enabled, Inv;
    if CancellingKept(states, steps, |steps|) {
      forall k: nat, x: nat | k <= |steps| ensures !Exposed(states, steps, k, x) {
        AskedInRuns(states, steps, k, x);
      }
    } else {
      var i :| 0 <= i < |steps| && DropsCancelling(states[i], steps[i]);
      DropExposes(states, steps, i);
      var k: nat, x: nat := i + 1, states[i].tm.x;
      assert Exposed(states, steps, k, x);
    }
  }

  lemma DropExposes(states: seq<State>, steps: seq<Step>, i: nat)
    requires IsRun(states, steps) && i < |steps| && Patient(states, steps, i) && DropsCancelling(states[i], steps[i])
    ensures states[i].tm.TSaved? && Exposed(states, steps, i + 1, states[i].tm.x)
  {
    hide Inv, Apply, Enabled, XInvAt;
    var s, step := states[i], steps[i];
    RunInv(states, steps, i);
    WriteDrops(s, step);
    AskedInRuns(states, steps, i, s.tm.x);
    assert Asked(states, steps, i + 1, s.tm.x);
  }

  lemma WriteDrops(s: State, step: Step)
    requires Indexed(s) && Enabled(s, step) && DropsCancelling(s, step)
    ensures step.TWrite? && s.tm.TSaved? && s.tm.x < |s.xs| == |Apply(s, step).xs|
    ensures s.xs[s.tm.x].flags.cancelling && !Resets(s, step, s.tm.x)
    ensures var g := Apply(s, step).xs[s.tm.x].flags; g.inFlight && !g.cancelling
  {
    hide SubmitApply, HandlerApply, SubmitEnabled, HandlerEnabled;
  }

  // A further cancellation, by a user or by handle_timeout, reaches the backend again
  // exactly if the transfer is exposed.
  lemma AskedAgainExactly(states: seq<State>, steps: seq<Step>, k: nat, x: nat, step: Step)
    requires IsRun(states, steps) && k <= |steps| && Indexed(states[k]) && Enabled(states[k], step)
    requires (step.Cancel? && step.x == x) || (step.TCancelIt? && states[k].tm.x == x)
    requires Asked(states, steps, k, x)
    ensures AsksBackend(states[k], step, x) <==> Exposed(states, steps, k, x)
  {
    hide Asked, SubmitEnabled, HandlerEnabled;
  }

  // Without a dropped CANCELLING the backend is asked at most once for a submission.
  lemma AskedOnce(states: seq<State>, steps: seq<Step>, k: nat, x: nat)
    requires IsRun(states, steps) && k < |steps| && Patient(states, steps, k) && CancellingKept(states, steps, k)
    requires AsksBackend(states[k], steps[k], x)
    ensures !Asked(states, steps, k, x)
  {
    hide Apply, Asked;
    AskedInRuns(states, steps, k, x);
  }

  /* A run in which the backend is asked twice. */

  const FLYING := NO_FLAGS.(inFlight := true)

  lemma InFlight() returns (states: seq<State>, steps: seq<Step>)
    ensures IsRun(states, steps) && |states| > 0
    ensures states[|states| - 1] == Returned(FLYING, EIdle, {0}, map[0 := 0], multiset{}, 1)
  {
    hide IsRun, NothingLost;
    states, steps := Listed();
    states := Extend(states, steps, CallBackend(0, true),
                     Single(SUBMITTING, Finish(true), {0}, TIdle, map[0 := 0], 1));
    steps := steps + [CallBackend(0, true)];
    states := Extend(states, steps, FinishSubmit(0), Single(FLYING, Return(true), {0}, TIdle, map[0 := 0], 1));
    steps := steps + [FinishSubmit(0)];
    states := Extend(states, steps, ReturnFrom(0), Returned(FLYING, EIdle, {0}, map[0 := 0], multiset{}, 1));
    steps := steps + [ReturnFrom(0)];
  }

  lemma {:induction false} SameAsked(states: seq<State>, steps: seq<Step>, more: seq<State>, all: seq<Step>, k: nat,
                                     x: nat)
    requires IsRun(states, steps) && IsRun(more, all) && states <= more && steps <= all && k <= |steps|
    ensures Asked(states, steps, k, x) == Asked(more, all, k, x)
  {
    if k > 0 {
      SameAsked(states, steps, more, all, k - 1, x);
      assert states[k - 1] == more[k - 1] && steps[k - 1] == all[k - 1];
    }
  }

  // The run goes on, and x is still asked for.
  lemma StaysAsked(states: seq<State>, steps: seq<Step>, step: Step, next: State, x: nat) returns (more: seq<State>)
    requires IsRun(states, steps) && Indexed(states[|states| - 1]) && Enabled(states[|states| - 1], step)
    requires next == Apply(states[|states| - 1], step)
    requires AskedAfter(states[|states| - 1], step, x, Asked(states, steps, |steps|, x))
    ensures IsRun(more, steps + [step]) && more == states + [next] && more[|more| - 1] == next
    ensures Asked(more, steps + [step], |steps + [step]|, x)
  {
    hide Apply, Enabled, AsksBackend, Resets, NothingLost;
    more := Extend(states, steps, step, next);
    SameAsked(states, steps, more, steps + [step], |steps|, x);
    assert more[|steps|] == states[|steps|] && (steps + [step])[|steps|] == step;
  }

  // The only transfer is in flight, and handle_timeouts at tm.
  function OneFlying(flags: Flags, tm: Timeouts): State {
    Returned(flags, EIdle, {0}, map[0 := 0], multiset{}, 1).(tm := tm)
  }

  lemma TimeoutReads() returns (states: seq<State>, steps: seq<Step>)
    ensures IsRun(states, steps) && |states| > 0
    ensures states[|states| - 1] == OneFlying(FLYING, TSaved(0, FLYING, false))
  {
    hide IsRun, NothingLost;
    states, steps := InFlight();
    states := Extend(states, steps, TBegin, OneFlying(FLYING, THeld));
    steps := steps + [TBegin];
    states := Extend(states, steps, TRead(0), OneFlying(FLYING, TSaved(0, FLYING, false)));
    steps := steps + [TRead(0)];
  }

  // The user cancels after handle_timeout has read the flags.
  lemma UserCancels() returns (states: seq<State>, steps: seq<Step>)
    ensures IsRun(states, steps) && |states| > 0 && Asked(states, steps, |steps|, 0)
    ensures states[|states| - 1] == OneFlying(FLYING.(cancelling := true), TSaved(0, FLYING, false))
  {
    hide IsRun, NothingLost, Asked;
    states, steps := TimeoutReads();
    var next := OneFlying(FLYING.(cancelling := true), TSaved(0, FLYING, false));
    states := StaysAsked(states, steps, Cancel(0, Cancelled), next, 0);
    steps := steps + [Cancel(0, Cancelled)];
  }

  // The user and handle_timeout both ask the backend to cancel the same submission.
  lemma AskedTwice() returns (states: seq<State>, steps: seq<Step>)
    ensures IsRun(states, steps) && |states| > 0 && Asked(states, steps, |steps|, 0)
    ensures var s := states[|states| - 1]; Indexed(s) && Enabled(s, TCancelIt(Cancelled))
                                           && AsksBackend(s, TCancelIt(Cancelled), 0)
  {
    hide IsRun, NothingLost, Asked;
    states, steps := UserCancels();
    states := StaysAsked(states, steps, TWrite, OneFlying(FLYING.(timeoutHandled := true), TCancel(0)), 0);
    steps := steps + [TWrite];
  }
}
