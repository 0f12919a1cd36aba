/**
  One callback for each submission that returned 0, and exactly when that fails:
  handle_timeout's unlocked "flags |= bit" can lose the IN_FLIGHT that
  libusb_submit_transfer has just set, and a disconnect that comes before the
  report then takes the transfer for one still being submitted.
 */
module TransferCallbacks {
  import opened Options
  import opened TransferLifecycle
  import opened TransferSafety
  import opened TransferFates

  // The call has returned 0 or is about to.
  predicate Succeeded(pc: Pc) { pc == Return(true) || pc == Done(true) }

  // The callback was made, or the backend can still report.
  ghost predicate Settled(s: State, sid: nat)
    requires Indexed(s) && sid < |s.subs|
  {
    var x := s.subs[sid].x;
    s.cbs[sid] == 1 || (s.cbs[sid] == 0 && AcceptedFor(s, x) == Some(sid) && Enabled(s, Report(x)))
  }

  ghost predicate AllSettled(s: State)
    requires Indexed(s)
  {
    forall sid: nat :: sid < |s.subs| && Succeeded(s.subs[sid].pc) ==> Settled(s, sid)
  }

  ghost predicate NonePassedOver(states: seq<State>, steps: seq<Step>, k: nat)
    requires IsRun(states, steps) && k <= |steps|
  {
    forall i :: 0 <= i < k ==> !PassesOver(states[i], steps[i])
  }

  /* If no sweep passes over a transfer. */

  lemma {:induction false} RunSwept(states: seq<State>, steps: seq<Step>, k: nat, x: nat)
    requires IsRun(states, steps) && k < |states| && Patient(states, steps, k) && NonePassedOver(states, steps, k)
    requires x < |states[k].xs|
    ensures SweptAt(states[k], x)
  {
    hide Apply, Enabled, SweptAt, Inv;
    if k == 0 {
      SweptAtFirst(states[0], x);
    } else {
      RunInv(states, steps, k - 1);
      LengthsInv(states[k - 1], steps[k - 1]);
      RunSwept(states, steps, k - 1, x);
      SweptStep(states[k - 1], steps[k - 1], x);
    }
  }

  lemma SweptAtFirst(s: State, x: nat)
    requires Init(s) && x < |s.xs|
    ensures SweptAt(s, x)
  {
  }

  lemma LengthsInv(s: State, step: Step)
    requires Inv(s) && Enabled(s, step)
    ensures |Apply(s, step).xs| == |s.xs|
  {
    hide Apply, Enabled;
    Lengths(s, step);
  }

  lemma SettledWhenSwept(s: State, sid: nat)
    requires Inv(s) && s.ev.EIdle? && sid < |s.subs| && Succeeded(s.subs[sid].pc)
    requires SweptAt(s, s.subs[sid].x)
    ensures Settled(s, sid)
  {
    assert SubInvAt(s, sid) && XInvAt(s, s.subs[sid].x);
  }

  /* If one does. */

  // The call succeeded, its transfer is with the backend of an unplugged device, and
  // nothing will look for it again.
  predicate Stranded(s: State, x: nat, sid: nat) {
    && x < |s.xs| && sid < |s.subs| && s.subs[sid].x == x && Succeeded(s.subs[sid].pc)
    && AcceptedFor(s, x) == Some(sid) && s.xs[x].handle in s.gone && !s.xs[x].flags.inFlight
  }

  lemma PassingStrands(s: State, step: Step)
    requires Inv(s) && Enabled(s, step) && PassesOver(s, step)
    ensures var x := step.x; Stranded(Apply(s, step), x, s.accepted[x])
  {
    hide XInvAt;
    var x := step.x;
    Sweeping(s, step);
    assert AcceptedLinked(s, x);
    assert SubInvAt(s, s.accepted[x]);
  }

  lemma StrandedIsNot(s: State, x: nat, sid: nat)
    requires Inv(s) && Stranded(s, x, sid)
    ensures !Settled(s, sid)
  {
    assert SubInvAt(s, sid);
  }

  // What the invariant says of a stranded transfer.
  lemma StrandedFacts(s: State, x: nat, sid: nat)
    requires Inv(s) && Stranded(s, x, sid)
    ensures x in s.flying && !Delivering(s.ev, x) && !BusyAt(s, x)
    ensures s.ev.EClear? ==> s.ev.x != x
    ensures s.tm.TSaved? && s.tm.x == x ==> !s.tm.saved.inFlight
  {
    assert SubInvAt(s, sid) && XInvAt(s, x);
  }

  lemma StrandedSubmit(s: State, step: Step, x: nat, sid: nat)
    requires Indexed(s) && Enabled(s, step) && SubmitStep(step) && SubInvAt(s, step.sid)
    requires Stranded(s, x, sid) && SubInvAt(s, sid) && !BusyAt(s, x)
    ensures Stranded(Apply(s, step), x, sid)
  {
    hide Apply, Enabled;
    SubmitFrame(s, step);
    if s.subs[step.sid].x == x { StrandedHere(s, step, x, sid); }
  }

  // A call for the stranded transfer gets no further than its check of the flags.
  lemma StrandedHere(s: State, step: Step, x: nat, sid: nat)
    requires Indexed(s) && Enabled(s, step) && SubmitStep(step) && SubInvAt(s, step.sid)
    requires Stranded(s, x, sid) && !BusyAt(s, x) && s.subs[step.sid].x == x
    ensures var s' := Apply(s, step);
            && x < |s'.xs| && !s'.xs[x].flags.inFlight && AcceptedFor(s', x) == AcceptedFor(s, x)
            && sid < |s'.subs| && Succeeded(s'.subs[sid].pc)
  {
    hide HandlerApply, OtherApply, HandlerEnabled, OtherEnabled;
  }

  lemma StrandedEvent(s: State, step: Step, x: nat, sid: nat)
    requires Indexed(s) && Enabled(s, step) && EventStep(step)
    requires Stranded(s, x, sid) && !Delivering(s.ev, x)
    ensures Stranded(Apply(s, step), x, sid)
  {
    hide SubmitApply, OtherApply, SubmitEnabled, OtherEnabled;
  }

  lemma StrandedSweep(s: State, step: Step, x: nat, sid: nat)
    requires Indexed(s) && Enabled(s, step) && SweepStep(step)
    requires Stranded(s, x, sid) && (s.ev.EClear? ==> s.ev.x != x)
    ensures Stranded(Apply(s, step), x, sid)
  {
    hide SubmitApply, OtherApply, SubmitEnabled, OtherEnabled;
  }

  lemma StrandedOther(s: State, step: Step, x: nat, sid: nat)
    requires Indexed(s) && Enabled(s, step) && (FlagStep(step) || TimeoutStep(step) || step.Submit?)
    requires Stranded(s, x, sid) && (s.tm.TSaved? && s.tm.x == x ==> !s.tm.saved.inFlight)
    ensures Stranded(Apply(s, step), x, sid)
  {
    hide Apply, Enabled;
    OtherFrame(s, step);
    if step.TWrite? {
      WriteFrame(s, x);
    } else if FlagStep(step) {
      CancelSetsNothing(s, step, x);
    } else {
      NoFlagsTouched(s, step, x);
    }
  }

  lemma CancelSetsNothing(s: State, step: Step, x: nat)
    requires Indexed(s) && Enabled(s, step) && (step.Cancel? || step.TCancelIt?) && x < |s.xs|
    ensures x < |Apply(s, step).xs| && Apply(s, step).xs[x].flags.inFlight == s.xs[x].flags.inFlight
  {
    hide SubmitApply, HandlerApply, SubmitEnabled, HandlerEnabled;
  }

  lemma NoFlagsTouched(s: State, step: Step, x: nat)
    requires Indexed(s) && Enabled(s, step) && (TimeoutStep(step) || step.Submit?) && x < |s.xs|
    ensures x < |Apply(s, step).xs| && Apply(s, step).xs[x].flags == s.xs[x].flags
  {
    hide SubmitApply, HandlerApply, SubmitEnabled, HandlerEnabled;
  }

  lemma StrandedStep(s: State, step: Step, x: nat, sid: nat)
    requires Inv(s) && Enabled(s, step) && Stranded(s, x, sid)
    ensures Stranded(Apply(s, step), x, sid)
  {
    hide Apply, Enabled, BusyAt, SubInvAt, XInvAt;
    StrandedFacts(s, x, sid);
    assert sid < |s.subs| && SubInvAt(s, sid);
    if SubmitStep(step) {
      ThisCall(s, step);
      StrandedSubmit(s, step, x, sid);
    } else if EventStep(step) {
      StrandedEvent(s, step, x, sid);
    } else if SweepStep(step) {
      StrandedSweep(s, step, x, sid);
    } else {
      StrandedOther(s, step, x, sid);
    }
  }

  lemma {:induction false} StrandedRun(states: seq<State>, steps: seq<Step>, i: nat, k: nat, x: nat, sid: nat)
    requires IsRun(states, steps) && i <= k < |states| && Patient(states, steps, k) && Stranded(states[i], x, sid)
    ensures Stranded(states[k], x, sid)
    decreases k
  {
    hide Apply, Enabled, Stranded, Inv;
    if i < k {
      StrandedRun(states, steps, i, k - 1, x, sid);
      RunInv(states, steps, k - 1);
      StrandedStep(states[k - 1], steps[k - 1], x, sid);
    }
  }

  /* The results. */

  // Whenever the event handler is idle, every submission that succeeded has had
  // exactly one callback or can still be reported, if and only if no sweep has
  // passed over a transfer that was with the backend.
  lemma CallbackExactly(states: seq<State>, steps: seq<Step>, k: nat)
    requires IsRun(states, steps) && k < |states| && Patient(states, steps, k) && states[k].ev.EIdle?
    ensures Indexed(states[k]) && (AllSettled(states[k]) <==> NonePassedOver(states, steps, k))
  {
    hide Apply, Enabled, Stranded, Settled, SweptAt, PassesOver;
    RunInv(states, steps, k);
    var s := states[k];
    if NonePassedOver(states, steps, k) {
      forall sid: nat | sid < |s.subs| && Succeeded(s.subs[sid].pc) ensures Settled(s, sid) {
        RunSwept(states, steps, k, s.subs[sid].x);
        SettledWhenSwept(s, sid);
      }
    } else {
      var i :| 0 <= i < k && PassesOver(states[i], steps[i]);
      LosesIt(states, steps, i, k);
    }
  }

  lemma LosesIt(states: seq<State>, steps: seq<Step>, i: nat, k: nat)
    requires IsRun(states, steps) && i < k < |states| && Patient(states, steps, k) && PassesOver(states[i], steps[i])
    ensures Indexed(states[k]) && !AllSettled(states[k])
  {
    hide Apply, Enabled, Settled;
    RunInv(states, steps, i);
    RunInv(states, steps, k);
    PassingStrands(states[i], steps[i]);
    var x := steps[i].x;
    var sid := states[i].accepted[x];
    StrandedRun(states, steps, i + 1, k, x, sid);
    StrandedIsNot(states[k], x, sid);
  }

  // Never two callbacks, and none for a call that failed.
  lemma NeverTwice(states: seq<State>, steps: seq<Step>, k: nat, sid: nat)
    requires IsRun(states, steps) && k < |states| && Patient(states, steps, k) && sid < |states[k].subs|
    ensures states[k].cbs[sid] <= 1
    ensures states[k].subs[sid].pc == Done(false) ==> states[k].cbs[sid] == 0
  {
    RunInv(states, steps, k);
    assert SubInvAt(states[k], sid);
  }

  /* Runs that lose no flag. */

  // No update of IN_FLIGHT has been lost before state k.
  ghost predicate NothingLost(states: seq<State>, steps: seq<Step>, k: nat)
    requires IsRun(states, steps) && k <= |steps|
  {
    forall i :: 0 <= i < k ==> !DropsInFlight(states[i], steps[i])
  }

  ghost predicate AllTrusted(s: State) {
    forall x: nat :: x < |s.xs| ==> TrustedAt(s, x)
  }

  lemma TrustedAtFirst(s: State)
    requires Init(s)
    ensures AllTrusted(s)
  {
  }

  // libusb_submit_transfer itself refuses what callers must not do, and the sweep
  // sees what is in flight.
  lemma TrustedFlagsRefuse(s: State, step: Step)
    requires Inv(s) && AllTrusted(s) && Enabled(s, step)
    ensures !Resubmits(s, step) && !PassesOver(s, step)
  {
    if step.CheckFlags? {
      ThisCall(s, step);
      var x := s.subs[step.sid].x;
      assert TrustedAt(s, x) && XInvAt(s, x);
    } else if step.ScanOne? {
      assert TrustedAt(s, step.x) && XInvAt(s, step.x);
    }
  }

  lemma {:induction false} RunTrusted(states: seq<State>, steps: seq<Step>, k: nat)
    requires IsRun(states, steps) && k < |states| && NothingLost(states, steps, k)
    ensures Patient(states, steps, k) && NonePassedOver(states, steps, k)
    ensures Inv(states[k]) && AllTrusted(states[k])
  {
    hide Apply, Enabled, Inv, TrustedAt, Resubmits, PassesOver;
    if k == 0 {
      InitInv(states[0]);
      TrustedAtFirst(states[0]);
    } else {
      var s, step := states[k - 1], steps[k - 1];
      RunTrusted(states, steps, k - 1);
      TrustedFlagsRefuse(s, step);
      StepInv(s, step);
      LengthsInv(s, step);
      forall x: nat | x < |states[k].xs| ensures TrustedAt(states[k], x) {
        TrustedStep(s, step, x);
      }
    }
  }

  // Without a lost update every submission that returned 0 has had exactly one
  // callback as soon as the event handler is idle, unless it is still in flight on a
  // present device, where cancellation works and a report can come; whatever
  // callers do.
  lemma ExactlyOneCallback(states: seq<State>, steps: seq<Step>, k: nat, sid: nat)
    requires IsRun(states, steps) && k < |states| && NothingLost(states, steps, k)
    requires sid < |states[k].subs|
    ensures Inv(states[k])
    ensures states[k].cbs[sid] <= 1
    ensures states[k].subs[sid].pc == Done(false) ==> states[k].cbs[sid] == 0
    ensures states[k].subs[sid].pc == Done(true) && states[k].ev.EIdle? ==>
              var s, x := states[k], states[k].subs[sid].x;
              if AcceptedFor(s, x) == Some(sid)
              then s.cbs[sid] == 0 && s.xs[x].flags.inFlight && x in s.flying && Enabled(s, Report(x))
              else s.cbs[sid] == 1
  {
    RunTrusted(states, steps, k);
    NeverTwice(states, steps, k, sid);
    var s := states[k];
    var x := s.subs[sid].x;
    if s.subs[sid].pc == Done(true) && s.ev.EIdle? {
      CallbackExactly(states, steps, k);
      StillInFlight(s, sid);
    }
  }

  lemma StillInFlight(s: State, sid: nat)
    requires Inv(s) && AllTrusted(s) && sid < |s.subs| && s.subs[sid].pc == Done(true) && s.ev.EIdle?
    requires Settled(s, sid)
    ensures var x := s.subs[sid].x;
            if AcceptedFor(s, x) == Some(sid)
            then s.cbs[sid] == 0 && s.xs[x].flags.inFlight && x in s.flying && Enabled(s, Report(x))
            else s.cbs[sid] == 1
  {
    var x := s.subs[sid].x;
    assert SubInvAt(s, sid) && XInvAt(s, x) && TrustedAt(s, x);
  }

  /* When the flags can be trusted. */

  // Every listed transfer is marked IN_FLIGHT or is still being submitted, which
  // is what usbi_handle_disconnect and libusb_cancel_transfer rely on.
  ghost predicate FlagsTrusted(s: State) {
    forall x: nat :: x in s.flying && x < |s.xs| ==> s.xs[x].flags.inFlight || BusyAt(s, x)
  }

  lemma TrustedMeans(s: State)
    requires Inv(s) && AllTrusted(s)
    ensures FlagsTrusted(s)
  {
    forall x: nat | x in s.flying && x < |s.xs| ensures s.xs[x].flags.inFlight || BusyAt(s, x) {
      assert XInvAt(s, x) && TrustedAt(s, x);
    }
  }

  lemma LossBreaksTrust(s: State)
    requires Inv(s) && Enabled(s, TWrite) && DropsInFlight(s, TWrite)
    ensures !FlagsTrusted(Apply(s, TWrite))
  {
    var x, s' := s.tm.x, Apply(s, TWrite);
    assert XInvAt(s, x);
    assert ViewOf(s', x).pc == ViewOf(s, x).pc && !s'.xs[x].flags.inFlight && !BusyAt(s', x);
  }

  // That holds throughout a run exactly when no handle_timeout writes back flags
  // it read before the submission marked the transfer.
  lemma FlagsTrustedExactly(states: seq<State>, steps: seq<Step>)
    requires IsRun(states, steps)
    ensures (forall k :: 0 <= k < |states| ==> FlagsTrusted(states[k]))
       <==> NothingLost(states, steps, |steps|)
  {
    hide Apply, Enabled, FlagsTrusted, DropsInFlight, Inv;
    if NothingLost(states, steps, |steps|) {
      forall k | 0 <= k < |states| ensures FlagsTrusted(states[k]) {
        RunTrusted(states, steps, k);
        TrustedMeans(states[k]);
      }
    } else {
      var k := FirstLoss(states, steps);
      RunTrusted(states, steps, k);
      LossIsWrite(states[k], steps[k]);
      LossBreaksTrust(states[k]);
      assert !FlagsTrusted(states[k + 1]);
    }
  }

  lemma LossIsWrite(s: State, step: Step)
    requires Indexed(s) && Enabled(s, step) && DropsInFlight(s, step)
    ensures step == TWrite
  {
  }

  lemma FirstLoss(states: seq<State>, steps: seq<Step>) returns (k: nat)
    requires IsRun(states, steps) && !NothingLost(states, steps, |steps|)
    ensures k < |steps| && NothingLost(states, steps, k) && DropsInFlight(states[k], steps[k])
  {
    k := 0;
    while !DropsInFlight(states[k], steps[k])
      invariant k < |steps| && NothingLost(states, steps, k)
      decreases |steps| - k
    {
      k := k + 1;
      assert k < |steps|;
    }
  }
}
