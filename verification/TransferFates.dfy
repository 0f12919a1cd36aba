/**
  Two things more that the lifecycle keeps, each exactly as long as no step of one
  kind happens.  A transfer of an unplugged device that is still with the backend
  will be swept, unless the sweep takes it for one being submitted.  And IN_FLIGHT
  is set on every transfer with the backend, unless handle_timeout writes back
  older flags.
 */
module TransferFates {
  import opened TransferLifecycle
  import opened TransferSafety

  predicate BusyAt(s: State, x: nat)
    requires x < |s.xs|
  {
    s.xs[x].lock.Some? && Busy(ViewOf(s, x).pc)
  }

  // The sweep passes over a transfer that is with the backend: its IN_FLIGHT is
  // missing although its submission has ended.
  predicate PassesOver(s: State, step: Step)
    requires Indexed(s) && Enabled(s, step)
  {
    step.ScanOne? && var x := step.x;
      s.xs[x].handle == s.ev.h && !s.xs[x].flags.inFlight && x in s.accepted && !BusyAt(s, x)
  }

  predicate SweptInv(x: nat, v: View, ev: Event) {
    v.gone && v.acc.Some? ==>
      SweepWillSee(ev, v.handle, x) || (v.lock.Some? && v.pc == Finish(true) && v.flags.disappeared)
  }

  predicate SweptAt(s: State, x: nat) {
    x < |s.xs| && SweptInv(x, ViewOf(s, x), s.ev)
  }

  predicate TrustedInv(x: nat, v: View, ev: Event) {
    !(v.lock.Some? && Busy(v.pc)) && (v.acc.Some? || Delivering(ev, x)) ==> v.flags.inFlight
  }

  predicate TrustedAt(s: State, x: nat) {
    x < |s.xs| && TrustedInv(x, ViewOf(s, x), s.ev)
  }

  /* The sweep will come. */

  lemma AcquireSwept(s: State, step: Step, x: nat)
    requires Indexed(s) && EventLinked(s) && Enabled(s, step) && step.Acquire? && LockLinked(s, x)
             && SubInvAt(s, step.sid)
    requires x < |s.xs| && XInvAt(s, x) && SweptAt(s, x)
    ensures SweptAt(Apply(s, step), x)
  {
    hide HandlerApply, OtherApply, HandlerEnabled, OtherEnabled;
  }

  lemma CheckSwept(s: State, step: Step, x: nat)
    requires Indexed(s) && EventLinked(s) && Enabled(s, step) && step.CheckFlags? && LockLinked(s, x)
             && SubInvAt(s, step.sid)
    requires x < |s.xs| && XInvAt(s, x) && SweptAt(s, x)
    ensures SweptAt(Apply(s, step), x)
  {
    hide HandlerApply, OtherApply, HandlerEnabled, OtherEnabled;
  }

  lemma ListSwept(s: State, step: Step, x: nat)
    requires Indexed(s) && EventLinked(s) && Enabled(s, step) && ListStep(step) && LockLinked(s, x)
             && SubInvAt(s, step.sid)
    requires x < |s.xs| && XInvAt(s, x) && SweptAt(s, x)
    ensures SweptAt(Apply(s, step), x)
  {
    hide HandlerApply, OtherApply, HandlerEnabled, OtherEnabled;
  }

  lemma RefSwept(s: State, step: Step, x: nat)
    requires Indexed(s) && EventLinked(s) && Enabled(s, step) && RefStep(step) && LockLinked(s, x)
             && SubInvAt(s, step.sid)
    requires x < |s.xs| && XInvAt(s, x) && SweptAt(s, x)
    ensures SweptAt(Apply(s, step), x)
  {
    hide HandlerApply, OtherApply, HandlerEnabled, OtherEnabled;
  }

  lemma BackendSwept(s: State, step: Step, x: nat)
    requires Indexed(s) && EventLinked(s) && Enabled(s, step) && step.CallBackend? && LockLinked(s, x)
             && SubInvAt(s, step.sid)
    requires x < |s.xs| && XInvAt(s, x) && SweptAt(s, x)
    ensures SweptAt(Apply(s, step), x)
  {
    hide HandlerApply, OtherApply, HandlerEnabled, OtherEnabled;
  }

  lemma FinishSwept(s: State, step: Step, x: nat)
    requires Indexed(s) && EventLinked(s) && Enabled(s, step) && step.FinishSubmit? && LockLinked(s, x)
             && SubInvAt(s, step.sid)
    requires x < |s.xs| && XInvAt(s, x) && SweptAt(s, x)
    ensures SweptAt(Apply(s, step), x)
  {
    hide HandlerApply, OtherApply, HandlerEnabled, OtherEnabled;
  }

  lemma EventSwept(s: State, step: Step, x: nat)
    requires Indexed(s) && EventLinked(s) && Enabled(s, step) && EventStep(step) && LockLinked(s, x)
    requires x < |s.xs| && XInvAt(s, x) && SweptAt(s, x)
    ensures SweptAt(Apply(s, step), x)
  {
    hide SubmitApply, OtherApply, SubmitEnabled, OtherEnabled;
  }

  lemma ScanSwept(s: State, step: Step, x: nat)
    requires Indexed(s) && EventLinked(s) && Enabled(s, step) && step.ScanOne? && LockLinked(s, x)
    requires x < |s.xs| && XInvAt(s, x) && SweptAt(s, x)
    requires !PassesOver(s, step)
    ensures SweptAt(Apply(s, step), x)
  {
    hide SubmitApply, OtherApply, SubmitEnabled, OtherEnabled;
  }

  lemma SweepSwept(s: State, step: Step, x: nat)
    requires Indexed(s) && EventLinked(s) && Enabled(s, step) && SweepStep(step) && !step.ScanOne? && LockLinked(s, x)
    requires x < |s.xs| && XInvAt(s, x) && SweptAt(s, x)
    ensures SweptAt(Apply(s, step), x)
  {
    hide SubmitApply, OtherApply, SubmitEnabled, OtherEnabled;
  }

  lemma CancelSwept(s: State, step: Step, x: nat)
    requires Indexed(s) && EventLinked(s) && Enabled(s, step) && (step.Cancel? || step.TCancelIt?) && LockLinked(s, x)
    requires x < |s.xs| && XInvAt(s, x) && SweptAt(s, x)
    ensures SweptAt(Apply(s, step), x)
  {
    hide SubmitApply, HandlerApply, SubmitEnabled, HandlerEnabled;
  }

  lemma WriteSwept(s: State, step: Step, x: nat)
    requires Indexed(s) && EventLinked(s) && Enabled(s, step) && step.TWrite? && LockLinked(s, x)
    requires x < |s.xs| && XInvAt(s, x) && SweptAt(s, x)
    ensures SweptAt(Apply(s, step), x)
  {
    hide SubmitApply, HandlerApply, SubmitEnabled, HandlerEnabled;
  }

  lemma TimeoutSwept(s: State, step: Step, x: nat)
    requires Indexed(s) && EventLinked(s) && Enabled(s, step) && TimeoutStep(step) && LockLinked(s, x)
    requires x < |s.xs| && XInvAt(s, x) && SweptAt(s, x)
    ensures SweptAt(Apply(s, step), x)
  {
    hide SubmitApply, HandlerApply, SubmitEnabled, HandlerEnabled;
  }

  lemma NewSwept(s: State, step: Step, x: nat)
    requires Indexed(s) && EventLinked(s) && Enabled(s, step) && step.Submit? && LockLinked(s, x)
    requires x < |s.xs| && XInvAt(s, x) && SweptAt(s, x)
    ensures SweptAt(Apply(s, step), x)
  {
    hide SubmitApply, HandlerApply, SubmitEnabled, HandlerEnabled;
  }

  lemma SweptStep(s: State, step: Step, x: nat)
    requires Inv(s) && Enabled(s, step) && !PassesOver(s, step) && x < |s.xs| && SweptAt(s, x)
    ensures x < |Apply(s, step).xs| && SweptAt(Apply(s, step), x)
  {
    hide Apply, Enabled, XInvAt, SubInvAt, EventLinked, SweptAt, PassesOver;
    Lengths(s, step);
    assert LockLinked(s, x) && XInvAt(s, x);
    if SubmitStep(step) {
      ThisCall(s, step);
      if step.Acquire? { AcquireSwept(s, step, x); }
      else if step.CheckFlags? { CheckSwept(s, step, x); }
      else if ListStep(step) { ListSwept(s, step, x); }
      else if RefStep(step) { RefSwept(s, step, x); }
      else if step.CallBackend? { BackendSwept(s, step, x); }
      else { FinishSwept(s, step, x); }
    } else if EventStep(step) {
      EventSwept(s, step, x);
    } else if step.ScanOne? {
      ScanSwept(s, step, x);
    } else if SweepStep(step) {
      SweepSwept(s, step, x);
    } else if step.TWrite? {
      WriteSwept(s, step, x);
    } else if FlagStep(step) {
      CancelSwept(s, step, x);
    } else if TimeoutStep(step) {
      TimeoutSwept(s, step, x);
    } else {
      NewSwept(s, step, x);
    }
  }

  /* The flags can be trusted. */

  lemma AcquireTrusted(s: State, step: Step, x: nat)
    requires Indexed(s) && EventLinked(s) && Enabled(s, step) && step.Acquire? && LockLinked(s, x)
             && SubInvAt(s, step.sid)
    requires x < |s.xs| && XInvAt(s, x) && TrustedAt(s, x)
    ensures TrustedAt(Apply(s, step), x)
  {
    hide HandlerApply, OtherApply, HandlerEnabled, OtherEnabled;
  }

  lemma CheckTrusted(s: State, step: Step, x: nat)
    requires Indexed(s) && EventLinked(s) && Enabled(s, step) && step.CheckFlags? && LockLinked(s, x)
             && SubInvAt(s, step.sid)
    requires x < |s.xs| && XInvAt(s, x) && TrustedAt(s, x)
    ensures TrustedAt(Apply(s, step), x)
  {
    hide XInv;
    if x == s.subs[step.sid].x {
      CheckHereTrusted(s, step);
    } else {
      CheckElsewhere(s, step.sid, step.clock, x);
    }
  }

  lemma CheckHereTrusted(s: State, step: Step)
    requires Indexed(s) && Enabled(s, step) && step.CheckFlags? && SubInvAt(s, step.sid)
             && TrustedAt(s, s.subs[step.sid].x)
    ensures TrustedAt(Apply(s, step), s.subs[step.sid].x)
  {
    hide HandlerApply, OtherApply, HandlerEnabled, OtherEnabled;
  }

  lemma ListTrusted(s: State, step: Step, x: nat)
    requires Indexed(s) && EventLinked(s) && Enabled(s, step) && ListStep(step) && LockLinked(s, x)
             && SubInvAt(s, step.sid)
    requires x < |s.xs| && XInvAt(s, x) && TrustedAt(s, x)
    ensures TrustedAt(Apply(s, step), x)
  {
    hide HandlerApply, OtherApply, HandlerEnabled, OtherEnabled;
  }

  lemma RefTrusted(s: State, step: Step, x: nat)
    requires Indexed(s) && EventLinked(s) && Enabled(s, step) && RefStep(step) && LockLinked(s, x)
             && SubInvAt(s, step.sid)
    requires x < |s.xs| && XInvAt(s, x) && TrustedAt(s, x)
    ensures TrustedAt(Apply(s, step), x)
  {
    hide HandlerApply, OtherApply, HandlerEnabled, OtherEnabled;
  }

  lemma BackendTrusted(s: State, step: Step, x: nat)
    requires Indexed(s) && EventLinked(s) && Enabled(s, step) && step.CallBackend? && LockLinked(s, x)
             && SubInvAt(s, step.sid)
    requires x < |s.xs| && XInvAt(s, x) && TrustedAt(s, x)
    ensures TrustedAt(Apply(s, step), x)
  {
    hide HandlerApply, OtherApply, HandlerEnabled, OtherEnabled;
  }

  lemma FinishTrusted(s: State, step: Step, x: nat)
    requires Indexed(s) && EventLinked(s) && Enabled(s, step) && step.FinishSubmit? && LockLinked(s, x)
             && SubInvAt(s, step.sid)
    requires x < |s.xs| && XInvAt(s, x) && TrustedAt(s, x)
    ensures TrustedAt(Apply(s, step), x)
  {
    hide HandlerApply, OtherApply, HandlerEnabled, OtherEnabled;
  }

  lemma EventTrusted(s: State, step: Step, x: nat)
    requires Indexed(s) && EventLinked(s) && Enabled(s, step) && EventStep(step) && LockLinked(s, x)
    requires x < |s.xs| && XInvAt(s, x) && TrustedAt(s, x)
    ensures TrustedAt(Apply(s, step), x)
  {
    hide SubmitApply, OtherApply, SubmitEnabled, OtherEnabled;
  }

  lemma ScanTrusted(s: State, step: Step, x: nat)
    requires Indexed(s) && EventLinked(s) && Enabled(s, step) && step.ScanOne? && LockLinked(s, x)
    requires x < |s.xs| && XInvAt(s, x) && TrustedAt(s, x)
    ensures TrustedAt(Apply(s, step), x)
  {
    hide SubmitApply, OtherApply, SubmitEnabled, OtherEnabled;
  }

  lemma SweepTrusted(s: State, step: Step, x: nat)
    requires Indexed(s) && EventLinked(s) && Enabled(s, step) && SweepStep(step) && !step.ScanOne? && LockLinked(s, x)
    requires x < |s.xs| && XInvAt(s, x) && TrustedAt(s, x)
    ensures TrustedAt(Apply(s, step), x)
  {
    hide SubmitApply, OtherApply, SubmitEnabled, OtherEnabled;
  }

  lemma CancelTrusted(s: State, step: Step, x: nat)
    requires Indexed(s) && EventLinked(s) && Enabled(s, step) && (step.Cancel? || step.TCancelIt?) && LockLinked(s, x)
    requires x < |s.xs| && XInvAt(s, x) && TrustedAt(s, x)
    ensures TrustedAt(Apply(s, step), x)
  {
    hide SubmitApply, HandlerApply, SubmitEnabled, HandlerEnabled;
  }

  lemma WriteTrusted(s: State, step: Step, x: nat)
    requires Indexed(s) && EventLinked(s) && Enabled(s, step) && step.TWrite? && LockLinked(s, x)
    requires x < |s.xs| && XInvAt(s, x) && TrustedAt(s, x)
    requires !DropsInFlight(s, step)
    ensures TrustedAt(Apply(s, step), x)
  {
    hide SubmitApply, HandlerApply, SubmitEnabled, HandlerEnabled;
  }

  lemma TimeoutTrusted(s: State, step: Step, x: nat)
    requires Indexed(s) && EventLinked(s) && Enabled(s, step) && TimeoutStep(step) && LockLinked(s, x)
    requires x < |s.xs| && XInvAt(s, x) && TrustedAt(s, x)
    ensures TrustedAt(Apply(s, step), x)
  {
    hide SubmitApply, HandlerApply, SubmitEnabled, HandlerEnabled;
  }

  lemma NewTrusted(s: State, step: Step, x: nat)
    requires Indexed(s) && EventLinked(s) && Enabled(s, step) && step.Submit? && LockLinked(s, x)
    requires x < |s.xs| && XInvAt(s, x) && TrustedAt(s, x)
    ensures TrustedAt(Apply(s, step), x)
  {
    hide SubmitApply, HandlerApply, SubmitEnabled, HandlerEnabled;
  }

  lemma TrustedStep(s: State, step: Step, x: nat)
    requires Inv(s) && Enabled(s, step) && !DropsInFlight(s, step) && x < |s.xs| && TrustedAt(s, x)
    ensures x < |Apply(s, step).xs| && TrustedAt(Apply(s, step), x)
  {
    hide Apply, Enabled, XInvAt, SubInvAt, EventLinked, TrustedAt, DropsInFlight;
    Lengths(s, step);
    assert LockLinked(s, x) && XInvAt(s, x);
    if SubmitStep(step) {
      ThisCall(s, step);
      if step.Acquire? { AcquireTrusted(s, step, x); }
      else if step.CheckFlags? { CheckTrusted(s, step, x); }
      else if ListStep(step) { ListTrusted(s, step, x); }
      else if RefStep(step) { RefTrusted(s, step, x); }
      else if step.CallBackend? { BackendTrusted(s, step, x); }
      else { FinishTrusted(s, step, x); }
    } else if EventStep(step) {
      EventTrusted(s, step, x);
    } else if step.ScanOne? {
      ScanTrusted(s, step, x);
    } else if SweepStep(step) {
      SweepTrusted(s, step, x);
    } else if step.TWrite? {
      WriteTrusted(s, step, x);
    } else if FlagStep(step) {
      CancelTrusted(s, step, x);
    } else if TimeoutStep(step) {
      TimeoutTrusted(s, step, x);
    } else {
      NewTrusted(s, step, x);
    }
  }

}
