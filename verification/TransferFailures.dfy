/**
  Runs in which the transfer lifecycle goes wrong.  A lost IN_FLIGHT costs a
  callback, or does no harm.  And handle_timeouts takes a transfer's lock while
  holding flying_transfers_lock, the opposite order of libusb_submit_transfer, so
  that a failing submission can deadlock with it.
 */
module TransferFailures {
  import opened Options
  import opened TransferLifecycle
  import opened TransferSafety
  import opened TransferCallbacks

  /* The lost update, and the deadlock. */

  lemma Extend(states: seq<State>, steps: seq<Step>, step: Step, next: State) returns (more: seq<State>)
    requires IsRun(states, steps) && Indexed(states[|states| - 1]) && Enabled(states[|states| - 1], step)
    requires next == Apply(states[|states| - 1], step)
    ensures IsRun(more, steps + [step]) && more == states + [next] && more[|more| - 1] == next
    ensures !NothingLost(states, steps, |steps|) || DropsInFlight(states[|states| - 1], step)
            ==> !NothingLost(more, steps + [step], |steps| + 1)
  {
    more := states + [next];
    var all := steps + [step];
    forall i | 0 <= i < |all|
      ensures Indexed(more[i]) && Enabled(more[i], all[i]) && more[i + 1] == Apply(more[i], all[i])
    {
      if i < |steps| { assert states[i + 1] == Apply(states[i], steps[i]); }
    }
    if !NothingLost(states, steps, |steps|) {
      var i :| 0 <= i < |steps| && DropsInFlight(states[i], steps[i]);
      assert DropsInFlight(more[i], all[i]);
    }
    assert more[|steps|] == states[|states| - 1] && all[|steps|] == step;
  }

  // One transfer of one handle, in the middle of its only submission.
  function Single(flags: Flags, pc: Pc, flying: set<nat>, tm: Timeouts, accepted: map<nat, nat>, refs: int): State {
    State([Transfer(0, flags, Some(0))], [Sub(0, pc)], flying, EIdle, tm, {}, accepted, multiset{}, [refs])
  }

  const SUBMITTING := NO_FLAGS.(submitting := true)

  lemma Called() returns (states: seq<State>, steps: seq<Step>)
    ensures IsRun(states, steps) && |states| > 0
    ensures states[|states| - 1] ==
            State([Transfer(0, NO_FLAGS, None)], [Sub(0, WaitLock)], {}, EIdle, TIdle, {}, map[], multiset{}, [0])
  {
    var idle := State([Transfer(0, NO_FLAGS, None)], [], {}, EIdle, TIdle, {}, map[], multiset{}, [0]);
    states := Extend([idle], [], Submit(0), idle.(subs := [Sub(0, WaitLock)]));
    steps := [] + [Submit(0)];
  }

  // The call has passed its check of the flags.
  lemma Checked() returns (states: seq<State>, steps: seq<Step>)
    ensures IsRun(states, steps) && |states| > 0
    ensures states[|states| - 1] == Single(SUBMITTING, Add, {}, TIdle, map[], 0)
  {
    hide IsRun, NothingLost;
    states, steps := Called();
    states := Extend(states, steps, Acquire(0), Single(NO_FLAGS, Check, {}, TIdle, map[], 0));
    steps := steps + [Acquire(0)];
    states := Extend(states, steps, CheckFlags(0, true), Single(SUBMITTING, Add, {}, TIdle, map[], 0));
    steps := steps + [CheckFlags(0, true)];
  }

  lemma Listed() returns (states: seq<State>, steps: seq<Step>)
    ensures IsRun(states, steps) && |states| > 0
    ensures states[|states| - 1] == Single(SUBMITTING, Backend, {0}, TIdle, map[], 1)
  {
    hide IsRun, NothingLost;
    states, steps := Checked();
    states := Extend(states, steps, AddToList(0), Single(SUBMITTING, Ref, {0}, TIdle, map[], 0));
    steps := steps + [AddToList(0)];
    states := Extend(states, steps, TakeRef(0), Single(SUBMITTING, Backend, {0}, TIdle, map[], 1));
    steps := steps + [TakeRef(0)];
  }

  // The submission is about to call the backend when its timeout expires and
  // handle_timeout reads the flags.
  lemma ReadTooEarly() returns (states: seq<State>, steps: seq<Step>)
    ensures IsRun(states, steps) && |states| > 0
    ensures states[|states| - 1] == Single(SUBMITTING, Backend, {0}, TSaved(0, SUBMITTING, false), map[], 1)
  {
    hide IsRun, NothingLost;
    states, steps := Listed();
    states := Extend(states, steps, TBegin, Single(SUBMITTING, Backend, {0}, THeld, map[], 1));
    steps := steps + [TBegin];
    states := Extend(states, steps, TRead(0),
                     Single(SUBMITTING, Backend, {0}, TSaved(0, SUBMITTING, false), map[], 1));
    steps := steps + [TRead(0)];
  }

  // The flags left behind: SUBMITTING is back, IN_FLIGHT is gone.
  const STALE := SUBMITTING.(timeoutHandled := true)

  lemma WriteTooLate() returns (states: seq<State>, steps: seq<Step>)
    ensures IsRun(states, steps) && |states| > 0 && !NothingLost(states, steps, |steps|)
    ensures states[|states| - 1] == Single(STALE, Return(true), {0}, TCancel(0), map[0 := 0], 1)
  {
    hide IsRun, NothingLost;
    states, steps := ReadTooEarly();
    var saved := TSaved(0, SUBMITTING, false);
    states := Extend(states, steps, CallBackend(0, true),
                     Single(SUBMITTING, Finish(true), {0}, saved, map[0 := 0], 1));
    steps := steps + [CallBackend(0, true)];
    states := Extend(states, steps, FinishSubmit(0),
                     Single(NO_FLAGS.(inFlight := true), Return(true), {0}, saved, map[0 := 0], 1));
    steps := steps + [FinishSubmit(0)];
    states := Extend(states, steps, TWrite, Single(STALE, Return(true), {0}, TCancel(0), map[0 := 0], 1));
    steps := steps + [TWrite];
  }

  lemma ReturnedWithoutInFlight() returns (states: seq<State>, steps: seq<Step>)
    ensures IsRun(states, steps) && |states| > 0 && !NothingLost(states, steps, |steps|)
    ensures states[|states| - 1] == Returned(STALE, EIdle, {0}, map[0 := 0], multiset{}, 1)
  {
    hide IsRun, NothingLost;
    states, steps := WriteTooLate();
    var s := Single(STALE, Done(true), {0}, TCancel(0), map[0 := 0], 1).(xs := [Transfer(0, STALE, None)]);
    states := Extend(states, steps, ReturnFrom(0), s);
    steps := steps + [ReturnFrom(0)];
    states := Extend(states, steps, TCancelIt(Cancelled), s.(tm := THeld));
    steps := steps + [TCancelIt(Cancelled)];
    states := Extend(states, steps, TEnd, s.(tm := TIdle));
    steps := steps + [TEnd];
  }

  // The only submission has returned 0.
  function Returned(flags: Flags, ev: Event, flying: set<nat>, accepted: map<nat, nat>, cbs: multiset<nat>,
                    refs: int): State {
    State([Transfer(0, flags, None)], [Sub(0, Done(true))], flying, ev, TIdle, {}, accepted, cbs, [refs])
  }

  lemma Unplugged() returns (states: seq<State>, steps: seq<Step>)
    ensures IsRun(states, steps) && |states| > 0
    ensures states[|states| - 1] == Returned(STALE, EScan(0, {0}), {0}, map[0 := 0], multiset{}, 1).(gone := {0})
  {
    hide IsRun, NothingLost;
    states, steps := ReturnedWithoutInFlight();
    var s := states[|states| - 1].(gone := {0});
    states := Extend(states, steps, Disconnect(0), s.(ev := ESweep(0)));
    steps := steps + [Disconnect(0)];
    states := Extend(states, steps, LockSweep, s.(ev := EScan(0, {0})));
    steps := steps + [LockSweep];
  }

  // The sweep takes the transfer for one still being submitted.
  lemma PassedOver() returns (states: seq<State>, steps: seq<Step>)
    ensures IsRun(states, steps) && |states| > 0
    ensures states[|states| - 1] == Forgotten().(ev := EScan(0, {}))
  {
    hide IsRun, NothingLost;
    states, steps := Unplugged();
    assert {0} - {0} == {};
    states := Extend(states, steps, ScanOne(0), Forgotten().(ev := EScan(0, {})));
    steps := steps + [ScanOne(0)];
  }

  function Forgotten(): State {
    Returned(STALE.(disappeared := true), EIdle, {0}, map[0 := 0], multiset{}, 1).(gone := {0})
  }

  // A submission that returned 0, whose device is then unplugged and swept, and
  // whose callback is never made.
  lemma LostUpdateLosesTheCallback() returns (states: seq<State>, steps: seq<Step>)
    ensures IsRun(states, steps) && |states| > 0
    ensures var s := states[|states| - 1];
            && s.subs == [Sub(0, Done(true))] && s.ev == EIdle && 0 in s.gone
            && s.cbs == multiset{} && Indexed(s) && !Enabled(s, Report(0))
            && |s.xs| == 1 && s.xs[0].flags.disappeared && s.refs == [1]
  {
    hide IsRun, NothingLost;
    states, steps := PassedOver();
    states := Extend(states, steps, EndScan, Forgotten());
    steps := steps + [EndScan];
  }

  lemma Reported() returns (states: seq<State>, steps: seq<Step>)
    ensures IsRun(states, steps) && |states| > 0 && !NothingLost(states, steps, |steps|)
    ensures states[|states| - 1] == Returned(STALE, EFlags(0, 0, None), {}, map[], multiset{}, 1)
  {
    hide IsRun, NothingLost;
    states, steps := ReturnedWithoutInFlight();
    states := Extend(states, steps, Report(0), Returned(STALE, ERemove(0, 0, None), {0}, map[], multiset{}, 1));
    steps := steps + [Report(0)];
    states := Extend(states, steps, RemoveCompleted, Returned(STALE, EFlags(0, 0, None), {}, map[], multiset{}, 1));
    steps := steps + [RemoveCompleted];
  }

  // The same lost update does no harm when the backend reports first.
  lemma LostUpdateMayDoNoHarm() returns (states: seq<State>, steps: seq<Step>)
    ensures IsRun(states, steps) && |states| > 0 && !NothingLost(states, steps, |steps|)
    ensures var s := states[|states| - 1];
            && s.subs == [Sub(0, Done(true))] && s.ev == EIdle && s.flying == {}
            && s.cbs == multiset{0} && s.refs == [0]
  {
    hide IsRun, NothingLost;
    states, steps := Reported();
    var done := STALE.(completed := true);
    states := Extend(states, steps, MarkCompleted, Returned(done, ECall(0, 0, None), {}, map[], multiset{}, 1));
    steps := steps + [MarkCompleted];
    states := Extend(states, steps, CallUser, Returned(done, EUnref(0, None), {}, map[], multiset{0}, 1));
    steps := steps + [CallUser];
    states := Extend(states, steps, UnrefCompleted, Returned(done, EIdle, {}, map[], multiset{0}, 0));
    steps := steps + [UnrefCompleted];
  }

  // handle_timeouts holds flying_transfers_lock and wants the lock of a transfer
  // whose failed submission holds that lock and wants flying_transfers_lock.
  predicate Deadlocked(s: State, x: nat, sid: nat) {
    && x < |s.xs| && s.tm == TCancel(x) && s.xs[x].lock == Some(sid)
    && sid < |s.subs| && s.subs[sid] == Sub(x, Remove)
  }

  lemma DeadlockIsForever(s: State, step: Step, x: nat, sid: nat)
    requires Inv(s) && Enabled(s, step) && Deadlocked(s, x, sid)
    ensures Deadlocked(Apply(s, step), x, sid)
  {
    hide Apply, Enabled, Inv;
    if SubmitStep(step) && step.sid == sid {
      IndexedIn(s);
      CannotMove(s, step, sid);
    } else {
      HoldsStill(s, step, x, sid);
    }
  }

  lemma CannotMove(s: State, step: Step, sid: nat)
    requires Indexed(s) && SubmitStep(step) && step.sid == sid && AtPc(s, sid, Remove) && !s.tm.TIdle?
    ensures !Enabled(s, step)
  {
    hide HandlerApply, OtherApply, HandlerEnabled, OtherEnabled;
  }

  // The backend refuses a submission while handle_timeouts is about to cancel it.
  lemma Refused() returns (states: seq<State>, steps: seq<Step>)
    ensures IsRun(states, steps) && |states| > 0
    ensures states[|states| - 1] == Single(STALE, Finish(false), {0}, TCancel(0), map[], 1)
  {
    hide IsRun, NothingLost;
    states, steps := ReadTooEarly();
    states := Extend(states, steps, TWrite, Single(STALE, Backend, {0}, TCancel(0), map[], 1));
    steps := steps + [TWrite];
    states := Extend(states, steps, CallBackend(0, false), Single(STALE, Finish(false), {0}, TCancel(0), map[], 1));
    steps := steps + [CallBackend(0, false)];
  }

  lemma DeadlockIsReachable() returns (states: seq<State>, steps: seq<Step>)
    ensures IsRun(states, steps) && |states| > 0
    ensures Deadlocked(states[|states| - 1], 0, 0)
  {
    hide IsRun, NothingLost;
    states, steps := Refused();
    var cleared := STALE.(submitting := false);
    states := Extend(states, steps, FinishSubmit(0), Single(cleared, Unref, {0}, TCancel(0), map[], 1));
    steps := steps + [FinishSubmit(0)];
    states := Extend(states, steps, DropRef(0), Single(cleared, Remove, {0}, TCancel(0), map[], 0));
    steps := steps + [DropRef(0)];
  }

  // The step the holder of a transfer's lock takes next.
  function NextOf(s: State, sid: nat): Step
    requires sid < |s.subs|
  {
    match s.subs[sid].pc
    case WaitLock => Acquire(sid) case Check => CheckFlags(sid, true) case Add => AddToList(sid)
    case Ref => TakeRef(sid) case Backend => CallBackend(sid, false) case Finish(_) => FinishSubmit(sid)
    case Unref => DropRef(sid) case Remove => RemoveFailed(sid)
    case Return(_) => ReturnFrom(sid) case Done(_) => ReturnFrom(sid)
  }

  // handle_timeouts, about to cancel, is stuck for good exactly when the lock it
  // wants is held by a failed submission that has come to its list removal.
  lemma TimeoutsBlockedExactly(s: State, x: nat)
    requires Inv(s) && s.tm == TCancel(x)
    ensures x < |s.xs| && (s.xs[x].lock.Some? ==> s.xs[x].lock.value < |s.subs|)
    ensures if s.xs[x].lock.None? then Enabled(s, TCancelIt(Cancelled))
            else var sid := s.xs[x].lock.value; Deadlocked(s, x, sid) <==> !Enabled(s, NextOf(s, sid))
  {
    assert XInvAt(s, x) && LockLinked(s, x);
    if s.xs[x].lock.Some? {
      assert SubInvAt(s, s.xs[x].lock.value);
    }
  }

  /* Which runs come to the deadlock. */

  // handle_timeouts, about to cancel x, waits for the lock that call sid holds.
  predicate Waits(s: State, x: nat, sid: nat) {
    && x < |s.xs| && s.tm == TCancel(x) && s.xs[x].lock == Some(sid)
    && sid < |s.subs| && s.subs[sid].x == x
  }

  // The call has still to hear from the backend.
  predicate Undecided(s: State, x: nat, sid: nat) {
    Waits(s, x, sid) && (s.subs[sid].pc.Ref? || s.subs[sid].pc.Backend?)
  }

  // The backend refused, and the call is on its way to the removal from the list.
  predicate Doomed(s: State, x: nat, sid: nat) {
    Waits(s, x, sid) && (s.subs[sid].pc == Finish(false) || s.subs[sid].pc.Unref? || s.subs[sid].pc.Remove?)
  }

  // The backend accepted, and the call is on its way to giving the lock back.
  predicate Saved(s: State, x: nat, sid: nat) {
    && sid < |s.subs|
    && if s.subs[sid].pc == Finish(true) then Waits(s, x, sid) && !s.xs[x].flags.disappeared
       else Succeeded(s.subs[sid].pc)
  }

  // Nothing else touches the flags or the lock of x meanwhile.
  lemma HoldsStill(s: State, step: Step, x: nat, sid: nat)
    requires Inv(s) && Enabled(s, step) && Waits(s, x, sid)
    requires !(SubmitStep(step) && step.sid == sid)
    ensures Waits(Apply(s, step), x, sid) && Apply(s, step).subs[sid] == s.subs[sid]
    ensures Apply(s, step).xs[x].flags.disappeared == s.xs[x].flags.disappeared
  {
    hide Apply, Enabled, Inv, SubInvAt;
    TwoCalls(s, step, sid);
    if SubmitStep(step) {
      SubmitFrame(s, step);
      OtherCall(s, step.sid, sid);
    } else if EventStep(step) || SweepStep(step) {
      HandlerFrame(s, step);
      HandlerHolds(s, step, x);
    } else {
      OtherFrame(s, step);
      TimeoutHolds(s, step, x);
    }
  }

  lemma TwoCalls(s: State, step: Step, sid: nat)
    requires Inv(s) && Enabled(s, step) && sid < |s.subs|
    ensures Indexed(s) && EventLinked(s) && SubInvAt(s, sid)
    ensures SubmitStep(step) ==> SubInvAt(s, step.sid) && Moving(s, step)
  {
    hide SubInvAt, XInvAt;
    if SubmitStep(step) { ThisCall(s, step); CallMoves(s, step); }
  }

  // A call that moves holds its transfer's lock, or is taking it while it is free.
  predicate Moving(s: State, step: Step)
    requires SubmitStep(step)
  {
    && step.sid < |s.subs| && s.subs[step.sid].x < |s.xs|
    && (Locked(s.subs[step.sid].pc) || s.xs[s.subs[step.sid].x].lock.None?)
  }

  lemma CallMoves(s: State, step: Step)
    requires Indexed(s) && Enabled(s, step) && SubmitStep(step)
    ensures Moving(s, step)
  {
    hide HandlerApply, OtherApply, HandlerEnabled, OtherEnabled;
  }

  lemma OtherCall(s: State, sid: nat, t: nat)
    requires SubInvAt(s, sid) && SubInvAt(s, t) && sid != t && s.xs[s.subs[t].x].lock == Some(t)
    requires Locked(s.subs[sid].pc) || s.xs[s.subs[sid].x].lock.None?
    ensures s.subs[sid].x != s.subs[t].x
  {
  }

  lemma HandlerHolds(s: State, step: Step, x: nat)
    requires Indexed(s) && EventLinked(s) && Enabled(s, step) && (EventStep(step) || SweepStep(step))
    requires x < |s.xs| && s.tm == TCancel(x)
    ensures x < |Apply(s, step).xs| && Apply(s, step).xs[x].flags.disappeared == s.xs[x].flags.disappeared
  {
    hide SubmitApply, OtherApply, SubmitEnabled, OtherEnabled;
  }

  lemma TimeoutHolds(s: State, step: Step, x: nat)
    requires Indexed(s) && Enabled(s, step) && !SubmitStep(step) && !EventStep(step) && !SweepStep(step)
    requires x < |s.xs| && s.tm == TCancel(x) && s.xs[x].lock.Some?
    ensures var s' := Apply(s, step);
            x < |s'.xs| && s'.tm == s.tm && s'.xs[x].flags.disappeared == s.xs[x].flags.disappeared
  {
    hide SubmitApply, HandlerApply, SubmitEnabled, HandlerEnabled;
  }

  lemma UndecidedStep(s: State, step: Step, x: nat, sid: nat)
    requires Inv(s) && Enabled(s, step) && Undecided(s, x, sid)
    ensures if step == CallBackend(sid, false) then Doomed(Apply(s, step), x, sid)
            else if step == CallBackend(sid, true) then Saved(Apply(s, step), x, sid)
            else Undecided(Apply(s, step), x, sid)
  {
    hide Apply, Enabled, Inv, XInvAt;
    if SubmitStep(step) && step.sid == sid {
      Facts(s, x);
      UndecidedMoves(s, step, x, sid);
    } else {
      HoldsStill(s, step, x, sid);
    }
  }

  lemma Facts(s: State, x: nat)
    requires Inv(s) && x < |s.xs|
    ensures Indexed(s) && XInvAt(s, x)
  {
  }

  lemma UndecidedMoves(s: State, step: Step, x: nat, sid: nat)
    requires Indexed(s) && Enabled(s, step) && Undecided(s, x, sid) && SubmitStep(step) && step.sid == sid
             && XInvAt(s, x)
    ensures if step == CallBackend(sid, false) then Doomed(Apply(s, step), x, sid)
            else if step == CallBackend(sid, true) then Saved(Apply(s, step), x, sid)
            else Undecided(Apply(s, step), x, sid)
  {
    hide HandlerApply, OtherApply, HandlerEnabled, OtherEnabled;
  }

  lemma DoomedStep(s: State, step: Step, x: nat, sid: nat)
    requires Inv(s) && Enabled(s, step) && Doomed(s, x, sid)
    ensures Doomed(Apply(s, step), x, sid)
  {
    hide Apply, Enabled, Inv;
    if SubmitStep(step) && step.sid == sid {
      IndexedIn(s);
      DoomedMoves(s, step, x, sid);
    } else {
      HoldsStill(s, step, x, sid);
    }
  }

  lemma DoomedMoves(s: State, step: Step, x: nat, sid: nat)
    requires Indexed(s) && Enabled(s, step) && Doomed(s, x, sid) && SubmitStep(step) && step.sid == sid
    ensures Doomed(Apply(s, step), x, sid)
  {
    hide HandlerApply, OtherApply, HandlerEnabled, OtherEnabled;
  }

  lemma SavedStep(s: State, step: Step, x: nat, sid: nat)
    requires Inv(s) && Enabled(s, step) && Saved(s, x, sid)
    ensures Saved(Apply(s, step), x, sid)
  {
    hide Inv, Apply, Enabled;
    IndexedIn(s);
    if SubmitStep(step) && step.sid == sid {
      SavedMoves(s, step, x, sid);
    } else if s.subs[sid].pc == Finish(true) {
      HoldsStill(s, step, x, sid);
    } else {
      OthersMove(s, step, sid);
    }
  }

  lemma IndexedIn(s: State)
    requires Inv(s)
    ensures Indexed(s)
  {
  }

  lemma SavedMoves(s: State, step: Step, x: nat, sid: nat)
    requires Indexed(s) && Enabled(s, step) && Saved(s, x, sid) && SubmitStep(step) && step.sid == sid
    ensures Saved(Apply(s, step), x, sid)
  {
    hide HandlerApply, OtherApply, HandlerEnabled, OtherEnabled;
  }

  lemma OthersMove(s: State, step: Step, sid: nat)
    requires Indexed(s) && Enabled(s, step) && sid < |s.subs| && !(SubmitStep(step) && step.sid == sid)
    ensures sid < |Apply(s, step).subs| && Apply(s, step).subs[sid] == s.subs[sid]
  {
    hide Apply, Enabled;
    if SubmitStep(step) {
      SubmitFrame(s, step);
    } else if EventStep(step) || SweepStep(step) {
      HandlerFrame(s, step);
    } else {
      OtherFrame(s, step);
    }
  }

  ghost predicate RefusedBetween(steps: seq<Step>, i: nat, k: nat, sid: nat)
    requires i <= k <= |steps|
  {
    exists j :: i <= j < k && steps[j] == CallBackend(sid, false)
  }

  lemma {:induction false} Fate(states: seq<State>, steps: seq<Step>, i: nat, k: nat, x: nat, sid: nat)
    requires IsRun(states, steps) && i <= k < |states| && Patient(states, steps, k) && Undecided(states[i], x, sid)
    ensures if RefusedBetween(steps, i, k, sid) then Doomed(states[k], x, sid)
            else Undecided(states[k], x, sid) || Saved(states[k], x, sid)
    decreases k
  {
    hide Apply, Enabled, Inv, Undecided, Doomed, Saved;
    if i < k {
      var s, step := states[k - 1], steps[k - 1];
      Fate(states, steps, i, k - 1, x, sid);
      RunInv(states, steps, k - 1);
      if RefusedBetween(steps, i, k - 1, sid) {
        DoomedStep(s, step, x, sid);
      } else if Undecided(s, x, sid) {
        UndecidedStep(s, step, x, sid);
        assert step == CallBackend(sid, false) <==> RefusedBetween(steps, i, k, sid);
      } else {
        NoMoreCalls(s, step, x, sid);
        SavedStep(s, step, x, sid);
      }
    }
  }

  lemma NoMoreCalls(s: State, step: Step, x: nat, sid: nat)
    requires Indexed(s) && Enabled(s, step) && Saved(s, x, sid)
    ensures step != CallBackend(sid, false)
  {
  }

  // A handle_timeouts that waits for a submission which has yet to call the backend
  // ends in the deadlock if and only if the backend refuses: wherever the run goes,
  // once that call is at its removal from the list or has its result.
  lemma DeadlockExactly(states: seq<State>, steps: seq<Step>, i: nat, k: nat, x: nat, sid: nat)
    requires IsRun(states, steps) && i <= k < |states| && Patient(states, steps, k) && Undecided(states[i], x, sid)
    requires sid < |states[k].subs| && var pc := states[k].subs[sid].pc; pc.Remove? || pc.Return? || pc.Done?
    ensures Deadlocked(states[k], x, sid) <==> RefusedBetween(steps, i, k, sid)
  {
    Fate(states, steps, i, k, x, sid);
  }

  // And a refused submission always gets there.
  lemma DoomedGoesOn(s: State, x: nat, sid: nat)
    requires Inv(s) && Doomed(s, x, sid) && !Deadlocked(s, x, sid)
    ensures Enabled(s, NextOf(s, sid))
    ensures var pc, pc' := s.subs[sid].pc, Apply(s, NextOf(s, sid)).subs[sid].pc;
            (pc.Finish? && pc'.Unref?) || (pc.Unref? && pc'.Remove?)
  {
  }
}
