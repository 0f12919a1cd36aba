/**
  What a call of libusb_handle_events_timeout_completed does, over whole runs: how
  its polls, its hotplug messages and the calls of the backend belong together, when
  it returns, when it waits and what ends the wait.
 */
module EventLoopCalls {
  import opened Options
  import opened EventLoop
  import opened EventLoopCounts

  /* Polls, messages and the backend. */

  // What a step of thread t may do.
  datatype Deed = Poll | Prepare | Message | ReadyPoll | BackendCall | FailedSpecial | FailedMore

  predicate Does(s: State, step: Step, s': State, t: nat, deed: Deed)
    requires t < |s.threads| && t < |s'.threads|
  {
    step.Run? && step.t == t && var pc, pc' := s.threads[t].pc, s'.threads[t].pc;
    match deed
    case Poll => pc'.Polling?                     // goes to poll
    case Prepare => pc.PrepareFds?
    case Message => pc.DrainFirst? && s.sh.hotplug > 0    // finds a hotplug message
    case ReadyPoll => pc.Polling? && step.outcome == Ready(true)
    case BackendCall => pc'.InBackend?            // goes to the backend
    case FailedSpecial =>                         // a callback or the backend fails, a message having come
      (pc.InCallback? || pc.InBackend?) && pc.special && step.outcome == Failed(true)
    case FailedMore =>                            // a callback fails, the backend still to come
      pc.InCallback? && pc.more && step.outcome == Failed(true)
  }

  // t is one of the threads; their number does not change.
  ghost predicate HasThread(states: seq<State>, t: nat) {
    forall i :: 0 <= i < |states| ==> t < |states[i].threads|
  }

  // How often t has done so in the first k steps.
  ghost function Times(states: seq<State>, steps: seq<Step>, k: nat, t: nat, deed: Deed): nat
    requires |states| == |steps| + 1 && k <= |steps|
    requires HasThread(states, t)
  {
    if k == 0 then 0
    else Times(states, steps, k - 1, t, deed) + One(Does(states[k - 1], steps[k - 1], states[k], t, deed))
  }

  // A message has come and nothing failed so far: the round will end in another poll.
  predicate WillPoll(pc: Pc) {
    match pc
    case InCallback(special, _) => special
    case DrainNext(special, _, failed) => special && !failed
    case InHotplug(special, _, failed) => special && !failed
    case InBackend(special) => special
    case _ => false
  }

  // Another descriptor is ready and nothing failed so far: the backend will be called.
  predicate WillCallBackend(pc: Pc) {
    match pc
    case DrainFirst(more) => more
    case InCallback(_, more) => more
    case DrainNext(_, more, failed) => more && !failed
    case InHotplug(_, more, failed) => more && !failed
    case _ => false
  }

  lemma OneRound(s: State, step: Step, t: nat)
    requires Enabled(s, step) && t < |s.threads|
    ensures |Apply(s, step).threads| == |s.threads|
    ensures var s' := Apply(s, step);
            && One(Does(s, step, s', t, Poll)) + One(Does(s, step, s', t, FailedSpecial))
               + One(WillPoll(s'.threads[t].pc))
               == One(Does(s, step, s', t, Prepare)) + One(Does(s, step, s', t, Message))
                  + One(WillPoll(s.threads[t].pc))
            && One(Does(s, step, s', t, BackendCall)) + One(Does(s, step, s', t, FailedMore))
               + One(WillCallBackend(s'.threads[t].pc))
               == One(Does(s, step, s', t, ReadyPoll)) + One(WillCallBackend(s.threads[t].pc))
  {
    hide RunShared, ClosePc, CloseShared, Queued;
  }

  // A call polls once for preparing its descriptors and once more for every hotplug
  // message that comes, unless something fails first; and it calls the backend once
  // for every poll that finds another descriptor ready, unless a callback fails first.
  lemma {:induction false} PollsAndBackendCalls(states: seq<State>, steps: seq<Step>, k: nat, t: nat)
    requires IsRun(states, steps) && k <= |steps| && HasThread(states, t)
    ensures Times(states, steps, k, t, Poll) + Times(states, steps, k, t, FailedSpecial)
            + One(WillPoll(states[k].threads[t].pc))
            == Times(states, steps, k, t, Prepare) + Times(states, steps, k, t, Message)
    ensures Times(states, steps, k, t, BackendCall) + Times(states, steps, k, t, FailedMore)
            + One(WillCallBackend(states[k].threads[t].pc))
            == Times(states, steps, k, t, ReadyPoll)
  {
    hide Apply, Enabled, Does, WillPoll, WillCallBackend;
    if k == 0 {
      NothingUnderWay(states[0], t);
    } else {
      PollsAndBackendCalls(states, steps, k - 1, t);
      OneRound(states[k - 1], steps[k - 1], t);
    }
  }

  lemma NothingUnderWay(s: State, t: nat)
    requires Init(s) && t < |s.threads|
    ensures !WillPoll(s.threads[t].pc) && !WillCallBackend(s.threads[t].pc)
  {
  }

  /* When a call returns and when it waits, from any state on. */

  // From one state on until k, and t begins no other call.
  ghost predicate SameCall(states: seq<State>, steps: seq<Step>, k: nat, t: nat) {
    IsPath(states, steps) && k <= |steps| && HasThread(states, t) && forall i :: 0 <= i < k ==> steps[i] != Begin(t)
  }

  // In front of a check of the completed flag, or past it on the way out.
  predicate ChecksOrLeaves(pc: Pc) {
    || pc.Idle? || pc.TryCheck? || pc.TryLock? || pc.MarkActive? || pc.CheckCompleted?
    || pc.Unmark? || pc.Unlock? || pc.WantBroadcast? || pc.Broadcast? || pc.EndBroadcast?
    || pc.WantWaiters? || pc.RecheckCompleted? || pc.GiveUpWaiters? || pc.LeaveWaiters?
  }

  lemma DoneStep(s: State, step: Step, t: nat)
    requires Enabled(s, step) && t < |s.threads| && step != Begin(t)
    requires s.threads[t].done && ChecksOrLeaves(s.threads[t].pc)
    ensures |Apply(s, step).threads| == |s.threads|
    ensures var th := Apply(s, step).threads[t]; th.done && ChecksOrLeaves(th.pc)
  {
    hide RunShared, ClosePc, CloseShared, Queued;
  }

  // A call whose completed flag is set in front of a check returns without a poll and
  // without going to sleep.
  lemma {:induction false} DoneReturns(states: seq<State>, steps: seq<Step>, k: nat, t: nat)
    requires SameCall(states, steps, k, t) && states[0].threads[t].done && ChecksOrLeaves(states[0].threads[t].pc)
    ensures states[k].threads[t].done && ChecksOrLeaves(states[k].threads[t].pc)
  {
    hide Apply, Enabled, ChecksOrLeaves;
    if k > 0 {
      DoneReturns(states, steps, k - 1, t);
      DoneStep(states[k - 1], steps[k - 1], t);
    }
  }

  // Not handling events, but for having looked at device_close.
  predicate Outside(pc: Pc) {
    || pc.Idle? || pc.TryCheck? || pc.WantWaiters? || pc.RecheckCompleted? || pc.RecheckClosing?
    || pc.GoToSleep? || pc.Asleep? || pc.LeaveWaiters?
  }

  lemma ClosingStep(s: State, step: Step, t: nat)
    requires Enabled(s, step) && t < |s.threads|
    requires s.sh.deviceClose > 0 && Outside(s.threads[t].pc)
    ensures |Apply(s, step).threads| == |s.threads|
    ensures Outside(Apply(s, step).threads[t].pc)
  {
    hide RunShared, ClosePc, CloseShared, Queued;
  }

  // While devices are being closed, no thread that has not passed the check for that
  // begins to handle events, or even tries to again: it waits.
  lemma {:induction false} ClosersGoFirst(states: seq<State>, steps: seq<Step>, k: nat, t: nat)
    requires IsPath(states, steps) && k <= |steps| && HasThread(states, t)
    requires (forall i :: 0 <= i < k ==> states[i].sh.deviceClose > 0) && Outside(states[0].threads[t].pc)
    ensures Outside(states[k].threads[t].pc)
  {
    hide Apply, Enabled, Outside;
    if k > 0 {
      ClosersGoFirst(states, steps, k - 1, t);
      ClosingStep(states[k - 1], steps[k - 1], t);
    }
  }

  // On the waiter's side, and not about to try again.
  predicate Waits(pc: Pc) {
    || pc.Idle? || pc.WantWaiters? || pc.RecheckCompleted? || pc.RecheckClosing? || pc.RecheckActive?
    || pc.GoToSleep? || pc.Asleep? || pc.LeaveWaiters?
  }

  lemma WaitingStep(s: State, step: Step, t: nat)
    requires Enabled(s, step) && t < |s.threads| && step != Begin(t)
    requires s.sh.active && Waits(s.threads[t].pc)
    ensures |Apply(s, step).threads| == |s.threads|
    ensures Waits(Apply(s, step).threads[t].pc)
  {
    hide RunShared, ClosePc, CloseShared, Queued;
  }

  // While another thread handles events, a waiter waits instead of trying again.
  lemma {:induction false} WaitsWhileActive(states: seq<State>, steps: seq<Step>, k: nat, t: nat)
    requires SameCall(states, steps, k, t) && Waits(states[0].threads[t].pc)
    requires forall i :: 0 <= i < k ==> states[i].sh.active
    ensures Waits(states[k].threads[t].pc)
  {
    hide Apply, Enabled, Waits;
    if k > 0 {
      WaitsWhileActive(states, steps, k - 1, t);
      WaitingStep(states[k - 1], steps[k - 1], t);
    }
  }

  predicate Sleeps(pc: Pc) { pc.GoToSleep? || pc.Asleep? }

  lemma NoReasonStep(s: State, step: Step, t: nat)
    requires Enabled(s, step) && t < |s.threads|
    requires s.sh.deviceClose == 0 && !s.sh.active && !Sleeps(s.threads[t].pc)
    ensures |Apply(s, step).threads| == |s.threads|
    ensures !Sleeps(Apply(s, step).threads[t].pc)
    ensures Apply(s, step).threads[t].pc.LeaveWaiters? ==>
              s.threads[t].pc.LeaveWaiters? || s.threads[t].done
  {
    hide RunShared, ClosePc, CloseShared, Queued;
  }

  // While no device is being closed and no thread handles events, nobody goes to sleep.
  lemma {:induction false} NoSleepWithoutReason(states: seq<State>, steps: seq<Step>, k: nat, t: nat)
    requires IsPath(states, steps) && k <= |steps| && HasThread(states, t)
    requires forall i :: 0 <= i < k ==> states[i].sh.deviceClose == 0 && !states[i].sh.active
    requires !Sleeps(states[0].threads[t].pc)
    ensures !Sleeps(states[k].threads[t].pc)
  {
    hide Apply, Enabled, Sleeps;
    if k > 0 {
      NoSleepWithoutReason(states, steps, k - 1, t);
      NoReasonStep(states[k - 1], steps[k - 1], t);
    }
  }

  // A broadcast on the waiters' condition, or the end of t's timed wait.
  predicate Wakes(s: State, step: Step, t: nat) {
    || step == TimedOut(t)
    || (step.Run? && step.t < |s.threads| && s.threads[step.t].pc.Broadcast?)
    || (step.RunClose? && step.t < |s.threads|
        && (s.threads[step.t].close.InnerBroadcast? || s.threads[step.t].close.OuterBroadcast?))
  }

  lemma SleepingStep(s: State, step: Step, t: nat)
    requires Enabled(s, step) && t < |s.threads| && !Wakes(s, step, t)
    requires s.threads[t].pc.GoToSleep? || (s.threads[t].pc.Asleep? && t in s.sh.asleep)
    ensures |Apply(s, step).threads| == |s.threads|
    ensures var s' := Apply(s, step); s'.threads[t].pc.GoToSleep? || (s'.threads[t].pc.Asleep? && t in s'.sh.asleep)
  {
    hide ClosePc;
  }

  // Whoever goes to sleep sleeps until a broadcast or the end of its timed wait.
  lemma {:induction false} SleepsUntilWoken(states: seq<State>, steps: seq<Step>, k: nat, t: nat)
    requires IsPath(states, steps) && k <= |steps| && HasThread(states, t)
    requires states[0].threads[t].pc.GoToSleep? && forall i :: 0 <= i < k ==> !Wakes(states[i], steps[i], t)
    ensures states[k].threads[t].pc.GoToSleep? || (states[k].threads[t].pc.Asleep? && t in states[k].sh.asleep)
  {
    hide Apply, Enabled, Wakes;
    if k > 0 {
      SleepsUntilWoken(states, steps, k - 1, t);
      SleepingStep(states[k - 1], steps[k - 1], t);
    }
  }

  // The step is t's own.
  predicate Moves(step: Step, t: nat) {
    step == Begin(t) || (step.Run? && step.t == t)
  }

  lemma WakingStep(s: State, step: Step, t: nat)
    requires Enabled(s, step) && t < |s.threads| && s.threads[t].pc.Asleep? && !Moves(step, t)
    requires Wakes(s, step, t) || t !in s.sh.asleep
    ensures |Apply(s, step).threads| == |s.threads|
    ensures Apply(s, step).threads[t].pc.Asleep? && t !in Apply(s, step).sh.asleep
  {
    hide ClosePc;
  }

  // A broadcast, or the end of the timed wait, ends the sleep for good: t goes on as
  // soon as the waiters' lock is free.
  lemma {:induction false} WokenStaysAwake(states: seq<State>, steps: seq<Step>, k: nat, t: nat)
    requires IsPath(states, steps) && 0 < k <= |steps| && HasThread(states, t)
    requires states[0].threads[t].pc.Asleep? && Wakes(states[0], steps[0], t)
    requires forall i :: 0 <= i < k ==> !Moves(steps[i], t)
    ensures states[k].threads[t].pc.Asleep? && t !in states[k].sh.asleep
    ensures states[k].threads[t].close == NoClose && states[k].sh.waitersLock == None ==>
              Enabled(states[k], Run(t, Plain))
  {
    hide Apply, Enabled, Wakes;
    if k > 1 { WokenStaysAwake(states, steps, k - 1, t); }
    WakingStep(states[k - 1], steps[k - 1], t);
    if states[k].threads[t].close == NoClose && states[k].sh.waitersLock == None { MayGoOn(states[k], t); }
  }

  lemma MayGoOn(s: State, t: nat)
    requires t < |s.threads| && s.threads[t].pc.Asleep? && t !in s.sh.asleep
    requires s.threads[t].close == NoClose && s.sh.waitersLock == None
    ensures Enabled(s, Run(t, Plain))
  {
  }

  /* The completed flag. */

  // A callback has set t's flag since its call began.
  ghost predicate CompletedSince(states: seq<State>, steps: seq<Step>, k: nat, t: nat)
    requires |states| == |steps| + 1 && k <= |steps| && HasThread(states, t)
  {
    if k == 0 then states[0].threads[t].done
    else if steps[k - 1] == Begin(t) then false
    else (steps[k - 1].Complete? && steps[k - 1].w == t) || CompletedSince(states, steps, k - 1, t)
  }

  lemma FlagStep(s: State, step: Step, t: nat)
    requires Enabled(s, step) && t < |s.threads|
    ensures |Apply(s, step).threads| == |s.threads|
    ensures Apply(s, step).threads[t].done <==>
            step != Begin(t) && ((step.Complete? && step.w == t) || s.threads[t].done)
  {
    hide RunPc, RunShared, ClosePc, CloseShared, Queued;
  }

  // The flag of a call is clear at its beginning and set by callbacks only.
  lemma {:induction false} FlagIsSetExactly(states: seq<State>, steps: seq<Step>, k: nat, t: nat)
    requires IsPath(states, steps) && k <= |steps| && HasThread(states, t)
    ensures states[k].threads[t].done <==> CompletedSince(states, steps, k, t)
  {
    hide Apply, Enabled;
    if k > 0 {
      FlagIsSetExactly(states, steps, k - 1, t);
      FlagStep(states[k - 1], steps[k - 1], t);
    }
  }
}
