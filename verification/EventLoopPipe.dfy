/**
  The event pipe.  Pending events are always visible to poll and no clear reads
  an empty pipe, whatever the interleaving.  That the pipe holds at most one byte
  is true exactly of the runs in which nothing is queued while the
  completed-transfer loop has dropped event_data_lock with nothing left pending.
 */
module EventLoopPipe {
  import opened Options
  import opened EventLoop
  import opened EventLoopSafety

  // The step calls usbi_clear_event.
  predicate Clears(s: State, step: Step)
    requires Enabled(s, step)
  {
    match step
    case Run(t, _) =>
      (match s.threads[t].pc
       case PrepareFds => s.sh.fdsModified && !Pending(s.sh.(fdsModified := false))
       case DrainFirst(_) =>
         s.sh.completed == 0 && s.sh.hotplug <= 1 && !s.sh.fdsModified && s.sh.deviceClose == 0
       case DrainNext(_, _, _) => !Pending(s.sh)
       case _ => false)
    case RunClose(t) =>
      s.threads[t].close == CloseDone && !Pending(s.sh.(deviceClose := s.sh.deviceClose - 1))
    case _ => false
  }

  // usbi_clear_event never meets an empty pipe, and takes exactly one byte.
  lemma ClearFindsAByte(states: seq<State>, steps: seq<Step>, k: nat)
    requires IsRun(states, steps) && k < |steps| && Clears(states[k], steps[k])
    ensures states[k].sh.pipe > 0
    ensures states[k + 1].sh.pipe == states[k].sh.pipe - 1
  {
    RunKeepsInv(states, steps, k);
    var t := steps[k].t;
    assert WindowInv(states[k].threads[t], states[k].sh);
  }

  // Each step, exactly: a byte more for an event queued or a close begun while nothing
  // was pending, a byte less for a clear, and no other change.
  lemma BytesExactly(states: seq<State>, steps: seq<Step>, k: nat)
    requires IsRun(states, steps) && k < |steps|
    ensures states[k + 1].sh.pipe ==
            if Clears(states[k], steps[k]) then states[k].sh.pipe - 1
            else if (steps[k].Signal? || steps[k].BeginClose?) && !Pending(states[k].sh) then states[k].sh.pipe + 1
            else states[k].sh.pipe
  {
    hide Clears;
    if Clears(states[k], steps[k]) { ClearFindsAByte(states, steps, k); } else { NoClear(states[k], steps[k]); }
    ClearsNothingQueued(states[k], steps[k]);
  }

  lemma NoClear(s: State, step: Step)
    requires Enabled(s, step) && !Clears(s, step)
    ensures Apply(s, step).sh.pipe ==
            if (step.Signal? || step.BeginClose?) && !Pending(s.sh) then s.sh.pipe + 1 else s.sh.pipe
  {
    hide RunPc, ClosePc;
  }

  lemma ClearsNothingQueued(s: State, step: Step)
    requires Enabled(s, step)
    ensures Clears(s, step) ==> !step.Signal? && !step.BeginClose?
  {
  }

  // Whenever event_data_lock is free, which is every state, poll can see the
  // pending event.  In particular a thread polling while another waits to close
  // a device cannot sleep its timeout out: only EINTR or a ready answer is enabled.
  lemma PendingEventsAreVisible(states: seq<State>, steps: seq<Step>, k: nat)
    requires IsRun(states, steps) && k < |states| && Pending(states[k].sh)
    ensures states[k].sh.pipe > 0
    ensures forall t: nat :: t < |states[k].threads| && states[k].threads[t].pc == Polling ==>
              !Enabled(states[k], Run(t, Plain)) && Enabled(states[k], Run(t, Interrupted))
              && (states[k].threads[t].close == NoClose ==> Enabled(states[k], Run(t, Ready(false))))
  {
    RunKeepsInv(states, steps, k);
    forall t: nat | t < |states[k].threads| && states[k].threads[t].pc == Polling
      ensures !Enabled(states[k], Run(t, Plain)) && Enabled(states[k], Run(t, Interrupted))
      ensures Enabled(states[k], Run(t, Ready(false)))
    {
      assert LocksInv(t, states[k].threads[t], states[k].sh);
    }
  }

  ghost predicate WindowOpen(s: State) {
    exists t: nat :: t < |s.threads| && InWindow(s.threads[t].pc)
  }

  // An event is queued, or a close begun, after the handler took the last
  // pending event and before it cleared the pipe.
  ghost predicate QueuesInWindow(s: State, step: Step) {
    (step.Signal? || step.BeginClose?) && !Pending(s.sh) && WindowOpen(s)
  }

  ghost predicate Exact(s: State) {
    s.sh.pipe == if Pending(s.sh) || WindowOpen(s) then 1 else 0
  }

  lemma OnlyOwnerInWindow(s: State, t: nat)
    requires Inv(s) && t < |s.threads|
    requires s.sh.owner == Some(t)
    ensures WindowOpen(s) <==> InWindow(s.threads[t].pc)
  {
    forall i: nat | i < |s.threads| && InWindow(s.threads[i].pc) ensures i == t {
      assert LocksInv(i, s.threads[i], s.sh);
    }
  }

  lemma ExactLocal(s: State, t: nat, outcome: Outcome)
    requires Inv(s) && Exact(s) && Enabled(s, Run(t, outcome))
    requires !(s.threads[t].pc == PrepareFds || s.threads[t].pc == Polling || InWindow(s.threads[t].pc))
    ensures Exact(Apply(s, Run(t, outcome)))
  {
    SameWindows(s, Apply(s, Run(t, outcome)));
  }

  lemma ExactHandler(s: State, t: nat, outcome: Outcome)
    requires Inv(s) && Exact(s) && Enabled(s, Run(t, outcome))
    requires s.threads[t].pc == PrepareFds || s.threads[t].pc == Polling || InWindow(s.threads[t].pc)
    ensures Exact(Apply(s, Run(t, outcome)))
  {
    RunInv(s, t, outcome);
    assert LocksInv(t, s.threads[t], s.sh);
    OnlyOwnerInWindow(s, t);
    OnlyOwnerInWindow(Apply(s, Run(t, outcome)), t);
  }

  lemma SameWindows(s: State, s': State)
    requires |s'.threads| == |s.threads|
    requires forall i: nat :: i < |s.threads| ==> (InWindow(s.threads[i].pc) <==> InWindow(s'.threads[i].pc))
    ensures WindowOpen(s) <==> WindowOpen(s')
  {
    if WindowOpen(s) {
      var i: nat :| i < |s.threads| && InWindow(s.threads[i].pc);
      assert InWindow(s'.threads[i].pc);
    }
    if WindowOpen(s') {
      var i: nat :| i < |s'.threads| && InWindow(s'.threads[i].pc);
      assert InWindow(s.threads[i].pc);
    }
  }

  lemma ExactClose(s: State, t: nat)
    requires Inv(s) && Exact(s) && Enabled(s, RunClose(t))
    ensures Exact(Apply(s, RunClose(t)))
  {
    SameWindows(s, Apply(s, RunClose(t)));
    assert LocksInv(t, s.threads[t], s.sh) && WindowInv(s.threads[t], s.sh);
    if s.threads[t].close == CloseDone {
      OnlyOwnerInWindow(s, t);
    }
  }

  lemma ExactStep(s: State, step: Step)
    requires Inv(s) && Exact(s) && Enabled(s, step) && !QueuesInWindow(s, step)
    ensures Exact(Apply(s, step))
  {
    match step
    case Run(t, outcome) =>
      var pc := s.threads[t].pc;
      if pc == PrepareFds || pc == Polling || InWindow(pc) {
        ExactHandler(s, t, outcome);
      } else {
        ExactLocal(s, t, outcome);
      }
    case RunClose(t) => ExactClose(s, t);
    case _ => SameWindows(s, Apply(s, step));
  }

  lemma {:induction false} ExactRuns(states: seq<State>, steps: seq<Step>, k: nat)
    requires IsRun(states, steps) && k < |states|
    requires forall i :: 0 <= i < k ==> !QueuesInWindow(states[i], steps[i])
    ensures Exact(states[k])
  {
    if k > 0 {
      ExactRuns(states, steps, k - 1);
      RunKeepsInv(states, steps, k - 1);
      ExactStep(states[k - 1], steps[k - 1]);
    } else {
      InitInv(states[0]);
      assert !WindowOpen(states[0]);
    }
  }

  lemma WindowAddsAByte(s: State, step: Step)
    requires Inv(s) && Enabled(s, step) && QueuesInWindow(s, step)
    ensures Apply(s, step).sh.pipe >= 2
  {
    var t: nat :| t < |s.threads| && InWindow(s.threads[t].pc);
    assert WindowInv(s.threads[t], s.sh);
  }

  // The pipe holds at most one byte throughout a run exactly when no event is
  // queued in the window.
  lemma OneByteExactly(states: seq<State>, steps: seq<Step>)
    requires IsRun(states, steps)
    ensures (forall k :: 0 <= k < |states| ==> states[k].sh.pipe <= 1)
       <==> (forall k :: 0 <= k < |steps| ==> !QueuesInWindow(states[k], steps[k]))
  {
    if forall k :: 0 <= k < |steps| ==> !QueuesInWindow(states[k], steps[k]) {
      forall k | 0 <= k < |states| ensures states[k].sh.pipe <= 1 {
        ExactRuns(states, steps, k);
      }
    } else {
      var k :| 0 <= k < |steps| && QueuesInWindow(states[k], steps[k]);
      RunKeepsInv(states, steps, k);
      WindowAddsAByte(states[k], steps[k]);
      assert states[k + 1].sh.pipe >= 2;
    }
  }

  /* The window is real, and nothing bounds the pipe. */

  lemma Extend(states: seq<State>, steps: seq<Step>, step: Step) returns (more: seq<State>)
    requires IsRun(states, steps) && Enabled(states[|states| - 1], step)
    ensures IsRun(more, steps + [step])
    ensures more[|more| - 1] == Apply(states[|states| - 1], step)
  {
    more := states + [Apply(states[|states| - 1], step)];
    var all := steps + [step];
    forall i | 0 <= i < |all| ensures Enabled(more[i], all[i]) && more[i + 1] == Apply(more[i], all[i]) {
      if i < |steps| { assert states[i + 1] == Apply(states[i], steps[i]); }
    }
  }

  // One thread in a callback, nothing pending, and n + 1 bytes in the pipe.
  predicate Stuffed(s: State, n: nat) {
    && |s.threads| == 1 && s.threads[0].close == NoClose && s.threads[0].pc == InCallback(false, false)
    && !Pending(s.sh) && s.sh.pipe == n + 1
  }

  // For every n some run leaves n + 1 bytes in the pipe: one thread whose
  // callbacks keep completing another transfer.
  lemma {:induction false} PipeIsUnbounded(n: nat) returns (states: seq<State>, steps: seq<Step>)
    ensures IsRun(states, steps)
    ensures Stuffed(states[|states| - 1], n)
  {
    if n == 0 {
      states, steps := FirstCallback();
    } else {
      states, steps := PipeIsUnbounded(n - 1);
      var queue, finish, next := Signal(TransferCompleted), Run(0, Failed(false)), Run(0, Plain);
      states := Extend(states, steps, queue);
      steps := steps + [queue];
      states := Extend(states, steps, finish);
      steps := steps + [finish];
      states := Extend(states, steps, next);
      steps := steps + [next];
    }
  }

  lemma FirstCallback() returns (states: seq<State>, steps: seq<Step>)
    ensures IsRun(states, steps)
    ensures Stuffed(states[|states| - 1], 0)
  {
    states, steps := FirstPoll();
    var queue, poll, drain := Signal(TransferCompleted), Run(0, Ready(false)), Run(0, Plain);
    states := Extend(states, steps, queue);
    steps := steps + [queue];
    states := Extend(states, steps, poll);
    steps := steps + [poll];
    states := Extend(states, steps, drain);
    steps := steps + [drain];
  }

  // The only thread of a fresh context reaches poll with an empty pipe.
  lemma FirstPoll() returns (states: seq<State>, steps: seq<Step>)
    ensures IsRun(states, steps)
    ensures var s := states[|states| - 1];
            s == State([Thread(Polling, NoClose, false, false)],
                       Shared(Some(0), 1, true, None, {}, 0, false, 0, 0, 0))
  {
    var init := State([Thread(Idle, NoClose, false, false)],
                      Shared(None, 0, false, None, {}, 0, true, 0, 0, 1));
    states := Extend([init], [], Begin(0));
    steps := [Begin(0)];
    for i := 1 to 6
      invariant IsRun(states, steps)
      invariant states[|states| - 1] == Climb(i)
    {
      states := Extend(states, steps, Run(0, Plain));
      steps := steps + [Run(0, Plain)];
    }
  }

  // The state after i steps on that way.
  function Climb(i: nat): State
    requires 1 <= i <= 6
  {
    var held := Shared(Some(0), 1, i >= 4, None, {}, 0, true, 0, 0, 1);
    var free := Shared(None, 0, false, None, {}, 0, true, 0, 0, 1);
    var pc := [Idle, TryCheck, TryLock, MarkActive, CheckCompleted, PrepareFds, Polling][i];
    State([Thread(pc, NoClose, false, false)],
          if i < 3 then free else if i < 6 then held else held.(fdsModified := false, pipe := 0))
  }
}
