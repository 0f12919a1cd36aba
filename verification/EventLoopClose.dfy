/**
  libusb_close in the event loop: what event_handler_active says, and what a close
  does that nothing interrupts, at any point at which it may be called.
 */
module EventLoopClose {
  import opened Options
  import opened EventLoop

  /* event_handler_active. */

  predicate Marks(s: State, step: Step) {
    || (step.Run? && step.t < |s.threads| && s.threads[step.t].pc.MarkActive?)
    || (step.RunClose? && step.t < |s.threads|
        && (s.threads[step.t].close.CloseMark? || s.threads[step.t].close.InnerMark?))
  }

  predicate Unmarks(s: State, step: Step) {
    || (step.Run? && step.t < |s.threads| && s.threads[step.t].pc.Unmark?)
    || (step.RunClose? && step.t < |s.threads|
        && (s.threads[step.t].close.InnerUnmark? || s.threads[step.t].close.OuterUnmark?))
  }

  // Of the first k steps the last to mark or unmark marked.
  function Marked(states: seq<State>, steps: seq<Step>, k: nat): bool
    requires |states| == |steps| + 1 && k <= |steps|
  {
    && k > 0 && !Unmarks(states[k - 1], steps[k - 1])
    && (Marks(states[k - 1], steps[k - 1]) || Marked(states, steps, k - 1))
  }

  lemma MarkStep(s: State, step: Step)
    requires Enabled(s, step)
    ensures Apply(s, step).sh.active <==> !Unmarks(s, step) && (Marks(s, step) || s.sh.active)
  {
    hide RunPc, ClosePc;
  }

  lemma {:induction false} ActiveExactly(states: seq<State>, steps: seq<Step>, k: nat)
    requires IsRun(states, steps) && k <= |steps|
    ensures states[k].sh.active <==> Marked(states, steps, k)
  {
    hide Apply, Enabled, Marks, Unmarks;
    if k > 0 {
      ActiveExactly(states, steps, k - 1);
      MarkStep(states[k - 1], steps[k - 1]);
    }
  }

  /* A close that nothing interrupts. */

  // The stages of libusb_close: it locks, do_close locks once more, and each unlock
  // clears event_handler_active first and wakes the waiters afterwards.
  const STAGES: seq<Close> := [
    CloseLock, CloseMark, InnerLock, InnerMark, InnerUnmark, InnerUnlock, InnerWant, InnerBroadcast, InnerEnd,
    CloseDone, OuterUnmark, OuterUnlock, OuterWant, OuterBroadcast, OuterEnd, NoClose]

  // The state at stage i of a close by t that began in s.
  function At(s: State, t: nat, i: nat): State
    requires t < |s.threads| && i < 16
  {
    var raised := !Pending(s.sh);
    var depth := s.sh.depth + (if i < 1 then 0 else if i < 3 then 1 else if i < 6 then 2 else if i < 12 then 1 else 0);
    State(s.threads[t := s.threads[t].(close := STAGES[i], raised := raised)],
          Shared(if depth == 0 then None else if i < 1 then s.sh.owner else Some(t), depth,
                 if i < 2 then s.sh.active else i < 5,
                 if i == 7 || i == 8 || i == 13 || i == 14 then Some(t) else None,
                 if i < 8 then s.sh.asleep else {},
                 if i < 10 then s.sh.deviceClose + 1 else s.sh.deviceClose,
                 s.sh.fdsModified, s.sh.hotplug, s.sh.completed,
                 if raised && i < 10 then s.sh.pipe + 1 else s.sh.pipe))
  }

  // t may call libusb_close and gets the events lock at once.
  predicate MayClose(s: State, t: nat) {
    && t < |s.threads| && s.threads[t].close == NoClose
    && (s.threads[t].pc.Idle? || s.threads[t].pc.InCallback? || s.threads[t].pc.InBackend?
        || (s.threads[t].pc.InHotplug? && s.threads[t].pc.special))
    && s.sh.waitersLock == None && (s.sh.owner == None || s.sh.owner == Some(t))
    && (s.sh.owner == None <==> s.sh.depth == 0)
  }

  lemma Begins(s: State, t: nat)
    requires MayClose(s, t)
    ensures Enabled(s, BeginClose(t)) && Apply(s, BeginClose(t)) == At(s, t, 0)
  {
  }

  lemma GoesIn(s: State, t: nat, i: nat)
    requires MayClose(s, t) && i < 5
    ensures Enabled(At(s, t, i), RunClose(t)) && Apply(At(s, t, i), RunClose(t)) == At(s, t, i + 1)
  {
    hide RunEnabled, RunPc, RunShared, Queued;
  }

  lemma GoesOn(s: State, t: nat, i: nat)
    requires MayClose(s, t) && 5 <= i < 10
    ensures Enabled(At(s, t, i), RunClose(t)) && Apply(At(s, t, i), RunClose(t)) == At(s, t, i + 1)
  {
    hide RunEnabled, RunPc, RunShared, Queued;
  }

  lemma GoesOut(s: State, t: nat, i: nat)
    requires MayClose(s, t) && 10 <= i < 15
    ensures Enabled(At(s, t, i), RunClose(t)) && Apply(At(s, t, i), RunClose(t)) == At(s, t, i + 1)
  {
    hide RunEnabled, RunPc, RunShared, Queued;
  }

  // From begin to end: the lock is held as before, the device is no longer being
  // closed, every waiter is awake and the pipe is as before.  But a thread that
  // closes a device in a callback, and goes on to handle events, is no longer marked
  // as doing so.
  lemma CloseAlone(s: State, t: nat) returns (states: seq<State>, steps: seq<Step>)
    requires MayClose(s, t)
    ensures IsPath(states, steps) && |steps| == 16 && states[0] == s
    ensures steps[0] == BeginClose(t) && forall i :: 1 <= i < 16 ==> steps[i] == RunClose(t)
    ensures states[16] == s.(threads := s.threads[t := s.threads[t].(raised := !Pending(s.sh))],
                             sh := s.sh.(active := false, asleep := {}))
  {
    hide At, Apply, Enabled;
    states := [s] + seq(16, i requires 0 <= i < 16 => At(s, t, i));
    steps := [BeginClose(t)] + seq(15, i => RunClose(t));
    Begins(s, t);
    forall i | 0 <= i < |steps|
      ensures Enabled(states[i], steps[i]) && states[i + 1] == Apply(states[i], steps[i])
    {
      if i > 10 { GoesOut(s, t, i - 1); } else if i > 5 { GoesOn(s, t, i - 1); } else if i > 0 { GoesIn(s, t, i - 1); }
    }
    Ends(s, t);
  }

  lemma Ends(s: State, t: nat)
    requires MayClose(s, t)
    ensures At(s, t, 15) == s.(threads := s.threads[t := s.threads[t].(raised := !Pending(s.sh))],
                               sh := s.sh.(active := false, asleep := {}))
  {
  }
}
