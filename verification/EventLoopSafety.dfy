/**
  What every reachable state of the event loop keeps: who holds which lock, that
  a sleeping waiter is always owed a broadcast, and that a pending event always
  has a byte in the pipe.
 */
module EventLoopSafety {
  import opened Options
  import opened EventLoop

  // How many times the thread holds events_lock.
  function Hold(th: Thread): nat {
    HoldPc(th.pc) + HoldClose(th.close)
  }

  function HoldPc(pc: Pc): nat {
    match pc
    case MarkActive => 1 case CheckCompleted => 1 case PrepareFds => 1 case Polling => 1
    case DrainFirst(_) => 1 case InCallback(_, _) => 1 case DrainNext(_, _, _) => 1
    case InHotplug(_, _, _) => 1 case InBackend(_) => 1 case Unmark => 1 case Unlock => 1
    case _ => 0
  }

  function HoldClose(close: Close): nat {
    match close
    case CloseMark => 1 case InnerLock => 1
    case InnerMark => 2 case InnerUnmark => 2 case InnerUnlock => 2
    case InnerWant => 1 case InnerBroadcast => 1 case InnerEnd => 1
    case CloseDone => 1 case OuterUnmark => 1 case OuterUnlock => 1
    case _ => 0
  }

  predicate HoldsWaiters(th: Thread) {
    || th.pc.Broadcast? || th.pc.EndBroadcast? || th.pc.RecheckCompleted? || th.pc.RecheckClosing?
    || th.pc.RecheckActive? || th.pc.GiveUpWaiters? || th.pc.GoToSleep? || th.pc.LeaveWaiters?
    || th.close.InnerBroadcast? || th.close.InnerEnd? || th.close.OuterBroadcast? || th.close.OuterEnd?
  }

  // Between device_close++ and device_close--.
  predicate Closing(close: Close) {
    !(close.NoClose? || close.OuterUnmark? || close.OuterUnlock? || close.OuterWant?
      || close.OuterBroadcast? || close.OuterEnd?)
  }

  // The thread will broadcast on event_waiters_cond before its call returns.
  predicate Owes(th: Thread) {
    Hold(th) > 0 || Closing(th.close) || th.pc.WantBroadcast? || th.pc.Broadcast?
    || th.close.OuterWant? || th.close.OuterBroadcast?
  }

  // Between poll reporting the pipe and the clear that answers it.
  predicate InWindow(pc: Pc) {
    pc.DrainFirst? || pc.InCallback? || pc.DrainNext?
  }

  // Lock ownership agrees with where each thread stands.
  predicate LocksInv(t: nat, th: Thread, sh: Shared) {
    && (if sh.owner == Some(t) then Hold(th) == sh.depth > 0 else Hold(th) == 0)
    && (HoldsWaiters(th) <==> sh.waitersLock == Some(t))
    && (th.close != NoClose ==> th.pc == Idle || CallsBack(th.pc))
    && (t in sh.asleep ==> th.pc == Asleep)
    // The last unlock happens with event_handler_active clear.
    && (th.pc == Unlock ==> !sh.active)
    && (th.pc == Idle && th.close == OuterUnlock ==> !sh.active)
  }

  // The byte that poll saw is still there, and a close nested in the window
  // between poll and the clear does not take it.
  predicate WindowInv(th: Thread, sh: Shared) {
    InWindow(th.pc) ==>
      && sh.pipe >= 1
      && (Closing(th.close) ==>
            if th.raised then sh.pipe >= 2
            else sh.deviceClose >= 2 || sh.fdsModified || sh.hotplug > 0 || sh.completed > 0)
  }

  // The last clause is what the pipe is for: a pending event has a byte.
  predicate SharedInv(sh: Shared) {
    && (sh.owner.None? ==> sh.depth == 0 && !sh.active)
    && (Pending(sh) ==> sh.pipe >= 1)
  }

  ghost function Closers(threads: seq<Thread>): set<nat> {
    set t: nat | t < |threads| && Closing(threads[t].close)
  }

  // Asleep, or past the last check before sleeping.
  predicate Committed(s: State, w: nat) {
    w < |s.threads| && (s.threads[w].pc.GoToSleep? || w in s.sh.asleep)
  }

  ghost predicate OwedBy(s: State, t: nat) {
    t < |s.threads| && Owes(s.threads[t])
  }

  ghost predicate WakeupsOwed(s: State) {
    forall w: nat :: Committed(s, w) ==> exists t: nat :: OwedBy(s, t)
  }

  ghost predicate ThreadsInv(s: State) {
    && (forall t: nat :: t < |s.threads| ==> LocksInv(t, s.threads[t], s.sh))
    && (forall t: nat :: t < |s.threads| ==> WindowInv(s.threads[t], s.sh))
  }

  ghost predicate Inv(s: State) {
    && SharedInv(s.sh)
    && ThreadsInv(s)
    && (s.sh.owner.Some? ==> s.sh.owner.value < |s.threads|)
    && (s.sh.waitersLock.Some? ==> s.sh.waitersLock.value < |s.threads|)
    && (forall w :: w in s.sh.asleep ==> w < |s.threads|)
    && s.sh.deviceClose == |Closers(s.threads)|
    && WakeupsOwed(s)
  }

  /* Steps of libusb_handle_events_timeout_completed. */

  lemma RunLocks(t: nat, th: Thread, sh: Shared, outcome: Outcome)
    requires RunEnabled(th.pc, sh, t, outcome) && th.close == NoClose
    requires LocksInv(t, th, sh) && SharedInv(sh)
    ensures LocksInv(t, th.(pc := RunPc(th, sh, t, outcome)), RunShared(th.pc, sh, t, outcome))
  {
  }

  lemma RunLocksOthers(t: nat, th: Thread, i: nat, other: Thread, sh: Shared, outcome: Outcome)
    requires RunEnabled(th.pc, sh, t, outcome) && th.close == NoClose
    requires LocksInv(t, th, sh) && SharedInv(sh)
    requires i != t && LocksInv(i, other, sh)
    ensures LocksInv(i, other, RunShared(th.pc, sh, t, outcome))
  {
  }

  lemma RunWindow(t: nat, th: Thread, sh: Shared, outcome: Outcome)
    requires RunEnabled(th.pc, sh, t, outcome) && th.close == NoClose
    requires LocksInv(t, th, sh) && SharedInv(sh) && WindowInv(th, sh)
    ensures SharedInv(RunShared(th.pc, sh, t, outcome))
    ensures WindowInv(th.(pc := RunPc(th, sh, t, outcome)), RunShared(th.pc, sh, t, outcome))
  {
  }

  lemma RunWindowOthers(t: nat, th: Thread, i: nat, other: Thread, sh: Shared, outcome: Outcome)
    requires RunEnabled(th.pc, sh, t, outcome) && th.close == NoClose
    requires LocksInv(t, th, sh) && SharedInv(sh)
    requires i != t && LocksInv(i, other, sh) && WindowInv(other, sh)
    ensures WindowInv(other, RunShared(th.pc, sh, t, outcome))
  {
  }

  // A committed waiter after the step was committed before it, or has just seen
  // the reason to sleep: then that reason is a thread that owes a broadcast.
  lemma RunCommits(s: State, t: nat, outcome: Outcome, w: nat) returns (o: nat)
    requires Inv(s) && Enabled(s, Run(t, outcome))
    requires Committed(Apply(s, Run(t, outcome)), w) && !Committed(s, w)
    ensures o != t && OwedBy(s, o)
  {
    assert w == t && (s.threads[t].pc == RecheckClosing || s.threads[t].pc == RecheckActive);
    assert LocksInv(t, s.threads[t], s.sh);
    if s.threads[t].pc == RecheckClosing {
      o :| o in Closers(s.threads);
    } else {
      o := s.sh.owner.value;
      assert LocksInv(o, s.threads[o], s.sh);
    }
  }

  // Whoever broadcasts holds the waiters lock, so nobody is past the last check.
  lemma RunBroadcasts(s: State, t: nat, outcome: Outcome, w: nat)
    requires Inv(s) && Enabled(s, Run(t, outcome)) && s.threads[t].pc == Broadcast
    ensures !Committed(Apply(s, Run(t, outcome)), w)
  {
    if w < |s.threads| {
      assert LocksInv(w, s.threads[w], s.sh) && LocksInv(t, s.threads[t], s.sh);
    }
  }

  lemma RunDebt(s: State, t: nat, outcome: Outcome, o: nat)
    requires Enabled(s, Run(t, outcome)) && OwedBy(s, o) && s.threads[t].pc != Broadcast
    ensures OwedBy(Apply(s, Run(t, outcome)), o)
  {
  }

  lemma RunWakeups(s: State, t: nat, outcome: Outcome)
    requires Inv(s) && Enabled(s, Run(t, outcome))
    ensures WakeupsOwed(Apply(s, Run(t, outcome)))
  {
    var s' := Apply(s, Run(t, outcome));
    forall w: nat | Committed(s', w) ensures exists o: nat :: OwedBy(s', o) {
      if s.threads[t].pc == Broadcast {
        RunBroadcasts(s, t, outcome, w);
      } else {
        var o: nat;
        if Committed(s, w) { o :| OwedBy(s, o); } else { o := RunCommits(s, t, outcome, w); }
        RunDebt(s, t, outcome, o);
      }
    }
  }

  lemma RunThreads(s: State, t: nat, outcome: Outcome)
    requires SharedInv(s.sh) && ThreadsInv(s) && Enabled(s, Run(t, outcome))
    ensures ThreadsInv(Apply(s, Run(t, outcome)))
  {
    var s' := Apply(s, Run(t, outcome));
    forall i: nat | i < |s'.threads|
      ensures LocksInv(i, s'.threads[i], s'.sh) && WindowInv(s'.threads[i], s'.sh)
    {
      if i == t {
        RunLocks(t, s.threads[t], s.sh, outcome);
        RunWindow(t, s.threads[t], s.sh, outcome);
      } else {
        RunLocksOthers(t, s.threads[t], i, s.threads[i], s.sh, outcome);
        RunWindowOthers(t, s.threads[t], i, s.threads[i], s.sh, outcome);
      }
    }
  }

  lemma RunCount(s: State, t: nat, outcome: Outcome)
    requires Enabled(s, Run(t, outcome)) && s.sh.deviceClose == |Closers(s.threads)|
    ensures var s' := Apply(s, Run(t, outcome)); s'.sh.deviceClose == |Closers(s'.threads)|
  {
    assert Closers(Apply(s, Run(t, outcome)).threads) == Closers(s.threads);
  }

  lemma RunInv(s: State, t: nat, outcome: Outcome)
    requires Inv(s) && Enabled(s, Run(t, outcome))
    ensures Inv(Apply(s, Run(t, outcome)))
  {
    RunThreads(s, t, outcome);
    RunWindow(t, s.threads[t], s.sh, outcome);
    RunWakeups(s, t, outcome);
    RunCount(s, t, outcome);
  }

  /* Steps of libusb_close. */

  lemma CloseLocks(t: nat, th: Thread, sh: Shared)
    requires CloseEnabled(th.close, sh, t)
    requires LocksInv(t, th, sh) && SharedInv(sh)
    ensures LocksInv(t, th.(close := ClosePc(th.close)), CloseShared(th.close, sh, t))
  {
  }

  lemma CloseLocksOthers(t: nat, th: Thread, i: nat, other: Thread, sh: Shared)
    requires CloseEnabled(th.close, sh, t)
    requires LocksInv(t, th, sh) && SharedInv(sh)
    requires i != t && LocksInv(i, other, sh)
    ensures LocksInv(i, other, CloseShared(th.close, sh, t))
  {
  }

  lemma CloseWindow(t: nat, th: Thread, sh: Shared)
    requires CloseEnabled(th.close, sh, t)
    requires LocksInv(t, th, sh) && SharedInv(sh) && WindowInv(th, sh)
    ensures SharedInv(CloseShared(th.close, sh, t))
    ensures WindowInv(th.(close := ClosePc(th.close)), CloseShared(th.close, sh, t))
  {
  }

  lemma CloseWindowOthers(t: nat, th: Thread, i: nat, other: Thread, sh: Shared)
    requires CloseEnabled(th.close, sh, t)
    requires LocksInv(t, th, sh) && SharedInv(sh)
    requires i != t && LocksInv(i, other, sh) && WindowInv(other, sh)
    ensures WindowInv(other, CloseShared(th.close, sh, t))
  {
  }

  lemma CloseWakeups(s: State, t: nat)
    requires Inv(s) && Enabled(s, RunClose(t))
    ensures WakeupsOwed(Apply(s, RunClose(t)))
  {
    var s' := Apply(s, RunClose(t));
    var th := s.threads[t];
    forall w: nat | Committed(s', w) ensures exists o: nat :: OwedBy(s', o) {
      if th.close == InnerBroadcast || th.close == OuterBroadcast {
        assert false;
      } else {
        assert Committed(s, w);
        var o: nat :| OwedBy(s, o);
        assert OwedBy(s', o);
      }
    }
  }

  // Only thread t can have entered or left the set of closers.
  lemma ClosersStep(a: seq<Thread>, b: seq<Thread>, t: nat)
    requires t < |a| == |b|
    requires forall i: nat :: i < |a| && i != t ==> a[i].close == b[i].close
    ensures |Closers(b)| - |Closers(a)| ==
            (if Closing(b[t].close) then 1 else 0) - (if Closing(a[t].close) then 1 else 0)
  {
    OtherClosers(a, b, t);
    hide Closers;
    WithAndWithout(Closers(a), t);
    WithAndWithout(Closers(b), t);
  }

  lemma OtherClosers(a: seq<Thread>, b: seq<Thread>, t: nat)
    requires t < |a| == |b|
    requires forall i: nat :: i < |a| && i != t ==> a[i].close == b[i].close
    ensures Closers(a) - {t} == Closers(b) - {t}
    ensures (t in Closers(a) <==> Closing(a[t].close)) && (t in Closers(b) <==> Closing(b[t].close))
  {
  }

  lemma WithAndWithout(c: set<nat>, t: nat)
    ensures |c| == |c - {t}| + if t in c then 1 else 0
  {
    if t in c { assert c == (c - {t}) + {t}; } else { assert c == c - {t}; }
  }

  lemma CloseThreads(s: State, t: nat)
    requires SharedInv(s.sh) && ThreadsInv(s) && Enabled(s, RunClose(t))
    ensures ThreadsInv(Apply(s, RunClose(t)))
  {
    var s' := Apply(s, RunClose(t));
    forall i: nat | i < |s'.threads|
      ensures LocksInv(i, s'.threads[i], s'.sh) && WindowInv(s'.threads[i], s'.sh)
    {
      if i == t {
        CloseLocks(t, s.threads[t], s.sh);
        CloseWindow(t, s.threads[t], s.sh);
      } else {
        CloseLocksOthers(t, s.threads[t], i, s.threads[i], s.sh);
        CloseWindowOthers(t, s.threads[t], i, s.threads[i], s.sh);
      }
    }
  }

  lemma CloseCount(s: State, t: nat)
    requires Enabled(s, RunClose(t)) && s.sh.deviceClose == |Closers(s.threads)|
    ensures var s' := Apply(s, RunClose(t)); s'.sh.deviceClose == |Closers(s'.threads)|
  {
    ClosersStep(s.threads, Apply(s, RunClose(t)).threads, t);
  }

  lemma CloseInv(s: State, t: nat)
    requires Inv(s) && Enabled(s, RunClose(t))
    ensures Inv(Apply(s, RunClose(t)))
  {
    CloseThreads(s, t);
    CloseWindow(t, s.threads[t], s.sh);
    CloseWakeups(s, t);
    CloseCount(s, t);
  }

  /* Calls, timeouts, callbacks that complete a transfer, and queued events. */

  lemma BeginCloseInv(s: State, t: nat)
    requires Inv(s) && Enabled(s, BeginClose(t))
    ensures Inv(Apply(s, BeginClose(t)))
  {
    var s' := Apply(s, BeginClose(t));
    forall i: nat | i < |s'.threads|
      ensures LocksInv(i, s'.threads[i], s'.sh) && WindowInv(s'.threads[i], s'.sh)
    {
      assert LocksInv(i, s.threads[i], s.sh) && WindowInv(s.threads[i], s.sh);
    }
    ClosersStep(s.threads, s'.threads, t);
    OtherWakeups(s, s');
  }

  // Steps that put nobody to sleep and take no debt away.
  lemma OtherWakeups(s: State, s': State)
    requires WakeupsOwed(s) && |s'.threads| == |s.threads|
    requires s'.sh.asleep <= s.sh.asleep
    requires forall i: nat :: i < |s.threads| ==>
               (s'.threads[i].pc.GoToSleep? ==> s.threads[i].pc.GoToSleep?)
               && (Owes(s.threads[i]) ==> Owes(s'.threads[i]))
    ensures WakeupsOwed(s')
  {
    forall w: nat | Committed(s', w) ensures exists o: nat :: OwedBy(s', o) {
      assert Committed(s, w);
      var o: nat :| OwedBy(s, o);
      assert OwedBy(s', o);
    }
  }

  lemma OtherInv(s: State, step: Step)
    requires Inv(s) && Enabled(s, step)
    requires step.Begin? || step.TimedOut? || step.Complete?
    ensures Inv(Apply(s, step))
  {
    var s' := Apply(s, step);
    forall i: nat | i < |s'.threads|
      ensures LocksInv(i, s'.threads[i], s'.sh) && WindowInv(s'.threads[i], s'.sh)
    {
      assert LocksInv(i, s.threads[i], s.sh) && WindowInv(s.threads[i], s.sh);
    }
    assert Closers(s'.threads) == Closers(s.threads);
    OtherWakeups(s, s');
  }

  lemma SignalInv(s: State, source: Source)
    requires Inv(s)
    ensures Inv(Apply(s, Signal(source)))
  {
    var s' := Apply(s, Signal(source));
    forall i: nat | i < |s'.threads|
      ensures LocksInv(i, s'.threads[i], s'.sh) && WindowInv(s'.threads[i], s'.sh)
    {
      assert LocksInv(i, s.threads[i], s.sh) && WindowInv(s.threads[i], s.sh);
    }
    OtherWakeups(s, s');
  }

  lemma InitInv(s: State)
    requires Init(s)
    ensures Inv(s)
  {
    assert Closers(s.threads) == {};
  }

  lemma StepInv(s: State, step: Step)
    requires Inv(s) && Enabled(s, step)
    ensures Inv(Apply(s, step))
  {
    match step
    case Run(t, outcome) => RunInv(s, t, outcome);
    case RunClose(t) => CloseInv(s, t);
    case BeginClose(t) => BeginCloseInv(s, t);
    case Signal(source) => SignalInv(s, source);
    case _ => OtherInv(s, step);
  }

  // Inv holds in every state of every run.
  lemma {:induction false} RunKeepsInv(states: seq<State>, steps: seq<Step>, k: nat)
    requires IsRun(states, steps) && k < |states|
    ensures Inv(states[k])
  {
    if k == 0 {
      InitInv(states[0]);
    } else {
      RunKeepsInv(states, steps, k - 1);
      StepInv(states[k - 1], steps[k - 1]);
    }
  }
}
