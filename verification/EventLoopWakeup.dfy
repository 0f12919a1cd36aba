/**
  No lost wakeup.  A waiter asleep on event_waiters_cond is always owed a
  broadcast by another thread, and from every such state the other threads can
  reach the broadcast that wakes it.
 */
module EventLoopWakeup {
  import opened Options
  import opened EventLoop
  import opened EventLoopSafety

  // In every reachable state of any number of threads, a sleeper is owed a
  // broadcast by a thread other than itself: so it does not sleep on, its own
  // completed flag set or not, with no broadcast due.
  lemma SleeperIsOwedABroadcast(states: seq<State>, steps: seq<Step>, k: nat, w: nat)
    requires IsRun(states, steps) && k < |states| && w in states[k].sh.asleep
    ensures exists t: nat :: t != w && OwedBy(states[k], t)
  {
    RunKeepsInv(states, steps, k);
    assert Committed(states[k], w);
    var t: nat :| OwedBy(states[k], t);
    assert LocksInv(w, states[k].threads[w], states[k].sh);
    assert t != w && OwedBy(states[k], t);
  }

  // A debt is only paid by a broadcast, and a broadcast leaves nobody asleep.
  lemma DebtUntilBroadcast(s: State, step: Step, t: nat)
    requires Enabled(s, step) && OwedBy(s, t)
    ensures OwedBy(Apply(s, step), t) || Apply(s, step).sh.asleep == {}
  {
    if step.RunClose? && step.t == t { CloseKeepsDebt(s, t); }
  }

  lemma CloseKeepsDebt(s: State, t: nat)
    requires Enabled(s, RunClose(t)) && OwedBy(s, t)
    ensures OwedBy(Apply(s, RunClose(t)), t) || Apply(s, RunClose(t)).sh.asleep == {}
  {
  }

  // A callback on t set w's completed flag while w slept: for as long as w stays
  // asleep, t itself still owes the broadcast that will wake it.
  lemma {:induction false} CompletionWakes(states: seq<State>, steps: seq<Step>, k: nat, t: nat, w: nat, j: nat)
    requires IsRun(states, steps) && k < j < |states| && steps[k] == Complete(t, w)
    requires forall i :: k <= i <= j ==> w in states[i].sh.asleep
    ensures t != w && OwedBy(states[j], t)
  {
    if j == k + 1 {
      RunKeepsInv(states, steps, k);
      assert LocksInv(t, states[k].threads[t], states[k].sh) && LocksInv(w, states[k].threads[w], states[k].sh);
    } else {
      CompletionWakes(states, steps, k, t, w, j - 1);
      DebtUntilBroadcast(states[j - 1], steps[j - 1], t);
      assert w in states[j].sh.asleep;
    }
  }

  /* How far a thread is from its next broadcast, if it is scheduled and its
     polls are interrupted and its completions fail. */

  function RankPc(pc: Pc): nat {
    match pc
    case Broadcast => 1 case WantBroadcast => 2 case Unlock => 3 case Unmark => 4
    case Polling => 5 case InBackend(_) => 5
    case PrepareFds => 6 case CheckCompleted => 7 case MarkActive => 8
    case InHotplug(_, _, _) => 6
    case DrainNext(_, _, failed) => if failed then 7 else 9
    case InCallback(_, _) => 8
    case DrainFirst(_) => 9
    case _ => 0
  }

  function RankClose(close: Close): nat {
    match close
    case OuterBroadcast => 1 case OuterWant => 2 case OuterUnlock => 3 case OuterUnmark => 4
    case CloseDone => 5 case InnerEnd => 6
    case InnerBroadcast => 1 case InnerWant => 2 case InnerUnlock => 3 case InnerUnmark => 4
    case InnerMark => 5 case InnerLock => 6 case CloseMark => 7 case CloseLock => 8
    case _ => 0
  }

  function Rank(th: Thread): nat {
    if th.close == NoClose then RankPc(th.pc)
    else if th.close == OuterEnd then 1 + RankPc(th.pc)
    else RankClose(th.close)
  }

  // How far the holder of the waiters lock is from releasing it.
  function RankHolder(s: State): nat {
    if s.sh.waitersLock.Some? && s.sh.waitersLock.value < |s.threads| then
      match s.threads[s.sh.waitersLock.value].pc
      case RecheckCompleted => 4 case RecheckClosing => 3 case RecheckActive => 2
      case _ => 1
    else 0
  }

  function Measure(s: State, t: nat): nat
    requires t < |s.threads|
  {
    8 * Rank(s.threads[t]) + RankHolder(s)
  }

  predicate WantsWaiters(th: Thread) {
    (th.close == NoClose && th.pc == WantBroadcast) || th.close == InnerWant || th.close == OuterWant
  }

  function HelpfulOutcome(pc: Pc): Outcome {
    match pc
    case Polling => Interrupted
    case InCallback(_, _) => Failed(true)
    case InBackend(_) => Failed(true)
    case _ => Plain
  }

  function StepOf(s: State, t: nat): Step
    requires t < |s.threads|
  {
    if s.threads[t].close == NoClose then Run(t, HelpfulOutcome(s.threads[t].pc)) else RunClose(t)
  }

  // The next step on the way to t's broadcast: t's own, or one of whoever holds
  // the waiters lock t needs.
  function HelpfulStep(s: State, t: nat): Step
    requires t < |s.threads|
  {
    if WantsWaiters(s.threads[t]) && s.sh.waitersLock.Some? && s.sh.waitersLock.value < |s.threads|
    then StepOf(s, s.sh.waitersLock.value)
    else StepOf(s, t)
  }

  predicate Acts(step: Step, t: nat) {
    (step.Run? || step.RunClose?) && step.t == t
  }

  ghost predicate OnTheWay(s: State, t: nat, w: nat) {
    Inv(s) && OwedBy(s, t) && LockFree(s.sh, t) && w in s.sh.asleep && t != w
  }

  lemma RunApproaches(t: nat, th: Thread, sh: Shared)
    requires LocksInv(t, th, sh) && LockFree(sh, t) && th.close == NoClose && Owes(th)
    requires th.pc == WantBroadcast ==> sh.waitersLock.None?
    ensures RunEnabled(th.pc, sh, t, HelpfulOutcome(th.pc))
    ensures var pc', sh' := RunPc(th, sh, t, HelpfulOutcome(th.pc)), RunShared(th.pc, sh, t, HelpfulOutcome(th.pc));
            if th.pc == Broadcast then sh'.asleep == {}
            else LockFree(sh', t) && Owes(th.(pc := pc')) && RankPc(pc') < RankPc(th.pc)
  {
  }

  lemma OwnRunHelps(s: State, t: nat, w: nat)
    requires OnTheWay(s, t, w) && !(WantsWaiters(s.threads[t]) && s.sh.waitersLock.Some?)
    requires s.threads[t].close == NoClose
    ensures Enabled(s, StepOf(s, t))
    ensures var s' := Apply(s, StepOf(s, t));
            w !in s'.sh.asleep
            || (OwedBy(s', t) && LockFree(s'.sh, t) && Rank(s'.threads[t]) < Rank(s.threads[t]))
  {
    hide CloseShared, ClosePc;
    RunApproaches(t, s.threads[t], s.sh);
  }

  lemma OwnCloseHelps(s: State, t: nat, w: nat)
    requires OnTheWay(s, t, w) && !(WantsWaiters(s.threads[t]) && s.sh.waitersLock.Some?)
    requires s.threads[t].close != NoClose
    ensures Enabled(s, StepOf(s, t))
    ensures var s' := Apply(s, StepOf(s, t));
            w !in s'.sh.asleep
            || (OwedBy(s', t) && LockFree(s'.sh, t) && Rank(s'.threads[t]) < Rank(s.threads[t]))
  {
    hide RunShared, RunPc;
    assert LocksInv(t, s.threads[t], s.sh);
    if Closing(s.threads[t].close) {
      assert t in Closers(s.threads);
    }
  }

  lemma HolderFacts(s: State, t: nat, w: nat)
    requires OnTheWay(s, t, w) && WantsWaiters(s.threads[t]) && s.sh.waitersLock.Some?
    ensures var h := s.sh.waitersLock.value;
            && h < |s.threads| && h != w && h != t
            && LocksInv(h, s.threads[h], s.sh) && LocksInv(t, s.threads[t], s.sh)
  {
    assert LocksInv(t, s.threads[t], s.sh) && LocksInv(w, s.threads[w], s.sh);
    assert LocksInv(s.sh.waitersLock.value, s.threads[s.sh.waitersLock.value], s.sh);
  }

  // The holder is one step nearer to releasing the lock that t waits for.
  predicate HolderHelps(s: State, t: nat, h: nat)
    requires t < |s.threads| && h < |s.threads|
  {
    && Enabled(s, StepOf(s, h)) && var s' := Apply(s, StepOf(s, h));
    && |s'.threads| == |s.threads| && s'.threads[t] == s.threads[t]
    && (s'.sh.asleep == {} || (LockFree(s'.sh, t) && RankHolder(s') < RankHolder(s)))
  }

  lemma HolderRunHelps(s: State, t: nat, h: nat)
    requires h < |s.threads| && t < |s.threads| && h != t && s.sh.waitersLock == Some(h) && LockFree(s.sh, t)
    requires LocksInv(h, s.threads[h], s.sh) && s.threads[h].close == NoClose
    ensures HolderHelps(s, t, h)
  {
    hide CloseShared, ClosePc;
  }

  lemma HolderCloseHelps(s: State, t: nat, h: nat)
    requires h < |s.threads| && t < |s.threads| && h != t && s.sh.waitersLock == Some(h) && LockFree(s.sh, t)
    requires LocksInv(h, s.threads[h], s.sh) && s.threads[h].close != NoClose
    ensures HolderHelps(s, t, h)
  {
    hide RunShared, RunPc;
  }

  lemma HolderStepHelps(s: State, t: nat, w: nat)
    requires OnTheWay(s, t, w) && WantsWaiters(s.threads[t]) && s.sh.waitersLock.Some?
    ensures var h := s.sh.waitersLock.value;
            h < |s.threads| && h != w && h != t && Enabled(s, StepOf(s, h))
    ensures var s' := Apply(s, StepOf(s, s.sh.waitersLock.value));
            w !in s'.sh.asleep
            || (OwedBy(s', t) && LockFree(s'.sh, t) && Measure(s', t) < Measure(s, t))
  {
    hide Apply, Enabled, RankHolder, StepOf;
    HolderFacts(s, t, w);
    var h := s.sh.waitersLock.value;
    if s.threads[h].close == NoClose { HolderRunHelps(s, t, h); } else { HolderCloseHelps(s, t, h); }
  }

  lemma HelpfulStepHelps(s: State, t: nat, w: nat)
    requires OnTheWay(s, t, w)
    ensures Enabled(s, HelpfulStep(s, t))
    ensures !Acts(HelpfulStep(s, t), w) && (HelpfulStep(s, t).Run? || HelpfulStep(s, t).RunClose?)
    ensures var s' := Apply(s, HelpfulStep(s, t));
            w !in s'.sh.asleep || (OnTheWay(s', t, w) && Measure(s', t) < Measure(s, t))
  {
    hide Apply, Enabled, Inv;
    if WantsWaiters(s.threads[t]) && s.sh.waitersLock.Some? {
      HolderStepHelps(s, t, w);
    } else {
      if s.threads[t].close == NoClose { OwnRunHelps(s, t, w); } else { OwnCloseHelps(s, t, w); }
    }
    StepInv(s, HelpfulStep(s, t));
  }

  lemma {:induction false} FollowTheWay(s: State, t: nat, w: nat) returns (states: seq<State>, steps: seq<Step>)
    requires OnTheWay(s, t, w)
    ensures IsPath(states, steps) && states[0] == s
    ensures forall step :: step in steps ==> (step.Run? || step.RunClose?) && step.t != w
    ensures w !in states[|states| - 1].sh.asleep
    decreases Measure(s, t)
  {
    hide Apply, Enabled;
    HelpfulStepHelps(s, t, w);
    var step := HelpfulStep(s, t);
    var s' := Apply(s, step);
    if w !in s'.sh.asleep {
      states, steps := [s, s'], [step];
    } else {
      var states', steps' := FollowTheWay(s', t, w);
      states, steps := [s] + states', [step] + steps';
    }
  }

  // From every reachable state with w asleep, steps of other threads alone,
  // without w's timeout, reach a broadcast that wakes w.
  lemma SleeperCanAlwaysBeWoken(states: seq<State>, steps: seq<Step>, k: nat, w: nat)
    returns (onward: seq<State>, moves: seq<Step>)
    requires IsRun(states, steps) && k < |states| && w in states[k].sh.asleep
    ensures IsPath(onward, moves) && onward[0] == states[k]
    ensures forall step :: step in moves ==> (step.Run? || step.RunClose?) && step.t != w
    ensures w !in onward[|onward| - 1].sh.asleep
  {
    hide Apply, Enabled;
    var s := states[k];
    RunKeepsInv(states, steps, k);
    SleeperIsOwedABroadcast(states, steps, k, w);
    var t: nat :| t != w && OwedBy(s, t);
    if s.sh.owner.Some? {
      t := s.sh.owner.value;
      assert LocksInv(t, s.threads[t], s.sh) && LocksInv(w, s.threads[w], s.sh);
    }
    onward, moves := FollowTheWay(s, t, w);
  }
}
