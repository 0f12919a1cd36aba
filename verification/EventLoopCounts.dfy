/**
  Nothing queued for the event handler is lost or handled twice, in any run.
 */
module EventLoopCounts {
  import opened Options
  import opened EventLoop
  import opened EventLoopSafety

  function One(yes: bool): nat { if yes then 1 else 0 }

  // How often a source queued something in the first k steps.
  function Queuings(steps: seq<Step>, k: nat, source: Source): nat
    requires k <= |steps|
  {
    if k == 0 then 0 else Queuings(steps, k - 1, source) + One(steps[k - 1] == Signal(source))
  }

  // The thread of a step is in a callback of a completed transfer after it.
  predicate EntersCallback(s: State, step: Step) {
    step.Run? && step.t < |s.threads| && s.threads[step.t].pc.InCallback?
  }

  function Callbacks(states: seq<State>, steps: seq<Step>, k: nat): nat
    requires k <= |steps| && |states| == |steps| + 1
  {
    if k == 0 then 0 else Callbacks(states, steps, k - 1) + One(EntersCallback(states[k], steps[k - 1]))
  }

  // Every transfer completed is called back once or still queued.
  lemma {:induction false} CompletionsAreKept(states: seq<State>, steps: seq<Step>, k: nat)
    requires IsRun(states, steps) && k <= |steps|
    ensures Callbacks(states, steps, k) + states[k].sh.completed == Queuings(steps, k, TransferCompleted)
  {
    hide Apply, Enabled, EntersCallback;
    if k > 0 {
      CompletionsAreKept(states, steps, k - 1);
      CompletionStep(states[k - 1], steps[k - 1]);
    }
  }

  lemma CompletionStep(s: State, step: Step)
    requires Enabled(s, step)
    ensures var s' := Apply(s, step);
            One(EntersCallback(s', step)) + s'.sh.completed == s.sh.completed + One(step == Signal(TransferCompleted))
  {
    hide ClosePc;
  }

  // The thread has taken a hotplug message off the queue and not delivered it yet.
  predicate Carries(pc: Pc) {
    match pc
    case InCallback(special, _) => special
    case DrainNext(special, _, _) => special
    case InHotplug(special, _, _) => special
    case _ => false
  }

  ghost predicate SomeoneCarries(s: State) {
    exists t: nat :: t < |s.threads| && Carries(s.threads[t].pc)
  }

  // The step runs the hotplug callbacks with the message it carries.
  predicate Delivers(s: State, step: Step) {
    step.Run? && step.t < |s.threads| && s.threads[step.t].pc.InHotplug? && s.threads[step.t].pc.special
  }

  function Deliveries(states: seq<State>, steps: seq<Step>, k: nat): nat
    requires k <= |steps| && |states| == |steps| + 1
  {
    if k == 0 then 0 else Deliveries(states, steps, k - 1) + One(Delivers(states[k - 1], steps[k - 1]))
  }

  lemma OnlyOwnerCarries(s: State, t: nat)
    requires Inv(s) && t < |s.threads| && s.sh.owner == Some(t)
    ensures SomeoneCarries(s) <==> Carries(s.threads[t].pc)
  {
    forall i: nat | i < |s.threads| && Carries(s.threads[i].pc) ensures i == t {
      assert LocksInv(i, s.threads[i], s.sh);
    }
  }

  lemma SameCarriers(s: State, s': State)
    requires |s'.threads| == |s.threads|
    requires forall i: nat :: i < |s.threads| ==> (Carries(s.threads[i].pc) <==> Carries(s'.threads[i].pc))
    ensures SomeoneCarries(s) <==> SomeoneCarries(s')
  {
    if SomeoneCarries(s) {
      var i: nat :| i < |s.threads| && Carries(s.threads[i].pc);
      assert Carries(s'.threads[i].pc);
    }
    if SomeoneCarries(s') {
      var i: nat :| i < |s'.threads| && Carries(s'.threads[i].pc);
      assert Carries(s.threads[i].pc);
    }
  }

  predicate InDrain(pc: Pc) { pc.DrainFirst? || pc.InCallback? || pc.DrainNext? || pc.InHotplug? }

  lemma MessageStep(s: State, step: Step)
    requires Inv(s) && Enabled(s, step)
    ensures var s' := Apply(s, step);
            One(SomeoneCarries(s')) + s'.sh.hotplug + One(Delivers(s, step)) ==
            One(SomeoneCarries(s)) + s.sh.hotplug + One(step == Signal(HotplugMessage))
  {
    hide Apply;
    var s' := Apply(s, step);
    if step.Run? && InDrain(s.threads[step.t].pc) {
      Owner(s, step);
      OnlyOwnerCarries(s, step.t);
      Drains(s, step);
    } else {
      Elsewhere(s, step);
      SameCarriers(s, s');
    }
  }

  lemma Owner(s: State, step: Step)
    requires Inv(s) && Enabled(s, step) && step.Run? && InDrain(s.threads[step.t].pc)
    ensures s.sh.owner == Some(step.t)
  {
    assert LocksInv(step.t, s.threads[step.t], s.sh);
  }

  lemma Elsewhere(s: State, step: Step)
    requires Enabled(s, step) && !(step.Run? && InDrain(s.threads[step.t].pc))
    ensures var s' := Apply(s, step);
            && |s'.threads| == |s.threads| && !Delivers(s, step)
            && s'.sh.hotplug == s.sh.hotplug + One(step == Signal(HotplugMessage))
            && forall i: nat :: i < |s.threads| ==> (Carries(s.threads[i].pc) <==> Carries(s'.threads[i].pc))
  {
  }

  lemma Drains(s: State, step: Step)
    requires Inv(s) && Enabled(s, step) && step.Run? && InDrain(s.threads[step.t].pc) && s.sh.owner == Some(step.t)
    ensures var s', t := Apply(s, step), step.t;
            && (SomeoneCarries(s') <==> Carries(s'.threads[t].pc))
            && One(Carries(s'.threads[t].pc)) + s'.sh.hotplug + One(Delivers(s, step)) ==
               One(Carries(s.threads[t].pc)) + s.sh.hotplug
  {
    var s', t := Apply(s, step), step.t;
    forall i: nat | i < |s'.threads| && i != t ensures !Carries(s'.threads[i].pc) {
      assert LocksInv(i, s.threads[i], s.sh);
    }
  }

  // Every hotplug message is delivered once, on its way or still queued.
  lemma {:induction false} MessagesAreKept(states: seq<State>, steps: seq<Step>, k: nat)
    requires IsRun(states, steps) && k <= |steps|
    ensures Deliveries(states, steps, k) + One(SomeoneCarries(states[k])) + states[k].sh.hotplug ==
            Queuings(steps, k, HotplugMessage)
  {
    if k == 0 {
      assert !SomeoneCarries(states[0]);
    } else {
      MessagesAreKept(states, steps, k - 1);
      RunKeepsInv(states, steps, k - 1);
      MessageStep(states[k - 1], steps[k - 1]);
    }
  }
}
