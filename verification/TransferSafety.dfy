/**
  What every run keeps in which no caller resubmits a transfer before its callback,
  whatever becomes of the flags: each accepted submission has one completion made
  or due, each failed one none, and lists and locks agree with where each call
  stands.
 */
module TransferSafety {
  import opened Options
  import opened TransferLifecycle

  // The call holds the transfer's lock.
  predicate Locked(pc: Pc) { !(pc.WaitLock? || pc.Done?) }

  // On the list and not (or no longer) with the backend.
  predicate OnList(pc: Pc) { pc.Ref? || pc.Backend? || pc == Finish(false) || pc.Unref? || pc.Remove? }

  // Between passing the IN_FLIGHT check and settling the flags.
  predicate Busy(pc: Pc) { pc.Add? || pc.Finish? || OnList(pc) }

  // The backend accepted, and the call has not turned that into an error.
  predicate Won(pc: Pc) { pc == Finish(true) || pc == Return(true) || pc == Done(true) }

  // Everything about one transfer; pc is that of the lock holder.
  datatype View = View(flags: Flags, handle: nat, lock: Option<nat>, pc: Pc,
                       flying: bool, acc: Option<nat>, gone: bool)

  function ViewOf(s: State, x: nat): View
    requires x < |s.xs|
  {
    var lock := s.xs[x].lock;
    View(s.xs[x].flags, s.xs[x].handle, lock,
         if lock.Some? && lock.value < |s.subs| then s.subs[lock.value].pc else WaitLock,
         x in s.flying,
         if x in s.accepted then Some(s.accepted[x]) else None,
         s.xs[x].handle in s.gone)
  }

  // A report is being delivered and the flags do not show it yet.
  predicate Delivering(ev: Event, x: nat) { (ev.ERemove? || ev.EFlags?) && ev.x == x }

  // The sweep of handle h will still look at transfer x.
  predicate SweepWillSee(ev: Event, h: nat, x: nat) {
    match ev
    case ESweep(g) => g == h
    case EScan(g, todo) => g == h && x in todo
    case EClear(_, g) => g == h
    case ERemove(_, _, back) => back == Some(h)
    case EFlags(_, _, back) => back == Some(h)
    case ECall(_, _, back) => back == Some(h)
    case EUnref(_, back) => back == Some(h)
    case EIdle => false
  }

  // Where a transfer can be: list, backend, event handler and flags agree.
  predicate PlaceInv(x: nat, v: View, ev: Event) {
    var busy := v.lock.Some? && Busy(v.pc);
    && (v.lock.Some? ==> Locked(v.pc))
    && (v.acc.Some? ==> v.flying && !Delivering(ev, x))
    && (ev.ERemove? && ev.x == x ==> v.flying)
    && (ev.EFlags? && ev.x == x ==> !v.flying)
    && (ev.EClear? && ev.x == x ==> v.acc.Some? && v.flags.inFlight && ev.h == v.handle)
    && (v.flying ==> !v.flags.completed)
    && (v.flying ==> (busy && OnList(v.pc)) || v.acc.Some? || (ev.ERemove? && ev.x == x))
    && (busy && OnList(v.pc) ==> v.flying && v.acc.None? && !Delivering(ev, x))
    && (busy && v.pc.Add? ==> !v.flying && !v.flags.completed && v.acc.None? && !Delivering(ev, x))
    && (v.flags.inFlight ==> !busy && (v.acc.Some? || Delivering(ev, x)))
  }

  // The two special conditions of libusb_submit_transfer.
  predicate RaceInv(x: nat, v: View, ev: Event) {
    var busy := v.lock.Some? && Busy(v.pc);
    && (busy && v.flags.disappeared ==> v.gone)
    && (busy && v.pc == Finish(true) ==>
          if v.acc.Some? then v.acc == v.lock
          else if Delivering(ev, x) then ev.sid == v.lock.value && !v.flags.completed && !v.flags.disappeared
          else v.flags.completed && !v.flags.disappeared)
  }

  // handle_timeouts keeps its transfer on the list; what it saved is still right
  // except for IN_FLIGHT.
  predicate TimeoutInv(x: nat, v: View, ev: Event, tm: Timeouts) {
    match tm
    case TSaved(y, saved, _) => y == x ==>
      && v.flying && !saved.completed
      && (saved.inFlight ==> v.flags.inFlight)
      && (saved.disappeared == v.flags.disappeared || v.flags.inFlight)
      && (ev.EClear? && ev.x == x ==> saved.inFlight)
    case TCancel(y) => y == x ==> v.flying
    case TCancelled(y) => y == x ==> v.flying
    case _ => true
  }

  predicate XInv(x: nat, v: View, ev: Event, tm: Timeouts) {
    PlaceInv(x, v, ev) && RaceInv(x, v, ev) && TimeoutInv(x, v, ev, tm)
  }

  function B(b: bool): nat { if b then 1 else 0 }

  // Completions of a submission made or still to come.
  function Live(sid: nat, acc: Option<nat>, ev: Event, cbs: multiset<nat>): nat {
    B(acc == Some(sid)) + B((ev.ERemove? || ev.EFlags? || ev.ECall?) && ev.sid == sid) + cbs[sid]
  }

  predicate SubInv(sid: nat, pc: Pc, lock: Option<nat>, acc: Option<nat>, ev: Event, cbs: multiset<nat>) {
    && (Locked(pc) <==> lock == Some(sid))
    && Live(sid, acc, ev, cbs) == B(Won(pc))
  }

  // The handle whose disconnect the event handler is sweeping.
  predicate Sweeps(ev: Event, h: nat) {
    match ev
    case ESweep(g) => g == h case EScan(g, _) => g == h case EClear(_, g) => g == h
    case ERemove(_, _, back) => back == Some(h) case EFlags(_, _, back) => back == Some(h)
    case ECall(_, _, back) => back == Some(h) case EUnref(_, back) => back == Some(h)
    case EIdle => false
  }

  // The lock of x is held by a call for x.
  predicate LockLinked(s: State, x: nat) {
    x < |s.xs| && s.xs[x].lock.Some? ==>
      s.xs[x].lock.value < |s.subs| && s.subs[s.xs[x].lock.value].x == x
  }

  predicate AcceptedLinked(s: State, x: nat) {
    x in s.accepted ==> x < |s.xs| && s.accepted[x] < |s.subs| && s.subs[s.accepted[x]].x == x
  }

  predicate EventLinked(s: State) {
    && (s.ev.EScan? ==> s.tm.TIdle?)
    && (s.ev.ERemove? || s.ev.EFlags? || s.ev.ECall? ==> s.ev.sid < |s.subs| && s.subs[s.ev.sid].x == s.ev.x)
  }

  ghost predicate Linked(s: State) {
    && Indexed(s) && EventLinked(s)
    && (forall h: nat :: Sweeps(s.ev, h) ==> h in s.gone)
    && (forall x: nat :: LockLinked(s, x))
    && (forall x: nat :: AcceptedLinked(s, x))
    && (forall sid: nat :: sid in s.cbs ==> sid < |s.subs|)
  }

  ghost predicate SubsInv(s: State) {
    forall sid: nat :: sid < |s.subs| ==> SubInvAt(s, sid)
  }

  function AcceptedFor(s: State, x: nat): Option<nat> {
    if x in s.accepted then Some(s.accepted[x]) else None
  }

  predicate SubInvAt(s: State, sid: nat) {
    sid < |s.subs| && s.subs[sid].x < |s.xs| && var x := s.subs[sid].x;
    SubInv(sid, s.subs[sid].pc, s.xs[x].lock, AcceptedFor(s, x), s.ev, s.cbs)
  }

  ghost predicate XsInv(s: State) {
    forall x: nat :: x < |s.xs| ==> XInvAt(s, x)
  }

  predicate XInvAt(s: State, x: nat) {
    x < |s.xs| && XInv(x, ViewOf(s, x), s.ev, s.tm)
  }

  ghost predicate Inv(s: State) {
    Linked(s) && SubsInv(s) && XsInv(s)
  }

  // A caller submits a transfer again whose callback is still to come; only a lost
  // IN_FLIGHT keeps libusb_submit_transfer from refusing that.
  predicate Resubmits(s: State, step: Step)
    requires Indexed(s) && Enabled(s, step)
  {
    step.CheckFlags? && var x := s.subs[step.sid].x;
      !s.xs[x].flags.inFlight && (x in s.flying || Delivering(s.ev, x))
  }

  // Submission steps that change the list, the references or the lock only.
  predicate ListStep(step: Step) { step.AddToList? || step.RemoveFailed? }

  predicate RefStep(step: Step) { step.TakeRef? || step.DropRef? || step.ReturnFrom? }

  // Steps that change nothing but the flags of one transfer and tm.
  predicate FlagStep(step: Step) { step.Cancel? || step.TWrite? || step.TCancelIt? }

  predicate TimeoutStep(step: Step) { step.TBegin? || step.TRead? || step.TReread? || step.TEnd? }

  /* What each kind of step leaves alone. */

  lemma SubmitFrame(s: State, step: Step)
    requires Indexed(s) && Enabled(s, step) && SubmitStep(step)
    ensures var s', sid := Apply(s, step), step.sid;
            && sid < |s.subs| && s.subs[sid].x < |s.xs| && var x := s.subs[sid].x;
            && s'.ev == s.ev && s'.tm == s.tm && s'.gone == s.gone && s'.cbs == s.cbs
            && |s'.refs| == |s.refs| && |s'.xs| == |s.xs| && |s'.subs| == |s.subs|
            && s'.subs == s.subs[sid := Sub(x, s'.subs[sid].pc)]
            && s'.xs == s.xs[x := s'.xs[x]] && s'.xs[x].handle == s.xs[x].handle
            && (forall y :: y != x ==> (y in s'.flying <==> y in s.flying))
            && forall y :: y != x ==> AcceptedFor(s', y) == AcceptedFor(s, y)
  {
    hide HandlerApply, OtherApply, HandlerEnabled, OtherEnabled;
  }

  lemma HandlerFrame(s: State, step: Step)
    requires Indexed(s) && Enabled(s, step) && (EventStep(step) || SweepStep(step))
    ensures var s' := Apply(s, step);
            && s'.subs == s.subs && s'.tm == s.tm && |s'.refs| == |s.refs| && |s'.xs| == |s.xs|
            && s.gone <= s'.gone
            && forall x :: 0 <= x < |s.xs| ==> s'.xs[x].handle == s.xs[x].handle && s'.xs[x].lock == s.xs[x].lock
  {
    hide SubmitApply, OtherApply, SubmitEnabled, OtherEnabled;
  }

  lemma OtherFrame(s: State, step: Step)
    requires Indexed(s) && Enabled(s, step) && !SubmitStep(step) && !EventStep(step) && !SweepStep(step)
    ensures var s' := Apply(s, step);
            && s'.subs == s.subs + (if step.Submit? then [Sub(step.x, WaitLock)] else [])
            && s'.flying == s.flying && s'.ev == s.ev && s'.gone == s.gone && s'.accepted == s.accepted
            && s'.cbs == s.cbs && s'.refs == s.refs && |s'.xs| == |s.xs|
            && forall x :: 0 <= x < |s.xs| ==> s'.xs[x].handle == s.xs[x].handle && s'.xs[x].lock == s.xs[x].lock
  {
    hide SubmitApply, HandlerApply, SubmitEnabled, HandlerEnabled;
  }

  /* What each step does to one transfer. */

  lemma AcquireX(s: State, step: Step, x: nat)
    requires Indexed(s) && EventLinked(s) && Enabled(s, step) && step.Acquire? && SubInvAt(s, step.sid)
             && LockLinked(s, x)
    requires x < |s.xs| && XInvAt(s, x)
    ensures XInvAt(Apply(s, step), x)
  {
    hide HandlerApply, OtherApply, HandlerEnabled, OtherEnabled;
  }

  lemma CheckElsewhere(s: State, sid: nat, clock: bool, x: nat)
    requires Indexed(s) && Enabled(s, CheckFlags(sid, clock)) && SubInvAt(s, sid)
    requires x < |s.xs| && LockLinked(s, x) && x != s.subs[sid].x
    ensures ViewOf(Apply(s, CheckFlags(sid, clock)), x) == ViewOf(s, x)
  {
    hide HandlerApply, OtherApply, HandlerEnabled, OtherEnabled;
  }

  lemma CheckHere(s: State, sid: nat, clock: bool)
    requires Indexed(s) && Enabled(s, CheckFlags(sid, clock)) && SubInvAt(s, sid)
    requires XInvAt(s, s.subs[sid].x) && !Resubmits(s, CheckFlags(sid, clock))
    ensures XInvAt(Apply(s, CheckFlags(sid, clock)), s.subs[sid].x)
  {
    hide HandlerApply, OtherApply, HandlerEnabled, OtherEnabled;
  }

  lemma CheckX(s: State, sid: nat, clock: bool, x: nat)
    requires Indexed(s) && Enabled(s, CheckFlags(sid, clock)) && SubInvAt(s, sid)
    requires x < |s.xs| && LockLinked(s, x) && XInvAt(s, x)
    requires !Resubmits(s, CheckFlags(sid, clock))
    ensures XInvAt(Apply(s, CheckFlags(sid, clock)), x)
  {
    hide XInv;
    if x == s.subs[sid].x { CheckHere(s, sid, clock); } else { CheckElsewhere(s, sid, clock, x); }
  }

  lemma ListX(s: State, step: Step, x: nat)
    requires Indexed(s) && EventLinked(s) && Enabled(s, step) && ListStep(step) && SubInvAt(s, step.sid)
             && LockLinked(s, x)
    requires x < |s.xs| && XInvAt(s, x)
    ensures XInvAt(Apply(s, step), x)
  {
    hide HandlerApply, OtherApply, HandlerEnabled, OtherEnabled;
  }

  lemma RefX(s: State, step: Step, x: nat)
    requires Indexed(s) && EventLinked(s) && Enabled(s, step) && RefStep(step) && SubInvAt(s, step.sid)
             && LockLinked(s, x)
    requires x < |s.xs| && XInvAt(s, x)
    ensures XInvAt(Apply(s, step), x)
  {
    hide HandlerApply, OtherApply, HandlerEnabled, OtherEnabled;
  }

  lemma BackendX(s: State, step: Step, x: nat)
    requires Indexed(s) && EventLinked(s) && Enabled(s, step) && step.CallBackend? && SubInvAt(s, step.sid)
             && LockLinked(s, x)
    requires x < |s.xs| && XInvAt(s, x)
    ensures XInvAt(Apply(s, step), x)
  {
    hide HandlerApply, OtherApply, HandlerEnabled, OtherEnabled;
  }

  lemma FinishElsewhere(s: State, sid: nat, x: nat)
    requires Indexed(s) && Enabled(s, FinishSubmit(sid)) && SubInvAt(s, sid)
    requires x < |s.xs| && LockLinked(s, x) && x != s.subs[sid].x
    ensures ViewOf(Apply(s, FinishSubmit(sid)), x) == ViewOf(s, x)
  {
    hide HandlerApply, OtherApply, HandlerEnabled, OtherEnabled;
  }

  // The view of the transfer of the call after its last critical section.
  function Finished(v: View, ok: bool): View {
    v.(flags := FinishFlags(ok, v.flags), pc := FinishPc(ok, v.flags),
       acc := if ok && v.flags.disappeared then None else v.acc)
  }

  lemma FinishHere(s: State, sid: nat)
    requires Indexed(s) && Enabled(s, FinishSubmit(sid)) && SubInvAt(s, sid)
    ensures var x := s.subs[sid].x;
            ViewOf(Apply(s, FinishSubmit(sid)), x) == Finished(ViewOf(s, x), s.subs[sid].pc.ok)
  {
    hide HandlerApply, OtherApply, HandlerEnabled, OtherEnabled;
  }

  lemma FinishedX(x: nat, v: View, ev: Event, tm: Timeouts, sid: nat)
    requires v.lock == Some(sid) && v.pc.Finish? && XInv(x, v, ev, tm)
    ensures XInv(x, Finished(v, v.pc.ok), ev, tm)
  {
  }

  lemma FinishX(s: State, sid: nat, x: nat)
    requires Indexed(s) && Enabled(s, FinishSubmit(sid)) && SubInvAt(s, sid)
    requires x < |s.xs| && LockLinked(s, x) && XInvAt(s, x)
    ensures XInvAt(Apply(s, FinishSubmit(sid)), x)
  {
    hide XInv, Finished;
    if x == s.subs[sid].x {
      FinishHere(s, sid);
      FinishedX(x, ViewOf(s, x), s.ev, s.tm, sid);
    } else {
      FinishElsewhere(s, sid, x);
    }
  }

  lemma EventX(s: State, step: Step, x: nat)
    requires Indexed(s) && EventLinked(s) && Enabled(s, step) && EventStep(step)
    requires x < |s.xs| && XInvAt(s, x)
    ensures XInvAt(Apply(s, step), x)
  {
    hide SubmitApply, OtherApply, SubmitEnabled, OtherEnabled;
  }

  lemma ScanHere(s: State, y: nat)
    requires Indexed(s) && Enabled(s, ScanOne(y)) && s.ev.h in s.gone && XInvAt(s, y) && EventLinked(s)
    ensures XInvAt(Apply(s, ScanOne(y)), y)
  {
    hide SubmitApply, OtherApply, SubmitEnabled, OtherEnabled;
  }

  lemma ScanElsewhere(s: State, y: nat, x: nat)
    requires Indexed(s) && Enabled(s, ScanOne(y)) && XInvAt(s, x) && x != y && EventLinked(s)
    ensures XInvAt(Apply(s, ScanOne(y)), x)
  {
    hide SubmitApply, OtherApply, SubmitEnabled, OtherEnabled;
  }

  lemma ScanX(s: State, step: Step, x: nat)
    requires Indexed(s) && EventLinked(s) && Enabled(s, step) && step.ScanOne? && s.ev.h in s.gone
    requires x < |s.xs| && XInvAt(s, x)
    ensures XInvAt(Apply(s, step), x)
  {
    hide Apply, Enabled, XInvAt;
    if x == step.x { ScanHere(s, x); } else { ScanElsewhere(s, step.x, x); }
  }

  lemma SweepX(s: State, step: Step, x: nat)
    requires Indexed(s) && EventLinked(s) && Enabled(s, step) && SweepStep(step) && !step.ScanOne?
    requires x < |s.xs| && XInvAt(s, x)
    ensures XInvAt(Apply(s, step), x)
  {
    hide SubmitApply, OtherApply, SubmitEnabled, OtherEnabled;
  }

  lemma CancelX(s: State, step: Step, x: nat)
    requires Indexed(s) && EventLinked(s) && Enabled(s, step) && (step.Cancel? || step.TCancelIt?)
    requires x < |s.xs| && XInvAt(s, x)
    ensures XInvAt(Apply(s, step), x)
  {
    hide SubmitApply, HandlerApply, SubmitEnabled, HandlerEnabled;
  }

  // The flags and the place of handle_timeout after its write.
  function WrittenFlags(tm: Timeouts): Flags
    requires tm.TSaved?
  {
    if tm.final then tm.saved.(timedOut := true) else tm.saved.(timeoutHandled := true)
  }

  function AfterWrite(tm: Timeouts): Timeouts
    requires tm.TSaved?
  {
    if tm.final then THeld else TCancel(tm.x)
  }

  lemma WriteFrame(s: State, x: nat)
    requires Indexed(s) && Enabled(s, TWrite) && x < |s.xs|
    ensures s.tm.TSaved? && var v := ViewOf(s, x);
            && x < |Apply(s, TWrite).xs| && Apply(s, TWrite).ev == s.ev && Apply(s, TWrite).tm == AfterWrite(s.tm)
            && ViewOf(Apply(s, TWrite), x) == if x == s.tm.x then v.(flags := WrittenFlags(s.tm)) else v
  {
    hide SubmitApply, HandlerApply, SubmitEnabled, HandlerEnabled;
  }

  lemma WrittenX(x: nat, v: View, ev: Event, tm: Timeouts)
    requires tm.TSaved? && XInv(x, v, ev, tm)
    ensures XInv(x, if x == tm.x then v.(flags := WrittenFlags(tm)) else v, ev, AfterWrite(tm))
  {
  }

  lemma WriteX(s: State, step: Step, x: nat)
    requires Indexed(s) && EventLinked(s) && Enabled(s, step) && step.TWrite?
    requires x < |s.xs| && XInvAt(s, x)
    ensures XInvAt(Apply(s, step), x)
  {
    hide Apply, Enabled, XInv, ViewOf;
    WriteFrame(s, x);
    WrittenX(x, ViewOf(s, x), s.ev, s.tm);
  }

  lemma TimeoutX(s: State, step: Step, x: nat)
    requires Indexed(s) && EventLinked(s) && Enabled(s, step) && TimeoutStep(step)
    requires x < |s.xs| && XInvAt(s, x)
    ensures XInvAt(Apply(s, step), x)
  {
    hide SubmitApply, HandlerApply, SubmitEnabled, HandlerEnabled;
  }

  lemma NewX(s: State, step: Step, x: nat)
    requires Indexed(s) && EventLinked(s) && Enabled(s, step) && step.Submit? && LockLinked(s, x)
    requires x < |s.xs| && XInvAt(s, x)
    ensures XInvAt(Apply(s, step), x)
  {
    hide SubmitApply, HandlerApply, SubmitEnabled, HandlerEnabled;
  }

  /* What each step does to one call. */

  lemma AcquireSub(s: State, step: Step, t: nat)
    requires Indexed(s) && Enabled(s, step) && step.Acquire? && SubInvAt(s, step.sid) && XInvAt(s, s.subs[step.sid].x)
    requires t < |s.subs| && SubInvAt(s, t)
    ensures SubInvAt(Apply(s, step), t)
  {
    hide HandlerApply, OtherApply, HandlerEnabled, OtherEnabled;
  }

  lemma CheckSub(s: State, step: Step, t: nat)
    requires Indexed(s) && Enabled(s, step) && step.CheckFlags? && SubInvAt(s, step.sid)
             && XInvAt(s, s.subs[step.sid].x)
    requires t < |s.subs| && SubInvAt(s, t)
    ensures SubInvAt(Apply(s, step), t)
  {
    hide HandlerApply, OtherApply, HandlerEnabled, OtherEnabled;
  }

  lemma ListSub(s: State, step: Step, t: nat)
    requires Indexed(s) && Enabled(s, step) && ListStep(step) && SubInvAt(s, step.sid)
             && XInvAt(s, s.subs[step.sid].x)
    requires t < |s.subs| && SubInvAt(s, t)
    ensures SubInvAt(Apply(s, step), t)
  {
    hide HandlerApply, OtherApply, HandlerEnabled, OtherEnabled;
  }

  lemma RefSub(s: State, step: Step, t: nat)
    requires Indexed(s) && Enabled(s, step) && RefStep(step) && SubInvAt(s, step.sid) && XInvAt(s, s.subs[step.sid].x)
    requires t < |s.subs| && SubInvAt(s, t)
    ensures SubInvAt(Apply(s, step), t)
  {
    hide HandlerApply, OtherApply, HandlerEnabled, OtherEnabled;
  }

  lemma BackendSub(s: State, step: Step, t: nat)
    requires Indexed(s) && Enabled(s, step) && step.CallBackend? && SubInvAt(s, step.sid)
             && XInvAt(s, s.subs[step.sid].x)
    requires t < |s.subs| && SubInvAt(s, t)
    ensures SubInvAt(Apply(s, step), t)
  {
    hide HandlerApply, OtherApply, HandlerEnabled, OtherEnabled;
  }

  lemma FinishSub(s: State, step: Step, t: nat)
    requires Indexed(s) && Enabled(s, step) && step.FinishSubmit? && SubInvAt(s, step.sid)
             && XInvAt(s, s.subs[step.sid].x)
    requires t < |s.subs| && SubInvAt(s, t)
    ensures SubInvAt(Apply(s, step), t)
  {
    hide HandlerApply, OtherApply, HandlerEnabled, OtherEnabled;
  }

  lemma EventSub(s: State, step: Step, t: nat)
    requires Indexed(s) && Enabled(s, step) && EventStep(step)
    requires step.Report? ==> AcceptedLinked(s, step.x)
    requires t < |s.subs| && SubInvAt(s, t)
    ensures SubInvAt(Apply(s, step), t)
  {
    hide SubmitApply, OtherApply, SubmitEnabled, OtherEnabled;
  }

  lemma ScanSub(s: State, step: Step, t: nat)
    requires Indexed(s) && Enabled(s, step) && step.ScanOne?
    requires t < |s.subs| && SubInvAt(s, t)
    ensures SubInvAt(Apply(s, step), t)
  {
    hide SubmitApply, OtherApply, SubmitEnabled, OtherEnabled;
  }

  lemma SweepSub(s: State, step: Step, t: nat)
    requires Indexed(s) && Enabled(s, step) && SweepStep(step) && !step.ScanOne?
    requires step.ClearPriv? ==> AcceptedLinked(s, s.ev.x)
    requires t < |s.subs| && SubInvAt(s, t)
    ensures SubInvAt(Apply(s, step), t)
  {
    hide SubmitApply, OtherApply, SubmitEnabled, OtherEnabled;
  }

  lemma CancelSub(s: State, step: Step, t: nat)
    requires Indexed(s) && Enabled(s, step) && (step.Cancel? || step.TCancelIt?)
    requires t < |s.subs| && SubInvAt(s, t)
    ensures SubInvAt(Apply(s, step), t)
  {
    hide SubmitApply, HandlerApply, SubmitEnabled, HandlerEnabled;
  }

  lemma WriteSub(s: State, step: Step, t: nat)
    requires Indexed(s) && Enabled(s, step) && step.TWrite?
    requires t < |s.subs| && SubInvAt(s, t)
    ensures SubInvAt(Apply(s, step), t)
  {
    hide SubmitApply, HandlerApply, SubmitEnabled, HandlerEnabled;
  }

  lemma TimeoutSub(s: State, step: Step, t: nat)
    requires Indexed(s) && Enabled(s, step) && TimeoutStep(step)
    requires t < |s.subs| && SubInvAt(s, t)
    ensures SubInvAt(Apply(s, step), t)
  {
    hide SubmitApply, HandlerApply, SubmitEnabled, HandlerEnabled;
  }

  /* What each step does to the links. */

  lemma AcquireLinks(s: State, step: Step, x: nat)
    requires Indexed(s) && EventLinked(s) && Enabled(s, step) && step.Acquire?
    requires LockLinked(s, x) && AcceptedLinked(s, x)
    ensures Indexed(Apply(s, step)) && EventLinked(Apply(s, step))
    ensures LockLinked(Apply(s, step), x) && AcceptedLinked(Apply(s, step), x)
  {
    hide HandlerApply, OtherApply, HandlerEnabled, OtherEnabled;
  }

  lemma CheckLinks(s: State, step: Step, x: nat)
    requires Indexed(s) && EventLinked(s) && Enabled(s, step) && step.CheckFlags?
    requires LockLinked(s, x) && AcceptedLinked(s, x)
    ensures Indexed(Apply(s, step)) && EventLinked(Apply(s, step))
    ensures LockLinked(Apply(s, step), x) && AcceptedLinked(Apply(s, step), x)
  {
    hide HandlerApply, OtherApply, HandlerEnabled, OtherEnabled;
  }

  lemma ListLinks(s: State, step: Step, x: nat)
    requires Indexed(s) && EventLinked(s) && Enabled(s, step) && ListStep(step)
    requires LockLinked(s, x) && AcceptedLinked(s, x)
    ensures Indexed(Apply(s, step)) && EventLinked(Apply(s, step))
    ensures LockLinked(Apply(s, step), x) && AcceptedLinked(Apply(s, step), x)
  {
    hide HandlerApply, OtherApply, HandlerEnabled, OtherEnabled;
  }

  lemma RefLinks(s: State, step: Step, x: nat)
    requires Indexed(s) && EventLinked(s) && Enabled(s, step) && RefStep(step)
    requires LockLinked(s, x) && AcceptedLinked(s, x)
    ensures Indexed(Apply(s, step)) && EventLinked(Apply(s, step))
    ensures LockLinked(Apply(s, step), x) && AcceptedLinked(Apply(s, step), x)
  {
    hide HandlerApply, OtherApply, HandlerEnabled, OtherEnabled;
  }

  lemma BackendLinks(s: State, step: Step, x: nat)
    requires Indexed(s) && EventLinked(s) && Enabled(s, step) && step.CallBackend?
    requires LockLinked(s, x) && AcceptedLinked(s, x)
    ensures Indexed(Apply(s, step)) && EventLinked(Apply(s, step))
    ensures LockLinked(Apply(s, step), x) && AcceptedLinked(Apply(s, step), x)
  {
    hide HandlerApply, OtherApply, HandlerEnabled, OtherEnabled;
  }

  lemma FinishLinks(s: State, step: Step, x: nat)
    requires Indexed(s) && EventLinked(s) && Enabled(s, step) && step.FinishSubmit?
    requires LockLinked(s, x) && AcceptedLinked(s, x)
    ensures Indexed(Apply(s, step)) && EventLinked(Apply(s, step))
    ensures LockLinked(Apply(s, step), x) && AcceptedLinked(Apply(s, step), x)
  {
    hide HandlerApply, OtherApply, HandlerEnabled, OtherEnabled;
  }

  lemma EventLinks(s: State, step: Step, x: nat)
    requires Indexed(s) && EventLinked(s) && Enabled(s, step) && EventStep(step)
    requires step.Report? ==> AcceptedLinked(s, step.x)
    requires LockLinked(s, x) && AcceptedLinked(s, x)
    ensures Indexed(Apply(s, step)) && EventLinked(Apply(s, step))
    ensures LockLinked(Apply(s, step), x) && AcceptedLinked(Apply(s, step), x)
  {
    hide SubmitApply, OtherApply, SubmitEnabled, OtherEnabled;
  }

  lemma ScanLinks(s: State, step: Step, x: nat)
    requires Indexed(s) && EventLinked(s) && Enabled(s, step) && step.ScanOne?
    requires LockLinked(s, x) && AcceptedLinked(s, x)
    ensures Indexed(Apply(s, step)) && EventLinked(Apply(s, step))
    ensures LockLinked(Apply(s, step), x) && AcceptedLinked(Apply(s, step), x)
  {
    hide SubmitApply, OtherApply, SubmitEnabled, OtherEnabled;
  }

  lemma SweepLinks(s: State, step: Step, x: nat)
    requires Indexed(s) && EventLinked(s) && Enabled(s, step) && SweepStep(step) && !step.ScanOne?
    requires step.ClearPriv? ==> AcceptedLinked(s, s.ev.x)
    requires LockLinked(s, x) && AcceptedLinked(s, x)
    ensures Indexed(Apply(s, step)) && EventLinked(Apply(s, step))
    ensures LockLinked(Apply(s, step), x) && AcceptedLinked(Apply(s, step), x)
  {
    hide SubmitApply, OtherApply, SubmitEnabled, OtherEnabled;
  }

  lemma CancelLinks(s: State, step: Step, x: nat)
    requires Indexed(s) && EventLinked(s) && Enabled(s, step) && (step.Cancel? || step.TCancelIt?)
    requires LockLinked(s, x) && AcceptedLinked(s, x)
    ensures Indexed(Apply(s, step)) && EventLinked(Apply(s, step))
    ensures LockLinked(Apply(s, step), x) && AcceptedLinked(Apply(s, step), x)
  {
    hide SubmitApply, HandlerApply, SubmitEnabled, HandlerEnabled;
  }

  lemma WriteLinks(s: State, step: Step, x: nat)
    requires Indexed(s) && EventLinked(s) && Enabled(s, step) && step.TWrite?
    requires LockLinked(s, x) && AcceptedLinked(s, x)
    ensures Indexed(Apply(s, step)) && EventLinked(Apply(s, step))
    ensures LockLinked(Apply(s, step), x) && AcceptedLinked(Apply(s, step), x)
  {
    hide SubmitApply, HandlerApply, SubmitEnabled, HandlerEnabled;
  }

  lemma TimeoutLinks(s: State, step: Step, x: nat)
    requires Indexed(s) && EventLinked(s) && Enabled(s, step) && TimeoutStep(step)
    requires LockLinked(s, x) && AcceptedLinked(s, x)
    ensures Indexed(Apply(s, step)) && EventLinked(Apply(s, step))
    ensures LockLinked(Apply(s, step), x) && AcceptedLinked(Apply(s, step), x)
  {
    hide SubmitApply, HandlerApply, SubmitEnabled, HandlerEnabled;
  }

  lemma NewLinks(s: State, step: Step, x: nat)
    requires Indexed(s) && EventLinked(s) && Enabled(s, step) && step.Submit?
    requires LockLinked(s, x) && AcceptedLinked(s, x)
    ensures Indexed(Apply(s, step)) && EventLinked(Apply(s, step))
    ensures LockLinked(Apply(s, step), x) && AcceptedLinked(Apply(s, step), x)
  {
    hide SubmitApply, HandlerApply, SubmitEnabled, HandlerEnabled;
  }

  /* Every step. */

  lemma XStep(s: State, step: Step, x: nat)
    requires Linked(s) && SubsInv(s) && Enabled(s, step) && !Resubmits(s, step) && x < |s.xs| && XInvAt(s, x)
    ensures XInvAt(Apply(s, step), x)
  {
    hide Apply, Enabled, XInvAt, SubInvAt, EventLinked, Resubmits;
    assert LockLinked(s, x);
    if SubmitStep(step) {
      ThisCall(s, step);
      if step.Acquire? { AcquireX(s, step, x); }
      else if step.CheckFlags? { CheckX(s, step.sid, step.clock, x); }
      else if ListStep(step) { ListX(s, step, x); }
      else if RefStep(step) { RefX(s, step, x); }
      else if step.CallBackend? { BackendX(s, step, x); }
      else { FinishX(s, step.sid, x); }
    } else if EventStep(step) {
      EventX(s, step, x);
    } else if step.ScanOne? {
      Sweeping(s, step);
      ScanX(s, step, x);
    } else if SweepStep(step) {
      SweepX(s, step, x);
    } else if step.TWrite? {
      WriteX(s, step, x);
    } else if FlagStep(step) {
      CancelX(s, step, x);
    } else if TimeoutStep(step) {
      TimeoutX(s, step, x);
    } else {
      NewX(s, step, x);
    }
  }

  lemma ThisCall(s: State, step: Step)
    requires Linked(s) && SubsInv(s) && Enabled(s, step) && SubmitStep(step)
    ensures step.sid < |s.subs| && SubInvAt(s, step.sid)
  {
    hide SubInvAt;
  }

  lemma Sweeping(s: State, step: Step)
    requires Linked(s) && Enabled(s, step) && step.ScanOne?
    ensures s.ev.EScan? && s.ev.h in s.gone
  {
    assert Sweeps(s.ev, s.ev.h);
  }

  lemma SubStep(s: State, step: Step, t: nat)
    requires Inv(s) && Enabled(s, step) && !step.Submit? && t < |s.subs|
    ensures SubInvAt(Apply(s, step), t)
  {
    hide Apply, Enabled, XInvAt, SubInvAt, EventLinked;
    assert SubInvAt(s, t);
    if SubmitStep(step) {
      ThisCall(s, step);
      assert XInvAt(s, s.subs[step.sid].x);
      if step.Acquire? { AcquireSub(s, step, t); }
      else if step.CheckFlags? { CheckSub(s, step, t); }
      else if ListStep(step) { ListSub(s, step, t); }
      else if RefStep(step) { RefSub(s, step, t); }
      else if step.CallBackend? { BackendSub(s, step, t); }
      else { FinishSub(s, step, t); }
    } else if EventStep(step) {
      if step.Report? { assert AcceptedLinked(s, step.x); }
      EventSub(s, step, t);
    } else if step.ScanOne? {
      ScanSub(s, step, t);
    } else if SweepStep(step) {
      if step.ClearPriv? { Clearing(s); assert AcceptedLinked(s, s.ev.x); }
      SweepSub(s, step, t);
    } else if step.TWrite? {
      WriteSub(s, step, t);
    } else if FlagStep(step) {
      CancelSub(s, step, t);
    } else {
      TimeoutSub(s, step, t);
    }
  }

  lemma Clearing(s: State)
    requires Indexed(s) && Enabled(s, ClearPriv)
    ensures s.ev.EClear?
  {
  }

  lemma LinkStep(s: State, step: Step, x: nat)
    requires Linked(s) && Enabled(s, step)
    ensures Indexed(Apply(s, step)) && EventLinked(Apply(s, step))
    ensures LockLinked(Apply(s, step), x) && AcceptedLinked(Apply(s, step), x)
  {
    hide Apply, Enabled, Indexed, EventLinked, LockLinked, AcceptedLinked;
    assert LockLinked(s, x) && AcceptedLinked(s, x);
    if SubmitStep(step) {
      if step.Acquire? { AcquireLinks(s, step, x); }
      else if step.CheckFlags? { CheckLinks(s, step, x); }
      else if ListStep(step) { ListLinks(s, step, x); }
      else if RefStep(step) { RefLinks(s, step, x); }
      else if step.CallBackend? { BackendLinks(s, step, x); }
      else { FinishLinks(s, step, x); }
    } else if EventStep(step) {
      if step.Report? { assert AcceptedLinked(s, step.x); }
      EventLinks(s, step, x);
    } else if step.ScanOne? {
      ScanLinks(s, step, x);
    } else if SweepStep(step) {
      if step.ClearPriv? { Clearing(s); assert AcceptedLinked(s, s.ev.x); }
      SweepLinks(s, step, x);
    } else if step.TWrite? {
      WriteLinks(s, step, x);
    } else if FlagStep(step) {
      CancelLinks(s, step, x);
    } else if TimeoutStep(step) {
      TimeoutLinks(s, step, x);
    } else {
      NewLinks(s, step, x);
    }
  }

  // The handles swept and the calls called back.
  lemma GoneHandler(s: State, step: Step)
    requires Indexed(s) && EventLinked(s) && Enabled(s, step) && (EventStep(step) || SweepStep(step))
    requires forall h: nat :: Sweeps(s.ev, h) ==> h in s.gone
    ensures forall h: nat :: Sweeps(Apply(s, step).ev, h) ==> h in Apply(s, step).gone
    ensures forall sid: nat :: sid in Apply(s, step).cbs ==> sid in s.cbs || sid < |s.subs|
  {
    hide SubmitApply, OtherApply, SubmitEnabled, OtherEnabled;
  }

  lemma GoneStep(s: State, step: Step)
    requires Indexed(s) && EventLinked(s) && Enabled(s, step)
    requires forall h: nat :: Sweeps(s.ev, h) ==> h in s.gone
    ensures forall h: nat :: Sweeps(Apply(s, step).ev, h) ==> h in Apply(s, step).gone
    ensures |Apply(s, step).xs| == |s.xs| && |Apply(s, step).subs| >= |s.subs|
    ensures forall sid: nat :: sid in Apply(s, step).cbs ==> sid in s.cbs || sid < |s.subs|
  {
    hide Apply, Enabled, Sweeps;
    if SubmitStep(step) {
      SubmitFrame(s, step);
    } else if EventStep(step) || SweepStep(step) {
      HandlerFrame(s, step);
      GoneHandler(s, step);
    } else {
      OtherFrame(s, step);
    }
  }

  lemma LinkedStep(s: State, step: Step)
    requires Linked(s) && Enabled(s, step)
    ensures Linked(Apply(s, step))
  {
    hide Apply, Enabled, Indexed, EventLinked, LockLinked, AcceptedLinked;
    GoneStep(s, step);
    LinkStep(s, step, 0);
    forall x: nat ensures LockLinked(Apply(s, step), x) && AcceptedLinked(Apply(s, step), x) {
      LinkStep(s, step, x);
    }
  }

  lemma NewSub(s: State, y: nat)
    requires Linked(s) && SubsInv(s) && Enabled(s, Submit(y)) && Indexed(Apply(s, Submit(y)))
    ensures SubsInv(Apply(s, Submit(y)))
  {
    var s' := Apply(s, Submit(y));
    assert LockLinked(s, y) && AcceptedLinked(s, y);
    forall sid: nat | sid < |s'.subs| ensures SubInvAt(s', sid) {
      if sid < |s.subs| { assert SubInvAt(s, sid); }
    }
  }

  // All of it is kept, whatever update handle_timeout loses.
  lemma StepInv(s: State, step: Step)
    requires Inv(s) && Enabled(s, step) && !Resubmits(s, step)
    ensures Inv(Apply(s, step))
  {
    hide Apply, Enabled, Linked, XInvAt, SubInvAt, Resubmits;
    LinkedStep(s, step);
    Lengths(s, step);
    var s' := Apply(s, step);
    forall x: nat | x < |s'.xs| ensures XInvAt(s', x) {
      XStep(s, step, x);
    }
    if step.Submit? {
      NewSub(s, step.x);
    } else {
      forall t: nat | t < |s'.subs| ensures SubInvAt(s', t) { SubStep(s, step, t); }
    }
  }

  lemma Lengths(s: State, step: Step)
    requires Linked(s) && Enabled(s, step)
    ensures Indexed(s) && |Apply(s, step).xs| == |s.xs| && |Apply(s, step).refs| == |s.refs|
    ensures |Apply(s, step).subs| == |s.subs| + B(step.Submit?)
    ensures Linked(Apply(s, step)) ==> Indexed(Apply(s, step))
  {
    hide Apply, Enabled;
    if SubmitStep(step) {
      SubmitFrame(s, step);
    } else if EventStep(step) || SweepStep(step) {
      HandlerFrame(s, step);
    } else {
      OtherFrame(s, step);
    }
  }

  lemma InitInv(s: State)
    requires Init(s)
    ensures Inv(s)
  {
  }

  // No caller submits again before the callback.
  ghost predicate Patient(states: seq<State>, steps: seq<Step>, k: nat)
    requires IsRun(states, steps) && k <= |steps|
  {
    forall i :: 0 <= i < k ==> !Resubmits(states[i], steps[i])
  }

  lemma {:induction false} RunInv(states: seq<State>, steps: seq<Step>, k: nat)
    requires IsRun(states, steps) && k < |states| && Patient(states, steps, k)
    ensures Inv(states[k])
  {
    hide Inv, Apply, Enabled, Init;
    if k == 0 {
      InitInv(states[0]);
    } else {
      RunInv(states, steps, k - 1);
      StepInv(states[k - 1], steps[k - 1]);
    }
  }
}
