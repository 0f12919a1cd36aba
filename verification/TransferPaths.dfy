/**
  The courses of a transfer that nothing interrupts, from every state in which they can
  begin: a submission accepted or refused, a completion, a disconnect that finds the
  transfer in flight, and a timeout.
 */
module TransferPaths {
  import opened Options
  import opened TransferLifecycle

  // One step after the other leads from state to state.
  ghost predicate Leads(states: seq<State>, steps: seq<Step>) {
    && |states| == |steps| + 1
    && forall i :: 0 <= i < |steps| ==>
         Indexed(states[i]) && Enabled(states[i], steps[i]) && states[i + 1] == Apply(states[i], steps[i])
  }

  lemma Onwards(states: seq<State>, steps: seq<Step>, step: Step, next: State)
    requires Leads(states, steps) && Indexed(states[|steps|]) && Enabled(states[|steps|], step)
    requires next == Apply(states[|steps|], step)
    ensures Leads(states + [next], steps + [step]) && (states + [next])[0] == states[0]
    ensures (states + [next])[|steps + [step]|] == next
  {
    hide Apply, Enabled, Indexed;
  }

  lemma Start(s: State)
    ensures Leads([s], [])
  {
  }

  /* Completion. */

  // The event handler is idle, the list free, and the backend has a report.
  predicate MayReport(s: State, x: nat) {
    Indexed(s) && s.ev.EIdle? && s.tm.TIdle? && x < |s.xs| && x in s.accepted && s.xs[x].handle !in s.gone
  }

  // A completion makes the callback of the submission, and nothing is left of it.
  lemma CompletionAlone(s: State, x: nat) returns (states: seq<State>)
    requires MayReport(s, x)
    ensures var steps := [Report(x), RemoveCompleted, MarkCompleted, CallUser, UnrefCompleted];
            Leads(states, steps) && states[0] == s
    ensures var f, h := s.xs[x].flags, s.xs[x].handle;
            && s.accepted[x] == s.accepted[x] && h < |s.refs|
            && states[5] == s.(xs := s.xs[x := s.xs[x].(flags := Flags(false, true, f.disappeared, f.cancelling,
                                                                     f.submitting, f.timeoutHandled, f.timedOut))],
                               flying := s.flying - {x}, accepted := s.accepted - {x},
                               cbs := s.cbs + multiset{s.accepted[x]}, refs := s.refs[h := s.refs[h] - 1])
  {
    hide Leads;
    var steps := [Report(x), RemoveCompleted, MarkCompleted, CallUser, UnrefCompleted];
    Start(s);
    states := [s];
    var s1 := s.(ev := ERemove(x, s.accepted[x], None), accepted := s.accepted - {x});
    Onwards(states, [], Report(x), s1);
    states := Completes(states + [s1], [] + [Report(x)], x, s.accepted[x], None, s1);
    assert [] + [Report(x)] + [RemoveCompleted, MarkCompleted, CallUser, UnrefCompleted] == steps;
  }

  // The event handler has the report and completes the transfer.
  lemma Completes(before: seq<State>, steps: seq<Step>, x: nat, sid: nat, back: Option<nat>, s: State)
    returns (states: seq<State>)
    requires Leads(before, steps) && before[|steps|] == s && Indexed(s) && x < |s.xs|
    requires s.ev == ERemove(x, sid, back) && s.tm.TIdle?
    ensures Leads(states, steps + [RemoveCompleted, MarkCompleted, CallUser, UnrefCompleted])
    ensures states[0] == before[0]
    ensures var f, h := s.xs[x].flags, s.xs[x].handle;
            && h < |s.refs|
            && states[|steps| + 4] ==
               s.(xs := s.xs[x := s.xs[x].(flags := Flags(false, true, f.disappeared, f.cancelling,
                                                          f.submitting, f.timeoutHandled, f.timedOut))],
                  flying := s.flying - {x}, cbs := s.cbs + multiset{sid}, refs := s.refs[h := s.refs[h] - 1],
                  ev := if back.Some? then ESweep(back.value) else EIdle)
  {
    hide Leads, SubmitApply, OtherApply, SubmitEnabled, OtherEnabled;
    var f := s.xs[x].flags;
    var s1 := s.(flying := s.flying - {x}, ev := EFlags(x, sid, back));
    var s2 := s1.(xs := s.xs[x := s.xs[x].(flags := f.(inFlight := false, completed := true))],
                  ev := ECall(x, sid, back));
    Onwards(before, steps, RemoveCompleted, s1);
    Onwards(before + [s1], steps + [RemoveCompleted], MarkCompleted, s2);
    states := CallsBack(before + [s1] + [s2], steps + [RemoveCompleted] + [MarkCompleted], x, sid, back, s2);
    assert steps + [RemoveCompleted] + [MarkCompleted] + [CallUser, UnrefCompleted]
        == steps + [RemoveCompleted, MarkCompleted, CallUser, UnrefCompleted];
  }

  lemma CallsBack(before: seq<State>, steps: seq<Step>, x: nat, sid: nat, back: Option<nat>, s: State)
    returns (states: seq<State>)
    requires Leads(before, steps) && before[|steps|] == s && Indexed(s) && x < |s.xs| && s.ev == ECall(x, sid, back)
    ensures Leads(states, steps + [CallUser, UnrefCompleted]) && states[0] == before[0]
    ensures var h := s.xs[x].handle;
            && h < |s.refs|
            && states[|steps| + 2] ==
               s.(cbs := s.cbs + multiset{sid}, refs := s.refs[h := s.refs[h] - 1],
                  ev := if back.Some? then ESweep(back.value) else EIdle)
  {
    hide Leads, SubmitApply, OtherApply, SubmitEnabled, OtherEnabled;
    var h := s.xs[x].handle;
    var s1 := s.(cbs := s.cbs + multiset{sid}, ev := EUnref(x, back));
    var s2 := s1.(refs := s.refs[h := s.refs[h] - 1], ev := if back.Some? then ESweep(back.value) else EIdle);
    Onwards(before, steps, CallUser, s1);
    Onwards(before + [s1], steps + [CallUser], UnrefCompleted, s2);
    states := before + [s1] + [s2];
    assert steps + [CallUser] + [UnrefCompleted] == steps + [CallUser, UnrefCompleted];
  }

  /* Disconnect. */

  // The sweep of the transfer's device comes to it, in flight and unlocked.
  predicate MaySweep(s: State, x: nat) {
    && Indexed(s) && s.ev.EScan? && s.tm.TIdle? && x in s.ev.todo && x < |s.xs| && s.xs[x].handle == s.ev.h
    && s.xs[x].flags.inFlight && s.xs[x].lock.None? && x in s.accepted
  }

  // The sweep takes it from the backend and completes it, and begins again.
  lemma SweepAlone(s: State, x: nat) returns (states: seq<State>)
    requires MaySweep(s, x)
    ensures var steps := [ScanOne(x), ClearPriv, RemoveCompleted, MarkCompleted, CallUser, UnrefCompleted];
            Leads(states, steps) && states[0] == s
    ensures var f, h := s.xs[x].flags, s.xs[x].handle;
            && h < |s.refs|
            && states[6] == s.(xs := s.xs[x := s.xs[x].(flags := Flags(false, true, f.disappeared, f.cancelling,
                                                                     f.submitting, f.timeoutHandled, f.timedOut))],
                               flying := s.flying - {x}, accepted := s.accepted - {x},
                               cbs := s.cbs + multiset{s.accepted[x]}, refs := s.refs[h := s.refs[h] - 1],
                               ev := ESweep(h))
  {
    hide Leads;
    var steps := [ScanOne(x), ClearPriv, RemoveCompleted, MarkCompleted, CallUser, UnrefCompleted];
    Start(s);
    states := [s];
    var s1 := s.(ev := EClear(x, s.ev.h));
    Onwards(states, [], ScanOne(x), s1);
    states := states + [s1];
    var s2 := s1.(ev := ERemove(x, s.accepted[x], Some(s.ev.h)), accepted := s.accepted - {x});
    Onwards(states, [] + [ScanOne(x)], ClearPriv, s2);
    states := Completes(states + [s2], [] + [ScanOne(x)] + [ClearPriv], x, s.accepted[x], Some(s.ev.h), s2);
    assert [] + [ScanOne(x)] + [ClearPriv] + [RemoveCompleted, MarkCompleted, CallUser, UnrefCompleted] == steps;
  }

  /* Timeout. */

  // The scan comes to a transfer whose timeout is not handled, in flight and unlocked.
  predicate MayTimeOut(s: State, x: nat) {
    && Indexed(s) && s.tm.THeld? && x in s.flying && x < |s.xs| && s.xs[x].lock.None?
    && s.xs[x].flags.inFlight && !s.xs[x].flags.cancelling && !s.xs[x].flags.timeoutHandled
  }

  // A timeout whose cancellation succeeds leaves the transfer handled, being cancelled
  // and timed out, and nothing else changed.
  lemma TimeoutAlone(s: State, x: nat) returns (states: seq<State>)
    requires MayTimeOut(s, x)
    ensures Leads(states, [TRead(x), TWrite, TCancelIt(Cancelled), TReread, TWrite]) && states[0] == s
    ensures var f := s.xs[x].flags;
            states[5] == s.(xs := s.xs[x := s.xs[x].(flags := Flags(true, f.completed, f.disappeared, true,
                                                                    f.submitting, true, true))])
  {
    hide Leads, SubmitApply, HandlerApply, SubmitEnabled, HandlerEnabled;
    var f := s.xs[x].flags;
    Start(s);
    var s1 := s.(tm := TSaved(x, f, false));
    Onwards([s], [], TRead(x), s1);
    var s2 := s.(xs := s.xs[x := s.xs[x].(flags := f.(timeoutHandled := true))], tm := TCancel(x));
    Onwards([s] + [s1], [] + [TRead(x)], TWrite, s2);
    states := TimesOut([s] + [s1] + [s2], [] + [TRead(x)] + [TWrite], x, s2);
    assert [] + [TRead(x)] + [TWrite] + [TCancelIt(Cancelled), TReread, TWrite]
        == [TRead(x), TWrite, TCancelIt(Cancelled), TReread, TWrite];
  }

  lemma CancelStep(s: State, x: nat)
    requires Indexed(s) && x < |s.xs| && s.tm == TCancel(x)
    requires s.xs[x].lock.None? && s.xs[x].flags.inFlight && !s.xs[x].flags.cancelling
    ensures Enabled(s, TCancelIt(Cancelled))
    ensures var next := s.(xs := s.xs[x := s.xs[x].(flags := s.xs[x].flags.(cancelling := true))], tm := TCancelled(x));
            Apply(s, TCancelIt(Cancelled)) == next && Indexed(next)
  {
    hide SubmitApply, HandlerApply, SubmitEnabled, HandlerEnabled;
  }

  lemma RereadStep(s: State, x: nat)
    requires Indexed(s) && x < |s.xs| && s.tm == TCancelled(x)
    ensures Enabled(s, TReread)
    ensures var next := s.(tm := TSaved(x, s.xs[x].flags, true)); Apply(s, TReread) == next && Indexed(next)
  {
    hide SubmitApply, HandlerApply, SubmitEnabled, HandlerEnabled;
  }

  lemma WriteStep(s: State, x: nat, f: Flags)
    requires Indexed(s) && x < |s.xs| && s.tm == TSaved(x, f, true)
    ensures Enabled(s, TWrite)
    ensures Apply(s, TWrite) == s.(xs := s.xs[x := s.xs[x].(flags := f.(timedOut := true))], tm := THeld)
  {
    hide SubmitApply, HandlerApply, SubmitEnabled, HandlerEnabled;
  }

  lemma TimesOut(before: seq<State>, steps: seq<Step>, x: nat, s: State) returns (states: seq<State>)
    requires Leads(before, steps) && before[|steps|] == s && Indexed(s) && x < |s.xs| && s.tm == TCancel(x)
    requires s.xs[x].lock.None? && s.xs[x].flags.inFlight && !s.xs[x].flags.cancelling
    ensures Leads(states, steps + [TCancelIt(Cancelled), TReread, TWrite]) && states[0] == before[0]
    ensures states[|steps| + 3] ==
            s.(xs := s.xs[x := s.xs[x].(flags := s.xs[x].flags.(cancelling := true, timedOut := true))], tm := THeld)
  {
    hide Leads, Apply, Enabled, Indexed;
    var c := s.xs[x].flags.(cancelling := true);
    var s1 := s.(xs := s.xs[x := s.xs[x].(flags := c)], tm := TCancelled(x));
    CancelStep(s, x);
    Onwards(before, steps, TCancelIt(Cancelled), s1);
    var s2 := s1.(tm := TSaved(x, c, true));
    RereadStep(s1, x);
    Onwards(before + [s1], steps + [TCancelIt(Cancelled)], TReread, s2);
    WriteStep(s2, x, c);
    var s3 := s.(xs := s.xs[x := s.xs[x].(flags := c.(timedOut := true))], tm := THeld);
    Onwards(before + [s1] + [s2], steps + [TCancelIt(Cancelled)] + [TReread], TWrite, s3);
    states := before + [s1] + [s2] + [s3];
    assert steps + [TCancelIt(Cancelled)] + [TReread] + [TWrite] == steps + [TCancelIt(Cancelled), TReread, TWrite];
  }

  /* Submission. */

  // x may be submitted: not in flight, unlocked, and the list is free.
  predicate MaySubmit(s: State, x: nat) {
    Indexed(s) && x < |s.xs| && !s.xs[x].flags.inFlight && s.xs[x].lock.None? && s.tm.TIdle? && !s.ev.EScan?
  }

  // A submission up to its call of the backend: locked, on the list, with a reference.
  lemma SubmissionBegins(s: State, x: nat) returns (states: seq<State>)
    requires MaySubmit(s, x)
    ensures var sid := |s.subs|;
            Leads(states, [Submit(x), Acquire(sid), CheckFlags(sid, true), AddToList(sid), TakeRef(sid)])
            && |states| == 6 && states[0] == s && Indexed(states[5])
    ensures s.xs[x].handle < |s.refs| && states[5] == InBackend(s, x)
  {
    hide Leads, HandlerApply, HandlerEnabled;
    var sid, t, h := |s.subs|, s.xs[x], s.xs[x].handle;
    Start(s);
    states := [s];
    var s1 := s.(subs := s.subs + [Sub(x, WaitLock)]);
    Onwards(states, [], Submit(x), s1);
    var all := [] + [Submit(x)];
    states := states + [s1];
    var s2 := s1.(xs := s.xs[x := t.(lock := Some(sid))], subs := s.subs + [Sub(x, Check)]);
    Onwards(states, all, Acquire(sid), s2);
    all, states := all + [Acquire(sid)], states + [s2];
    var busy := t.(lock := Some(sid), flags := NO_FLAGS.(submitting := true));
    var s3 := s2.(xs := s.xs[x := busy], subs := s.subs + [Sub(x, Add)]);
    Onwards(states, all, CheckFlags(sid, true), s3);
    all, states := all + [CheckFlags(sid, true)], states + [s3];
    var s4 := s3.(flying := s.flying + {x}, subs := s.subs + [Sub(x, Ref)]);
    Onwards(states, all, AddToList(sid), s4);
    all, states := all + [AddToList(sid)], states + [s4];
    var s5 := InBackend(s, x);
    Onwards(states, all, TakeRef(sid), s5);
    all, states := all + [TakeRef(sid)], states + [s5];
    assert all == [Submit(x), Acquire(sid), CheckFlags(sid, true), AddToList(sid), TakeRef(sid)];
  }

  function InBackend(s: State, x: nat): State
    requires x < |s.xs| && s.xs[x].handle < |s.refs|
  {
    var h, empty := s.xs[x].handle, Flags(false, false, false, false, true, false, false);
    s.(xs := s.xs[x := Transfer(h, empty, Some(|s.subs|))], subs := s.subs + [Sub(x, Backend)],
       flying := s.flying + {x}, refs := s.refs[h := s.refs[h] + 1])
  }

  // One that the backend accepts leaves the transfer in flight and nothing else marked.
  lemma AcceptedAlone(s: State, x: nat) returns (states: seq<State>)
    requires MaySubmit(s, x) && s.xs[x].handle !in s.gone
    ensures var sid := |s.subs|;
            Leads(states, [Submit(x), Acquire(sid), CheckFlags(sid, true), AddToList(sid), TakeRef(sid),
                           CallBackend(sid, true), FinishSubmit(sid), ReturnFrom(sid)])
            && states[0] == s
    ensures var h, sid := s.xs[x].handle, |s.subs|;
            && h < |s.refs|
            && states[8] == s.(xs := s.xs[x := Transfer(h, Flags(true, false, false, false, false, false, false),
                                                        None)],
                               subs := s.subs + [Sub(x, Done(true))], flying := s.flying + {x},
                               accepted := s.accepted[x := sid], refs := s.refs[h := s.refs[h] + 1])
  {
    hide Leads, HandlerApply, HandlerEnabled, OtherApply, OtherEnabled;
    var sid, h := |s.subs|, s.xs[x].handle;
    states := SubmissionBegins(s, x);
    var all := [Submit(x), Acquire(sid), CheckFlags(sid, true), AddToList(sid), TakeRef(sid)];
    var s5 := states[5];
    var s6 := s5.(subs := s.subs + [Sub(x, Finish(true))], accepted := s.accepted[x := sid]);
    Onwards(states, all, CallBackend(sid, true), s6);
    all, states := all + [CallBackend(sid, true)], states + [s6];
    var done := Transfer(h, Flags(true, false, false, false, false, false, false), Some(sid));
    var s7 := s6.(subs := s.subs + [Sub(x, Return(true))], xs := s.xs[x := done]);
    Onwards(states, all, FinishSubmit(sid), s7);
    all, states := all + [FinishSubmit(sid)], states + [s7];
    var s8 := s7.(subs := s.subs + [Sub(x, Done(true))], xs := s.xs[x := done.(lock := None)]);
    Onwards(states, all, ReturnFrom(sid), s8);
    all, states := all + [ReturnFrom(sid)], states + [s8];
    assert all == [Submit(x), Acquire(sid), CheckFlags(sid, true), AddToList(sid), TakeRef(sid),
                   CallBackend(sid, true), FinishSubmit(sid), ReturnFrom(sid)];
  }

  // One that it refuses leaves the flags empty, and list and references as they were.
  lemma RefusedAlone(s: State, x: nat) returns (states: seq<State>)
    requires MaySubmit(s, x) && x !in s.flying
    ensures var sid := |s.subs|;
            Leads(states, [Submit(x), Acquire(sid), CheckFlags(sid, true), AddToList(sid), TakeRef(sid),
                           CallBackend(sid, false), FinishSubmit(sid), DropRef(sid), RemoveFailed(sid),
                           ReturnFrom(sid)])
            && states[0] == s
    ensures states[10] ==
            s.(xs := s.xs[x := Transfer(s.xs[x].handle, Flags(false, false, false, false, false, false, false), None)],
               subs := s.subs + [Sub(x, Done(false))])
  {
    hide Leads, HandlerApply, HandlerEnabled, OtherApply, OtherEnabled;
    var sid, h := |s.subs|, s.xs[x].handle;
    states := SubmissionBegins(s, x);
    var all := [Submit(x), Acquire(sid), CheckFlags(sid, true), AddToList(sid), TakeRef(sid)];
    var s5 := states[5];
    var s6 := s5.(subs := s.subs + [Sub(x, Finish(false))]);
    Onwards(states, all, CallBackend(sid, false), s6);
    all, states := all + [CallBackend(sid, false)], states + [s6];
    var done := Transfer(h, Flags(false, false, false, false, false, false, false), Some(sid));
    var s7 := s6.(subs := s.subs + [Sub(x, Unref)], xs := s.xs[x := done]);
    Onwards(states, all, FinishSubmit(sid), s7);
    all, states := all + [FinishSubmit(sid)], states + [s7];
    var s8 := s7.(subs := s.subs + [Sub(x, Remove)], refs := s.refs);
    Onwards(states, all, DropRef(sid), s8);
    all, states := all + [DropRef(sid)], states + [s8];
    var s9 := s8.(subs := s.subs + [Sub(x, Return(false))], flying := s.flying);
    assert s8.flying - {x} == s.flying;
    Onwards(states, all, RemoveFailed(sid), s9);
    all, states := all + [RemoveFailed(sid)], states + [s9];
    var s10 := s9.(subs := s.subs + [Sub(x, Done(false))], xs := s.xs[x := done.(lock := None)]);
    Onwards(states, all, ReturnFrom(sid), s10);
    all, states := all + [ReturnFrom(sid)], states + [s10];
    assert all == [Submit(x), Acquire(sid), CheckFlags(sid, true), AddToList(sid), TakeRef(sid),
                   CallBackend(sid, false), FinishSubmit(sid), DropRef(sid), RemoveFailed(sid), ReturnFrom(sid)];
  }
}
