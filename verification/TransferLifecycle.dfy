/**
  Submission, completion, cancellation, timeout and disconnect of libusb
  transfers as a state machine.

  Any number of libusb_submit_transfer calls are in progress at once, each at its
  own point; one event handler completes transfers and sweeps a disconnected
  device; one thread at a time runs handle_timeouts.  A step is one critical
  section, one unlocked read or write of the flags, or one backend call.

  The backend is an environment with two obligations: it reports each accepted
  submission at most once, and neither accepts nor reports for a device that is
  gone.
 */
module TransferLifecycle {
  import opened Options

  // USBI_TRANSFER_* (OS_HANDLES_TIMEOUT is set by other backends only).
  datatype Flags = Flags(
    inFlight: bool, completed: bool, disappeared: bool, cancelling: bool,
    submitting: bool, timeoutHandled: bool, timedOut: bool)

  const NO_FLAGS := Flags(false, false, false, false, false, false, false)

  // Where a call of libusb_submit_transfer stands; ok means it (will) return 0.
  datatype Pc =
    | WaitLock | Check | Add | Ref | Backend
    | Finish(ok: bool)                 // ok: the backend accepted
    | Unref | Remove | Return(ok: bool) | Done(ok: bool)

  // One call; its index in State.subs names the submission.
  datatype Sub = Sub(x: nat, pc: Pc)

  datatype Transfer = Transfer(handle: nat, flags: Flags, lock: Option<nat>)

  // The event handler.  back: a disconnect sweep of that handle is under way.
  datatype Event =
    | EIdle
    | ERemove(x: nat, sid: nat, back: Option<nat>)
    | EFlags(x: nat, sid: nat, back: Option<nat>)
    | ECall(x: nat, sid: nat, back: Option<nat>)
    | EUnref(x: nat, back: Option<nat>)
    | ESweep(h: nat)
    | EScan(h: nat, todo: set<nat>)    // holds flying_transfers_lock
    | EClear(x: nat, h: nat)

  // The thread in handle_timeouts; holds flying_transfers_lock unless idle.
  datatype Timeouts =
    | TIdle | THeld
    | TSaved(x: nat, saved: Flags, final: bool)  // read of "flags |= bit" done
    | TCancel(x: nat) | TCancelled(x: nat)

  datatype State = State(
    xs: seq<Transfer>, subs: seq<Sub>,
    flying: set<nat>,                  // members of flying_transfers
    ev: Event, tm: Timeouts,
    gone: set<nat>,                    // handles whose device disconnected
    accepted: map<nat, nat>,           // backend: transfer -> submission to report
    cbs: multiset<nat>,                // callbacks made, by submission
    refs: seq<int>)                    // device references, by handle

  datatype Step =
    | Submit(x: nat)
    | Acquire(sid: nat) | CheckFlags(sid: nat, clock: bool) | AddToList(sid: nat) | TakeRef(sid: nat)
    | CallBackend(sid: nat, accept: bool) | FinishSubmit(sid: nat) | DropRef(sid: nat)
    | RemoveFailed(sid: nat) | ReturnFrom(sid: nat)
    | Cancel(x: nat, result: CancelResult)
    | TBegin | TRead(x: nat) | TWrite | TCancelIt(result: CancelResult) | TReread | TEnd
    | Report(x: nat) | RemoveCompleted | MarkCompleted | CallUser | UnrefCompleted
    | Disconnect(h: nat) | LockSweep | ScanOne(x: nat) | EndScan | ClearPriv

  datatype CancelResult = Cancelled | NoDevice | OtherError

  predicate FlyFree(s: State) { s.tm.TIdle? && !s.ev.EScan? }

  predicate AtPc(s: State, sid: nat, pc: Pc) { sid < |s.subs| && s.subs[sid].pc == pc }

  // Transfers exist and belong to known handles.
  predicate Indexed(s: State) {
    && (forall sid :: 0 <= sid < |s.subs| ==> s.subs[sid].x < |s.xs|)
    && (forall x :: 0 <= x < |s.xs| ==> s.xs[x].handle < |s.refs|)
    && (forall x :: x in s.flying ==> x < |s.xs|)
    && (match s.ev
        case ERemove(x, _, _) => x < |s.xs| case EFlags(x, _, _) => x < |s.xs|
        case ECall(x, _, _) => x < |s.xs| case EUnref(x, _) => x < |s.xs|
        case EClear(x, _) => x < |s.xs| case EScan(_, todo) => todo <= s.flying
        case _ => true)
    && (match s.tm
        case TSaved(x, _, _) => x < |s.xs| case TCancel(x) => x < |s.xs|
        case TCancelled(x) => x < |s.xs| case _ => true)
  }

  // The steps of one call of libusb_submit_transfer.
  predicate SubmitStep(step: Step) {
    || step.Acquire? || step.CheckFlags? || step.AddToList? || step.TakeRef? || step.CallBackend?
    || step.FinishSubmit? || step.DropRef? || step.RemoveFailed? || step.ReturnFrom?
  }

  // The steps of the event handler: a completion, and a sweep.
  predicate EventStep(step: Step) {
    || step.Report? || step.RemoveCompleted? || step.MarkCompleted? || step.CallUser? || step.UnrefCompleted?
  }

  predicate SweepStep(step: Step) {
    step.Disconnect? || step.LockSweep? || step.ScanOne? || step.EndScan? || step.ClearPriv?
  }

  predicate SubmitEnabled(s: State, step: Step)
    requires Indexed(s) && SubmitStep(step)
  {
    match step
    case Acquire(sid) => AtPc(s, sid, WaitLock) && s.xs[s.subs[sid].x].lock.None?
    case CheckFlags(sid, _) => AtPc(s, sid, Check)
    case AddToList(sid) => AtPc(s, sid, Add) && FlyFree(s)
    case TakeRef(sid) => AtPc(s, sid, Ref)
    case CallBackend(sid, accept) =>
      AtPc(s, sid, Backend) && (accept ==> s.xs[s.subs[sid].x].handle !in s.gone)
    case FinishSubmit(sid) => AtPc(s, sid, Finish(true)) || AtPc(s, sid, Finish(false))
    case DropRef(sid) => AtPc(s, sid, Unref)
    case RemoveFailed(sid) => AtPc(s, sid, Remove) && FlyFree(s)
    case ReturnFrom(sid) => AtPc(s, sid, Return(true)) || AtPc(s, sid, Return(false))
  }

  predicate HandlerEnabled(s: State, step: Step)
    requires Indexed(s) && (EventStep(step) || SweepStep(step))
  {
    match step
    case Report(x) => s.ev.EIdle? && x < |s.xs| && x in s.accepted && s.xs[x].handle !in s.gone
    case RemoveCompleted => s.ev.ERemove? && FlyFree(s)
    case MarkCompleted => s.ev.EFlags?
    case CallUser => s.ev.ECall?
    case UnrefCompleted => s.ev.EUnref?
    case Disconnect(h) => s.ev.EIdle? && h < |s.refs|
    case LockSweep => s.ev.ESweep? && FlyFree(s)
    case ScanOne(x) => s.ev.EScan? && x in s.ev.todo
    case EndScan => s.ev.EScan? && s.ev.todo == {}
    case ClearPriv => s.ev.EClear? && s.xs[s.ev.x].lock.None? && s.ev.x in s.accepted
  }

  predicate OtherEnabled(s: State, step: Step)
    requires Indexed(s) && !SubmitStep(step) && !EventStep(step) && !SweepStep(step)
  {
    match step
    case Submit(x) => x < |s.xs|
    case Cancel(x, _) => x < |s.xs| && s.xs[x].lock.None?
    case TBegin => FlyFree(s)
    case TRead(x) => s.tm.THeld? && x in s.flying && !s.xs[x].flags.timeoutHandled
    case TWrite => s.tm.TSaved?
    case TCancelIt(_) => s.tm.TCancel? && s.xs[s.tm.x].lock.None?
    case TReread => s.tm.TCancelled?
    case TEnd => s.tm.THeld?
  }

  predicate Enabled(s: State, step: Step)
    requires Indexed(s)
  {
    if SubmitStep(step) then SubmitEnabled(s, step)
    else if EventStep(step) || SweepStep(step) then HandlerEnabled(s, step)
    else OtherEnabled(s, step)
  }

  function SetFlags(s: State, x: nat, flags: Flags): State
    requires x < |s.xs|
  {
    s.(xs := s.xs[x := s.xs[x].(flags := flags)])
  }

  function SetLock(s: State, x: nat, lock: Option<nat>): State
    requires x < |s.xs|
  {
    s.(xs := s.xs[x := s.xs[x].(lock := lock)])
  }

  function Goto(s: State, sid: nat, pc: Pc): State
    requires sid < |s.subs|
  {
    s.(subs := s.subs[sid := s.subs[sid].(pc := pc)])
  }

  function AddRef(s: State, x: nat, n: int): State
    requires x < |s.xs| && s.xs[x].handle < |s.refs|
  {
    s.(refs := s.refs[s.xs[x].handle := s.refs[s.xs[x].handle] + n])
  }

  // The locked part of libusb_cancel_transfer.
  function CancelFlags(f: Flags, result: CancelResult): Flags {
    if !f.inFlight || f.cancelling then f
    else f.(cancelling := true, disappeared := f.disappeared || result == NoDevice)
  }

  predicate CancelReturns0(f: Flags, result: CancelResult) {
    f.inFlight && !f.cancelling && result == Cancelled
  }

  function SubmitApply(s: State, step: Step): State
    requires Indexed(s) && SubmitStep(step) && SubmitEnabled(s, step)
  {
    match step
    case Acquire(sid) => Goto(SetLock(s, s.subs[sid].x, Some(sid)), sid, Check)
    case CheckFlags(sid, clock) =>
      var x := s.subs[sid].x;
      var passes := !s.xs[x].flags.inFlight;
      Goto(if passes then SetFlags(s, x, NO_FLAGS.(submitting := clock)) else s, sid,
           if passes && clock then Add else Return(false))
    case AddToList(sid) => Goto(s.(flying := s.flying + {s.subs[sid].x}), sid, Ref)
    case TakeRef(sid) => Goto(AddRef(s, s.subs[sid].x, 1), sid, Backend)
    case CallBackend(sid, accept) =>
      Goto(if accept then s.(accepted := s.accepted[s.subs[sid].x := sid]) else s, sid, Finish(accept))
    case FinishSubmit(sid) => ApplyFinish(s, sid)
    case DropRef(sid) => Goto(AddRef(s, s.subs[sid].x, -1), sid, Remove)
    case RemoveFailed(sid) => Goto(s.(flying := s.flying - {s.subs[sid].x}), sid, Return(false))
    case ReturnFrom(sid) => Goto(SetLock(s, s.subs[sid].x, None), sid, Done(s.subs[sid].pc.ok))
  }

  function HandlerApply(s: State, step: Step): State
    requires Indexed(s) && (EventStep(step) || SweepStep(step)) && HandlerEnabled(s, step)
  {
    match step
    case Report(x) => s.(ev := ERemove(x, s.accepted[x], None), accepted := s.accepted - {x})
    case RemoveCompleted =>
      s.(flying := s.flying - {s.ev.x}, ev := EFlags(s.ev.x, s.ev.sid, s.ev.back))
    case MarkCompleted =>
      SetFlags(s, s.ev.x, s.xs[s.ev.x].flags.(inFlight := false, completed := true))
        .(ev := ECall(s.ev.x, s.ev.sid, s.ev.back))
    case CallUser => s.(cbs := s.cbs + multiset{s.ev.sid}, ev := EUnref(s.ev.x, s.ev.back))
    case UnrefCompleted =>
      AddRef(s, s.ev.x, -1).(ev := if s.ev.back.Some? then ESweep(s.ev.back.value) else EIdle)
    case Disconnect(h) => s.(gone := s.gone + {h}, ev := ESweep(h))
    case LockSweep => s.(ev := EScan(s.ev.h, s.flying))
    case ScanOne(x) =>
      var rest := s.(ev := EScan(s.ev.h, s.ev.todo - {x}));
      if s.xs[x].handle != s.ev.h then rest
      else if s.xs[x].flags.inFlight then s.(ev := EClear(x, s.ev.h))
      else SetFlags(rest, x, s.xs[x].flags.(disappeared := true))
    case EndScan => s.(ev := EIdle)
    case ClearPriv =>
      s.(ev := ERemove(s.ev.x, s.accepted[s.ev.x], Some(s.ev.h)), accepted := s.accepted - {s.ev.x})
  }

  function OtherApply(s: State, step: Step): State
    requires Indexed(s) && !SubmitStep(step) && !EventStep(step) && !SweepStep(step) && OtherEnabled(s, step)
  {
    match step
    case Submit(x) => s.(subs := s.subs + [Sub(x, WaitLock)])
    case Cancel(x, result) => SetFlags(s, x, CancelFlags(s.xs[x].flags, result))
    case TBegin => s.(tm := THeld)
    case TRead(x) => s.(tm := TSaved(x, s.xs[x].flags, false))
    case TWrite =>
      var TSaved(x, f, final) := s.tm;
      if final then SetFlags(s, x, f.(timedOut := true)).(tm := THeld)
      else SetFlags(s, x, f.(timeoutHandled := true)).(tm := TCancel(x))
    case TCancelIt(result) =>
      var x := s.tm.x;
      var f := s.xs[x].flags;
      SetFlags(s, x, CancelFlags(f, result)).(tm := if CancelReturns0(f, result) then TCancelled(x) else THeld)
    case TReread => s.(tm := TSaved(s.tm.x, s.xs[s.tm.x].flags, true))
    case TEnd => s.(tm := TIdle)
  }

  function Apply(s: State, step: Step): State
    requires Indexed(s) && Enabled(s, step)
  {
    if SubmitStep(step) then SubmitApply(s, step)
    else if EventStep(step) || SweepStep(step) then HandlerApply(s, step)
    else OtherApply(s, step)
  }

  // After the backend call: the disconnect and the early completion are noticed here.
  function FinishFlags(ok: bool, f: Flags): Flags {
    f.(submitting := false, inFlight := f.inFlight || (ok && !f.disappeared && !f.completed))
  }

  function FinishPc(ok: bool, f: Flags): Pc { if ok && !f.disappeared then Return(true) else Unref }

  function ApplyFinish(s: State, sid: nat): State
    requires Indexed(s) && sid < |s.subs| && s.subs[sid].pc.Finish?
  {
    var x, ok := s.subs[sid].x, s.subs[sid].pc.ok;
    var f := s.xs[x].flags;
    Goto(SetFlags(s, x, FinishFlags(ok, f)), sid, FinishPc(ok, f))
      .(accepted := if ok && f.disappeared then s.accepted - {x} else s.accepted)
  }

  predicate Init(s: State) {
    && (forall x :: 0 <= x < |s.xs| ==>
          s.xs[x].handle < |s.refs| && s.xs[x].flags == NO_FLAGS && s.xs[x].lock == None)
    && s.subs == [] && s.flying == {} && s.ev == EIdle && s.tm == TIdle && s.gone == {}
    && s.accepted == map[] && s.cbs == multiset{}
    && (forall h :: 0 <= h < |s.refs| ==> s.refs[h] == 0)
  }

  ghost predicate IsRun(states: seq<State>, steps: seq<Step>) {
    && |states| == |steps| + 1 && Init(states[0])
    && forall i :: 0 <= i < |steps| ==>
         Indexed(states[i]) && Enabled(states[i], steps[i]) && states[i + 1] == Apply(states[i], steps[i])
  }

  // handle_timeout writes back flags it read before libusb_submit_transfer set
  // IN_FLIGHT: its unlocked "flags |= bit" loses that update.
  predicate DropsInFlight(s: State, step: Step)
    requires Indexed(s) && Enabled(s, step)
  {
    step.TWrite? && s.xs[s.tm.x].flags.inFlight && !s.tm.saved.inFlight
  }
}
