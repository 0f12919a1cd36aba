/**
  The multi-threaded event loop of libusb as a state machine of atomic steps.

  Any number of threads run libusb_handle_events_timeout_completed and
  libusb_close against one context.  A step is one access to shared state: an
  acquisition or release of a lock, an unlocked read or write of
  event_handler_active, a sleep, a broadcast, or one whole critical section of
  event_data_lock (nothing else is touched inside such a section).  The
  completed-transfer loop drops event_data_lock around every callback, so it is
  several steps.  events_lock is recursive, and a callback may close a device.
 */
module EventLoop {
  import opened Options

  // Where a thread stands in libusb_handle_events_timeout_completed.
  datatype Pc =
    | Idle
    // libusb_try_lock_events
    | TryCheck | TryLock | MarkActive
    // the events lock is held
    | CheckCompleted | PrepareFds | Polling
    | DrainFirst(more: bool)                          // poll saw the event pipe
    | InCallback(special: bool, more: bool)           // event_data_lock dropped
    | DrainNext(special: bool, more: bool, failed: bool)
    | InHotplug(special: bool, more: bool, failed: bool)
    | InBackend(special: bool)
    // libusb_unlock_events
    | Unmark | Unlock | WantBroadcast | Broadcast | EndBroadcast
    // the waiter's half
    | WantWaiters | RecheckCompleted | RecheckClosing | RecheckActive
    | GiveUpWaiters | GoToSleep | Asleep | LeaveWaiters

  // Where a thread stands in libusb_close; do_close takes the events lock again.
  datatype Close =
    | NoClose
    | CloseLock | CloseMark
    | InnerLock | InnerMark
    | InnerUnmark | InnerUnlock | InnerWant | InnerBroadcast | InnerEnd
    | CloseDone
    | OuterUnmark | OuterUnlock | OuterWant | OuterBroadcast | OuterEnd

  // raised: this close wrote to the pipe (its pending_events was 0).
  // done: the integer behind the completed pointer of the running call.
  datatype Thread = Thread(pc: Pc, close: Close, raised: bool, done: bool)

  // The context.
  datatype Shared = Shared(
    owner: Option<nat>, depth: nat,   // events_lock, recursive
    active: bool,                     // event_handler_active
    waitersLock: Option<nat>,         // event_waiters_lock
    asleep: set<nat>,                 // sleepers on event_waiters_cond
    deviceClose: nat,                 // device_close
    fdsModified: bool,                // pollfds_modified
    hotplug: nat, completed: nat,     // lengths of hotplug_msgs and completed_transfers
    pipe: nat)                        // bytes in the event pipe

  datatype State = State(threads: seq<Thread>, sh: Shared)

  // What poll, a callback or the backend answer.
  datatype Outcome =
    | Plain                           // the step has one result; poll: the timeout passed
    | Interrupted                     // poll: EINTR or an error
    | Ready(more: bool)               // poll: more = another fd is ready too
    | Failed(failed: bool)            // result of a completion or of the backend

  datatype Source = TransferCompleted | HotplugMessage | PollFdChange

  datatype Step =
    | Begin(t: nat)                   // call libusb_handle_events_...
    | BeginClose(t: nat)              // call libusb_close
    | Run(t: nat, outcome: Outcome)
    | RunClose(t: nat)
    | TimedOut(t: nat)                // the timed wait of a sleeper ends
    | Complete(t: nat, w: nat)        // a callback on t sets w's completed flag
    | Signal(source: Source)          // any thread queues an event

  // usbi_pending_events
  predicate Pending(sh: Shared) {
    sh.deviceClose > 0 || sh.fdsModified || sh.hotplug > 0 || sh.completed > 0
  }

  // The pipe after an event is queued: a byte goes in when nothing was pending.
  function Signalled(sh: Shared): nat {
    if Pending(sh) then sh.pipe else sh.pipe + 1
  }

  // The pipe after an event is taken: a byte comes out when nothing is left pending.
  // EventLoopPipe.ClearFindsAByte shows that the byte is there.
  function Cleared(sh: Shared): Shared {
    if Pending(sh) || sh.pipe == 0 then sh else sh.(pipe := sh.pipe - 1)
  }

  predicate LockFree(sh: Shared, t: nat) {
    sh.owner.None? || sh.owner == Some(t)
  }

  function Acquired(sh: Shared, t: nat): Shared {
    sh.(owner := Some(t), depth := sh.depth + 1)
  }

  function Released(sh: Shared): Shared
    requires sh.depth > 0
  {
    sh.(depth := sh.depth - 1, owner := if sh.depth == 1 then None else sh.owner)
  }

  // Points at which user callbacks run, with no libusb lock but events_lock held.
  predicate CallsBack(pc: Pc) {
    pc.InCallback? || (pc.InHotplug? && pc.special) || pc.InBackend?
  }

  /* One step of a thread inside libusb_handle_events_timeout_completed. */

  predicate RunEnabled(pc: Pc, sh: Shared, t: nat, outcome: Outcome) {
    match pc
    case Idle => false
    case Polling =>
      // A timeout needs a silent pipe; EINTR and errors are always possible.
      (match outcome
       case Plain => sh.pipe == 0
       case Interrupted => true
       case Ready(more) => sh.pipe > 0 || more
       case Failed(_) => false)
    case InCallback(_, _) => outcome.Failed?
    case InBackend(_) => outcome.Failed?
    case Unlock => outcome.Plain? && sh.depth > 0
    case WantBroadcast => outcome.Plain? && sh.waitersLock.None?
    case WantWaiters => outcome.Plain? && sh.waitersLock.None?
    case Asleep => outcome.Plain? && t !in sh.asleep && sh.waitersLock.None?
    case _ => outcome.Plain?
  }

  function RunPc(th: Thread, sh: Shared, t: nat, outcome: Outcome): Pc
    requires RunEnabled(th.pc, sh, t, outcome)
  {
    match th.pc
    case TryCheck => if sh.deviceClose > 0 then WantWaiters else TryLock
    case TryLock => if LockFree(sh, t) then MarkActive else WantWaiters
    case MarkActive => CheckCompleted
    case CheckCompleted => if th.done then Unmark else PrepareFds
    case PrepareFds => Polling
    case Polling =>
      if !outcome.Ready? then Unmark
      else if sh.pipe > 0 then DrainFirst(outcome.more)
      else InBackend(false)
    case DrainFirst(more) => DrainPc(sh, sh.hotplug > 0, more, false)
    case InCallback(special, more) => DrainNext(special, more, outcome.failed)
    case DrainNext(special, more, failed) => DrainPc(sh, special, more, failed)
    case InHotplug(special, more, failed) =>
      if failed then Unmark
      else if more then InBackend(special)
      else if special then Polling else Unmark
    case InBackend(special) => if !outcome.failed && special then Polling else Unmark
    case Unmark => Unlock
    case Unlock => WantBroadcast
    case WantBroadcast => Broadcast
    case Broadcast => EndBroadcast
    case EndBroadcast => Idle
    case WantWaiters => RecheckCompleted
    case RecheckCompleted => if th.done then LeaveWaiters else RecheckClosing
    case RecheckClosing => if sh.deviceClose > 0 then GoToSleep else RecheckActive
    case RecheckActive => if sh.active then GoToSleep else GiveUpWaiters
    case GiveUpWaiters => TryCheck
    case GoToSleep => Asleep
    case Asleep => LeaveWaiters
    case LeaveWaiters => Idle
  }

  // One turn of the completed-transfer loop, up to the point where the lock drops.
  function DrainPc(sh: Shared, special: bool, more: bool, failed: bool): Pc {
    if !failed && sh.completed > 0 then InCallback(special, more) else InHotplug(special, more, failed)
  }

  function Drained(sh: Shared, failed: bool): Shared {
    if !failed && sh.completed > 0 then sh.(completed := sh.completed - 1) else Cleared(sh)
  }

  function RunShared(pc: Pc, sh: Shared, t: nat, outcome: Outcome): Shared
    requires RunEnabled(pc, sh, t, outcome)
  {
    match pc
    case TryLock => if LockFree(sh, t) then Acquired(sh, t) else sh
    case MarkActive => sh.(active := true)
    case PrepareFds => if sh.fdsModified then Cleared(sh.(fdsModified := false)) else sh
    case DrainFirst(_) => Drained(sh.(hotplug := if sh.hotplug > 0 then sh.hotplug - 1 else 0), false)
    case DrainNext(_, _, failed) => Drained(sh, failed)
    case Unmark => sh.(active := false)
    case Unlock => Released(sh)
    case WantBroadcast => sh.(waitersLock := Some(t))
    case Broadcast => sh.(asleep := {})
    case EndBroadcast => sh.(waitersLock := None)
    case WantWaiters => sh.(waitersLock := Some(t))
    case GiveUpWaiters => sh.(waitersLock := None)
    case GoToSleep => sh.(waitersLock := None, asleep := sh.asleep + {t})
    case Asleep => sh.(waitersLock := Some(t))
    case LeaveWaiters => sh.(waitersLock := None)
    case _ => sh
  }

  /* One step of a thread inside libusb_close. */

  predicate CloseEnabled(close: Close, sh: Shared, t: nat) {
    match close
    case NoClose => false
    case CloseLock => LockFree(sh, t)
    case InnerLock => LockFree(sh, t)
    case InnerUnlock => sh.depth > 0
    case OuterUnlock => sh.depth > 0
    case InnerWant => sh.waitersLock.None?
    case OuterWant => sh.waitersLock.None?
    case CloseDone => sh.deviceClose > 0
    case _ => true
  }

  function ClosePc(close: Close): Close
    requires close != NoClose
  {
    match close
    case CloseLock => CloseMark
    case CloseMark => InnerLock
    case InnerLock => InnerMark
    case InnerMark => InnerUnmark
    case InnerUnmark => InnerUnlock
    case InnerUnlock => InnerWant
    case InnerWant => InnerBroadcast
    case InnerBroadcast => InnerEnd
    case InnerEnd => CloseDone
    case CloseDone => OuterUnmark
    case OuterUnmark => OuterUnlock
    case OuterUnlock => OuterWant
    case OuterWant => OuterBroadcast
    case OuterBroadcast => OuterEnd
    case OuterEnd => NoClose
  }

  function CloseShared(close: Close, sh: Shared, t: nat): Shared
    requires CloseEnabled(close, sh, t)
  {
    match close
    case CloseLock => Acquired(sh, t)
    case CloseMark => sh.(active := true)
    case InnerLock => Acquired(sh, t)
    case InnerMark => sh.(active := true)
    case InnerUnmark => sh.(active := false)
    case InnerUnlock => Released(sh)
    case InnerWant => sh.(waitersLock := Some(t))
    case InnerBroadcast => sh.(asleep := {})
    case InnerEnd => sh.(waitersLock := None)
    case CloseDone => Cleared(sh.(deviceClose := sh.deviceClose - 1))
    case OuterUnmark => sh.(active := false)
    case OuterUnlock => Released(sh)
    case OuterWant => sh.(waitersLock := Some(t))
    case OuterBroadcast => sh.(asleep := {})
    case OuterEnd => sh.(waitersLock := None)
  }

  /* The whole system. */

  predicate Enabled(s: State, step: Step) {
    match step
    case Begin(t) => t < |s.threads| && s.threads[t].pc == Idle && s.threads[t].close == NoClose
    case BeginClose(t) =>
      && t < |s.threads| && s.threads[t].close == NoClose
      && (s.threads[t].pc == Idle || CallsBack(s.threads[t].pc))
    case Run(t, outcome) =>
      && t < |s.threads| && s.threads[t].close == NoClose
      && RunEnabled(s.threads[t].pc, s.sh, t, outcome)
    case RunClose(t) => t < |s.threads| && CloseEnabled(s.threads[t].close, s.sh, t)
    case TimedOut(t) => t in s.sh.asleep
    case Complete(t, w) => t < |s.threads| && w < |s.threads| && CallsBack(s.threads[t].pc)
    case Signal(_) => true
  }

  function Queued(sh: Shared, source: Source): Shared {
    match source
    case TransferCompleted => sh.(completed := sh.completed + 1, pipe := Signalled(sh))
    case HotplugMessage => sh.(hotplug := sh.hotplug + 1, pipe := Signalled(sh))
    case PollFdChange => sh.(fdsModified := true, pipe := Signalled(sh))
  }

  function Apply(s: State, step: Step): State
    requires Enabled(s, step)
  {
    match step
    case Begin(t) =>
      s.(threads := s.threads[t := s.threads[t].(pc := TryCheck, done := false)])
    case BeginClose(t) =>
      State(s.threads[t := s.threads[t].(close := CloseLock, raised := !Pending(s.sh))],
            s.sh.(deviceClose := s.sh.deviceClose + 1, pipe := Signalled(s.sh)))
    case Run(t, outcome) =>
      State(s.threads[t := s.threads[t].(pc := RunPc(s.threads[t], s.sh, t, outcome))],
            RunShared(s.threads[t].pc, s.sh, t, outcome))
    case RunClose(t) =>
      State(s.threads[t := s.threads[t].(close := ClosePc(s.threads[t].close))],
            CloseShared(s.threads[t].close, s.sh, t))
    case TimedOut(t) => s.(sh := s.sh.(asleep := s.sh.asleep - {t}))
    case Complete(t, w) => s.(threads := s.threads[w := s.threads[w].(done := true)])
    case Signal(source) => s.(sh := Queued(s.sh, source))
  }

  // usbi_io_init adds the pipe itself to the poll set, which signals once.
  predicate Init(s: State) {
    && (forall t :: 0 <= t < |s.threads| ==> s.threads[t].pc == Idle && s.threads[t].close == NoClose)
    && s.sh == Shared(None, 0, false, None, {}, 0, true, 0, 0, 1)
  }

  // states[i] steps to states[i+1] by steps[i].
  ghost predicate IsPath(states: seq<State>, steps: seq<Step>) {
    && |states| == |steps| + 1
    && forall i :: 0 <= i < |steps| ==>
         Enabled(states[i], steps[i]) && states[i + 1] == Apply(states[i], steps[i])
  }

  ghost predicate IsRun(states: seq<State>, steps: seq<Step>) {
    IsPath(states, steps) && Init(states[0])
  }
}
