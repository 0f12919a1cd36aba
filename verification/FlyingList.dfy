/**
  The list of in-flight transfers of io.c: kept in the order of the deadlines, and
  scanned with early exits that lose nothing.
 */
module FlyingList {
  import opened Options
  import opened Timevals
  import opened TransferLifecycle
  import opened IntrusiveList

  // a may stand before b: unset deadlines are last.
  predicate InOrder(a: Timeval, b: Timeval) {
    !IsSet(b) || (IsSet(a) && !Later(a, b))
  }

  predicate Sorted(deadlines: seq<Timeval>) {
    forall i, j :: 0 <= i < j < |deadlines| ==> InOrder(deadlines[i], deadlines[j])
  }

  // The place of a new deadline: before the first one it must precede.
  function Place(deadlines: seq<Timeval>, d: Timeval): (k: nat)
    ensures k <= |deadlines|
    ensures forall i :: 0 <= i < k ==> InOrder(deadlines[i], d)
    ensures k < |deadlines| ==> !InOrder(deadlines[k], d)
  {
    if deadlines == [] || !InOrder(deadlines[0], d) then 0
    else 1 + Place(deadlines[1..], d)
  }

  lemma PlaceIs(deadlines: seq<Timeval>, d: Timeval, k: nat)
    requires k <= |deadlines| && (forall i :: 0 <= i < k ==> InOrder(deadlines[i], d))
    requires k < |deadlines| ==> !InOrder(deadlines[k], d)
    ensures k == Place(deadlines, d)
  {
  }

  lemma PlaceKeepsOrder(deadlines: seq<Timeval>, d: Timeval)
    requires Sorted(deadlines)
    ensures var k := Place(deadlines, d); Sorted(deadlines[..k] + [d] + deadlines[k..])
  {
  }

  ghost function Deadlines(ts: seq<UsbiTransfer>): (ds: seq<Timeval>)
    reads ts`timeout
    ensures |ds| == |ts| && forall i :: 0 <= i < |ts| ==> ds[i] == ts[i].timeout
  {
    if ts == [] then [] else [ts[0].timeout] + Deadlines(ts[1..])
  }

  lemma SortedWith(ts: seq<UsbiTransfer>, t: UsbiTransfer)
    requires Sorted(Deadlines(ts))
    ensures Sorted(Deadlines(Inserted(ts, Place(Deadlines(ts), t.timeout), t)))
  {
    hide Deadlines, Sorted, Place;
    var k := Place(Deadlines(ts), t.timeout);
    PlaceKeepsOrder(Deadlines(ts), t.timeout);
    assert Deadlines(Inserted(ts, k, t)) == Deadlines(ts)[..k] + [t.timeout] + Deadlines(ts)[k..];
  }

  lemma SortedPart(a: seq<Timeval>, k: nat)
    requires k < |a| && Sorted(a)
    ensures Sorted(a[..k] + a[k + 1..])
  {
    hide InOrder;
    var b := a[..k] + a[k + 1..];
    forall i, j | 0 <= i < j < |b| ensures InOrder(b[i], b[j]) {
      assert InOrder(a[if i < k then i else i + 1], a[if j < k then j else j + 1]);
    }
  }

  lemma SortedWithout(ts: seq<UsbiTransfer>, k: nat)
    requires k < |ts| && Sorted(Deadlines(ts))
    ensures Sorted(Deadlines(Removed(ts, k)))
  {
    hide Deadlines, Sorted;
    SortedPart(Deadlines(ts), k);
    var a, b := Deadlines(ts), Deadlines(Removed(ts, k));
    forall i | 0 <= i < |b| ensures b[i] == (a[..k] + a[k + 1..])[i] {
      assert b[i] == Removed(ts, k)[i].timeout == ts[if i < k then i else i + 1].timeout;
    }
    assert b == a[..k] + a[k + 1..];
  }

  /* Whole runs: what AddToFlyingList and RemoveFromFlyingList do, with the order of
     arrival remembered. */

  datatype Queued = Queued(deadline: Timeval, arrival: nat)
  datatype Change = Add(deadline: Timeval) | Drop(k: nat)

  function DeadlinesOf(q: seq<Queued>): (ds: seq<Timeval>)
    ensures |ds| == |q| && forall i :: 0 <= i < |q| ==> ds[i] == q[i].deadline
  {
    if q == [] then [] else [q[0].deadline] + DeadlinesOf(q[1..])
  }

  function Run(changes: seq<Change>): seq<Queued> {
    if changes == [] then []
    else
      var n := |changes| - 1;
      var q := Run(changes[..n]);
      match changes[n]
      case Add(d) => var k := Place(DeadlinesOf(q), d); q[..k] + [Queued(d, n)] + q[k..]
      case Drop(k) => if k < |q| then q[..k] + q[k + 1..] else q
  }

  // a stands before b: by deadline, and by arrival when that does not tell.
  predicate Before(a: Queued, b: Queued) {
    InOrder(a.deadline, b.deadline) && (InOrder(b.deadline, a.deadline) ==> a.arrival < b.arrival)
  }

  predicate Fifo(q: seq<Queued>, n: nat) {
    && (forall i, j :: 0 <= i < j < |q| ==> Before(q[i], q[j]))
    && (forall i :: 0 <= i < |q| ==> q[i].arrival < n)
  }

  // The list is sorted by deadline, unset ones last, first in first out among equals.
  lemma {:induction false} FirstInFirstOut(changes: seq<Change>)
    ensures Fifo(Run(changes), |changes|)
  {
    if changes != [] {
      var n := |changes| - 1;
      FirstInFirstOut(changes[..n]);
      hide Place, DeadlinesOf, Fifo;
      match changes[n] {
        case Add(d) => Arrives(Run(changes[..n]), d, n);
        case Drop(k) => Leaves(Run(changes[..n]), k, n);
      }
    } else {
      assert Run(changes) == [];
    }
  }

  // And what is on it is what was added and not removed.
  lemma OnTheList(changes: seq<Change>)
    requires changes != []
    ensures var n := |changes| - 1;
            var q, q' := Run(changes[..n]), Run(changes);
            match changes[n]
            case Add(d) => multiset(q') == multiset(q) + multiset{Queued(d, n)}
            case Drop(k) => multiset(q') == if k < |q| then multiset(q) - multiset{q[k]} else multiset(q)
  {
    hide Place, DeadlinesOf;
    var n := |changes| - 1;
    var q := Run(changes[..n]);
    match changes[n]
    case Add(d) => OneMore(q, Place(DeadlinesOf(q), d), Queued(d, n));
    case Drop(k) => if k < |q| { OneLess(q, k); }
  }

  lemma OneMore(q: seq<Queued>, k: nat, x: Queued)
    requires k <= |q|
    ensures multiset(q[..k] + [x] + q[k..]) == multiset(q) + multiset{x}
  {
    assert q == q[..k] + q[k..];
  }

  lemma OneLess(q: seq<Queued>, k: nat)
    requires k < |q|
    ensures multiset(q[..k] + q[k + 1..]) == multiset(q) - multiset{q[k]}
  {
    assert q == q[..k] + [q[k]] + q[k + 1..];
  }

  lemma Leaves(q: seq<Queued>, k: nat, n: nat)
    requires Fifo(q, n)
    ensures Fifo(if k < |q| then q[..k] + q[k + 1..] else q, n + 1)
  {
    hide Before;
    if k < |q| {
      var q' := q[..k] + q[k + 1..];
      forall i, j | 0 <= i < j < |q'| ensures Before(q'[i], q'[j]) {
        assert Before(q[if i < k then i else i + 1], q[if j < k then j else j + 1]);
      }
    }
  }

  lemma BeforeThird(a: Queued, b: Queued, d: Timeval, n: nat)
    requires Before(a, b) && !InOrder(a.deadline, d) && b.arrival < n
    ensures Before(Queued(d, n), b)
  {
  }

  lemma Arrives(q: seq<Queued>, d: Timeval, n: nat)
    requires Fifo(q, n)
    ensures var k := Place(DeadlinesOf(q), d); Fifo(q[..k] + [Queued(d, n)] + q[k..], n + 1)
  {
    hide Place, DeadlinesOf;
    var k := Place(DeadlinesOf(q), d);
    var x := Queued(d, n);
    var q' := q[..k] + [x] + q[k..];
    forall i, j | 0 <= i < j < |q'| ensures Before(q'[i], q'[j]) {
      if i == k < j - 1 {
        BeforeThird(q[k], q[j - 1], d, n);
      } else if i != k && j != k {
        assert Before(q[if i < k then i else i - 1], q[if j < k then j else j - 1]);
      }
    }
  }

  // handle_timeouts_locked has to act on it.
  predicate Due(flags: Flags, osHandlesTimeout: bool, deadline: Timeval, now: Timeval) {
    IsSet(deadline) && !flags.timeoutHandled && !osHandlesTimeout && !Later(deadline, now)
  }

  // That is: it has a deadline, which has passed and is neither handled yet nor left
  // to the operating system.
  lemma DueExactly(flags: Flags, osHandlesTimeout: bool, deadline: Timeval, now: Timeval)
    requires Normal(deadline) && Normal(now)
    ensures Due(flags, osHandlesTimeout, deadline, now) <==>
            0 < Micros(deadline) <= Micros(now) && !flags.timeoutHandled && !osHandlesTimeout
  {
    LaterMeansLater(deadline, now);
  }

  // handle_timeout, the cancellation having the given result.
  function AfterTimeout(f: Flags, result: CancelResult): Flags {
    var handled := f.(timeoutHandled := true);
    CancelFlags(handled, result).(timedOut := f.timedOut || CancelReturns0(handled, result))
  }

  lemma Ends(head: UsbiTransfer, xs: seq<UsbiTransfer>)
    requires IsList(head, xs)
    ensures head.next == Node(head, xs, 0) && head.prev == Node(head, xs, |xs| - 1)
    ensures head.next == head <==> xs == []
  {
    assert Linked(Node(head, xs, -1), Node(head, xs, 0));
    assert Linked(Node(head, xs, |xs| - 1), Node(head, xs, |xs|));
  }

  lemma NextNode(head: UsbiTransfer, xs: seq<UsbiTransfer>, i: nat)
    requires IsList(head, xs) && i <= |xs| && Node(head, xs, i) != head
    ensures i < |xs| && Node(head, xs, i).next == Node(head, xs, i + 1)
  {
    assert Linked(Node(head, xs, i), Node(head, xs, i + 1));
  }

  lemma OnlyHere(head: UsbiTransfer, xs: seq<UsbiTransfer>, i: nat)
    requires IsList(head, xs) && i < |xs|
    ensures forall j :: 0 <= j < |xs| && j != i ==> xs[j] != xs[i]
  {
  }

  lemma HeadLast(head: UsbiTransfer, xs: seq<UsbiTransfer>, i: nat)
    requires IsList(head, xs) && i <= |xs| && Node(head, xs, i) == head
    ensures i == |xs|
  {
  }

  class Context {
    const flyingTransfers: UsbiTransfer
    ghost var flying: seq<UsbiTransfer>

    ghost predicate Valid()
      reads this, flyingTransfers`prev, flyingTransfers`next, flying`prev, flying`next, flying`timeout
    {
      IsList(flyingTransfers, flying) && Sorted(Deadlines(flying))
    }

    constructor ()
      ensures Valid() && flying == [] && fresh(flyingTransfers)
    {
      flyingTransfers := new UsbiTransfer(NEVER, 0);
      flying := [];
    }

    method AddToFlyingList(transfer: UsbiTransfer)
      requires Valid() && transfer != flyingTransfers && transfer !in flying
      modifies this`flying, {flyingTransfers, transfer}`prev, {flyingTransfers, transfer}`next
      modifies flying`prev, flying`next
      ensures Valid()
      ensures flying == Inserted(old(flying), Place(old(Deadlines(flying)), transfer.timeout), transfer)
    {
      hide Deadlines, Sorted, Place, IsList, Inserted;
      var head := flyingTransfers;
      ghost var xs, ds := flying, Deadlines(flying);
      ghost var n, k := |xs|, Place(ds, transfer.timeout);
      SortedWith(xs, transfer);
      flying := Inserted(xs, k, transfer);
      Ends(head, xs);
      if head.next == head {
        ListAdd(transfer, head, head, xs, 0);
        return;
      }
      if !IsSet(transfer.timeout) {
        PlaceIs(ds, transfer.timeout, n);
        ListAddTail(transfer, head, head, xs, n);
        return;
      }
      var cur := head.next;
      ghost var i := 0;
      while cur != head
        invariant IsList(head, xs) && flying == Inserted(xs, k, transfer)
        invariant 0 <= i <= n && cur == Node(head, xs, i)
        invariant forall j :: 0 <= j < i ==> InOrder(ds[j], transfer.timeout)
        decreases n - i
      {
        if !IsSet(cur.timeout) || Later(cur.timeout, transfer.timeout) {
          PlaceIs(ds, transfer.timeout, i);
          ListAddTail(transfer, cur, head, xs, i);
          return;
        }
        NextNode(head, xs, i);
        cur := cur.next;
        i := i + 1;
      }
      HeadLast(head, xs, i);
      PlaceIs(ds, transfer.timeout, n);
      ListAddTail(transfer, head, head, xs, n);
    }

    method RemoveFromFlyingList(transfer: UsbiTransfer, ghost k: nat)
      requires Valid() && k < |flying| && transfer == flying[k]
      modifies this`flying, flyingTransfers`prev, flyingTransfers`next, flying`prev, flying`next
      ensures Valid() && flying == Removed(old(flying), k)
    {
      hide Deadlines, Sorted, IsList;
      SortedWithout(flying, k);
      ListDel(transfer, flyingTransfers, flying, k);
      flying := Removed(flying, k);
    }

    // Exactly the transfers whose deadline has passed and was not handled yet are
    // handled, each once, although the scan stops early.
    method HandleTimeoutsLocked(clock: Option<Timespec>, backend: UsbiTransfer -> CancelResult) returns (ok: bool)
      requires Valid()
      modifies flying`flags
      ensures Valid() && (ok <==> flying == [] || clock.Some?)
      ensures forall t :: t in flying ==>
                t.flags == if clock.None? then old(t.flags)
                           else Scanned(old(t.flags), t, ToTimeval(clock.value), backend)
    {
      hide Deadlines, Sorted, AfterTimeout, IsList;
      var head := flyingTransfers;
      ghost var xs := flying;
      Ends(head, xs);
      if head.next == head { return true; }
      if clock.None? { return false; }
      var systime := ToTimeval(clock.value);
      var transfer := head.next;
      ghost var i := 0;
      while transfer != head
        invariant IsList(head, xs) && 0 <= i <= |xs| && transfer == Node(head, xs, i)
        invariant forall j :: 0 <= j < i ==> xs[j].flags == Scanned(old(xs[j].flags), xs[j], systime, backend)
        invariant forall j :: i <= j < |xs| ==> xs[j].flags == old(xs[j].flags)
        decreases |xs| - i
      {
        NextNode(head, xs, i);
        OnlyHere(head, xs, i);
        if !IsSet(transfer.timeout) {
          NoneDueAfter(xs, i, systime);
          return true;
        }
        if !(transfer.flags.timeoutHandled || transfer.osHandlesTimeout) {
          if Later(transfer.timeout, systime) {
            NoneDueAfter(xs, i, systime);
            return true;
          }
          HandleTimeout(transfer, backend(transfer));
        }
        transfer := transfer.next;
        i := i + 1;
      }
      HeadLast(head, xs, i);
      ok := true;
    }

    // The time until the first deadline not handled yet, zero when it has passed.
    method GetNextTimeout(clock: Option<Timespec>) returns (tv: Option<Timeval>)
      requires Valid() && (forall t :: t in flying ==> Normal(t.timeout))
      requires clock.Some? ==> clock.value.nsec < 1_000_000_000
      ensures tv.Some? <==> clock.Some? && (exists t :: t in flying && Eligible(t))
      ensures tv.Some? ==> Normal(tv.value)
      ensures tv.Some? ==> exists t :: t in flying && Soonest(t, flying)
                                       && Micros(tv.value) == TimeLeft(t.timeout, ToTimeval(clock.value))
    {
      var head := flyingTransfers;
      ghost var xs := flying;
      Ends(head, xs);
      if head.next == head { return None; }
      var nextTimeout := NEVER;
      var transfer := head.next;
      ghost var i := 0;
      while transfer != head
        invariant 0 <= i <= |xs| && transfer == Node(head, xs, i) && nextTimeout == NEVER
        invariant forall j :: 0 <= j < i ==> !Eligible(xs[j])
        decreases |xs| - i
      {
        NextNode(head, xs, i);
        if !(transfer.flags.timeoutHandled || transfer.osHandlesTimeout) {
          FirstEligible(xs, i);
          if !IsSet(transfer.timeout) { break; }
          nextTimeout := transfer.timeout;
          break;
        }
        transfer := transfer.next;
        i := i + 1;
      }
      if transfer == head { HeadLast(head, xs, i); }
      if !IsSet(nextTimeout) { return None; }
      if clock.None? { return None; }
      assert transfer in flying && Soonest(transfer, flying);
      var now := ToTimeval(clock.value);
      LaterMeansLater(nextTimeout, now);
      if !Later(nextTimeout, now) { return Some(Timeval(0, 0)); }
      tv := Some(Difference(nextTimeout, now));
    }
  }

  ghost predicate Eligible(t: UsbiTransfer)
    reads t
  {
    IsSet(t.timeout) && !t.flags.timeoutHandled && !t.osHandlesTimeout
  }

  ghost predicate Soonest(t: UsbiTransfer, ts: seq<UsbiTransfer>)
    reads t, ts
  {
    Eligible(t) && forall u :: u in ts && Eligible(u) ==> Micros(t.timeout) <= Micros(u.timeout)
  }

  function TimeLeft(deadline: Timeval, now: Timeval): nat {
    if Micros(deadline) <= Micros(now) then 0 else Micros(deadline) - Micros(now)
  }

  // What one scan makes of the flags of a transfer.
  ghost function Scanned(f: Flags, t: UsbiTransfer, now: Timeval, backend: UsbiTransfer -> CancelResult): Flags
    reads t`timeout, t`osHandlesTimeout
  {
    if Due(f, t.osHandlesTimeout, t.timeout, now) then AfterTimeout(f, backend(t)) else f
  }

  // The timeout is handled for good.  A transfer in flight that is not being
  // cancelled yet is cancelled: it has timed out if that succeeds, and its device is
  // gone if that is the answer.
  method HandleTimeout(itransfer: UsbiTransfer, result: CancelResult)
    modifies itransfer`flags
    ensures itransfer.flags == AfterTimeout(old(itransfer.flags), result)
    ensures var f, g := old(itransfer.flags), itransfer.flags;
            var cancels := f.inFlight && !f.cancelling;
            && g.timeoutHandled && (g.cancelling <==> f.inFlight || f.cancelling)
            && (g.timedOut <==> f.timedOut || (cancels && result == Cancelled))
            && (g.disappeared <==> f.disappeared || (cancels && result == NoDevice))
            && g.inFlight == f.inFlight && g.completed == f.completed && g.submitting == f.submitting
    ensures forall os, deadline, now :: !Due(itransfer.flags, os, deadline, now)
  {
    itransfer.flags := itransfer.flags.(timeoutHandled := true);
    var r := CancelReturns0(itransfer.flags, result);
    itransfer.flags := CancelFlags(itransfer.flags, result);
    if r { itransfer.flags := itransfer.flags.(timedOut := true); }
  }

  lemma LaterInList(xs: seq<UsbiTransfer>, i: nat, j: nat)
    requires Sorted(Deadlines(xs)) && i < j < |xs|
    ensures InOrder(xs[i].timeout, xs[j].timeout)
  {
    hide Deadlines, InOrder;
    assert InOrder(Deadlines(xs)[i], Deadlines(xs)[j]);
  }

  predicate Unexpired(deadline: Timeval, now: Timeval) {
    !IsSet(deadline) || Later(deadline, now)
  }

  // The early exit: behind a deadline that is unset or has not passed, none has.
  lemma NoneDueAfter(xs: seq<UsbiTransfer>, i: nat, now: Timeval)
    requires Sorted(Deadlines(xs)) && i < |xs| && Unexpired(xs[i].timeout, now)
    ensures forall j :: i <= j < |xs| ==> Unexpired(xs[j].timeout, now)
  {
    hide Deadlines, Sorted;
    forall j | i <= j < |xs| ensures Unexpired(xs[j].timeout, now) {
      if i < j { LaterInList(xs, i, j); }
    }
  }

  lemma FirstEligible(xs: seq<UsbiTransfer>, i: nat)
    requires Sorted(Deadlines(xs)) && i < |xs| && !xs[i].flags.timeoutHandled && !xs[i].osHandlesTimeout
    requires forall j :: 0 <= j < i ==> !Eligible(xs[j])
    requires forall t :: t in xs ==> Normal(t.timeout)
    ensures forall u :: u in xs && Eligible(u) ==> IsSet(xs[i].timeout) && Micros(xs[i].timeout) <= Micros(u.timeout)
  {
    hide Deadlines, Sorted, Eligible;
    forall u | u in xs && Eligible(u) ensures IsSet(xs[i].timeout) && Micros(xs[i].timeout) <= Micros(u.timeout) {
      var j :| 0 <= j < |xs| && xs[j] == u;
      assert i <= j;
      NotSooner(xs, i, j);
    }
  }

  lemma NotSooner(xs: seq<UsbiTransfer>, i: nat, j: nat)
    requires Sorted(Deadlines(xs)) && i <= j < |xs| && Normal(xs[i].timeout) && Normal(xs[j].timeout)
             && Eligible(xs[j])
    ensures IsSet(xs[i].timeout) && Micros(xs[i].timeout) <= Micros(xs[j].timeout)
  {
    hide Deadlines, Sorted;
    if i < j { LaterInList(xs, i, j); }
  }
}
