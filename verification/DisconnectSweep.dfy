/**
  usbi_handle_disconnect of io.c on the list of in-flight transfers, with the
  callbacks it runs.  A callback may submit any transfers, one after the other; the
  backend accepts those of other devices and refuses those of the device that is
  gone.
 */
module DisconnectSweep {
  import opened Options
  import opened TransferLifecycle
  import opened IntrusiveList
  import opened FlyingList

  const CLEARED := (f: Flags) => f.(inFlight := false, completed := true)
  const MARKED := (f: Flags) => f.(disappeared := true)

  // The list as a set, and the flags of all transfers.
  datatype View = View(flying: set<UsbiTransfer>, flags: map<UsbiTransfer, Flags>)

  ghost function ViewOf(ctx: Context, all: set<UsbiTransfer>): View
    reads ctx, all
  {
    View((set t | t in ctx.flying), map t | t in all :: t.flags)
  }

  ghost predicate InSet(ctx: Context, all: set<UsbiTransfer>)
    reads ctx
  {
    forall t :: t in ctx.flying ==> t in all
  }

  // Some transfers of the device that are not in flight are marked.
  ghost predicate Marks(w: View, w': View, handle: nat) {
    && w'.flying == w.flying && w'.flags.Keys == w.flags.Keys
    && forall t :: t in w.flags ==>
         w'.flags[t] == w.flags[t]
         || (t in w.flying && t.handle == handle && !w.flags[t].inFlight && w'.flags[t] == MARKED(w.flags[t]))
  }

  ghost predicate Completes(w: View, w': View, x: UsbiTransfer) {
    x in w.flying && x in w.flags && w' == View(w.flying - {x}, w.flags[x := CLEARED(w.flags[x])])
  }

  // u is submitted: refused when it is busy or its device is the one that is gone,
  // which leaves its flags empty, and accepted otherwise.
  ghost predicate Submits(w: View, w': View, u: UsbiTransfer, handle: nat) {
    && u in w.flags
    && if w.flags[u].inFlight then w' == w
       else if u.handle == handle then w' == View(w.flying, w.flags[u := NO_FLAGS])
       else w' == View(w.flying + {u}, w.flags[u := NO_FLAGS.(inFlight := true)])
  }

  // The in-flight transfers of the device.
  ghost function Targets(ctx: Context, handle: nat): set<UsbiTransfer>
    reads ctx, ctx.flying
  {
    set t | t in ctx.flying && t.handle == handle && t.flags.inFlight
  }

  // The inner scan: the first transfer of the device in flight, those before it
  // being marked; if there is none, all are.
  method FindInFlight(ctx: Context, handle: nat, ghost all: set<UsbiTransfer>)
    returns (toCancel: Option<UsbiTransfer>)
    requires ctx.Valid() && InSet(ctx, all)
    modifies ctx.flying`flags
    ensures ctx.Valid() && Marks(old(ViewOf(ctx, all)), ViewOf(ctx, all), handle)
    ensures toCancel.Some? ==>
              toCancel.value in ctx.flying && toCancel.value.handle == handle && toCancel.value.flags.inFlight
    ensures toCancel.None? ==> forall t :: t in ctx.flying && t.handle == handle ==>
              !old(t.flags.inFlight) && t.flags == MARKED(old(t.flags))
  {
    hide Deadlines, Sorted, IsList;
    var head := ctx.flyingTransfers;
    ghost var xs := ctx.flying;
    Ends(head, xs);
    var cur := head.next;
    ghost var i := 0;
    while cur != head
      invariant IsList(head, xs) && 0 <= i <= |xs| && cur == Node(head, xs, i)
      invariant forall j :: 0 <= j < i ==> !old(xs[j].flags.inFlight) || xs[j].handle != handle
      invariant forall j :: 0 <= j < i ==>
                  xs[j].flags == if xs[j].handle == handle then MARKED(old(xs[j].flags)) else old(xs[j].flags)
      invariant forall j :: i <= j < |xs| ==> xs[j].flags == old(xs[j].flags)
      decreases |xs| - i
    {
      NextNode(head, xs, i);
      OnlyHere(head, xs, i);
      if cur.handle == handle {
        if cur.flags.inFlight { return Some(cur); }
        cur.flags := cur.flags.(disappeared := true);
      }
      cur := cur.next;
      i := i + 1;
    }
    HeadLast(head, xs, i);
    toCancel := None;
  }

  lemma RemovedMembers(head: UsbiTransfer, xs: seq<UsbiTransfer>, k: nat)
    requires Distinct(head, xs) && k < |xs|
    ensures forall t :: t in Removed(xs, k) <==> t in xs && t != xs[k]
  {
    forall t | t in Removed(xs, k) ensures t in xs && t != xs[k] {
      var i :| 0 <= i < |xs| - 1 && Removed(xs, k)[i] == t;
      assert t == xs[if i < k then i else i + 1];
    }
    forall t | t in xs && t != xs[k] ensures t in Removed(xs, k) {
      var i :| 0 <= i < |xs| && xs[i] == t;
      assert Removed(xs, k)[if i < k then i else i - 1] == t;
    }
  }

  lemma InsertedMembers(xs: seq<UsbiTransfer>, k: nat, x: UsbiTransfer)
    requires k <= |xs|
    ensures forall t :: t in Inserted(xs, k, x) <==> t in xs || t == x
  {
    assert xs == xs[..k] + xs[k..];
  }

  // usbi_handle_transfer_completion up to the callback.
  method Complete(ctx: Context, t: UsbiTransfer, ghost all: set<UsbiTransfer>)
    requires ctx.Valid() && InSet(ctx, all) && t in ctx.flying
    modifies ctx`flying, t`flags, ctx.flyingTransfers`prev, ctx.flyingTransfers`next, ctx.flying`prev, ctx.flying`next
    ensures ctx.Valid() && InSet(ctx, all) && Completes(old(ViewOf(ctx, all)), ViewOf(ctx, all), t)
  {
    hide Deadlines, Sorted;
    ghost var k :| 0 <= k < |ctx.flying| && ctx.flying[k] == t;
    RemovedMembers(ctx.flyingTransfers, ctx.flying, k);
    ctx.RemoveFromFlyingList(t, k);
    t.flags := CLEARED(t.flags);
  }

  // What a callback may do: libusb_submit_transfer of u, as one call.
  method Submit(ctx: Context, u: UsbiTransfer, handle: nat, ghost all: set<UsbiTransfer>)
    requires ctx.Valid() && InSet(ctx, all) && u in all && u != ctx.flyingTransfers
             && (u in ctx.flying <==> u.flags.inFlight)
    modifies ctx`flying, u`flags, {ctx.flyingTransfers, u}`prev, {ctx.flyingTransfers, u}`next
    modifies ctx.flying`prev, ctx.flying`next
    ensures ctx.Valid() && InSet(ctx, all) && Submits(old(ViewOf(ctx, all)), ViewOf(ctx, all), u, handle)
  {
    hide Deadlines, Sorted, IsList, Place;
    if u.flags.inFlight { return; }
    ghost var xs, k := ctx.flying, Place(Deadlines(ctx.flying), u.timeout);
    InsertedMembers(xs, k, u);
    u.flags := NO_FLAGS.(submitting := true);
    ctx.AddToFlyingList(u);
    if u.handle == handle {
      Refuse(ctx, u, xs, k);
    } else {
      u.flags := NO_FLAGS.(inFlight := true);
    }
  }

  // The end of a submission that the backend refused.
  method Refuse(ctx: Context, u: UsbiTransfer, ghost xs: seq<UsbiTransfer>, ghost k: nat)
    requires ctx.Valid() && k <= |xs| && ctx.flying == Inserted(xs, k, u)
    modifies ctx`flying, u`flags, ctx.flyingTransfers`prev, ctx.flyingTransfers`next, ctx.flying`prev, ctx.flying`next
    ensures ctx.Valid() && ctx.flying == xs && u.flags == NO_FLAGS
  {
    hide Deadlines, Sorted, IsList;
    u.flags := NO_FLAGS;
    InsertedThenRemoved(xs, k, u);
    ctx.RemoveFromFlyingList(u, k);
  }

  lemma InsertedThenRemoved(xs: seq<UsbiTransfer>, k: nat, x: UsbiTransfer)
    requires k <= |xs|
    ensures Inserted(xs, k, x)[k] == x && Removed(Inserted(xs, k, x), k) == xs
  {
  }

  /* The sweep on sets and maps. */

  // The transfers called back are exactly the targets no longer to do.
  ghost predicate Swept(v: View, w: View, calls: seq<UsbiTransfer>, todo: set<UsbiTransfer>, us: set<UsbiTransfer>,
                        handle: nat)
  {
    && v.flags.Keys == w.flags.Keys && v.flying <= v.flags.Keys && w.flying <= w.flags.Keys
    && (forall i, j :: 0 <= i < j < |calls| ==> calls[i] != calls[j])
    && (forall t :: t in calls ==> t in v.flying && t !in w.flying)
    && (forall t :: t in v.flying ==>
          SweptOne(t, v.flags[t], w.flags[t], t in w.flying, t in calls, t in todo, t in us, handle))
    && (forall t :: t in w.flying && t !in v.flying ==> t.handle != handle && w.flags[t].inFlight)
  }

  ghost predicate SweptOne(t: UsbiTransfer, f: Flags, g: Flags, flying: bool, called: bool, todo: bool,
                           submitted: bool, handle: nat) {
    if t.handle != handle then g == f && flying && !called && !todo
    else if !f.inFlight then (g == f || g == MARKED(f)) && flying && !called && !todo
    else if called then (g == CLEARED(f) || (submitted && g == NO_FLAGS)) && !flying && !todo
    else g == f && flying && todo
  }

  lemma SweepStarts(v: View, us: set<UsbiTransfer>, handle: nat)
    requires v.flying <= v.flags.Keys
    ensures Swept(v, v, [], (set t | t in v.flying && t.handle == handle && v.flags[t].inFlight), us, handle)
  {
  }

  lemma MarkKeeps(v: View, w: View, w': View, calls: seq<UsbiTransfer>, todo: set<UsbiTransfer>,
                  us: set<UsbiTransfer>, handle: nat)
    requires Swept(v, w, calls, todo, us, handle) && Marks(w, w', handle)
    ensures Swept(v, w', calls, todo, us, handle)
    ensures Submittable(w, us) ==> Submittable(w', us)
  {
    forall t | t in v.flying
      ensures SweptOne(t, v.flags[t], w'.flags[t], t in w'.flying, t in calls, t in todo, t in us, handle)
    {
      assert SweptOne(t, v.flags[t], w.flags[t], t in w.flying, t in calls, t in todo, t in us, handle);
    }
  }

  lemma CompleteKeeps(v: View, w: View, w': View, calls: seq<UsbiTransfer>, todo: set<UsbiTransfer>,
                      us: set<UsbiTransfer>, handle: nat, x: UsbiTransfer)
    requires Swept(v, w, calls, todo, us, handle) && Completes(w, w', x) && x.handle == handle && w.flags[x].inFlight
    ensures x in todo && Swept(v, w', calls + [x], todo - {x}, us, handle)
    ensures Submittable(w, us) ==> Submittable(w', us)
  {
    assert SweptOne(x, v.flags[x], w.flags[x], true, x in calls, x in todo, x in us, handle);
    forall t | t in v.flying
      ensures SweptOne(t, v.flags[t], w'.flags[t], t in w'.flying, t in calls + [x], t in todo - {x}, t in us, handle)
    {
      assert SweptOne(t, v.flags[t], w.flags[t], t in w.flying, t in calls, t in todo, t in us, handle);
      assert t in calls + [x] <==> t in calls || t == x;
    }
  }

  lemma SubmitKeeps(v: View, w: View, w': View, calls: seq<UsbiTransfer>, todo: set<UsbiTransfer>,
                    us: set<UsbiTransfer>, handle: nat, u: UsbiTransfer)
    requires Swept(v, w, calls, todo, us, handle) && Submits(w, w', u, handle) && u in us && Submittable(w, us)
    ensures Swept(v, w', calls, todo, us, handle) && Submittable(w', us)
  {
    forall t | t in v.flying ensures
        && SweptOne(t, v.flags[t], w'.flags[t], t in w'.flying, t in calls, t in todo, t in us, handle)
        && (t in calls ==> t.handle == handle)
    {
      assert SweptOne(t, v.flags[t], w.flags[t], t in w.flying, t in calls, t in todo, t in us, handle);
    }
  }

  lemma SweepEnds(v: View, w: View, w': View, calls: seq<UsbiTransfer>, todo: set<UsbiTransfer>,
                  us: set<UsbiTransfer>, handle: nat)
    requires Swept(v, w, calls, todo, us, handle) && Swept(v, w', calls, todo, us, handle) && w'.flying == w.flying
    requires forall t :: t in w.flying && t.handle == handle ==>
               !w.flags[t].inFlight && w'.flags[t] == MARKED(w.flags[t])
    ensures SweepDone(v, w', calls, us, handle)
  {
    forall t | t in v.flying ensures
        && SweptOne(t, v.flags[t], w'.flags[t], t in w'.flying, t in calls, false, t in us, handle)
        && (t in w'.flying && t.handle == handle ==> w'.flags[t] == MARKED(v.flags[t]))
    {
      assert SweptOne(t, v.flags[t], w.flags[t], t in w.flying, t in calls, t in todo, t in us, handle);
      assert SweptOne(t, v.flags[t], w'.flags[t], t in w'.flying, t in calls, t in todo, t in us, handle);
    }
  }

  // At the end nothing is left to do.
  ghost predicate SweepDone(v: View, w: View, calls: seq<UsbiTransfer>, us: set<UsbiTransfer>, handle: nat) {
    && Swept(v, w, calls, {}, us, handle)
    && forall t :: t in w.flying && t.handle == handle ==> t in v.flying && w.flags[t] == MARKED(v.flags[t])
  }

  // What that means: the calls are to the in-flight transfers of the device, each
  // once; those and no others have left the list; the remaining ones of the
  // device are marked and not in flight; the rest is as it was.  A transfer that its
  // or a later callback submitted again was refused and has empty flags.
  lemma SweepResult(v: View, w: View, calls: seq<UsbiTransfer>, us: set<UsbiTransfer>, handle: nat)
    requires SweepDone(v, w, calls, us, handle)
    ensures forall t :: t in calls <==> t in v.flying && t.handle == handle && v.flags[t].inFlight
    ensures forall i, j :: 0 <= i < j < |calls| ==> calls[i] != calls[j]
    ensures forall t :: t in v.flying ==> (t in w.flying <==> t !in calls)
    ensures forall t :: t in calls ==> var f := v.flags[t];
              || w.flags[t] ==
                 Flags(false, true, f.disappeared, f.cancelling, f.submitting, f.timeoutHandled, f.timedOut)
              || (t in us && w.flags[t] == Flags(false, false, false, false, false, false, false))
    ensures forall t :: t in w.flying && t.handle == handle ==> t in v.flying && var f := v.flags[t];
              && !f.inFlight
              && w.flags[t] == Flags(false, f.completed, true, f.cancelling, f.submitting, f.timeoutHandled, f.timedOut)
    ensures forall t :: t in v.flying && t.handle != handle ==> w.flags[t] == v.flags[t]
    ensures forall t :: t in w.flying && t !in v.flying ==> t.handle != handle && w.flags[t].inFlight
  {
    forall t | t in v.flying
      ensures SweptOne(t, v.flags[t], w.flags[t], t in w.flying, t in calls, false, t in us, handle)
    {
    }
  }

  // All that callbacks submit.
  ghost function Submitted(submits: map<UsbiTransfer, seq<UsbiTransfer>>): set<UsbiTransfer> {
    set t, u | t in submits && u in submits[t] :: u
  }

  // A callback runs.
  method Callback(ctx: Context, us: seq<UsbiTransfer>, handle: nat, ghost v: View, ghost calls: seq<UsbiTransfer>,
                  ghost todo: set<UsbiTransfer>, ghost submitted: set<UsbiTransfer>, ghost all: set<UsbiTransfer>)
    requires ctx.Valid() && InSet(ctx, all) && ctx.flyingTransfers !in submitted
    requires Swept(v, ViewOf(ctx, all), calls, todo, submitted, handle) && Submittable(ViewOf(ctx, all), submitted)
    requires forall u :: u in us ==> u in submitted
    modifies ctx`flying, ctx.flyingTransfers`prev, ctx.flyingTransfers`next
    modifies all`prev, all`next, all`flags
    ensures ctx.Valid() && InSet(ctx, all)
    ensures Swept(v, ViewOf(ctx, all), calls, todo, submitted, handle) && Submittable(ViewOf(ctx, all), submitted)
  {
    hide Deadlines, Sorted, IsList, Swept, Submits, Submittable;
    for i := 0 to |us|
      invariant ctx.Valid() && InSet(ctx, all)
      invariant Swept(v, ViewOf(ctx, all), calls, todo, submitted, handle) && Submittable(ViewOf(ctx, all), submitted)
    {
      ghost var w := ViewOf(ctx, all);
      SubmittableOne(ctx, all, submitted, us[i]);
      Submit(ctx, us[i], handle, all);
      SubmitKeeps(v, w, ViewOf(ctx, all), calls, todo, submitted, handle, us[i]);
    }
  }

  // The sweep ends, whatever the callbacks submit; it calls back every in-flight
  // transfer of the device exactly once, marks all its others and leaves those of
  // other devices alone.  submits: what the callback of a transfer submits.
  method HandleDisconnect(ctx: Context, handle: nat, submits: map<UsbiTransfer, seq<UsbiTransfer>>)
    returns (calls: seq<UsbiTransfer>)
    requires ctx.Valid() && ctx.flyingTransfers !in Submitted(submits)
    requires Submittable(ViewOf(ctx, All(ctx, Submitted(submits))), Submitted(submits))
    modifies ctx`flying, ctx.flyingTransfers`prev, ctx.flyingTransfers`next
    modifies All(ctx, Submitted(submits))`prev, All(ctx, Submitted(submits))`next, All(ctx, Submitted(submits))`flags
    ensures ctx.Valid()
    ensures SweepDone(old(ViewOf(ctx, All(ctx, Submitted(submits)))), ViewOf(ctx, old(All(ctx, Submitted(submits)))),
                      calls, Submitted(submits), handle)
  {
    hide Deadlines, Sorted, IsList, Swept, Marks, Completes, Submittable, SweepDone;
    calls := [];
    ghost var us := Submitted(submits);
    ghost var all := All(ctx, us);
    ghost var v, todo := ViewOf(ctx, all), Targets(ctx, handle);
    ghost var w := v;
    SweepStarts(v, us, handle);
    assert todo == set t | t in v.flying && t.handle == handle && v.flags[t].inFlight;
    while true
      invariant ctx.Valid() && InSet(ctx, all) && w == ViewOf(ctx, all)
      invariant Swept(v, w, calls, todo, us, handle) && Submittable(w, us)
      decreases todo
    {
      ghost var w0 := w;
      var toCancel := FindInFlight(ctx, handle, all);
      w := ViewOf(ctx, all);
      MarkKeeps(v, w0, w, calls, todo, us, handle);
      if toCancel.None? {
        SweepEnds(v, w0, w, calls, todo, us, handle);
        break;
      }
      var t := toCancel.value;
      w0 := w;
      Complete(ctx, t, all);
      w := ViewOf(ctx, all);
      CompleteKeeps(v, w0, w, calls, todo, us, handle, t);
      calls := calls + [t];
      todo := todo - {t};
      if t in submits {
        Callback(ctx, submits[t], handle, v, calls, todo, us, all);
        w := ViewOf(ctx, all);
      }
    }
  }

  lemma SubmittableOne(ctx: Context, all: set<UsbiTransfer>, us: set<UsbiTransfer>, u: UsbiTransfer)
    requires Submittable(ViewOf(ctx, all), us) && u in us
    ensures u in all && (u in ctx.flying <==> u.flags.inFlight)
  {
  }

  ghost function All(ctx: Context, submitted: set<UsbiTransfer>): set<UsbiTransfer>
    reads ctx
  {
    (set t | t in ctx.flying) + submitted
  }

  // No other thread is in the middle of submitting them.
  ghost predicate Submittable(w: View, us: set<UsbiTransfer>) {
    forall u :: u in us ==> u in w.flags && (u in w.flying <==> w.flags[u].inFlight)
  }
}
