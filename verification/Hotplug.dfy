/**
  The hotplug callbacks of hotplug.c.  A pass over them drops the lock around every
  user callback, which may register further callbacks, deregister any and ask for
  its own removal; deregistration only marks, and the next pass frees.
 */
module Hotplug {
  import opened Options

  datatype Event = Arrived | Left
  datatype Device = Device(vendor: nat, product: nat, devClass: nat)

  // None: LIBUSB_HOTPLUG_MATCH_ANY.
  datatype Filter = Filter(events: set<Event>, vendor: Option<nat>, product: Option<nat>, devClass: Option<nat>)

  datatype Callback = Callback(handle: nat, filter: Filter, needsFree: bool)

  // What a user callback does when it is called.
  datatype Reaction = Reaction(remove: bool, registers: seq<Filter>, deregisters: set<nat>)

  // The message of a deregistration has neither an event nor a device.
  datatype Message = Message(event: Option<Event>, dev: Option<Device>)

  predicate Sound(m: Message) { m.event.Some? ==> m.dev.Some? }

  predicate Admits(wanted: Option<nat>, id: nat) { wanted.None? || wanted.value == id }

  predicate Matches(f: Filter, m: Message)
    requires Sound(m)
  {
    && m.event.Some? && m.event.value in f.events
    && Admits(f.vendor, m.dev.value.vendor) && Admits(f.product, m.dev.value.product)
    && Admits(f.devClass, m.dev.value.devClass)
  }

  /* What a pass means: the callbacks called, the ones kept and the handles
     deregistered on the way. */

  datatype Outcome = Outcome(called: seq<nat>, kept: seq<Callback>, gone: set<nat>)

  function Pass(cbs: seq<Callback>, m: Message, react: nat -> Reaction, gone: set<nat>): Outcome
    requires Sound(m)
  {
    if cbs == [] then Outcome([], [], gone)
    else
      var c := cbs[0];
      if c.needsFree || c.handle in gone then Pass(cbs[1..], m, react, gone)
      else if !Matches(c.filter, m) then
        var o := Pass(cbs[1..], m, react, gone);
        o.(kept := [c] + o.kept)
      else
        var o := Pass(cbs[1..], m, react, gone + react(c.handle).deregisters);
        Outcome([c.handle] + o.called, if react(c.handle).remove then o.kept else [c] + o.kept, o.gone)
  }

  ghost predicate Distinct(cbs: seq<Callback>) {
    forall i, j :: 0 <= i < j < |cbs| ==> cbs[i].handle != cbs[j].handle
  }

  function Mark(c: Callback, gone: set<nat>): Callback {
    c.(needsFree := c.needsFree || c.handle in gone)
  }

  function MarkAll(cbs: seq<Callback>, gone: set<nat>): (marked: seq<Callback>)
    ensures |marked| == |cbs| && forall i :: 0 <= i < |cbs| ==> marked[i] == Mark(cbs[i], gone)
  {
    if cbs == [] then [] else [Mark(cbs[0], gone)] + MarkAll(cbs[1..], gone)
  }

  class Context {
    var cbs: seq<Callback>
    var nextHandle: nat

    ghost predicate Valid()
      reads this
    {
      Distinct(cbs) && forall i :: 0 <= i < |cbs| ==> cbs[i].handle < nextHandle
    }

    constructor ()
      ensures Valid() && cbs == []
    {
      cbs, nextHandle := [], 1;
    }

    // libusb_hotplug_register_callback: at the front.
    method Register(filter: Filter)
      requires Valid()
      modifies this
      ensures Valid() && nextHandle == old(nextHandle) + 1
      ensures cbs == [Callback(old(nextHandle), filter, false)] + old(cbs)
    {
      cbs := [Callback(nextHandle, filter, false)] + cbs;
      nextHandle := nextHandle + 1;
    }

    // libusb_hotplug_deregister_callback, for each handle in turn: marks only.
    method Deregister(handles: set<nat>)
      requires Valid()
      modifies this`cbs
      ensures Valid() && cbs == MarkAll(old(cbs), handles)
      ensures |cbs| == |old(cbs)| && forall i :: 0 <= i < |cbs| ==> var c := old(cbs)[i];
                cbs[i] == Callback(c.handle, c.filter, c.needsFree || c.handle in handles)
    {
      ghost var before := cbs;
      var i := 0;
      while i < |cbs|
        invariant 0 <= i <= |cbs| == |before|
        invariant forall j :: 0 <= j < i ==> cbs[j] == Mark(before[j], handles)
        invariant forall j :: i <= j < |cbs| ==> cbs[j] == before[j]
      {
        if cbs[i].handle in handles {
          cbs := cbs[i := cbs[i].(needsFree := true)];
        }
        i := i + 1;
      }
      assert cbs == MarkAll(before, handles);
    }

    // A user callback runs, the lock being free.
    method RunCallback(r: Reaction) returns (ghost added: seq<Callback>)
      requires Valid()
      modifies this
      ensures Valid() && nextHandle >= old(nextHandle)
      ensures cbs == added + MarkAll(old(cbs), r.deregisters)
      ensures forall i :: 0 <= i < |added| ==> added[i].handle >= old(nextHandle)
    {
      ghost var before := cbs;
      added := [];
      for i := 0 to |r.registers|
        invariant Valid() && nextHandle >= old(nextHandle) && cbs == added + before
        invariant forall j :: 0 <= j < |added| ==> added[j].handle >= old(nextHandle)
      {
        added := [Callback(nextHandle, r.registers[i], false)] + added;
        Register(r.registers[i]);
      }
      MarkConcat(added, before, r.deregisters);
      added := MarkAll(added, r.deregisters);
      Deregister(r.deregisters);
    }

    // usbi_hotplug_match: exactly the callbacks of the pass are called and kept; the
    // ones registered meanwhile stand in front and are not called.
    method Match(m: Message, react: nat -> Reaction) returns (called: seq<nat>)
      requires Valid() && Sound(m)
      modifies this
      ensures Valid()
      ensures var o := Pass(old(cbs), m, react, {});
              && called == o.called && |o.kept| <= |cbs|
              && cbs[|cbs| - |o.kept|..] == MarkAll(o.kept, o.gone)
              && forall i :: 0 <= i < |cbs| - |o.kept| ==> cbs[i].handle >= old(nextHandle)
    {
      hide Pass, MarkAll, Ahead, Arranged;
      called := [];
      var behind := |cbs|;   // entries from the current one on; what "next" stands for
      ghost var kept: seq<Callback>, rest, gone: set<nat>, front: seq<Callback> := [], cbs, {}, [];
      ghost var o := Pass(cbs, m, react, {});
      Starts(cbs, o);
      while behind > 0
        invariant Valid() && nextHandle >= old(nextHandle) && behind == |rest|
        invariant Arranged(cbs, front, kept, rest, gone) && Ahead(o, called, kept, Pass(rest, m, react, gone))
        invariant forall i :: 0 <= i < |front| ==> front[i].handle >= old(nextHandle)
      {
        Current(cbs, front, kept, rest, gone);
        PassOne(rest, m, react, gone);
        AheadOne(o, called, kept, rest, m, react, gone);
        var c, ret := cbs[|cbs| - behind], false;
        if c.needsFree {
          ret := true;
        } else if Matches(c.filter, m) {
          called := called + [c.handle];
          var r := react(c.handle);
          ghost var before := cbs;
          ghost var added := RunCallback(r);
          Called(before, front, kept, rest, gone, added, cbs, r.deregisters);
          front, gone := added + MarkAll(front, r.deregisters), gone + r.deregisters;
          ret := r.remove;
        }
        Moves(cbs, front, kept, rest, gone);
        if ret {
          var at := |cbs| - behind;
          StillDistinct(cbs, at);
          cbs := cbs[..at] + cbs[at + 1..];
        } else {
          kept := kept + [rest[0]];
        }
        rest, behind := rest[1..], behind - 1;
      }
      Stops(cbs, o, front, called, kept, m, react, gone);
    }
  }

  // The list in the middle of a pass: callbacks registered in it, those passed and
  // kept, those to come.
  ghost predicate Arranged(cbs: seq<Callback>, front: seq<Callback>, kept: seq<Callback>, rest: seq<Callback>,
                           gone: set<nat>) {
    cbs == front + (MarkAll(kept, gone) + MarkAll(rest, gone))
  }

  // The outcome o, of which p is still to come.
  ghost predicate Ahead(o: Outcome, called: seq<nat>, kept: seq<Callback>, p: Outcome) {
    o == Outcome(called + p.called, kept + p.kept, p.gone)
  }

  lemma Starts(cbs: seq<Callback>, o: Outcome)
    ensures Arranged(cbs, [], [], cbs, {}) && Ahead(o, [], [], o)
  {
    MarkNothing(cbs);
    assert [] + o.called == o.called && [] + o.kept == o.kept;
  }

  lemma Current(cbs: seq<Callback>, front: seq<Callback>, kept: seq<Callback>, rest: seq<Callback>, gone: set<nat>)
    requires Arranged(cbs, front, kept, rest, gone)
    ensures |rest| <= |cbs| && (rest != [] ==> cbs[|cbs| - |rest|] == Mark(rest[0], gone))
  {
    hide MarkAll;
  }

  lemma Called(cbs: seq<Callback>, front: seq<Callback>, kept: seq<Callback>, rest: seq<Callback>, gone: set<nat>,
               added: seq<Callback>, cbs': seq<Callback>, more: set<nat>)
    requires Arranged(cbs, front, kept, rest, gone) && cbs' == added + MarkAll(cbs, more) && |rest| <= |cbs|
    ensures Arranged(cbs', added + MarkAll(front, more), kept, rest, gone + more)
    ensures |cbs'| >= |cbs|
  {
    hide MarkAll;
    MarkThree(front, kept, rest, gone, more);
  }

  lemma Moves(cbs: seq<Callback>, front: seq<Callback>, kept: seq<Callback>, rest: seq<Callback>, gone: set<nat>)
    requires Arranged(cbs, front, kept, rest, gone) && rest != []
    ensures |rest| <= |cbs| && Arranged(cbs, front, kept + [rest[0]], rest[1..], gone)
    ensures var at := |cbs| - |rest|; Arranged(cbs[..at] + cbs[at + 1..], front, kept, rest[1..], gone)
  {
    hide MarkAll;
    MarkSplit(kept, rest, gone);
    Without(front, MarkAll(kept, gone), MarkAll(rest, gone), cbs);
  }

  lemma AheadOne(o: Outcome, called: seq<nat>, kept: seq<Callback>, rest: seq<Callback>, m: Message,
                 react: nat -> Reaction, gone: set<nat>)
    requires Sound(m) && rest != [] && Ahead(o, called, kept, Pass(rest, m, react, gone))
    ensures var c, r := rest[0], react(rest[0].handle);
            if c.needsFree || c.handle in gone then Ahead(o, called, kept, Pass(rest[1..], m, react, gone))
            else if !Matches(c.filter, m) then Ahead(o, called, kept + [c], Pass(rest[1..], m, react, gone))
            else Ahead(o, called + [c.handle], if r.remove then kept else kept + [c],
                       Pass(rest[1..], m, react, gone + r.deregisters))
  {
    hide Pass;
    PassOne(rest, m, react, gone);
    var c, r := rest[0], react(rest[0].handle);
    var p := Pass(rest[1..], m, react, gone);
    var p' := Pass(rest[1..], m, react, gone + r.deregisters);
    assert kept + ([c] + p.kept) == kept + [c] + p.kept;
    assert kept + ([c] + p'.kept) == kept + [c] + p'.kept
        && called + ([c.handle] + p'.called) == called + [c.handle] + p'.called;
  }

  lemma Stops(cbs: seq<Callback>, o: Outcome, front: seq<Callback>, called: seq<nat>, kept: seq<Callback>,
              m: Message, react: nat -> Reaction, gone: set<nat>)
    requires Sound(m) && Arranged(cbs, front, kept, [], gone) && Ahead(o, called, kept, Pass([], m, react, gone))
    ensures o == Outcome(called, kept, gone)
    ensures |kept| <= |cbs| && cbs[|cbs| - |kept|..] == MarkAll(kept, gone) && front == cbs[..|cbs| - |kept|]
  {
    hide MarkAll;
    assert called + [] == called && kept + [] == kept;
    assert cbs == front + MarkAll(kept, gone);
  }

  lemma MarkConcat(a: seq<Callback>, b: seq<Callback>, gone: set<nat>)
    ensures MarkAll(a + b, gone) == MarkAll(a, gone) + MarkAll(b, gone)
  {
    hide MarkAll;
  }

  lemma MarkNothing(cbs: seq<Callback>)
    ensures cbs == [] + (MarkAll([], {}) + MarkAll(cbs, {}))
  {
    hide MarkAll;
  }

  lemma MarkTwice(cbs: seq<Callback>, gone: set<nat>, more: set<nat>)
    ensures MarkAll(MarkAll(cbs, gone), more) == MarkAll(cbs, gone + more)
  {
    hide MarkAll;
  }

  lemma MarkThree(front: seq<Callback>, kept: seq<Callback>, rest: seq<Callback>, gone: set<nat>, more: set<nat>)
    ensures MarkAll(front + (MarkAll(kept, gone) + MarkAll(rest, gone)), more)
            == MarkAll(front, more) + (MarkAll(kept, gone + more) + MarkAll(rest, gone + more))
  {
    MarkConcat(front, MarkAll(kept, gone) + MarkAll(rest, gone), more);
    MarkConcat(MarkAll(kept, gone), MarkAll(rest, gone), more);
    MarkTwice(kept, gone, more);
    MarkTwice(rest, gone, more);
  }

  lemma MarkSplit(kept: seq<Callback>, rest: seq<Callback>, gone: set<nat>)
    requires rest != []
    ensures MarkAll(kept + [rest[0]], gone) + MarkAll(rest[1..], gone) == MarkAll(kept, gone) + MarkAll(rest, gone)
    ensures MarkAll(rest, gone)[1..] == MarkAll(rest[1..], gone)
  {
    hide MarkAll;
  }

  lemma Without(front: seq<Callback>, kept: seq<Callback>, rest: seq<Callback>, cbs: seq<Callback>)
    requires rest != [] && cbs == front + (kept + rest)
    ensures var at := |cbs| - |rest|; cbs[..at] + cbs[at + 1..] == front + (kept + rest[1..])
  {
  }

  lemma StillDistinct(cbs: seq<Callback>, at: nat)
    requires Distinct(cbs) && at < |cbs|
    ensures Distinct(cbs[..at] + cbs[at + 1..])
  {
  }

  lemma PassNone(m: Message, react: nat -> Reaction, gone: set<nat>)
    requires Sound(m)
    ensures Pass([], m, react, gone) == Outcome([], [], gone)
  {
  }

  lemma PassOne(cbs: seq<Callback>, m: Message, react: nat -> Reaction, gone: set<nat>)
    requires Sound(m) && cbs != []
    ensures var c, r := cbs[0], react(cbs[0].handle);
            Pass(cbs, m, react, gone) ==
              if c.needsFree || c.handle in gone then Pass(cbs[1..], m, react, gone)
              else if !Matches(c.filter, m) then
                var o := Pass(cbs[1..], m, react, gone); o.(kept := [c] + o.kept)
              else
                var o := Pass(cbs[1..], m, react, gone + r.deregisters);
                Outcome([c.handle] + o.called, if r.remove then o.kept else [c] + o.kept, o.gone)
  {
  }

  /* Who is called in a pass. */

  lemma {:induction false} CalledAreListed(cbs: seq<Callback>, m: Message, react: nat -> Reaction, gone: set<nat>,
                                           h: nat)
    requires Sound(m) && h in Pass(cbs, m, react, gone).called
    ensures exists i :: 0 <= i < |cbs| && cbs[i].handle == h
  {
    hide Pass;
    if cbs == [] {
      PassNone(m, react, gone);
    } else {
      PassOne(cbs, m, react, gone);
      if cbs[0].handle != h {
        var stays := h in Pass(cbs[1..], m, react, gone).called;
        var now := if stays then gone else gone + react(cbs[0].handle).deregisters;
        CalledAreListed(cbs[1..], m, react, now, h);
        var i :| 0 <= i < |cbs[1..]| && cbs[1..][i].handle == h;
        assert cbs[i + 1].handle == h;
      }
    }
  }

  // The first callback is called, and then not again, or never.
  lemma FirstCalled(cbs: seq<Callback>, m: Message, react: nat -> Reaction, gone: set<nat>)
    requires Sound(m) && cbs != [] && Distinct(cbs)
    ensures forall g: set<nat> :: cbs[0].handle !in Pass(cbs[1..], m, react, g).called
    ensures cbs[0].handle in Pass(cbs, m, react, gone).called <==> Callable(cbs[0], m, gone)
  {
    hide Pass;
    PassOne(cbs, m, react, gone);
    forall g: set<nat> | cbs[0].handle in Pass(cbs[1..], m, react, g).called ensures false {
      CalledAreListed(cbs[1..], m, react, g, cbs[0].handle);
    }
  }

  predicate Callable(c: Callback, m: Message, gone: set<nat>)
    requires Sound(m)
  {
    !c.needsFree && c.handle !in gone && Matches(c.filter, m)
  }

  // Deregistered on the way by a callback called before place i.
  ghost predicate DeregisteredBefore(cbs: seq<Callback>, i: nat, called: seq<nat>, react: nat -> Reaction, h: nat)
    requires i <= |cbs|
  {
    exists j :: 0 <= j < i && cbs[j].handle in called && h in react(cbs[j].handle).deregisters
  }

  // A callback is called if and only if it is for the event and for the device's
  // vendor, product and class, and was not deregistered, by whomever, before its turn.
  lemma CalledExactly(cbs: seq<Callback>, m: Message, react: nat -> Reaction, gone: set<nat>, i: nat)
    requires Sound(m) && Distinct(cbs) && i < |cbs|
    ensures var o, c := Pass(cbs, m, react, gone), cbs[i];
            c.handle in o.called <==>
            && !c.needsFree && c.handle !in gone && !DeregisteredBefore(cbs, i, o.called, react, c.handle)
            && m.event.Some? && m.event.value in c.filter.events
            && (c.filter.vendor == None || c.filter.vendor == Some(m.dev.value.vendor))
            && (c.filter.product == None || c.filter.product == Some(m.dev.value.product))
            && (c.filter.devClass == None || c.filter.devClass == Some(m.dev.value.devClass))
  {
    hide Pass, DeregisteredBefore;
    CallableExactly(cbs, m, react, gone, i);
  }

  lemma {:induction false} CallableExactly(cbs: seq<Callback>, m: Message, react: nat -> Reaction, gone: set<nat>,
                                           i: nat)
    requires Sound(m) && Distinct(cbs) && i < |cbs|
    ensures var o := Pass(cbs, m, react, gone);
            cbs[i].handle in o.called <==>
            Callable(cbs[i], m, gone) && !DeregisteredBefore(cbs, i, o.called, react, cbs[i].handle)
  {
    hide Pass, Callable;
    var first, h := cbs[0].handle, cbs[i].handle;
    FirstCalled(cbs, m, react, gone);
    if i > 0 {
      var o, more := Pass(cbs, m, react, gone), if Callable(cbs[0], m, gone) then react(first).deregisters else {};
      var rest, p := cbs[1..], Pass(cbs[1..], m, react, gone + more);
      RestOfPass(cbs, m, react, gone);
      CallableExactly(rest, m, react, gone + more, i - 1);
      Later(cbs, i, o.called, p.called, react, h, more);
      GoneMore(cbs[i], m, gone, more);
    }
  }

  lemma GoneMore(c: Callback, m: Message, gone: set<nat>, more: set<nat>)
    requires Sound(m)
    ensures Callable(c, m, gone + more) <==> Callable(c, m, gone) && c.handle !in more
  {
  }

  // What the rest of a pass calls.
  lemma RestOfPass(cbs: seq<Callback>, m: Message, react: nat -> Reaction, gone: set<nat>)
    requires Sound(m) && cbs != []
    ensures var more := if Callable(cbs[0], m, gone) then react(cbs[0].handle).deregisters else {};
            Pass(cbs, m, react, gone).called ==
              (if Callable(cbs[0], m, gone) then [cbs[0].handle] else [])
              + Pass(cbs[1..], m, react, gone + more).called
  {
    hide Pass;
    PassOne(cbs, m, react, gone);
    assert gone + {} == gone;
  }

  lemma Later(cbs: seq<Callback>, i: nat, called: seq<nat>, more: seq<nat>, react: nat -> Reaction, h: nat,
              gone: set<nat>)
    requires 0 < i <= |cbs|
    requires forall j :: 0 < j < |cbs| ==> (cbs[j].handle in called <==> cbs[j].handle in more)
    requires gone == if cbs[0].handle in called then react(cbs[0].handle).deregisters else {}
    ensures DeregisteredBefore(cbs, i, called, react, h)
            <==> h in gone || DeregisteredBefore(cbs[1..], i - 1, more, react, h)
  {
    if DeregisteredBefore(cbs[1..], i - 1, more, react, h) {
      var j :| 0 <= j < i - 1 && cbs[1..][j].handle in more && h in react(cbs[1..][j].handle).deregisters;
      assert cbs[j + 1].handle in called;
    }
    if DeregisteredBefore(cbs, i, called, react, h) && h !in gone {
      var j :| 0 <= j < i && cbs[j].handle in called && h in react(cbs[j].handle).deregisters;
      assert j > 0 && cbs[1..][j - 1].handle in more;
    }
  }

  // A callback marked before the pass is freed by it; no callback is called twice.
  lemma {:induction false} MarkedAreFreed(cbs: seq<Callback>, m: Message, react: nat -> Reaction, gone: set<nat>)
    requires Sound(m) && Distinct(cbs)
    ensures var o := Pass(cbs, m, react, gone);
            && (forall c :: c in o.kept ==> c in cbs && !c.needsFree && c.handle !in gone)
            && (forall i, j :: 0 <= i < j < |o.called| ==> o.called[i] != o.called[j])
  {
    hide Pass;
    if cbs == [] {
      PassNone(m, react, gone);
    } else {
      PassOne(cbs, m, react, gone);
      FirstCalled(cbs, m, react, gone);
      MarkedAreFreed(cbs[1..], m, react, gone);
      MarkedAreFreed(cbs[1..], m, react, gone + react(cbs[0].handle).deregisters);
    }
  }

  // A callback stays if and only if it was not deregistered before its turn and did
  // not ask for its removal when called.
  lemma {:induction false} KeptExactly(cbs: seq<Callback>, m: Message, react: nat -> Reaction, gone: set<nat>, i: nat)
    requires Sound(m) && Distinct(cbs) && i < |cbs|
    ensures var o, c := Pass(cbs, m, react, gone), cbs[i];
            c in o.kept <==>
            && !c.needsFree && c.handle !in gone && !DeregisteredBefore(cbs, i, o.called, react, c.handle)
            && (c.handle in o.called ==> !react(c.handle).remove)
  {
    hide Pass, Callable;
    FirstCalled(cbs, m, react, gone);
    KeptFirst(cbs, m, react, gone);
    if i > 0 {
      var first, h := cbs[0].handle, cbs[i].handle;
      var more := if Callable(cbs[0], m, gone) then react(first).deregisters else {};
      var o, rest, p := Pass(cbs, m, react, gone), cbs[1..], Pass(cbs[1..], m, react, gone + more);
      RestOfPass(cbs, m, react, gone);
      KeptExactly(rest, m, react, gone + more, i - 1);
      Later(cbs, i, o.called, p.called, react, h, more);
    }
  }

  lemma KeptFirst(cbs: seq<Callback>, m: Message, react: nat -> Reaction, gone: set<nat>)
    requires Sound(m) && Distinct(cbs) && cbs != []
    ensures var o, c := Pass(cbs, m, react, gone), cbs[0];
            var more := if Callable(c, m, gone) then react(c.handle).deregisters else {};
            && (c in o.kept <==>
                !c.needsFree && c.handle !in gone && (Callable(c, m, gone) ==> !react(c.handle).remove))
            && o.kept == (if c in o.kept then [c] else []) + Pass(cbs[1..], m, react, gone + more).kept
            && o.gone == Pass(cbs[1..], m, react, gone + more).gone
  {
    hide Pass;
    var c := cbs[0];
    PassOne(cbs, m, react, gone);
    MarkedAreFreed(cbs[1..], m, react, gone);
    MarkedAreFreed(cbs[1..], m, react, gone + react(c.handle).deregisters);
    assert gone + {} == gone && c !in cbs[1..];
  }

  // The callbacks kept and those called come in the order of the list.
  lemma {:induction false} InOrder(cbs: seq<Callback>, m: Message, react: nat -> Reaction, gone: set<nat>)
    requires Sound(m) && Distinct(cbs)
    ensures var o := Pass(cbs, m, react, gone); Below(o.kept, cbs) && Below(o.called, Handles(cbs))
  {
    hide Pass, Callable;
    if cbs == [] {
      PassNone(m, react, gone);
    } else {
      var more := if Callable(cbs[0], m, gone) then react(cbs[0].handle).deregisters else {};
      RestOfPass(cbs, m, react, gone);
      KeptFirst(cbs, m, react, gone);
      InOrder(cbs[1..], m, react, gone + more);
      var o, p := Pass(cbs, m, react, gone), Pass(cbs[1..], m, react, gone + more);
      BelowMore(cbs[0] in o.kept, cbs[0], p.kept, cbs, cbs[1..]);
      BelowMore(Callable(cbs[0], m, gone), cbs[0].handle, p.called, Handles(cbs), Handles(cbs[1..]));
    }
  }

  lemma BelowMore<T>(taken: bool, x: T, a: seq<T>, b: seq<T>, tail: seq<T>)
    requires b == [x] + tail && Below(a, tail)
    ensures Below((if taken then [x] else []) + a, b)
  {
    assert b[1..] == tail && [] + a == a;
    if taken { assert ([x] + a)[1..] == a; }
  }

  function Handles(cbs: seq<Callback>): seq<nat> {
    if cbs == [] then [] else [cbs[0].handle] + Handles(cbs[1..])
  }

  // a is b with elements left out.
  predicate Below<T(==)>(a: seq<T>, b: seq<T>) {
    if b == [] then a == [] else Below(a, b[1..]) || (a != [] && a[0] == b[0] && Below(a[1..], b[1..]))
  }

  // Deregistered in the end is what was so before and what the called ones deregister.
  lemma {:induction false} GoneExactly(cbs: seq<Callback>, m: Message, react: nat -> Reaction, gone: set<nat>, h: nat)
    requires Sound(m) && Distinct(cbs)
    ensures var o := Pass(cbs, m, react, gone);
            h in o.gone <==> h in gone || exists c :: c in o.called && h in react(c).deregisters
  {
    hide Pass, Callable;
    if cbs == [] {
      PassNone(m, react, gone);
    } else {
      var more := if Callable(cbs[0], m, gone) then react(cbs[0].handle).deregisters else {};
      RestOfPass(cbs, m, react, gone);
      KeptFirst(cbs, m, react, gone);
      GoneExactly(cbs[1..], m, react, gone + more, h);
      var o, p := Pass(cbs, m, react, gone), Pass(cbs[1..], m, react, gone + more);
      assert forall c :: c in o.called <==> c in p.called || (Callable(cbs[0], m, gone) && c == cbs[0].handle);
    }
  }
}
