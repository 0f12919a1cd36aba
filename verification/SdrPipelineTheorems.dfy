/**
  Stream integrity and buffer conservation of the sample pipeline, in every
  reachable state.
 */
module SdrPipelineTheorems {
  import opened Octets
  import opened SdrPipeline

  /* Conservation. */

  // How often b stands in a queue, and how many of one place it takes.
  function Times(q: seq<nat>, b: nat): nat { multiset(q)[b] }

  function One(yes: bool): nat { if yes then 1 else 0 }

  predicate ProducerHolds(p: Producer) { p.Write? || p.Handover? }

  predicate ConsumerHolds(c: Consumer) { c.Sending? || c.Polling? || c.Returning? }

  function Places(s: State, b: nat): nat {
    Times(s.free, b) + Times(s.full, b)
    + One(ProducerHolds(s.producer) && s.producer.buf == b)
    + One(ConsumerHolds(s.consumer) && s.consumer.buf == b)
  }

  function Total(s: State): nat {
    |s.free| + |s.full| + One(ProducerHolds(s.producer)) + One(ConsumerHolds(s.consumer))
  }

  // Every buffer of the pool is in exactly one place, and there are at most five.
  ghost predicate Conserved(s: State) {
    && |s.mem| <= POOL_MAX_ELEMENTS && Total(s) == |s.mem|
    && forall b: nat :: Places(s, b) == One(b < |s.mem|)
  }

  lemma Popped(q: seq<nat>, b: nat)
    requires q != []
    ensures Times(q, b) == Times(q[1..], b) + One(q[0] == b)
  {
    assert q == [q[0]] + q[1..];
  }

  lemma Pushed(q: seq<nat>, x: nat, b: nat)
    ensures Times(q + [x], b) == Times(q, b) + One(x == b)
  {
  }

  lemma StepPlaces(s: State, step: Step, b: nat)
    requires Enabled(s, step)
    ensures var t := Apply(s, step);
            && |t.mem| == |s.mem| + One(step.Grow? && |s.mem| < POOL_MAX_ELEMENTS)
            && Total(t) - |t.mem| == Total(s) - |s.mem|
            && Places(t, b) == Places(s, b) + One(|t.mem| > |s.mem| && b == |s.mem|)
  {
    hide Times;
    if (step.PopFree? || step.PopFreeAgain?) && s.free != [] { Popped(s.free, b); }
    if step.PopFull? && s.full != [] { Popped(s.full, b); }
    if step.HandOver? { Pushed(s.full, s.producer.buf, b); }
    if step.Return? { Pushed(s.free, s.consumer.buf, b); }
  }

  lemma StepConserves(s: State, step: Step)
    requires Conserved(s) && Enabled(s, step)
    ensures Conserved(Apply(s, step))
  {
    hide Apply, Enabled, Places, Total;
    StepPlaces(s, step, 0);
    var t := Apply(s, step);
    forall b: nat ensures Places(t, b) == One(b < |t.mem|) {
      StepPlaces(s, step, b);
    }
  }

  lemma {:induction false} BuffersAreConserved(states: seq<State>, steps: seq<Step>, header: seq<byte>, k: nat)
    requires IsRun(states, steps, header) && k < |states|
    ensures Conserved(states[k])
  {
    if k > 0 {
      BuffersAreConserved(states, steps, header, k - 1);
      StepConserves(states[k - 1], steps[k - 1]);
    }
  }

  /* The stream. */

  // The bytes of the queued buffers.
  function Stream(full: seq<nat>, mem: seq<seq<byte>>): seq<byte> {
    if full == [] then [] else Contents(full[0], mem) + Stream(full[1..], mem)
  }

  function Contents(b: nat, mem: seq<seq<byte>>): seq<byte> {
    if b < |mem| then mem[b] else []
  }

  // What the consumer has still to send of its buffer.
  function Rest(c: Consumer, mem: seq<seq<byte>>): seq<byte> {
    if (c.Sending? || c.Polling?) && 0 <= c.index <= |Contents(c.buf, mem)| then Contents(c.buf, mem)[c.index..]
    else []
  }

  // index and left delimit what remains.
  predicate InStep(c: Consumer, mem: seq<seq<byte>>) {
    c.Sending? || c.Polling? ==> 0 <= c.index && 0 <= c.left && c.index + c.left == |Contents(c.buf, mem)|
  }

  // Nothing was lost: what was accepted is sent, being sent or queued.
  predicate Whole(s: State) {
    InStep(s.consumer, s.mem) && s.accepted == s.sent + Rest(s.consumer, s.mem) + Stream(s.full, s.mem)
  }

  predicate Integrity(s: State) {
    && s.sent <= s.accepted
    && (Whole(s) || (!s.serving && !s.consumer.Polling?))
  }

  lemma {:induction false} StreamPush(full: seq<nat>, b: nat, mem: seq<seq<byte>>)
    ensures Stream(full + [b], mem) == Stream(full, mem) + Contents(b, mem)
  {
    if full == [] {
      assert [] + [b] == [b] && [b][1..] == [];
    } else {
      StreamPush(full[1..], b, mem);
      assert (full + [b])[1..] == full[1..] + [b];
    }
  }

  lemma {:induction false} StreamSame(full: seq<nat>, mem: seq<seq<byte>>, mem': seq<seq<byte>>)
    requires forall b :: b in full ==> Contents(b, mem') == Contents(b, mem)
    ensures Stream(full, mem') == Stream(full, mem)
  {
    if full != [] { StreamSame(full[1..], mem, mem'); }
  }

  // A step that writes into a buffer writes into one held by a thread, so neither
  // the queued buffers nor the one being sent change.
  lemma QueuedUntouched(s: State, step: Step)
    requires Conserved(s) && Enabled(s, step)
    ensures var mem := Apply(s, step).mem;
            && Stream(s.full, mem) == Stream(s.full, s.mem)
            && (!step.Return? && ConsumerHolds(s.consumer) ==>
                  Contents(s.consumer.buf, mem) == Contents(s.consumer.buf, s.mem))
  {
    var mem := Apply(s, step).mem;
    forall b | b in s.full || (!step.Return? && ConsumerHolds(s.consumer) && b == s.consumer.buf)
      ensures Contents(b, mem) == Contents(b, s.mem)
    {
      assert Places(s, b) == One(b < |s.mem|);
      if b in s.full { assert Times(s.full, b) >= 1; }
    }
    StreamSame(s.full, s.mem, mem);
  }

  lemma AfterLoss(s: State, step: Step)
    requires Enabled(s, step) && !s.serving && !s.consumer.Polling? && s.sent <= s.accepted
    ensures Integrity(Apply(s, step))
  {
    hide Whole;
  }

  predicate ProducerStep(step: Step) {
    step.Feed? || step.FeedRefused? || step.PopFree? || step.Grow? || step.PopFreeAgain? || step.Copy?
        || step.HandOver?
  }

  // What was being sent, with a part of it moved to what is sent.
  lemma SendPart(sent: seq<byte>, data: seq<byte>, index: nat, n: nat)
    requires index + n <= |data|
    ensures sent + data[index..] == sent + data[index..index + n] + data[index + n..]
  {
    assert data[index..] == data[index..index + n] + data[index + n..];
  }

  lemma WholeIsPrefix(s: State)
    requires Whole(s)
    ensures s.sent <= s.accepted
  {
  }

  lemma ProducerKeepsWhole(s: State, step: Step)
    requires Conserved(s) && Whole(s) && Enabled(s, step)
    requires ProducerStep(step)
    ensures Whole(Apply(s, step))
  {
    hide Conserved, Stream;
    QueuedUntouched(s, step);
    if step.HandOver? {
      var b := s.producer.buf;
      StreamPush(s.full, b, s.mem);
      assert Contents(b, s.mem) == s.mem[b];
      assert s.sent + Rest(s.consumer, s.mem) + (Stream(s.full, s.mem) + s.mem[b])
          == s.sent + Rest(s.consumer, s.mem) + Stream(s.full, s.mem) + s.mem[b];
    }
  }

  lemma ConsumerKeepsWhole(s: State, step: Step)
    requires Conserved(s) && Whole(s) && Enabled(s, step)
    requires step.PopFull? || step.CheckLoop? || step.Send? || step.Return? || step.Leave? || step.Stop?
    ensures Whole(Apply(s, step))
  {
    hide Conserved;
    QueuedUntouched(s, step);
    if step.Send? {
      SendPart(s.sent, s.mem[s.consumer.buf], s.consumer.index, step.n);
    }
  }

  lemma StepIntegrity(s: State, step: Step)
    requires Conserved(s) && Integrity(s) && Enabled(s, step)
    ensures Integrity(Apply(s, step))
  {
    if !Whole(s) {
      AfterLoss(s, step);
    } else if step.SendFails? || step.SelectFails? || step.EndSending? {
      GiveUp(s, step);
    } else {
      hide Whole, Apply, Enabled;
      if ProducerStep(step) { ProducerKeepsWhole(s, step); } else { ConsumerKeepsWhole(s, step); }
      WholeIsPrefix(Apply(s, step));
    }
  }

  lemma GiveUp(s: State, step: Step)
    requires Integrity(s) && Whole(s) && Enabled(s, step)
    requires step.SendFails? || step.SelectFails? || step.EndSending?
    ensures Integrity(Apply(s, step))
  {
  }

  // The buffer handed over holds the data of the call; only a full pool makes the
  // producer wait.
  predicate Copied(s: State) {
    && (s.producer.Handover? ==> Contents(s.producer.buf, s.mem) == s.producer.data)
    && (s.producer.Again? ==> |s.mem| >= POOL_MAX_ELEMENTS)
  }

  lemma StepCopied(s: State, step: Step)
    requires Conserved(s) && Copied(s) && Enabled(s, step)
    ensures Copied(Apply(s, step))
  {
    if s.producer.Handover? && step.Return? {
      var b := s.producer.buf;
      assert Places(s, b) == One(b < |s.mem|);
    }
  }

  // The data of the calls of sdrtcp_feed that got a buffer, in order.
  function AcceptedFeeds(states: seq<State>, steps: seq<Step>, k: nat): seq<byte>
    requires k <= |steps| && |states| == |steps| + 1
  {
    if k == 0 then []
    else
      var p := states[k - 1].producer;
      AcceptedFeeds(states, steps, k - 1) + if steps[k - 1].HandOver? && p.Handover? then p.data else []
  }

  lemma InitHolds(s: State, header: seq<byte>)
    requires Init(s, header)
    ensures Conserved(s) && Integrity(s) && Copied(s) && s.accepted == header + []
  {
    assert Stream([0], [header]) == header + Stream([0][1..], [header]) == header + [];
    assert [] + [] + header == header == header + [];
  }

  lemma {:induction false} RunKeeps(states: seq<State>, steps: seq<Step>, header: seq<byte>, k: nat)
    requires IsRun(states, steps, header) && k < |states|
    ensures var s := states[k];
            Conserved(s) && Integrity(s) && Copied(s) && s.accepted == header + AcceptedFeeds(states, steps, k)
  {
    hide Conserved, Integrity, Copied, Apply, Enabled, Init;
    if k == 0 {
      InitHolds(states[0], header);
    } else {
      var s, step := states[k - 1], steps[k - 1];
      RunKeeps(states, steps, header, k - 1);
      StepConserves(s, step);
      StepIntegrity(s, step);
      StepCopied(s, step);
      Accepts(s, step);
      var fed := AcceptedFeeds(states, steps, k - 1);
      if step.HandOver? {
        HandsOver(s, step);
        assert header + (fed + s.producer.data) == header + fed + s.producer.data;
      }
    }
  }

  lemma HandsOver(s: State, step: Step)
    requires Enabled(s, step) && step.HandOver?
    ensures s.producer.Handover?
  {
  }

  lemma Accepts(s: State, step: Step)
    requires Enabled(s, step) && Copied(s)
    ensures Apply(s, step).accepted == if step.HandOver? then s.accepted + s.producer.data else s.accepted
  {
  }

  // What the client has received is always a prefix of the header and the accepted
  // feeds in order; as long as the server serves nothing of it is lost; and send
  // only ever reads bytes of the buffer.
  lemma StreamIntegrity(states: seq<State>, steps: seq<Step>, header: seq<byte>, k: nat)
    requires IsRun(states, steps, header) && k < |states|
    ensures var s := states[k];
            && s.sent <= header + AcceptedFeeds(states, steps, k)
            && (s.serving ==>
                  header + AcceptedFeeds(states, steps, k) == s.sent + Rest(s.consumer, s.mem) + Stream(s.full, s.mem))
            && (s.serving && s.consumer.Waiting? && s.full == [] ==>
                  s.sent == header + AcceptedFeeds(states, steps, k))
            && (s.consumer.Polling? ==> s.consumer.buf < |s.mem| && InStep(s.consumer, s.mem))
  {
    RunKeeps(states, steps, header, k);
    var s := states[k];
    if s.consumer.Polling? { assert Places(s, s.consumer.buf) == One(s.consumer.buf < |s.mem|); }
  }

  // How a call of sdrtcp_feed ends: its data is accepted, or dropped although the
  // call returns 1.  It is dropped exactly when the wait for a buffer ends with all
  // five queued for the client or being sent.
  lemma FeedEnds(states: seq<State>, steps: seq<Step>, header: seq<byte>, k: nat)
    requires IsRun(states, steps, header) && k < |steps|
    requires !states[k].producer.Idle? && states[k + 1].producer.Idle?
    ensures var s, t := states[k], states[k + 1];
            && t.result == 1
            && if s.producer.Handover? then t.accepted == s.accepted + s.producer.data
            else && steps[k] == PopFreeAgain(true) && t.accepted == s.accepted
                 && s.free == [] && |s.full| + One(ConsumerHolds(s.consumer)) == POOL_MAX_ELEMENTS
  {
    RunKeeps(states, steps, header, k);
    Accepts(states[k], steps[k]);
  }

  lemma Extend(states: seq<State>, steps: seq<Step>, header: seq<byte>, step: Step) returns (more: seq<State>)
    requires IsRun(states, steps, header) && |states| > 0 && Enabled(states[|states| - 1], step)
    ensures IsRun(more, steps + [step], header) && |more| == |states| + 1
    ensures more[..|states|] == states && more[|states|] == Apply(states[|states| - 1], step)
  {
    more := states + [Apply(states[|states| - 1], step)];
    var all := steps + [step];
    forall i | 0 <= i < |all| ensures Enabled(more[i], all[i]) && more[i + 1] == Apply(more[i], all[i]) {
      if i < |steps| { assert states[i + 1] == Apply(states[i], steps[i]); }
    }
  }

  // n calls behind the header, the consumer not having moved.
  predicate Stacked(s: State, n: nat) {
    && s.free == [] && |s.full| == |s.mem| == n + 1
    && s.producer.Idle? && s.consumer.Waiting? && s.serving
  }

  lemma FirstHalf(states: seq<State>, steps: seq<Step>, header: seq<byte>, data: seq<byte>, n: nat)
    returns (states': seq<State>, steps': seq<Step>)
    requires IsRun(states, steps, header) && |states| > 0 && Stacked(states[|states| - 1], n)
    ensures IsRun(states', steps', header) && |states'| > 0
    ensures states'[|states'| - 1] == states[|states| - 1].(producer := Room(data))
  {
    hide IsRun;
    states' := Extend(states, steps, header, Feed(data));
    steps' := steps + [Feed(data)];
    states' := Extend(states', steps', header, PopFree);
    steps' := steps' + [PopFree];
  }

  lemma {:induction false} FillPool(header: seq<byte>, data: seq<byte>, n: nat)
    returns (states: seq<State>, steps: seq<Step>)
    requires n < POOL_MAX_ELEMENTS
    ensures IsRun(states, steps, header) && |states| > 0 && Stacked(states[|states| - 1], n)
  {
    if n == 0 {
      states, steps := [State([], [0], [header], Idle, Waiting, true, 0, [], header)], [];
    } else {
      hide IsRun;
      states, steps := FillPool(header, data, n - 1);
      states, steps := FirstHalf(states, steps, header, data, n - 1);
      states := Extend(states, steps, header, Grow);
      steps := steps + [Grow];
      states := Extend(states, steps, header, Copy);
      steps := steps + [Copy];
      states := Extend(states, steps, header, HandOver);
      steps := steps + [HandOver];
    }
  }

  // Four feeds behind the header with a client that does not read: the fifth is
  // dropped and returns 1 all the same.
  lemma FeedDropped(header: seq<byte>, data: seq<byte>) returns (states: seq<State>, steps: seq<Step>)
    ensures IsRun(states, steps, header) && |states| > 1
    ensures var s, t := states[|states| - 2], states[|states| - 1];
            && s.producer == Again(data) && s.serving && t.producer.Idle? && t.result == 1
            && t.accepted == s.accepted && t.full == s.full
  {
    hide IsRun;
    states, steps := FillPool(header, data, 4);
    states, steps := FirstHalf(states, steps, header, data, 4);
    states := Extend(states, steps, header, Grow);
    steps := steps + [Grow];
    var n := |states|;
    states := Extend(states, steps, header, PopFreeAgain(true));
    steps := steps + [PopFreeAgain(true)];
    assert states[n - 1] == states[..n][n - 1];
  }

  // The first 12 bytes a client receives tell it the kind of dongle.
  lemma HeaderReadable(magic: seq<byte>, dongleType: nat, gainsCount: nat)
    requires |magic| == 4 && dongleType < 0x1_0000_0000 && gainsCount < 0x1_0000_0000
    ensures var h := Header(magic, dongleType, gainsCount);
            h[..4] == magic && BigEndian(h[4..8]) == dongleType && BigEndian(h[8..]) == gainsCount
  {
    var h := Header(magic, dongleType, gainsCount);
    assert h[4..8] == NetworkOrder(dongleType) && h[8..] == NetworkOrder(gainsCount);
    NetworkOrderRoundTrip(dongleType);
    NetworkOrderRoundTrip(gainsCount);
  }
}
