/**
  The courses of the sample stream that nothing interrupts: a feed, a buffer sent in
  pieces of any size, and the end of the service after a stop or an error.
 */
module SdrPipelinePaths {
  import opened Octets
  import opened SdrPipeline

  // One step after the other leads from s to the last state.
  ghost predicate Leads(s: State, steps: seq<Step>, end: State)
    decreases |steps|
  {
    if steps == [] then s == end
    else Enabled(s, steps[0]) && Leads(Apply(s, steps[0]), steps[1..], end)
  }

  lemma One(s: State, step: Step, steps: seq<Step>, end: State)
    requires Enabled(s, step) && Leads(Apply(s, step), steps, end)
    ensures Leads(s, [step] + steps, end)
  {
    assert ([step] + steps)[1..] == steps;
  }

  lemma Last(s: State)
    ensures Leads(s, [], s)
  {
  }

  /* Feeding. */

  // sdrtcp_feed begins while clients are served; otherwise it returns 0 at once.
  lemma FeedBeginsExactly(s: State, data: seq<byte>)
    requires s.producer.Idle?
    ensures Enabled(s, Feed(data)) <==> s.serving
    ensures Enabled(s, FeedRefused) <==> !s.serving
    ensures !s.serving ==> Apply(s, FeedRefused) == s.(result := 0)
  {
  }

  // With a free buffer, the first of them takes the data and is queued.
  lemma FeedAlone(s: State, data: seq<byte>)
    requires s.producer.Idle? && s.serving && s.free != [] && s.free[0] < |s.mem|
    ensures Leads(s, [Feed(data), PopFree, Copy, HandOver],
                  s.(free := s.free[1..], mem := s.mem[s.free[0] := data], full := s.full + [s.free[0]],
                     accepted := s.accepted + data, result := 1))
  {
    hide Leads;
    var buf := s.free[0];
    var s2 := s.(free := s.free[1..], producer := Write(data, buf));
    var s3 := s2.(mem := s.mem[buf := data], producer := Handover(data, buf));
    var s4 := s3.(full := s.full + [buf], accepted := s.accepted + data, producer := Idle, result := 1);
    Last(s4);
    One(s3, HandOver, [], s4);
    One(s2, Copy, [HandOver] + [], s4);
    One(s.(producer := First(data)), PopFree, [Copy] + ([HandOver] + []), s4);
    One(s, Feed(data), [PopFree] + ([Copy] + ([HandOver] + [])), s4);
    assert [Feed(data)] + ([PopFree] + ([Copy] + ([HandOver] + []))) == [Feed(data), PopFree, Copy, HandOver];
  }

  // Without one, a pool of fewer than five buffers grows by one that does.
  lemma FeedGrows(s: State, data: seq<byte>)
    requires s.producer.Idle? && s.serving && s.free == [] && |s.mem| < 5
    ensures Leads(s, [Feed(data), PopFree, Grow, Copy, HandOver],
                  s.(mem := s.mem + [data], full := s.full + [|s.mem|], accepted := s.accepted + data, result := 1))
  {
    hide Leads;
    var buf := |s.mem|;
    var s1 := s.(producer := First(data));
    var s2 := s.(producer := Room(data));
    var s3 := s.(mem := s.mem + [[]], producer := Write(data, buf));
    assert (s.mem + [[]])[buf := data] == s.mem + [data];
    var s4 := s3.(mem := s.mem + [data], producer := Handover(data, buf));
    var s5 := s4.(full := s.full + [buf], accepted := s.accepted + data, producer := Idle, result := 1);
    Last(s5);
    One(s4, HandOver, [], s5);
    One(s3, Copy, [HandOver] + [], s5);
    One(s2, Grow, [Copy] + ([HandOver] + []), s5);
    One(s1, PopFree, [Grow] + ([Copy] + ([HandOver] + [])), s5);
    One(s, Feed(data), [PopFree] + ([Grow] + ([Copy] + ([HandOver] + []))), s5);
    assert [Feed(data)] + ([PopFree] + ([Grow] + ([Copy] + ([HandOver] + []))))
        == [Feed(data), PopFree, Grow, Copy, HandOver];
  }

  /* Sending. */

  function Sum(pieces: seq<nat>): nat {
    if pieces == [] then 0 else pieces[0] + Sum(pieces[1..])
  }

  // A turn of the loop for each piece, and back to the pool.
  function Turns(pieces: seq<nat>): seq<Step> {
    if pieces == [] then [EndSending, Return] else [CheckLoop, Send(pieces[0])] + Turns(pieces[1..])
  }

  // None but the last piece is all that is left.
  predicate Pieces(pieces: seq<nat>, left: nat) {
    if pieces == [] then left == 0 else pieces[0] <= left && left > 0 && Pieces(pieces[1..], left - pieces[0])
  }

  // The state in which the buffer has been sent up to index.
  predicate AtIndex(s: State, buf: nat, index: nat) {
    s.serving && buf < |s.mem| && index <= |s.mem[buf]| && s.consumer == Sending(buf, index, |s.mem[buf]| - index)
  }

  lemma {:induction false} RestSent(s: State, buf: nat, index: nat, pieces: seq<nat>)
    requires AtIndex(s, buf, index) && Pieces(pieces, |s.mem[buf]| - index)
    ensures Leads(s, Turns(pieces), s.(sent := s.sent + s.mem[buf][index..], mem := s.mem[buf := []],
                                       free := s.free + [buf], consumer := Waiting))
    decreases |pieces|
  {
    hide Leads;
    var bytes := s.mem[buf];
    var end := s.(sent := s.sent + bytes[index..], mem := s.mem[buf := []], free := s.free + [buf],
                  consumer := Waiting);
    if pieces == [] {
      assert s.sent + bytes[index..] == s.sent;
      Last(end);
      One(s.(consumer := Returning(buf)), Return, [], end);
      One(s, EndSending, [Return] + [], end);
      assert [EndSending] + ([Return] + []) == [EndSending, Return];
    } else {
      var n := pieces[0];
      var s1 := s.(consumer := Polling(buf, index, |bytes| - index));
      var s2 := s.(sent := s.sent + bytes[index..index + n], consumer := Sending(buf, index + n, |bytes| - index - n));
      RestSent(s2, buf, index + n, pieces[1..]);
      assert s.sent + bytes[index..index + n] + bytes[index + n..] == s.sent + bytes[index..];
      One(s1, Send(n), Turns(pieces[1..]), end);
      One(s, CheckLoop, [Send(n)] + Turns(pieces[1..]), end);
      assert [CheckLoop] + ([Send(n)] + Turns(pieces[1..])) == Turns(pieces);
    }
  }

  // A queued buffer leaves as a whole, in whatever pieces send takes it, and comes
  // back emptied as the last of the free ones.
  lemma BufferSentAlone(s: State, pieces: seq<nat>)
    requires s.consumer.Waiting? && s.serving && s.full != [] && s.full[0] < |s.mem|
    requires Pieces(pieces, |s.mem[s.full[0]]|)
    ensures var buf := s.full[0];
            Leads(s, [PopFull] + Turns(pieces),
                  s.(full := s.full[1..], sent := s.sent + s.mem[buf], mem := s.mem[buf := []],
                     free := s.free + [buf]))
  {
    hide Leads;
    var buf := s.full[0];
    var s1 := s.(full := s.full[1..], consumer := Sending(buf, 0, |s.mem[buf]|));
    RestSent(s1, buf, 0, pieces);
    assert s.mem[buf][0..] == s.mem[buf];
    One(s, PopFull, Turns(pieces),
        s.(full := s.full[1..], sent := s.sent + s.mem[buf], mem := s.mem[buf := []], free := s.free + [buf]));
  }

  // Nothing is ever asked of send when nothing is left.
  lemma {:induction false} NeverSendsNothing(states: seq<State>, steps: seq<Step>, header: seq<byte>, k: nat)
    requires IsRun(states, steps, header) && k < |states|
    ensures states[k].consumer.Polling? ==> states[k].consumer.left > 0
  {
    if k > 0 { NeverSendsNothing(states, steps, header, k - 1); }
  }

  /* The end of the service. */

  // A stop ends a service that waits for a buffer; nothing else changes.
  lemma StopAlone(s: State)
    requires s.consumer.Waiting?
    ensures Leads(s, [Stop, Leave], s.(serving := false, consumer := Ended))
    ensures s.serving ==> !Enabled(s, Leave)
  {
    hide Leads;
    var end := s.(serving := false, consumer := Ended);
    Last(end);
    One(s.(serving := false), Leave, [], end);
    One(s, Stop, [Leave] + [], end);
    assert [Stop] + ([Leave] + []) == [Stop, Leave];
  }

  // An error of send or select ends it in the middle of a buffer: no more of it leaves,
  // and it goes back emptied.
  lemma ErrorAlone(s: State, error: Step)
    requires s.consumer.Polling? && s.consumer.buf < |s.mem| && (error == SendFails || error == SelectFails)
    ensures Leads(s, [error, EndSending, Return, Leave],
                  s.(serving := false, mem := s.mem[s.consumer.buf := []], free := s.free + [s.consumer.buf],
                     consumer := Ended))
  {
    hide Leads;
    var buf := s.consumer.buf;
    var s1 := Apply(s, error);
    var s2 := s.(serving := false, consumer := Returning(buf));
    var s3 := s2.(mem := s.mem[buf := []], free := s.free + [buf], consumer := Waiting);
    var end := s3.(consumer := Ended);
    Last(end);
    One(s3, Leave, [], end);
    One(s2, Return, [Leave] + [], end);
    One(s1, EndSending, [Return] + ([Leave] + []), end);
    One(s, error, [EndSending] + ([Return] + ([Leave] + [])), end);
    assert [error] + ([EndSending] + ([Return] + ([Leave] + []))) == [error, EndSending, Return, Leave];
  }
}
