/**
  The sample stream of sdrtcp.c between pool_set_threads and pool_free: one
  producer in sdrtcp_feed, one consumer in serveClient, the buffers of the pool
  going round between them.  A step is one locked queue operation, one copy into a
  buffer or one call of select or send; stop requests come at any time.
 */
module SdrPipeline {
  import opened Octets

  const POOL_MAX_ELEMENTS := 5

  datatype Producer =
    | Idle
    | First(data: seq<byte>)      // first pop of pool_get_wait_lock
    | Room(data: seq<byte>)       // may the pool grow?
    | Again(data: seq<byte>)      // the blocking pop: before and after the wait
    | Write(data: seq<byte>, buf: nat)
    | Handover(data: seq<byte>, buf: nat)

  datatype Consumer =
    | Waiting
    | Sending(buf: nat, index: int, left: int)
    | Polling(buf: nat, index: int, left: int)   // past the check of the state
    | Returning(buf: nat)
    | Ended

  // mem: the valid bytes of each buffer.  result: what the last call of sdrtcp_feed
  // returned.  sent: what send accepted.  accepted: the header and all data handed
  // over, in order.
  datatype State = State(
    free: seq<nat>, full: seq<nat>, mem: seq<seq<byte>>,
    producer: Producer, consumer: Consumer,
    serving: bool, result: int, sent: seq<byte>, accepted: seq<byte>)

  datatype Step =
    | Feed(data: seq<byte>) | FeedRefused | PopFree | Grow | PopFreeAgain(last: bool) | Copy | HandOver
    | PopFull | CheckLoop | Send(n: nat) | SendFails | SelectFails | EndSending | Return | Leave
    | Stop

  predicate Enabled(s: State, step: Step) {
    match step
    case Feed(data) => s.producer.Idle? && s.serving
    case FeedRefused => s.producer.Idle? && !s.serving
    case PopFree => s.producer.First?
    case Grow => s.producer.Room?
    case PopFreeAgain(last) => s.producer.Again?
    case Copy => s.producer.Write? && s.producer.buf < |s.mem|
    case HandOver => s.producer.Handover? && s.producer.buf < |s.mem|
    case PopFull => s.consumer.Waiting? && (s.full != [] ==> s.full[0] < |s.mem|)
    case CheckLoop => s.consumer.Sending? && s.consumer.left > 0 && s.serving
    // send takes a part of what is left; none when the wait ends without room.
    case Send(n) => s.consumer.Polling? && n <= s.consumer.left && s.consumer.buf < |s.mem|
                    && 0 <= s.consumer.index && s.consumer.index + n <= |s.mem[s.consumer.buf]|
    case SendFails => s.consumer.Polling?
    case SelectFails => s.consumer.Polling?
    case EndSending => s.consumer.Sending? && (s.consumer.left <= 0 || !s.serving)
    case Return => s.consumer.Returning? && s.consumer.buf < |s.mem|
    case Leave => s.consumer.Waiting? && !s.serving
    case Stop => true
  }

  function Apply(s: State, step: Step): State
    requires Enabled(s, step)
  {
    match step
    case Feed(data) => s.(producer := First(data))
    case FeedRefused => s.(result := 0)
    case PopFree =>
      if s.free != [] then s.(free := s.free[1..], producer := Write(s.producer.data, s.free[0]))
      else s.(producer := Room(s.producer.data))
    case Grow =>
      // pool->elements is |mem|.
      if |s.mem| < POOL_MAX_ELEMENTS then s.(mem := s.mem + [[]], producer := Write(s.producer.data, |s.mem|))
      else s.(producer := Again(s.producer.data))
    case PopFreeAgain(last) =>
      if s.free != [] then s.(free := s.free[1..], producer := Write(s.producer.data, s.free[0]))
      else if last then s.(producer := Idle, result := 1)
      else s
    case Copy =>
      s.(mem := s.mem[s.producer.buf := s.producer.data], producer := Handover(s.producer.data, s.producer.buf))
    case HandOver =>
      s.(full := s.full + [s.producer.buf], accepted := s.accepted + s.mem[s.producer.buf],
          producer := Idle, result := 1)
    case PopFull =>
      if s.full == [] then s
      else s.(full := s.full[1..], consumer := Sending(s.full[0], 0, |s.mem[s.full[0]]|))
    case CheckLoop => s.(consumer := Polling(s.consumer.buf, s.consumer.index, s.consumer.left))
    case Send(n) =>
      var Polling(buf, index, left) := s.consumer;
      s.(sent := s.sent + s.mem[buf][index..index + n], consumer := Sending(buf, index + n, left - n))
    case SendFails =>
      // The -1 is subtracted and added like a count.
      var Polling(buf, index, left) := s.consumer;
      s.(consumer := Sending(buf, index - 1, left + 1), serving := false)
    case SelectFails => s.(consumer := Sending(s.consumer.buf, s.consumer.index, s.consumer.left), serving := false)
    case EndSending => s.(consumer := Returning(s.consumer.buf))
    case Return =>
      s.(mem := s.mem[s.consumer.buf := []], free := s.free + [s.consumer.buf], consumer := Waiting)
    case Leave => s.(consumer := Ended)
    case Stop => s.(serving := false)
  }

  // The header enqueued by sdrtcp_open_socket is the first thing to send.
  function Header(magic: seq<byte>, dongleType: nat, gainsCount: nat): (h: seq<byte>)
    requires |magic| == 4 && dongleType < 0x1_0000_0000 && gainsCount < 0x1_0000_0000
    ensures |h| == 12
  {
    magic + NetworkOrder(dongleType) + NetworkOrder(gainsCount)
  }

  predicate Init(s: State, header: seq<byte>) {
    s == State([], [0], [header], Idle, Waiting, true, 0, [], header)
  }

  ghost predicate IsRun(states: seq<State>, steps: seq<Step>, header: seq<byte>) {
    && |states| == |steps| + 1 && Init(states[0], header)
    && forall i :: 0 <= i < |steps| ==> Enabled(states[i], steps[i]) && states[i + 1] == Apply(states[i], steps[i])
  }
}
