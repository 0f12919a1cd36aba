/**
  The byte loops of sdrtcp.c: commands arrive in pieces of any size, buffers leave
  in pieces of any size.  What select, recv and send answer, and when the service is
  stopped, is a list of events; the loops end where the list does.
 */
module SdrTcp {
  import opened Octets

  datatype Command = Command(command: byte, parameter: nat)

  const FRAME := 5

  /* Commands on the wire: one byte and a 32-bit parameter in network order. */

  function Frames(b: seq<byte>): seq<Command> {
    if |b| < FRAME then [] else [Command(b[0], BigEndian(b[1..FRAME]))] + Frames(b[FRAME..])
  }

  function Encode(commands: seq<Command>): seq<byte>
    requires forall i :: 0 <= i < |commands| ==> commands[i].parameter < 0x1_0000_0000
  {
    if commands == [] then []
    else [commands[0].command] + NetworkOrder(commands[0].parameter) + Encode(commands[1..])
  }

  // The frames of whole frames and what follows.
  lemma {:induction false} FramesConcat(a: seq<byte>, b: seq<byte>)
    requires |a| % FRAME == 0
    ensures Frames(a + b) == Frames(a) + Frames(b)
    decreases |a|
  {
    hide Frames;
    if a == [] {
      assert a + b == b;
      NoFrames(a);
    } else {
      FramesConcat(a[FRAME..], b);
      FirstFrame(a);
      FirstFrame(a + b);
      assert (a + b)[FRAME..] == a[FRAME..] + b && (a + b)[1..FRAME] == a[1..FRAME];
    }
  }

  lemma FirstFrame(b: seq<byte>)
    requires |b| >= FRAME
    ensures Frames(b) == [Command(b[0], BigEndian(b[1..FRAME]))] + Frames(b[FRAME..])
  {
  }

  lemma NoFrames(b: seq<byte>)
    requires |b| < FRAME
    ensures Frames(b) == []
  {
  }

  // Commands sent are the commands received, and an incomplete one is none.
  lemma {:induction false} CommandsRoundTrip(commands: seq<Command>, partial: seq<byte>)
    requires forall i :: 0 <= i < |commands| ==> commands[i].parameter < 0x1_0000_0000
    requires |partial| < FRAME
    ensures Frames(Encode(commands) + partial) == commands
  {
    hide Frames;
    if commands != [] {
      var c := commands[0];
      var first, more := [c.command] + NetworkOrder(c.parameter), Encode(commands[1..]);
      NetworkOrderRoundTrip(c.parameter);
      CommandsRoundTrip(commands[1..], partial);
      var b := Encode(commands) + partial;
      assert b == first + (more + partial);
      assert b[FRAME..] == more + partial && b[1..FRAME] == NetworkOrder(c.parameter);
      FirstFrame(b);
      assert commands == [c] + commands[1..];
    } else {
      NoFrames(Encode(commands) + partial);
    }
  }

  function Min(a: nat, b: nat): nat { if a < b then a else b }

  /* commandListener. */

  // What happens around one select and recv; stop: the service is stopped meanwhile.
  datatype Received = Nothing(stop: bool) | Chunk(n: nat, stop: bool) | RecvError

  // The service is not going on behind it.
  predicate Ends(e: Received) { e.RecvError? || e.stop }

  // The bytes recv gives over the events, never beyond the command under way.
  function Taken(events: seq<Received>, total: nat): (t: nat)
    ensures t <= total
  {
    if events == [] then 0
    else
      var t := Taken(events[..|events| - 1], total);
      match events[|events| - 1]
      case Chunk(n, _) => t + Min(n, Min(5 - t % 5, total - t))
      case _ => t
  }

  // The service was stopped right behind the last byte of a command.
  predicate LastDropped(events: seq<Received>, total: nat) {
    && events != [] && Ends(events[|events| - 1])
    && Taken(events, total) % 5 == 0 && Taken(events, total) > Taken(events[..|events| - 1], total)
  }

  // recv: up to length bytes, as many as there are.
  method Recv(stream: seq<byte>, from: nat, buffer: array<byte>, at: nat, length: nat, n: nat) returns (r: nat)
    requires from <= |stream| && at + length <= buffer.Length
    modifies buffer
    ensures r == Min(n, Min(length, |stream| - from))
    ensures buffer[..at + r] == old(buffer[..at]) + stream[from..from + r]
  {
    r := Min(n, Min(length, |stream| - from));
    forall i | 0 <= i < r { buffer[at + i] := stream[from + i]; }
  }

  lemma Extend(stream: seq<byte>, a: nat, b: nat, c: nat)
    requires a <= b <= c <= |stream|
    ensures stream[a..b] + stream[b..c] == stream[a..c]
  {
  }

  // A whole number of commands.
  predicate Aligned(n: nat) { n % 5 == 0 }

  lemma FramesOfPrefix(stream: seq<byte>, start: nat, end: nat)
    requires start <= end <= |stream| && end <= start + FRAME && Aligned(start)
    ensures Frames(stream[..end]) == Frames(stream[..start]) +
              if end < start + FRAME then [] else [Command(stream[start], BigEndian(stream[start..end][1..]))]
  {
    FramesConcat(stream[..start], stream[start..end]);
    assert stream[..end] == stream[..start] + stream[start..end];
    var b := stream[start..end];
    if |b| == FRAME { assert b[1..FRAME] == b[1..] && b[FRAME..] == []; }
  }

  lemma Complete(stream: seq<byte>, start: nat, received: nat, cmd: seq<byte>)
    requires Aligned(start) && received == start + FRAME <= |stream|
    requires |cmd| == FRAME && cmd[..FRAME] == stream[start..received]
    ensures Aligned(received)
    ensures Frames(stream[..received]) == Frames(stream[..start]) + [Command(cmd[0], BigEndian(cmd[1..FRAME]))]
  {
    hide Frames;
    FramesOfPrefix(stream, start, received);
    assert cmd[..FRAME] == cmd && cmd[1..FRAME] == cmd[1..];
  }

  lemma TakenMore(events: seq<Received>, e: nat, total: nat)
    requires e < |events|
    ensures var t, u := Taken(events[..e], total), Taken(events[..e + 1], total);
            && u == (if events[e].Chunk? then t + Min(events[e].n, Min(5 - t % 5, total - t)) else t)
            && (LastDropped(events[..e + 1], total) <==> Ends(events[e]) && u % 5 == 0 && u > t)
  {
    assert events[..e + 1][..e] == events[..e];
  }

  lemma InFrame(start: nat, t: nat)
    requires Aligned(start) && start <= t < start + 5
    ensures t % 5 == t - start
  {
  }

  // left bytes of the command begun at start are missing when r more are received.
  lemma TakenChunk(events: seq<Received>, e: nat, total: nat, start: nat, left: nat, r: nat)
    requires e < |events| && events[e].Chunk? && Aligned(start) && 0 < left <= 5
    requires var t := Taken(events[..e], total);
             t + left == start + 5 && r == Min(events[e].n, Min(left, total - t))
    ensures Taken(events[..e + 1], total) == Taken(events[..e], total) + r
    ensures LastDropped(events[..e + 1], total) <==> events[e].stop && r == left
  {
    hide Taken, LastDropped;
    TakenMore(events, e, total);
    var t := Taken(events[..e], total);
    InFrame(start, t);
    if r < left { InFrame(start, t + r); }
  }

  lemma TakenNothing(events: seq<Received>, e: nat, total: nat)
    requires e < |events| && !events[e].Chunk?
    ensures Taken(events[..e + 1], total) == Taken(events[..e], total)
    ensures !LastDropped(events[..e + 1], total)
  {
    TakenMore(events, e, total);
  }

  // Of the events used, only the last may end the service.
  predicate Served(events: seq<Received>, used: nat, serving: bool)
    requires used <= |events|
  {
    && (forall i :: 0 <= i < used - 1 ==> !Ends(events[i]))
    && (serving <==> used == 0 || !Ends(events[used - 1]))
  }

  lemma ServedMore(events: seq<Received>, used: nat)
    requires used < |events| && Served(events, used, true)
    ensures Served(events, used + 1, !Ends(events[used]))
  {
  }

  // The listener goes on until the service is stopped or recv fails.  The commands
  // dispatched are the complete frames among the bytes received until then, in order,
  // however the bytes were split: all of them, except the one that is complete only
  // when the service has stopped.
  method CommandListener(stream: seq<byte>, events: seq<Received>)
    returns (commands: seq<Command>, received: nat, used: nat, serving: bool)
    ensures used <= |events| && forall i :: 0 <= i < used - 1 ==> !Ends(events[i])
    ensures serving <==> used == 0 || !Ends(events[used - 1])
    ensures used < |events| ==> !serving
    ensures received == Taken(events[..used], |stream|)
    ensures commands == if LastDropped(events[..used], |stream|) then Frames(stream[..received - 5])
                        else Frames(stream[..received])
  {
    hide Frames, Taken, LastDropped, Aligned, BigEndian;
    commands, received, used, serving := [], 0, 0, true;
    NothingTaken(stream, events[..0]);
    var cmd := new byte[FRAME](_ => 0);
    while serving && used < |events|
      invariant used <= |events| && Aligned(received) && !LastDropped(events[..used], |stream|)
      invariant received == Taken(events[..used], |stream|)
      invariant commands == Frames(stream[..received])
      invariant Served(events, used, serving)
      decreases |events| - used
    {
      var left: nat := FRAME;
      ghost var start, begun := received, used;
      while left > 0 && serving && used < |events|
        invariant begun <= used <= |events| && (begun < used || (left > 0 && serving))
        invariant received == Taken(events[..used], |stream|) && start <= received <= start + FRAME
        invariant serving || left <= FRAME ==> received == start + FRAME - left
        invariant left <= FRAME ==> cmd[..FRAME - left] == stream[start..received]
        invariant left > FRAME ==> !serving && received < start + FRAME
        invariant LastDropped(events[..used], |stream|) <==> !serving && left == 0
        invariant Served(events, used, serving)
        decreases |events| - used
      {
        var event := events[used];
        if !event.Chunk? { TakenNothing(events, used, |stream|); }
        ServedMore(events, used);
        used := used + 1;
        match event
        case Nothing(stop) => serving := !stop;
        case RecvError =>
          left := left + 1;    // the -1 is subtracted like a count
          serving := false;
          break;
        case Chunk(n, stop) =>
          var r := Recv(stream, received, cmd, FRAME - left, left, n);
          TakenChunk(events, used - 1, |stream|, start, left, r);
          Extend(stream, start, received, received + r);
          received := received + r;
          left := left - r;
          serving := !stop;
      }
      if serving && left == 0 {
        Complete(stream, start, received, cmd[..]);
        commands := commands + [Command(cmd[0], BigEndian(cmd[1..FRAME]))];
        cmd[0] := 0xff;
      } else {
        FramesOfPrefix(stream, start, received);
        return;
      }
    }
  }

  lemma NothingTaken(stream: seq<byte>, events: seq<Received>)
    requires events == []
    ensures Aligned(0)
    ensures Taken(events, |stream|) == 0 && !LastDropped(events, |stream|) && Frames(stream[..0]) == []
  {
  }

  /* The sending loop of serveClient. */

  datatype Sent = NoRoom(stop: bool) | Part(n: nat, stop: bool) | SendError | SelectError

  predicate Fails(e: Sent) { e.SendError? || e.SelectError? || e.stop }

  // The bytes send accepts over the events.
  function Accepted(events: seq<Sent>, total: nat): (t: nat)
    ensures t <= total
  {
    if events == [] then 0
    else
      var t := Accepted(events[..|events| - 1], total);
      if events[|events| - 1].Part? then t + Min(events[|events| - 1].n, total - t) else t
  }

  // What leaves is what send accepts, from the front of the buffer; the loop goes on
  // until that is all of it, the service is stopped or an error occurs.
  method SendBuffer(data: seq<byte>, events: seq<Sent>) returns (sent: seq<byte>, serving: bool, used: nat)
    ensures used <= |events| && sent == data[..Accepted(events[..used], |data|)]
    ensures serving <==> forall i :: 0 <= i < used ==> !Fails(events[i])
    ensures used < |events| ==> sent == data || !serving
    ensures forall i :: 0 <= i < used ==>
              Accepted(events[..i], |data|) < |data| && (i < used - 1 ==> !Fails(events[i]))
  {
    sent, serving, used := [], true, 0;
    var index: int, bytesleft: int := 0, |data|;
    while bytesleft > 0 && serving && used < |events|
      invariant used <= |events| && sent == data[..Accepted(events[..used], |data|)]
      invariant serving ==> 0 <= index <= |data| && index + bytesleft == |data| && sent == data[..index]
      invariant serving <==> forall i :: 0 <= i < used ==> !Fails(events[i])
      invariant forall i :: 0 <= i < used ==>
                  Accepted(events[..i], |data|) < |data| && (i < used - 1 ==> !Fails(events[i]))
      decreases |events| - used
    {
      var event := events[used];
      assert events[..used + 1][..used] == events[..used];
      used := used + 1;
      assert event == events[used - 1];
      match event
      case NoRoom(stop) => serving := !stop;
      case SelectError => serving := false;
      case SendError =>
        bytesleft := bytesleft + 1;
        index := index - 1;
        serving := false;
      case Part(n, stop) =>
        var bytessent := Min(n, bytesleft);
        sent := sent + data[index..index + bytessent];
        bytesleft := bytesleft - bytessent;
        index := index + bytessent;
        serving := !stop;
    }
  }
}
