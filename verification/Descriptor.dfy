/**
  The descriptor parsers of descriptor.c: the loops that advance buffer, size and
  parsed over a configuration, each proved to make of every buffer what
  DescriptorSpec says.
 */
module Descriptor {
  import opened Octets
  import opened DescriptorSpec
  import opened DescriptorFormat

  const DESC_HEADER_LENGTH := 2
  const INTERFACE_DESC_LENGTH := 9
  const ENDPOINT_DESC_LENGTH := 7
  const ENDPOINT_AUDIO_DESC_LENGTH := 9
  const CONFIG_DESC_LENGTH := 9

  /* What the formats pick out. */

  // n one-byte fields, and what follows them.
  lemma {:induction false} DecodesBytes(n: nat, format: string, b: seq<byte>)
    requires n <= |format| && (forall i :: 0 <= i < n ==> format[i] == 'b') && Size(format) <= |b|
    ensures Size(format) == n + Size(format[n..])
    ensures var fields := Decode(format, b);
            && |fields| >= n && fields[n..] == Decode(format[n..], b[n..])
            && forall i :: 0 <= i < n ==> fields[i] == b[i] as int
  {
    if n > 0 {
      DecodesBytes(n - 1, format[1..], b[1..]);
      DecodeHead(format, b);
      Little1(b[..1]);
      var fields, more := Decode(format, b), Decode(format[1..], b[1..]);
      assert fields == [b[0] as int] + more;
      assert format[1..][n - 1..] == format[n..] && b[1..][n - 1..] == b[n..];
      forall i | 0 < i < n ensures fields[i] == b[i] as int {
        assert fields[i] == more[i - 1] == b[1..][i - 1] as int;
      }
    }
  }

  lemma DecodesWord(format: string, b: seq<byte>)
    requires format != "" && format[0] == 'w' && Size(format) <= |b|
    ensures Size(format) == 2 + Size(format[1..])
    ensures Decode(format, b) == [Word(b[0], b[1])] + Decode(format[1..], b[2..])
  {
    hide LittleEndian, Decode;
    DecodeHead(format, b);
    Little2(b[..2]);
    assert b[0..2] == b[..2];
  }

  // k one-byte fields, a word and m one-byte fields.
  lemma DecodesMixed(k: nat, m: nat, format: string, b: seq<byte>)
    requires |format| == k + 1 + m && format[k] == 'w'
    requires (forall i :: 0 <= i < |format| && i != k ==> format[i] == 'b') && k + 2 + m <= |b|
    ensures Size(format) == k + 2 + m
    ensures var fields := Decode(format, b);
            && |fields| == k + 1 + m && fields[k] == Word(b[k], b[k + 1])
            && (forall i :: 0 <= i < k ==> fields[i] == b[i] as int)
            && (forall i :: k < i < k + 1 + m ==> fields[i] == b[i + 1] as int)
  {
    var f, c := format[k..], b[k..];
    SizeBytes(k, format);
    SizeBytes(m, f[1..]);
    DecodesBytes(k, format, b);
    DecodesWord(f, c);
    DecodesBytes(m, f[1..], c[2..]);
    var fields, more := Decode(format, b), Decode(f[1..], c[2..]);
    assert fields == fields[..k] + fields[k..];
    assert fields[k..] == [Word(c[0], c[1])] + more;
    forall i | k < i < k + 1 + m ensures fields[i] == b[i + 1] as int {
      assert fields[i] == fields[k..][i - k] == more[i - k - 1] == c[2..][i - k - 1] as int;
    }
  }

  lemma {:induction false} SizeBytes(n: nat, format: string)
    requires n <= |format| && forall i :: 0 <= i < n ==> format[i] == 'b'
    ensures Size(format) == n + Size(format[n..])
  {
    if n > 0 {
      SizeBytes(n - 1, format[1..]);
      assert format[1..][n - 1..] == format[n..];
    } else {
      assert format[0..] == format;
    }
  }

  lemma HeaderFields(format: string, b: seq<byte>)
    requires |format| <= |b| && forall i :: 0 <= i < |format| ==> format[i] == 'b'
    ensures Size(format) == |format| && |Decode(format, b)| == |format|
    ensures forall i :: 0 <= i < |format| ==> Decode(format, b)[i] == b[i] as int
  {
    SizeBytes(|format|, format);
    DecodesBytes(|format|, format, b);
  }

  /* The parsers. */

  // The loop that all three parsers have for class and vendor descriptors.
  method SkipUnknown(source: seq<byte>, begin: nat) returns (parsed: nat, end: SkipEnd)
    requires begin <= |source|
    ensures SkipExtra(source[begin..]) == Skip(parsed, end)
  {
    parsed := 0;
    var buffer: nat, size: nat := begin, |source| - begin;
    while size >= DESC_HEADER_LENGTH
      invariant buffer == begin + parsed && buffer + size == |source|
      invariant SkipExtra(source[begin..]) == var s := SkipExtra(source[buffer..]); Skip(parsed + s.n, s.end)
    {
      var bLength, bDescriptorType := source[buffer], source[buffer + 1];
      var b := source[buffer..];
      if bLength < DESC_HEADER_LENGTH {
        return parsed, Invalid;
      } else if bLength > size {
        return parsed, Short;
      }
      if Proper(bDescriptorType) {
        break;
      }
      assert b[bLength..] == source[buffer + bLength..];
      buffer := buffer + bLength;
      size := size - bLength;
      parsed := parsed + bLength;
    }
    end := Done;
  }

  method ReadEndpoint(buffer: seq<byte>) returns (r: Result<Endpoint>)
    ensures r == ParseEndpoint(buffer)
  {
    hide SkipExtra, Decode, Size;
    var size := |buffer|;
    if size < DESC_HEADER_LENGTH { return IOError; }
    var bLength, bDescriptorType := buffer[0], buffer[1];
    if bDescriptorType != DT_ENDPOINT { return Ok(NO_ENDPOINT, 0); }
    if bLength > size { return Ok(NO_ENDPOINT, 0); }
    var endpoint;
    if bLength >= ENDPOINT_AUDIO_DESC_LENGTH {
      DecodesMixed(4, 3, "bbbbwbbb", buffer);
      var f, sp := ParseDescriptor(buffer, "bbbbwbbb");
      endpoint := Endpoint(f[0], f[1], f[2], f[3], f[4], f[5], f[6], f[7], []);
    } else if bLength >= ENDPOINT_DESC_LENGTH {
      DecodesMixed(4, 1, "bbbbwb", buffer);
      var f, sp := ParseDescriptor(buffer, "bbbbwb");
      endpoint := Endpoint(f[0], f[1], f[2], f[3], f[4], f[5], 0, 0, []);
    } else {
      return IOError;
    }
    var parsed, end := SkipUnknown(buffer, bLength);
    parsed := bLength + parsed;
    match end
    case Invalid => return IOError;
    case Short => return Ok(endpoint, parsed);
    case Done => return Ok(endpoint.(extra := buffer[bLength..parsed]), parsed);
  }

  // A list under construction in front of what the rest of the bytes gives.
  function After<T>(items: seq<T>, n: nat, r: Result<seq<T>>): Result<seq<T>> {
    match r
    case IOError => IOError
    case Ok(more, m) => Ok(items + more, n + m)
  }

  lemma AfterNothing<T>(buffer: seq<byte>, r: Result<seq<T>>)
    ensures buffer[0..] == buffer && After([], 0, r) == r
  {
    if r.Ok? { assert [] + r.value == r.value; }
  }

  lemma AfterTwice<T>(items: seq<T>, n: nat, one: seq<T>, k: nat, r: Result<seq<T>>)
    ensures After(items, n, After(one, k, r)) == After(items + one, n + k, r)
  {
    if r.Ok? { assert items + (one + r.value) == items + one + r.value; }
  }

  lemma AfterAll<T>(items: seq<T>, n: nat)
    ensures After(items, n, Ok([], 0)) == Ok(items, n)
  {
    assert items + [] == items;
  }

  lemma OneMoreEndpoint(buffer: seq<byte>, at: nat, count: nat)
    requires at <= |buffer| && count > 0
    ensures var one, all := ParseEndpoint(buffer[at..]), ParseEndpoints(buffer[at..], count);
            if one.IOError? then all.IOError?
            else if one.count == 0 then all == Ok([], 0)
            else all == After([one.value], one.count, ParseEndpoints(buffer[at + one.count..], count - 1))
  {
    hide ParseEndpoint;
    var one := ParseEndpoint(buffer[at..]);
    if one.Ok? && one.count > 0 { assert buffer[at..][one.count..] == buffer[at + one.count..]; }
  }

  lemma NoMoreEndpoints(b: seq<byte>)
    ensures ParseEndpoints(b, 0) == Ok([], 0)
  {
  }

  // The loop over the endpoints of an alternate setting.
  method ReadEndpoints(buffer: seq<byte>, bNumEndpoints: nat) returns (r: Result<seq<Endpoint>>)
    ensures r == ParseEndpoints(buffer, bNumEndpoints)
  {
    hide ParseEndpoint, ParseEndpoints;
    var endpoints: seq<Endpoint>, at: nat := [], 0;
    AfterNothing(buffer, ParseEndpoints(buffer, bNumEndpoints));
    for i := 0 to bNumEndpoints
      invariant at <= |buffer| && |endpoints| == i
      invariant ParseEndpoints(buffer, bNumEndpoints) ==
                After(endpoints, at, ParseEndpoints(buffer[at..], bNumEndpoints - i))
    {
      var one := ReadEndpoint(buffer[at..]);
      OneMoreEndpoint(buffer, at, bNumEndpoints - i);
      if one.IOError? { return IOError; }
      if one.count == 0 { AfterAll(endpoints, at); return Ok(endpoints, at); }
      ghost var rest := ParseEndpoints(buffer[at + one.count..], bNumEndpoints - i - 1);
      AfterTwice(endpoints, at, [one.value], one.count, rest);
      endpoints := endpoints + [one.value];
      at := at + one.count;
    }
    NoMoreEndpoints(buffer[at..]);
    AfterAll(endpoints, at);
    r := Ok(endpoints, at);
  }

  lemma OneMoreAlt(buffer: seq<byte>, at: nat, number: int)
    requires -1 <= number < 256 && at + 9 <= |buffer|
    ensures var b := buffer[at..];
            match ParseAlt(b)
            case NoAlt => ParseAlts(b, number) == Ok([], 0)
            case BadAlt => ParseAlts(b, number).IOError?
            case LastAlt(a, n) => ParseAlts(b, number) == Ok([a], n)
            case OneAlt(a, n) =>
              var first := if number == -1 then a.bInterfaceNumber else number;
              && n <= |b| && b[n..] == buffer[at + n..]
              && ParseAlts(b, number) == if !IsAlternate(buffer[at + n..], first) then Ok([a], n)
                                         else After([a], n, ParseAlts(buffer[at + n..], first))
  {
    hide ParseAlt, IsAlternate;
    var b := buffer[at..];
    var one := ParseAlt(b);
    if one.OneAlt? { assert b[one.n..] == buffer[at + one.n..]; }
  }

  // The body of the loop over alternate settings, up to the check for another.
  method ReadAlt(buffer: seq<byte>) returns (r: AltStep)
    requires |buffer| >= INTERFACE_DESC_LENGTH
    ensures r == ParseAlt(buffer)
  {
    hide SkipExtra, ParseEndpoints, Decode, Size;
    HeaderFields("bbbbbbbbb", buffer);
    var f, sp := ParseDescriptor(buffer, "bbbbbbbbb");
    var ifp := AltSetting(f[0], f[1], f[2], f[3], f[4], f[5], f[6], f[7], f[8], [], []);
    if ifp.bDescriptorType != DT_INTERFACE { return NoAlt; }
    if ifp.bLength < INTERFACE_DESC_LENGTH { return BadAlt; }
    if ifp.bLength > |buffer| { return NoAlt; }
    if ifp.bNumEndpoints > MAX_ENDPOINTS { return BadAlt; }
    var skipped, end := SkipUnknown(buffer, ifp.bLength);
    var parsed := ifp.bLength + skipped;
    if end == Invalid { return BadAlt; }
    if end == Short { return LastAlt(ifp, parsed); }
    ifp := ifp.(extra := buffer[ifp.bLength..parsed]);
    if ifp.bNumEndpoints > 0 {
      var r := ReadEndpoints(buffer[parsed..], ifp.bNumEndpoints);
      if r.IOError? { return BadAlt; }
      ifp := ifp.(endpoints := r.value, bNumEndpoints := |r.value|);
      parsed := parsed + r.count;
    } else {
      NoMoreEndpoints(buffer[parsed..]);
    }
    r := OneAlt(ifp, parsed);
  }

  method ReadInterface(buffer: seq<byte>) returns (r: Result<Interface>)
    ensures r == ParseAlts(buffer, -1)
  {
    hide ParseAlt, ParseAlts;
    var altsetting: seq<AltSetting>, parsed: nat, interface_number := [], 0, -1;
    AfterNothing(buffer, ParseAlts(buffer, -1));
    while |buffer| - parsed >= INTERFACE_DESC_LENGTH
      invariant parsed <= |buffer| && -1 <= interface_number < 256
      invariant ParseAlts(buffer, -1) == After(altsetting, parsed, ParseAlts(buffer[parsed..], interface_number))
    {
      OneMoreAlt(buffer, parsed, interface_number);
      AfterAll(altsetting, parsed);
      var alt := ReadAlt(buffer[parsed..]);
      match alt
      case NoAlt => return Ok(altsetting, parsed);
      case BadAlt => return IOError;
      case LastAlt(ifp, n) => return Ok(altsetting + [ifp], parsed + n);
      case OneAlt(ifp, n) =>
        if interface_number == -1 { interface_number := ifp.bInterfaceNumber; }
        AfterTwice(altsetting, parsed, [ifp], n, ParseAlts(buffer[parsed + n..], interface_number));
        altsetting := altsetting + [ifp];
        parsed := parsed + n;
        if !IsAlternate(buffer[parsed..], interface_number) { return Ok(altsetting, parsed); }
    }
    NoMoreAlts(buffer[parsed..], interface_number);
    AfterAll(altsetting, parsed);
    r := Ok(altsetting, parsed);
  }

  lemma NoMoreAlts(b: seq<byte>, number: int)
    requires |b| < 9 && -1 <= number < 256
    ensures ParseAlts(b, number) == Ok([], 0)
  {
  }

  function Behind(interfaces: seq<Interface>, r: Result<(seq<byte>, seq<Interface>)>)
    : Result<(seq<byte>, seq<Interface>)>
  {
    match r
    case IOError => IOError
    case Ok((extra, more), left) => Ok((extra, interfaces + more), left)
  }

  lemma BehindTwice(a: seq<Interface>, f: Interface, r: Result<(seq<byte>, seq<Interface>)>)
    ensures Behind(a, Behind([f], r)) == Behind(a + [f], r)
  {
    if r.Ok? { assert a + ([f] + r.value.1) == a + [f] + r.value.1; }
  }

  lemma BehindAll(a: seq<Interface>, extra: seq<byte>, left: nat)
    ensures Behind(a, Ok((extra, []), left)) == Ok((extra, a), left)
  {
    assert a + [] == a;
  }

  lemma BehindNothing(r: Result<(seq<byte>, seq<Interface>)>)
    ensures Behind([], r) == r
  {
    if r.Ok? { assert [] + r.value.1 == r.value.1; }
  }

  lemma OneMoreInterface(buffer: seq<byte>, at: nat, count: nat, extra: seq<byte>)
    requires at <= |buffer| && count > 0
    ensures var b := buffer[at..];
            var s, all := SkipExtra(b), ParseInterfaces(b, count, extra);
            var next := at + s.n;
            && next <= |buffer|
            && match s.end
               case Invalid => all == IOError
               case Short => all == Ok((extra, []), |buffer| - next)
               case Done =>
                 var extra' := if extra == [] then buffer[at..next] else extra;
                 match ParseAlts(buffer[next..], -1)
                 case IOError => all == IOError
                 case Ok(alts, n) =>
                   && next + n <= |buffer|
                   && all == if n == 0 then Ok((extra', []), |buffer| - next)
                             else Behind([alts], ParseInterfaces(buffer[next + n..], count - 1, extra'))
  {
    hide SkipExtra, ParseAlts;
    var b := buffer[at..];
    var s := SkipExtra(b);
    assert b[..s.n] == buffer[at..at + s.n] && b[s.n..] == buffer[at + s.n..];
    var r := ParseAlts(b[s.n..], -1);
    if r.Ok? { assert b[s.n + r.count..] == buffer[at + s.n + r.count..]; }
  }

  lemma NoMoreInterfaces(b: seq<byte>, extra: seq<byte>)
    ensures ParseInterfaces(b, 0, extra) == Ok((extra, []), |b|)
  {
  }

  // The loop over the interfaces, from the bytes behind the header on.
  method ReadInterfaces(buffer: seq<byte>, begin: nat, bNumInterfaces: nat)
    returns (r: Result<(seq<byte>, seq<Interface>)>)
    requires begin <= |buffer|
    ensures r == ParseInterfaces(buffer[begin..], bNumInterfaces, [])
  {
    hide SkipExtra, ParseAlts, ParseInterfaces;
    var interfaces: seq<Interface>, extra: seq<byte>, at: nat := [], [], begin;
    BehindNothing(ParseInterfaces(buffer[begin..], bNumInterfaces, []));
    for i := 0 to bNumInterfaces
      invariant at <= |buffer| && |interfaces| == i
      invariant ParseInterfaces(buffer[begin..], bNumInterfaces, []) ==
                Behind(interfaces, ParseInterfaces(buffer[at..], bNumInterfaces - i, extra))
    {
      OneMoreInterface(buffer, at, bNumInterfaces - i, extra);
      var skipped, end := SkipUnknown(buffer, at);
      var next := at + skipped;
      if end == Invalid { return IOError; }
      if end == Short {
        BehindAll(interfaces, extra, |buffer| - next);
        return Ok((extra, interfaces), |buffer| - next);
      }
      ghost var stored := if extra == [] then buffer[at..next] else extra;
      if skipped > 0 && extra == [] { extra := buffer[at..next]; }
      assert extra == stored;
      var one := ReadInterface(buffer[next..]);
      if one.IOError? { return IOError; }
      if one.count == 0 {
        BehindAll(interfaces, extra, |buffer| - next);
        return Ok((extra, interfaces), |buffer| - next);
      }
      at := next + one.count;
      BehindTwice(interfaces, one.value, ParseInterfaces(buffer[at..], bNumInterfaces - i - 1, extra));
      interfaces := interfaces + [one.value];
    }
    NoMoreInterfaces(buffer[at..], extra);
    BehindAll(interfaces, extra, |buffer| - at);
    r := Ok((extra, interfaces), |buffer| - at);
  }

  method ReadConfiguration(buffer: seq<byte>) returns (r: Result<Config>)
    ensures r == ParseConfig(buffer)
  {
    if |buffer| < CONFIG_DESC_LENGTH { return IOError; }
    DecodesMixed(2, 5, "bbwbbbbb", buffer);
    var f, sp := ParseDescriptor(buffer, "bbwbbbbb");
    var config := Config(f[0], f[1], f[2], f[3], f[4], f[5], f[6], f[7], [], []);
    if config.bDescriptorType != DT_CONFIG { return IOError; }
    if config.bLength < CONFIG_DESC_LENGTH { return IOError; }
    if config.bLength > |buffer| { return IOError; }
    if config.bNumInterfaces > MAX_INTERFACES { return IOError; }
    var read := ReadInterfaces(buffer, config.bLength, config.bNumInterfaces);
    match read
    case IOError => return IOError;
    case Ok((extra, interfaces), size) =>
      return Ok(config.(extra := extra, interfaces := interfaces, bNumInterfaces := |interfaces|), size);
  }
}
