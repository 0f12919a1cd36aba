/**
  USB configuration descriptors: the tree, what descriptor.c makes of a byte
  buffer, the layout of sections 9.6.3, 9.6.5 and 9.6.6 of the USB 2.0
  specification, and the round trip between them.
 */
module DescriptorSpec {
  import opened Octets

  const DT_DEVICE: byte := 1
  const DT_CONFIG: byte := 2
  const DT_INTERFACE: byte := 4
  const DT_ENDPOINT: byte := 5

  const MAX_ENDPOINTS := 32
  const MAX_INTERFACES := 32

  datatype Endpoint = Endpoint(
    bLength: byte, bDescriptorType: byte, bEndpointAddress: byte, bmAttributes: byte,
    wMaxPacketSize: nat, bInterval: byte, bRefresh: byte, bSynchAddress: byte,
    extra: seq<byte>)

  datatype AltSetting = AltSetting(
    bLength: byte, bDescriptorType: byte, bInterfaceNumber: byte, bAlternateSetting: byte,
    bNumEndpoints: byte, bInterfaceClass: byte, bInterfaceSubClass: byte,
    bInterfaceProtocol: byte, iInterface: byte,
    extra: seq<byte>, endpoints: seq<Endpoint>)

  type Interface = seq<AltSetting>

  datatype Config = Config(
    bLength: byte, bDescriptorType: byte, wTotalLength: nat, bNumInterfaces: byte,
    bConfigurationValue: byte, iConfiguration: byte, bmAttributes: byte, MaxPower: byte,
    extra: seq<byte>, interfaces: seq<Interface>)

  // The byte count a parser returns with what it filled in, or LIBUSB_ERROR_IO.
  datatype Result<+T> = Ok(value: T, count: nat) | IOError

  /* What the parsers make of a buffer. */

  predicate Proper(bType: byte) {
    bType == DT_ENDPOINT || bType == DT_INTERFACE || bType == DT_CONFIG || bType == DT_DEVICE
  }

  function Word(lo: byte, hi: byte): nat { 256 * hi + lo }

  // Skipping class and vendor descriptors: n bytes of them, and why it stopped.
  datatype Skip = Skip(n: nat, end: SkipEnd)
  datatype SkipEnd = Done | Invalid | Short

  function SkipExtra(b: seq<byte>): (s: Skip)
    ensures s.n <= |b|
    decreases |b|
  {
    if |b| < 2 then Skip(0, Done)
    else if b[0] < 2 then Skip(0, Invalid)
    else if b[0] > |b| then Skip(0, Short)
    else if Proper(b[1]) then Skip(0, Done)
    else var s := SkipExtra(b[b[0]..]); Skip(b[0] + s.n, s.end)
  }

  const NO_ENDPOINT := Endpoint(0, 0, 0, 0, 0, 0, 0, 0, [])

  function EndpointFields(b: seq<byte>): Endpoint
    requires |b| >= 7 && 7 <= b[0] <= |b|
  {
    Endpoint(b[0], b[1], b[2], b[3], Word(b[4], b[5]), b[6],
             if b[0] >= 9 then b[7] else 0, if b[0] >= 9 then b[8] else 0, [])
  }

  function ParseEndpoint(b: seq<byte>): (r: Result<Endpoint>)
    ensures r.Ok? ==> r.count <= |b|
  {
    if |b| < 2 then IOError
    else if b[1] != DT_ENDPOINT || b[0] > |b| then Ok(NO_ENDPOINT, 0)
    else if b[0] < 7 then IOError
    else
      var s := SkipExtra(b[b[0]..]);
      match s.end
      case Invalid => IOError
      case Short => Ok(EndpointFields(b), b[0] + s.n)
      case Done => Ok(EndpointFields(b).(extra := b[b[0]..b[0] + s.n]), b[0] + s.n)
  }

  // Up to count endpoints; one that yields 0 bytes ends them.
  function ParseEndpoints(b: seq<byte>, count: nat): (r: Result<seq<Endpoint>>)
    ensures r.Ok? ==> r.count <= |b| && |r.value| <= count
    decreases count
  {
    if count == 0 then Ok([], 0)
    else
      match ParseEndpoint(b)
      case IOError => IOError
      case Ok(e, n) =>
        if n == 0 then Ok([], 0)
        else
          match ParseEndpoints(b[n..], count - 1)
          case IOError => IOError
          case Ok(es, m) => Ok([e] + es, n + m)
  }

  function AltFields(b: seq<byte>): AltSetting
    requires |b| >= 9
  {
    AltSetting(b[0], b[1], b[2], b[3], b[4], b[5], b[6], b[7], b[8], [], [])
  }

  // One turn of the loop over alternate settings: none here, an error, one after
  // which a short descriptor ends the interface, or one after which it may go on.
  datatype AltStep = NoAlt | BadAlt | LastAlt(alt: AltSetting, n: nat) | OneAlt(alt: AltSetting, n: nat)

  function ParseAlt(b: seq<byte>): (r: AltStep)
    requires |b| >= 9
    ensures r.LastAlt? || r.OneAlt? ==> 9 <= r.n <= |b|
  {
    if b[1] != DT_INTERFACE then NoAlt
    else if b[0] < 9 then BadAlt
    else if b[0] > |b| then NoAlt
    else if b[4] > MAX_ENDPOINTS then BadAlt
    else
      var s := SkipExtra(b[b[0]..]);
      var n := b[0] + s.n;
      match s.end
      case Invalid => BadAlt
      case Short => LastAlt(AltFields(b), n)
      case Done =>
        match ParseEndpoints(b[n..], b[4])
        case IOError => BadAlt
        case Ok(es, m) =>
          OneAlt(AltFields(b).(extra := b[b[0]..n], bNumEndpoints := |es|, endpoints := es), n + m)
  }

  predicate IsAlternate(b: seq<byte>, number: byte) {
    |b| >= 9 && b[1] == DT_INTERFACE && b[2] == number
  }

  // The alternate settings of one interface; number is -1 before the first.
  function ParseAlts(b: seq<byte>, number: int): (r: Result<Interface>)
    requires -1 <= number < 256
    ensures r.Ok? ==> r.count <= |b| && (r.value == [] <==> r.count == 0)
    decreases |b|
  {
    if |b| < 9 then Ok([], 0)
    else
      match ParseAlt(b)
      case NoAlt => Ok([], 0)
      case BadAlt => IOError
      case LastAlt(a, n) => Ok([a], n)
      case OneAlt(a, n) =>
        var first := if number == -1 then a.bInterfaceNumber else number;
        if !IsAlternate(b[n..], first) then Ok([a], n)
        else
          match ParseAlts(b[n..], first)
          case IOError => IOError
          case Ok(more, m) => Ok([a] + more, n + m)
  }

  // The loop of parse_configuration; extra is what it has stored so far, and the
  // count is the number of bytes left.
  function ParseInterfaces(b: seq<byte>, count: nat, extra: seq<byte>): (r: Result<(seq<byte>, seq<Interface>)>)
    ensures r.Ok? ==> r.count <= |b| && |r.value.1| <= count
    decreases count
  {
    if count == 0 then Ok((extra, []), |b|)
    else
      var s := SkipExtra(b);
      match s.end
      case Invalid => IOError
      case Short => Ok((extra, []), |b| - s.n)
      case Done =>
        var extra' := if extra == [] then b[..s.n] else extra;
        match ParseAlts(b[s.n..], -1)
        case IOError => IOError
        case Ok(alts, n) =>
          if n == 0 then Ok((extra', []), |b| - s.n)
          else
            match ParseInterfaces(b[s.n + n..], count - 1, extra')
            case IOError => IOError
            case Ok((x, more), left) => Ok((x, [alts] + more), left)
  }

  // parse_configuration: the tree and the bytes left.
  function ParseConfig(b: seq<byte>): (r: Result<Config>)
    ensures r.Ok? ==> r.count <= |b|
  {
    if |b| < 9 || b[1] != DT_CONFIG || b[0] < 9 || b[0] > |b| || b[4] > MAX_INTERFACES then IOError
    else
      match ParseInterfaces(b[b[0]..], b[4], [])
      case IOError => IOError
      case Ok((extra, interfaces), left) =>
        Ok(Config(b[0], b[1], Word(b[2], b[3]), |interfaces|, b[5], b[6], b[7], b[8], extra, interfaces), left)
  }
}
