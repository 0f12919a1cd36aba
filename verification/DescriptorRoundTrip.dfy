/**
  A configuration tree laid out as sections 9.6.3, 9.6.5 and 9.6.6 of the USB 2.0
  specification prescribe, and the proof that parsing the layout rebuilds the tree.
 */
module DescriptorRoundTrip {
  import opened Octets
  import opened DescriptorSpec

  /* Which trees can be laid out. */

  // Device, configuration, interface and endpoint: table 9-5 of the specification.
  predicate Standard(bType: byte) {
    bType == 1 || bType == 2 || bType == 4 || bType == 5
  }

  // A sequence of descriptors of other types, each as long as it says.
  predicate WellFormedExtra(x: seq<byte>)
    decreases |x|
  {
    x == [] || (|x| >= 2 && 2 <= x[0] <= |x| && !Standard(x[1]) && WellFormedExtra(x[x[0]..]))
  }

  predicate WellFormedEndpoint(e: Endpoint) {
    && e.bDescriptorType == 5 && e.bLength >= 7 && e.wMaxPacketSize < 65536
    && (e.bLength < 9 ==> e.bRefresh == 0 && e.bSynchAddress == 0)
    && WellFormedExtra(e.extra)
  }

  predicate WellFormedAlt(a: AltSetting) {
    && a.bDescriptorType == 4 && a.bLength >= 9
    && a.bNumEndpoints == |a.endpoints| <= 32
    && WellFormedExtra(a.extra)
    && (forall i :: 0 <= i < |a.endpoints| ==> WellFormedEndpoint(a.endpoints[i]))
  }

  // The alternate settings of an interface share its number.
  predicate WellFormedInterface(f: Interface) {
    && f != []
    && (forall i :: 0 <= i < |f| ==> WellFormedAlt(f[i]) && f[i].bInterfaceNumber == f[0].bInterfaceNumber)
  }

  predicate WellFormedConfig(c: Config) {
    && c.bDescriptorType == 2 && c.bLength >= 9 && c.wTotalLength < 65536
    && c.bNumInterfaces == |c.interfaces| <= 32
    && WellFormedExtra(c.extra) && (c.interfaces == [] ==> c.extra == [])
    && WellFormedInterfaces(c.interfaces)
  }

  predicate WellFormedInterfaces(fs: seq<Interface>) {
    forall i :: 0 <= i < |fs| ==> WellFormedInterface(fs[i])
  }

  // Neighbouring interfaces are numbered differently.
  predicate NeighboursDiffer(fs: seq<Interface>)
    requires forall i :: 0 <= i < |fs| ==> fs[i] != []
  {
    forall i :: 0 <= i < |fs| - 1 ==> fs[i][0].bInterfaceNumber != fs[i + 1][0].bInterfaceNumber
  }

  /* The layout. */

  // A descriptor longer than its known fields is filled up with zeros.
  function Fill(fields: seq<byte>, bLength: byte): (b: seq<byte>)
    ensures |fields| <= bLength ==> |b| == bLength && b[..|fields|] == fields
  {
    fields + if |fields| < bLength then seq(bLength - |fields|, i => 0) else []
  }

  function EndpointHeader(e: Endpoint): seq<byte>
    requires WellFormedEndpoint(e)
  {
    Fill([e.bLength, e.bDescriptorType, e.bEndpointAddress, e.bmAttributes,
          e.wMaxPacketSize % 256, e.wMaxPacketSize / 256, e.bInterval]
         + (if e.bLength >= 9 then [e.bRefresh, e.bSynchAddress] else []), e.bLength)
  }

  function PrintEndpoint(e: Endpoint): seq<byte>
    requires WellFormedEndpoint(e)
  {
    EndpointHeader(e) + e.extra
  }

  function PrintEndpoints(es: seq<Endpoint>): seq<byte>
    requires forall i :: 0 <= i < |es| ==> WellFormedEndpoint(es[i])
  {
    if es == [] then [] else PrintEndpoint(es[0]) + PrintEndpoints(es[1..])
  }

  function AltHeader(a: AltSetting): seq<byte> {
    [a.bLength, a.bDescriptorType, a.bInterfaceNumber, a.bAlternateSetting, a.bNumEndpoints,
     a.bInterfaceClass, a.bInterfaceSubClass, a.bInterfaceProtocol, a.iInterface]
  }

  function PrintAlt(a: AltSetting): seq<byte>
    requires WellFormedAlt(a)
  {
    Fill(AltHeader(a), a.bLength) + a.extra + PrintEndpoints(a.endpoints)
  }

  function PrintAlts(f: seq<AltSetting>): seq<byte>
    requires forall i :: 0 <= i < |f| ==> WellFormedAlt(f[i])
  {
    if f == [] then [] else PrintAlt(f[0]) + PrintAlts(f[1..])
  }

  function PrintInterfaces(fs: seq<Interface>): seq<byte>
    requires WellFormedInterfaces(fs)
  {
    if fs == [] then [] else PrintAlts(fs[0]) + PrintInterfaces(fs[1..])
  }

  function ConfigHeader(c: Config): seq<byte>
    requires c.wTotalLength < 65536
  {
    [c.bLength, c.bDescriptorType, c.wTotalLength % 256, c.wTotalLength / 256, c.bNumInterfaces,
     c.bConfigurationValue, c.iConfiguration, c.bmAttributes, c.MaxPower]
  }

  function PrintConfig(c: Config): seq<byte>
    requires WellFormedConfig(c)
  {
    Fill(ConfigHeader(c), c.bLength) + c.extra + PrintInterfaces(c.interfaces)
  }

  /* The round trip. */

  // Skipping class and vendor descriptors stops here.
  predicate Stops(rest: seq<byte>) {
    |rest| < 2 || (2 <= rest[0] <= |rest| && Standard(rest[1]))
  }

  lemma {:induction false} SkipsExactly(x: seq<byte>, rest: seq<byte>)
    requires WellFormedExtra(x) && Stops(rest)
    ensures SkipExtra(x + rest) == Skip(|x|, Done)
    decreases |x|
  {
    if x == [] {
      assert x + rest == rest;
    } else {
      SkipsExactly(x[x[0]..], rest);
      assert (x + rest)[x[0]..] == x[x[0]..] + rest;
    }
  }

  lemma Cut(a: seq<byte>, b: seq<byte>)
    ensures (a + b)[..|a|] == a && (a + b)[|a|..] == b
  {
  }

  lemma CutTwice(a: seq<byte>, x: seq<byte>, b: seq<byte>)
    ensures var all := a + (x + b);
            all[|a|..] == x + b && all[|a| + |x|..] == b && all[|a|..|a| + |x|] == x
    ensures forall i :: 0 <= i < |a| ==> (a + (x + b))[i] == a[i]
  {
  }

  lemma EndpointHeaderFields(e: Endpoint)
    requires WellFormedEndpoint(e)
    ensures var h := EndpointHeader(e);
            |h| == e.bLength == h[0] && h[1] == 5 && EndpointFields(h) == e.(extra := [])
  {
    hide WellFormedExtra;
    var h := EndpointHeader(e);
    var fields := [e.bLength, e.bDescriptorType, e.bEndpointAddress, e.bmAttributes,
                   e.wMaxPacketSize % 256, e.wMaxPacketSize / 256, e.bInterval];
    assert h[..7] == fields;
    if e.bLength >= 9 { assert h[..9] == fields + [e.bRefresh, e.bSynchAddress]; }
    assert Word(e.wMaxPacketSize % 256, e.wMaxPacketSize / 256) == e.wMaxPacketSize;
  }

  lemma EndpointPieces(b: seq<byte>, header: seq<byte>, x: nat)
    requires |b| >= |header| >= 7 && header[0] == |header| && |header| + x <= |b|
    requires (forall i :: 0 <= i < |header| ==> b[i] == header[i]) && b[1] == 5
    requires SkipExtra(b[b[0]..]) == Skip(x, Done)
    ensures ParseEndpoint(b) == Ok(EndpointFields(header).(extra := b[b[0]..b[0] + x]), b[0] + x)
  {
    hide SkipExtra;
  }

  lemma EndpointRoundTrip(e: Endpoint, rest: seq<byte>)
    requires WellFormedEndpoint(e) && Stops(rest)
    ensures ParseEndpoint(PrintEndpoint(e) + rest) == Ok(e, |PrintEndpoint(e)|)
  {
    hide SkipExtra, ParseEndpoint, EndpointFields, EndpointHeader, WellFormedExtra, Stops;
    var header := EndpointHeader(e);
    var b := header + (e.extra + rest);
    EndpointHeaderFields(e);
    SkipsExactly(e.extra, rest);
    CutTwice(header, e.extra, rest);
    EndpointPieces(b, header, |e.extra|);
    Associate(header, e.extra, rest);
  }

  lemma EndpointStops(e: Endpoint, rest: seq<byte>)
    requires WellFormedEndpoint(e)
    ensures PrintEndpoint(e) != [] && Stops(PrintEndpoint(e) + rest)
  {
    EndpointHeaderFields(e);
  }

  lemma MoreEndpoints(first: seq<byte>, tail: seq<byte>, e: Endpoint, es: seq<Endpoint>, m: nat)
    requires first != [] && ParseEndpoint(first + tail) == Ok(e, |first|)
    requires ParseEndpoints(tail, |es|) == Ok(es, m)
    ensures ParseEndpoints(first + tail, |es| + 1) == Ok([e] + es, |first| + m)
  {
    hide ParseEndpoint;
    Cut(first, tail);
  }

  lemma NoEndpoints(rest: seq<byte>)
    ensures PrintEndpoints([]) + rest == rest && ParseEndpoints(rest, 0) == Ok([], 0)
  {
  }

  lemma PrintMoreEndpoints(es: seq<Endpoint>, rest: seq<byte>)
    requires es != [] && forall i :: 0 <= i < |es| ==> WellFormedEndpoint(es[i])
    ensures forall i :: 0 <= i < |es[1..]| ==> WellFormedEndpoint(es[1..][i])
    ensures |PrintEndpoints(es)| == |PrintEndpoint(es[0])| + |PrintEndpoints(es[1..])|
    ensures PrintEndpoints(es) + rest == PrintEndpoint(es[0]) + (PrintEndpoints(es[1..]) + rest)
    ensures [es[0]] + es[1..] == es
  {
    hide PrintEndpoint, WellFormedEndpoint;
    Associate(PrintEndpoint(es[0]), PrintEndpoints(es[1..]), rest);
  }

  lemma {:induction false} EndpointsRoundTrip(es: seq<Endpoint>, rest: seq<byte>)
    requires (forall i :: 0 <= i < |es| ==> WellFormedEndpoint(es[i])) && Stops(rest)
    ensures Stops(PrintEndpoints(es) + rest)
    ensures ParseEndpoints(PrintEndpoints(es) + rest, |es|) == Ok(es, |PrintEndpoints(es)|)
  {
    hide ParseEndpoints, ParseEndpoint, PrintEndpoints, PrintEndpoint, WellFormedEndpoint, Stops;
    if es == [] {
      NoEndpoints(rest);
    } else {
      var first, more := PrintEndpoint(es[0]), PrintEndpoints(es[1..]);
      PrintMoreEndpoints(es, rest);
      EndpointsRoundTrip(es[1..], rest);
      EndpointRoundTrip(es[0], more + rest);
      EndpointStops(es[0], more + rest);
      MoreEndpoints(first, more + rest, es[0], es[1..], |more|);
    }
  }

  lemma ParseAltPieces(b: seq<byte>, x: nat, es: seq<Endpoint>, m: nat)
    requires |b| >= 9 && 9 <= b[0] && b[0] + x <= |b| && b[1] == 4 && b[4] == |es| <= 32
    requires SkipExtra(b[b[0]..]) == Skip(x, Done) && ParseEndpoints(b[b[0] + x..], b[4]) == Ok(es, m)
    ensures ParseAlt(b) == OneAlt(AltFields(b).(extra := b[b[0]..b[0] + x], endpoints := es), b[0] + x + m)
  {
    hide SkipExtra, ParseEndpoints;
  }

  lemma AltRoundTrip(a: AltSetting, rest: seq<byte>)
    requires WellFormedAlt(a) && Stops(rest)
    ensures ParseAlt(PrintAlt(a) + rest) == OneAlt(a, |PrintAlt(a)|)
  {
    hide ParseAlt, ParseEndpoints, SkipExtra, PrintEndpoints, AltFields, Fill, WellFormedExtra, Stops;
    var header, points := Fill(AltHeader(a), a.bLength), PrintEndpoints(a.endpoints);
    var b := header + (a.extra + (points + rest));
    EndpointsRoundTrip(a.endpoints, rest);
    SkipsExactly(a.extra, points + rest);
    AltHeaderFields(a);
    CutTwice(header, a.extra, points + rest);
    SameAltFields(b, header);
    ParseAltPieces(b, |a.extra|, a.endpoints, |points|);
    Regroup(header, a.extra, points, rest);
  }

  lemma SameAltFields(b: seq<byte>, header: seq<byte>)
    requires |b| >= 9 && |header| >= 9 && forall i :: 0 <= i < 9 ==> b[i] == header[i]
    ensures AltFields(b) == AltFields(header)
  {
  }

  lemma Regroup(a: seq<byte>, x: seq<byte>, b: seq<byte>, rest: seq<byte>)
    ensures a + x + b + rest == a + (x + (b + rest))
  {
  }

  lemma AltHeaderFields(a: AltSetting)
    requires WellFormedAlt(a)
    ensures var h := Fill(AltHeader(a), a.bLength);
            && |h| == a.bLength == h[0] && h[1] == 4 && h[2] == a.bInterfaceNumber
            && h[4] == a.bNumEndpoints && AltFields(h) == a.(extra := [], endpoints := [])
  {
    assert Fill(AltHeader(a), a.bLength)[..9] == AltHeader(a);
  }

  lemma AltStops(a: AltSetting, rest: seq<byte>)
    requires WellFormedAlt(a)
    ensures |PrintAlt(a)| >= 9 && Stops(PrintAlt(a) + rest)
    ensures IsAlternate(PrintAlt(a) + rest, a.bInterfaceNumber)
    ensures forall n: byte :: IsAlternate(PrintAlt(a) + rest, n) ==> n == a.bInterfaceNumber
  {
    hide WellFormedExtra, AltHeader, AltFields, Fill, PrintEndpoints;
    AltHeaderFields(a);
    var header := Fill(AltHeader(a), a.bLength);
    assert PrintAlt(a) + rest == header + (a.extra + PrintEndpoints(a.endpoints) + rest);
    assert header[0] == a.bLength && header[1] == 4 && header[2] == a.bInterfaceNumber;
  }

  lemma MoreAlts(first: seq<byte>, tail: seq<byte>, a: AltSetting, more: Interface, number: int, m: nat)
    requires |first| >= 9 && ParseAlt(first + tail) == OneAlt(a, |first|)
    requires number == -1 || number == a.bInterfaceNumber
    requires if more == [] then !IsAlternate(tail, a.bInterfaceNumber) && m == 0
             else IsAlternate(tail, a.bInterfaceNumber) && ParseAlts(tail, a.bInterfaceNumber) == Ok(more, m)
    ensures ParseAlts(first + tail, number) == Ok([a] + more, |first| + m)
  {
    hide ParseAlt;
    Cut(first, tail);
    if more == [] { assert [a] + more == [a]; }
  }

  lemma PrintMoreAlts(f: seq<AltSetting>, rest: seq<byte>)
    requires f != [] && forall i :: 0 <= i < |f| ==> WellFormedAlt(f[i])
    ensures forall i :: 0 <= i < |f[1..]| ==> WellFormedAlt(f[1..][i])
    ensures |PrintAlts(f)| == |PrintAlt(f[0])| + |PrintAlts(f[1..])|
    ensures PrintAlts(f) + rest == PrintAlt(f[0]) + (PrintAlts(f[1..]) + rest)
    ensures [f[0]] + f[1..] == f
  {
    hide PrintAlt, WellFormedAlt;
    Associate(PrintAlt(f[0]), PrintAlts(f[1..]), rest);
  }

  lemma Associate(a: seq<byte>, b: seq<byte>, c: seq<byte>)
    ensures a + b + c == a + (b + c)
  {
  }

  lemma NoAlts(f: seq<AltSetting>, rest: seq<byte>)
    requires |f| == 0
    ensures PrintAlts(f) + rest == rest && |PrintAlts(f)| == 0
  {
  }

  lemma {:induction false} AltsRoundTrip(f: seq<AltSetting>, number: int, rest: seq<byte>)
    requires WellFormedInterface(f) && (number == -1 || number == f[0].bInterfaceNumber)
    requires Stops(rest) && !IsAlternate(rest, f[0].bInterfaceNumber)
    ensures Stops(PrintAlts(f) + rest) && PrintAlts(f) != []
    ensures ParseAlts(PrintAlts(f) + rest, number) == Ok(f, |PrintAlts(f)|)
    ensures forall n: byte :: IsAlternate(PrintAlts(f) + rest, n) <==> n == f[0].bInterfaceNumber
    decreases |f|
  {
    hide ParseAlts, ParseAlt, PrintAlts, PrintAlt, WellFormedAlt, IsAlternate, Stops;
    var first, more := PrintAlt(f[0]), PrintAlts(f[1..]);
    PrintMoreAlts(f, rest);
    if |f| > 1 {
      AltsRoundTrip(f[1..], f[0].bInterfaceNumber, rest);
    } else {
      NoAlts(f[1..], rest);
    }
    AltRoundTrip(f[0], more + rest);
    AltStops(f[0], more + rest);
    MoreAlts(first, more + rest, f[0], f[1..], number, |more|);
  }

  // What may follow the last interface: nothing, or another configuration or
  // device descriptor.
  predicate Boundary(rest: seq<byte>) {
    rest == [] || (|rest| >= 2 && 2 <= rest[0] <= |rest| && (rest[1] == 2 || rest[1] == 1))
  }

  lemma MoreInterfaces(b: seq<byte>, x: nat, n: nat, extra: seq<byte>, all: seq<byte>, f: Interface,
                       fs: seq<Interface>, left: nat)
    requires SkipExtra(b) == Skip(x, Done) && 0 < n && x + n <= |b|
    requires all == if extra == [] then b[..x] else extra
    requires ParseAlts(b[x..], -1) == Ok(f, n)
    requires ParseInterfaces(b[x + n..], |fs|, all) == Ok((all, fs), left)
    ensures ParseInterfaces(b, |fs| + 1, extra) == Ok((all, [f] + fs), left)
  {
    hide SkipExtra, ParseAlts;
  }

  lemma InterfaceBytes(x: seq<byte>, first: seq<byte>, tail: seq<byte>, extra: seq<byte>)
    requires x == [] || extra == []
    ensures var b := x + (first + tail);
            b[|x|..] == first + tail && b[|x| + |first|..] == tail
            && x + extra == if extra == [] then b[..|x|] else extra
  {
  }

  lemma PrintMoreInterfaces(fs: seq<Interface>, rest: seq<byte>)
    requires fs != [] && WellFormedInterfaces(fs) && NeighboursDiffer(fs)
    ensures WellFormedInterface(fs[0]) && WellFormedInterfaces(fs[1..]) && NeighboursDiffer(fs[1..])
    ensures PrintInterfaces(fs) + rest == PrintAlts(fs[0]) + (PrintInterfaces(fs[1..]) + rest)
    ensures |fs| == 1 ==> PrintInterfaces(fs[1..]) + rest == rest
    ensures |fs| > 1 ==> fs[1..][0][0].bInterfaceNumber != fs[0][0].bInterfaceNumber
    ensures [fs[0]] + fs[1..] == fs && |fs[1..]| + 1 == |fs|
  {
    hide PrintAlts, WellFormedInterface;
  }

  lemma NoInterfaces(rest: seq<byte>, extra: seq<byte>)
    requires Boundary(rest)
    ensures [] + (PrintInterfaces([]) + rest) == rest && PrintInterfaces([]) + rest == rest && [] + extra == extra
    ensures Stops(rest) && (forall n: byte :: !IsAlternate(rest, n))
    ensures ParseInterfaces(rest, 0, extra) == Ok((extra, []), |rest|)
  {
  }

  lemma NothingInFront(tail: seq<byte>, extra: seq<byte>)
    ensures WellFormedExtra([]) && [] + tail == tail && [] + extra == extra
  {
  }

  lemma InterfaceStep(x: seq<byte>, first: seq<byte>, tail: seq<byte>, extra: seq<byte>, f: Interface,
                      fs: seq<Interface>, left: nat)
    requires WellFormedExtra(x) && Stops(first + tail) && (x == [] || extra == [])
    requires first != [] && ParseAlts(first + tail, -1) == Ok(f, |first|)
    requires ParseInterfaces(tail, |fs|, x + extra) == Ok((x + extra, fs), left)
    ensures ParseInterfaces(x + (first + tail), |fs| + 1, extra) == Ok((x + extra, [f] + fs), left)
  {
    hide ParseInterfaces, ParseAlts, SkipExtra, Stops, WellFormedExtra;
    SkipsExactly(x, first + tail);
    InterfaceBytes(x, first, tail, extra);
    MoreInterfaces(x + (first + tail), |x|, |first|, extra, x + extra, f, fs, left);
  }

  // Interfaces with extra already stored, or with x in front of the first.
  lemma {:induction false} InterfacesRoundTrip(fs: seq<Interface>, x: seq<byte>, extra: seq<byte>, rest: seq<byte>)
    requires WellFormedInterfaces(fs) && NeighboursDiffer(fs) && Boundary(rest)
    requires WellFormedExtra(x) && (x == [] || (extra == [] && fs != []))
    ensures Stops(PrintInterfaces(fs) + rest)
    ensures forall n: byte :: IsAlternate(PrintInterfaces(fs) + rest, n) ==>
              fs != [] && WellFormedInterface(fs[0]) && n == fs[0][0].bInterfaceNumber
    ensures ParseInterfaces(x + (PrintInterfaces(fs) + rest), |fs|, extra) == Ok((x + extra, fs), |rest|)
    decreases |fs|
  {
    hide ParseInterfaces, ParseAlts, PrintInterfaces, PrintAlts, SkipExtra, IsAlternate, Stops,
        WellFormedExtra, WellFormedAlt;
    if fs == [] {
      NoInterfaces(rest, extra);
    } else {
      var first, tail := PrintAlts(fs[0]), PrintInterfaces(fs[1..]) + rest;
      PrintMoreInterfaces(fs, rest);
      NothingInFront(tail, x + extra);
      InterfacesRoundTrip(fs[1..], [], x + extra, rest);
      AltsRoundTrip(fs[0], -1, tail);
      InterfaceStep(x, first, tail, extra, fs[0], fs[1..], |rest|);
    }
  }

  lemma ConfigPieces(header: seq<byte>, body: seq<byte>, x: seq<byte>, fs: seq<Interface>, left: nat)
    requires 9 <= |header| == header[0] && header[1] == 2 && header[4] == |fs| <= 32
    requires ParseInterfaces(body, |fs|, []) == Ok((x, fs), left)
    ensures ParseConfig(header + body) ==
            Ok(Config(header[0], header[1], Word(header[2], header[3]), header[4], header[5], header[6],
                      header[7], header[8], x, fs), left)
  {
    hide ParseInterfaces;
    Cut(header, body);
  }

  lemma ConfigRebuilt(c: Config, rest: seq<byte>)
    requires WellFormedConfig(c) && NeighboursDiffer(c.interfaces) && Boundary(rest)
    ensures ParseConfig(PrintConfig(c) + rest) == Ok(c, |rest|)
  {
    hide ParseInterfaces, PrintInterfaces, WellFormedExtra, ParseConfig;
    var header := Fill(ConfigHeader(c), c.bLength);
    var body := c.extra + (PrintInterfaces(c.interfaces) + rest);
    InterfacesRoundTrip(c.interfaces, c.extra, [], rest);
    assert c.extra + [] == c.extra;
    assert header[..9] == ConfigHeader(c);
    ConfigPieces(header, body, c.extra, c.interfaces, |rest|);
    Regroup(header, c.extra, PrintInterfaces(c.interfaces), rest);
    assert Word(c.wTotalLength % 256, c.wTotalLength / 256) == c.wTotalLength;
  }

  /* The parser never returns neighbours with one number. */

  lemma {:induction false} SkipTwice(b: seq<byte>)
    requires SkipExtra(b).end != Invalid
    ensures SkipExtra(b[SkipExtra(b).n..]) == Skip(0, SkipExtra(b).end)
    decreases |b|
  {
    if |b| >= 2 && b[0] <= |b| && !Proper(b[1]) {
      var n := SkipExtra(b[b[0]..]).n;
      SkipTwice(b[b[0]..]);
      assert b[b[0]..][n..] == b[b[0] + n..];
    } else {
      assert b[0..] == b;
    }
  }

  // Nothing but a standard descriptor, a short one or the end comes next.
  predicate AtHeader(b: seq<byte>) {
    SkipExtra(b).n == 0
  }

  lemma Twice(b: seq<byte>, n: nat)
    requires n <= |b| && SkipExtra(b[n..]).end != Invalid
    ensures var s := SkipExtra(b[n..]); SkipExtra(b[n + s.n..]) == Skip(0, s.end)
  {
    SkipTwice(b[n..]);
    assert b[n..][SkipExtra(b[n..]).n..] == b[n + SkipExtra(b[n..]).n..];
  }

  lemma EndpointEndsAtHeader(b: seq<byte>)
    ensures var r := ParseEndpoint(b); r.Ok? && r.count > 0 ==> AtHeader(b[r.count..])
  {
    hide SkipExtra;
    if |b| >= 2 && 7 <= b[0] <= |b| && SkipExtra(b[b[0]..]).end != Invalid { Twice(b, b[0]); }
  }

  lemma {:induction false} EndpointsEndAtHeader(b: seq<byte>, count: nat)
    requires AtHeader(b)
    ensures var r := ParseEndpoints(b, count); r.Ok? ==> AtHeader(b[r.count..])
  {
    hide ParseEndpoint, AtHeader;
    var one := ParseEndpoint(b);
    assert b[0..] == b;
    if count > 0 && one.Ok? && one.count > 0 {
      EndpointEndsAtHeader(b);
      EndpointsEndAtHeader(b[one.count..], count - 1);
      var r := ParseEndpoints(b[one.count..], count - 1);
      if r.Ok? { assert b[one.count..][r.count..] == b[one.count + r.count..]; }
    }
  }

  lemma AltEndsAtHeader(b: seq<byte>)
    requires |b| >= 9
    ensures var r := ParseAlt(b); r.OneAlt? ==> AtHeader(b[r.n..])
    ensures var r := ParseAlt(b); r.LastAlt? ==> SkipExtra(b[r.n..]) == Skip(0, Short)
    ensures var r := ParseAlt(b); r.OneAlt? || r.LastAlt? ==> b[1] == 4 && r.alt.bInterfaceNumber == b[2]
  {
    hide SkipExtra, ParseEndpoints;
    var r := ParseAlt(b);
    if r.OneAlt? || r.LastAlt? {
      var n := b[0] + SkipExtra(b[b[0]..]).n;
      Twice(b, b[0]);
      if r.OneAlt? {
        EndpointsEndAtHeader(b[n..], b[4]);
        assert b[n..][r.n - n..] == b[r.n..];
      }
    }
  }

  lemma ShortAlt(b: seq<byte>)
    requires |b| >= 9 && ParseAlt(b).NoAlt? && b[1] == 4
    ensures SkipExtra(b) == Skip(0, Short) && b[0..] == b
  {
    hide ParseEndpoints;
  }

  // No further alternate setting of the interface follows what was read of it.
  predicate Ended(b: seq<byte>, number: byte) {
    AtHeader(b) && (SkipExtra(b).end == Done ==> !IsAlternate(b, number))
  }

  lemma {:induction false} AltsEnd(b: seq<byte>, number: int)
    requires -1 <= number < 256 && ParseAlts(b, number).Ok? && ParseAlts(b, number).count > 0
    ensures var r := ParseAlts(b, number);
            && |b| >= 9 && b[1] == 4 && r.value[0].bInterfaceNumber == b[2]
            && Ended(b[r.count..], if number == -1 then b[2] else number)
    decreases |b|
  {
    hide ParseAlt, SkipExtra, IsAlternate;
    AltEndsAtHeader(b);
    var one := ParseAlt(b);
    var first := if number == -1 then b[2] else number;
    if one.OneAlt? && IsAlternate(b[one.n..], first) {
      var more := ParseAlts(b[one.n..], first);
      AlternateHeader(b[one.n..], first);
      assert b[one.n..][more.count..] == b[one.n + more.count..];
      if more.count > 0 {
        AltsEnd(b[one.n..], first);
      } else {
        ShortAlt(b[one.n..]);
      }
    }
  }

  lemma AlternateHeader(b: seq<byte>, number: byte)
    requires IsAlternate(b, number)
    ensures |b| >= 9 && b[1] == 4
  {
  }

  predicate FirstDiffers(fs: seq<Interface>, b: seq<byte>) {
    fs != [] ==> fs[0] != [] && forall n: byte :: Ended(b, n) ==> fs[0][0].bInterfaceNumber != n
  }

  // One interface was read in front of fs.
  lemma FirstInterface(b: seq<byte>, x: nat, f: Interface, n: nat, fs: seq<Interface>)
    requires SkipExtra(b) == Skip(x, Done) && ParseAlts(b[x..], -1) == Ok(f, n) && n > 0
    requires x + n <= |b| && FirstDiffers(fs, b[x + n..])
    ensures f != [] && FirstDiffers([f] + fs, b)
    ensures fs != [] ==> fs[0] != [] && f[0].bInterfaceNumber != fs[0][0].bInterfaceNumber
  {
    hide ParseAlts, SkipExtra, IsAlternate;
    AltsEnd(b[x..], -1);
    assert b[x..][n..] == b[x + n..];
    assert b[0..] == b;
    NotEnded(b);
  }

  lemma {:induction false} ParsedNeighboursDiffer(b: seq<byte>, count: nat, extra: seq<byte>)
    requires ParseInterfaces(b, count, extra).Ok?
    ensures var fs := ParseInterfaces(b, count, extra).value.1;
            && (forall i :: 0 <= i < |fs| ==> fs[i] != []) && NeighboursDiffer(fs) && FirstDiffers(fs, b)
    decreases count
  {
    hide ParseAlts, SkipExtra, Ended;
    var fs := ParseInterfaces(b, count, extra).value.1;
    if fs != [] {
      var s := SkipExtra(b);
      var one := ParseAlts(b[s.n..], -1);
      var stored := if extra == [] then b[..s.n] else extra;
      var rest := b[s.n + one.count..];
      ParsedNeighboursDiffer(rest, count - 1, stored);
      var more := ParseInterfaces(rest, count - 1, stored).value.1;
      FirstInterface(b, s.n, one.value, one.count, more);
      assert fs == [one.value] + more;
    }
  }

  lemma NotEnded(b: seq<byte>)
    ensures |b| >= 9 && b[1] == 4 && SkipExtra(b) == Skip(0, Done) ==> !Ended(b, b[2])
  {
  }

  // Parsing the layout of a tree rebuilds the tree, extras included, and leaves
  // exactly the bytes that follow it, if and only if no two neighbouring
  // interfaces have one number.
  lemma ConfigRoundTrip(c: Config, rest: seq<byte>)
    requires WellFormedConfig(c) && Boundary(rest)
    ensures ParseConfig(PrintConfig(c) + rest) == Ok(c, |rest|) <==> NeighboursDiffer(c.interfaces)
  {
    hide ParseInterfaces, PrintInterfaces, WellFormedExtra, Fill;
    var b := PrintConfig(c) + rest;
    if NeighboursDiffer(c.interfaces) {
      ConfigRebuilt(c, rest);
    } else if ParseConfig(b).Ok? {
      ParsedNeighboursDiffer(b[b[0]..], b[4], []);
    }
  }
}
