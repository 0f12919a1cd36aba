/**
  What descriptor.c makes of buffers that are not the layout of a tree: descriptors
  cut short or malformed, counts that do not match, headers that are refused.
 */
module DescriptorErrors {
  import opened Octets
  import opened DescriptorSpec
  import opened DescriptorRoundTrip

  /* Skipping. */

  // A descriptor that says it is longer than the bytes there are.
  predicate CutShort(rest: seq<byte>) {
    |rest| >= 2 && 2 <= rest[0] && |rest| < rest[0]
  }

  // A descriptor that says it is shorter than its own header.
  predicate Malformed(rest: seq<byte>) {
    |rest| >= 2 && rest[0] < 2
  }

  function EndAt(rest: seq<byte>): SkipEnd {
    if Malformed(rest) then Invalid else if CutShort(rest) then Short else Done
  }

  predicate Ends(rest: seq<byte>) {
    Stops(rest) || CutShort(rest) || Malformed(rest)
  }

  // Descriptors of other types are skipped up to the first bytes that are none.
  lemma {:induction false} SkipsUpTo(x: seq<byte>, rest: seq<byte>)
    requires WellFormedExtra(x) && Ends(rest)
    ensures SkipExtra(x + rest) == Skip(|x|, EndAt(rest))
    decreases |x|
  {
    if x == [] {
      assert x + rest == rest;
    } else {
      SkipsUpTo(x[x[0]..], rest);
      assert (x + rest)[x[0]..] == x[x[0]..] + rest;
    }
  }

  // Every buffer divides so.
  lemma {:induction false} SkipDivides(b: seq<byte>)
    ensures var s := SkipExtra(b); WellFormedExtra(b[..s.n]) && Ends(b[s.n..]) && s.end == EndAt(b[s.n..])
    decreases |b|
  {
    assert b[..0] == [] && b[0..] == b;
    if |b| >= 2 && 2 <= b[0] <= |b| && !Standard(b[1]) {
      var k, s := b[0] as nat, SkipExtra(b[b[0]..]);
      SkipDivides(b[k..]);
      assert b[..k + s.n][k..] == b[k..][..s.n] && b[k + s.n..] == b[k..][s.n..];
    }
  }

  /* Endpoints. */

  // When an endpoint is refused, and when nothing is read.
  lemma EndpointRefused(b: seq<byte>)
    ensures ParseEndpoint(b).IOError? <==>
            |b| < 2 || (b[1] == 5 && b[0] <= |b| && (b[0] < 7 || SkipExtra(b[b[0]..]).end == Invalid))
    ensures (exists e :: ParseEndpoint(b) == Ok(e, 0)) <==> |b| >= 2 && (b[1] != 5 || |b| < b[0])
  {
    hide SkipExtra;
    assert |b| >= 2 && (b[1] != 5 || |b| < b[0]) ==> ParseEndpoint(b) == Ok(NO_ENDPOINT, 0);
  }

  // A short descriptor behind an endpoint makes it lose its extra bytes, a malformed
  // one makes it refused.
  lemma EndpointBefore(e: Endpoint, rest: seq<byte>)
    requires WellFormedEndpoint(e) && Ends(rest)
    ensures ParseEndpoint(PrintEndpoint(e) + rest) ==
            if Malformed(rest) then IOError
            else Ok(if CutShort(rest) then e.(extra := []) else e, |PrintEndpoint(e)|)
  {
    hide SkipExtra, EndpointFields, EndpointHeader, WellFormedExtra, Stops;
    var header := EndpointHeader(e);
    var b := header + (e.extra + rest);
    EndpointHeaderFields(e);
    SkipsUpTo(e.extra, rest);
    CutTwice(header, e.extra, rest);
    Associate(header, e.extra, rest);
    SameEndpointFields(b, header);
  }

  lemma SameEndpointFields(b: seq<byte>, header: seq<byte>)
    requires |b| >= |header| >= 7 && header[0] == |header| && forall i :: 0 <= i < |header| ==> b[i] == header[i]
    ensures EndpointFields(b) == EndpointFields(header)
  {
  }

  // count endpoints are asked for where those of es lie in front of rest.
  lemma {:induction false} EndpointsRead(es: seq<Endpoint>, count: nat, rest: seq<byte>)
    requires (forall i :: 0 <= i < |es| ==> WellFormedEndpoint(es[i])) && Stops(rest)
    requires count > |es| ==> |rest| < 2 || rest[1] != 5
    ensures Stops(PrintEndpoints(es) + rest)
    ensures ParseEndpoints(PrintEndpoints(es) + rest, count) ==
            if count > |es| && |rest| < 2 then IOError
            else if count > |es| then Ok(es, |PrintEndpoints(es)|)
            else Ok(es[..count], |PrintEndpoints(es[..count])|)
    decreases |es|
  {
    hide ParseEndpoint, PrintEndpoint, WellFormedEndpoint, Stops;
    if es == [] {
      assert PrintEndpoints(es) + rest == rest && es[..0] == es;
      EndpointRefused(rest);
    } else {
      var first, more := PrintEndpoint(es[0]), PrintEndpoints(es[1..]);
      PrintMoreEndpoints(es, rest);
      EndpointStops(es[0], more + rest);
      if count == 0 {
        assert es[..0] == [];
      } else {
        EndpointsRead(es[1..], count - 1, rest);
        EndpointRoundTrip(es[0], more + rest);
        Cut(first, more + rest);
        if count <= |es| { PrintFirst(es, count); }
      }
    }
  }

  lemma PrintFirst(es: seq<Endpoint>, count: nat)
    requires (forall i :: 0 <= i < |es| ==> WellFormedEndpoint(es[i])) && 0 < count <= |es|
    ensures es[..count] == [es[0]] + es[1..][..count - 1]
    ensures |PrintEndpoints(es[..count])| == |PrintEndpoint(es[0])| + |PrintEndpoints(es[1..][..count - 1])|
  {
    hide PrintEndpoint, WellFormedEndpoint;
    assert es[..count][1..] == es[1..][..count - 1];
  }

  /* Alternate settings. */

  // When an alternate setting is refused, and when there is none.
  lemma AltRefused(b: seq<byte>)
    requires |b| >= 9
    ensures ParseAlt(b).NoAlt? <==> b[1] != 4 || |b| < b[0]
    ensures b[1] == 4 && (b[0] < 9 || (b[0] <= |b| && b[4] > 32)) ==> ParseAlt(b).BadAlt?
    ensures b[1] == 4 && 9 <= b[0] <= |b| && b[4] <= 32 ==>
              var s := SkipExtra(b[b[0]..]);
              && (ParseAlt(b).LastAlt? <==> s.end == Short)
              && (ParseAlt(b).BadAlt? <==>
                  s.end == Invalid || (s.end == Done && ParseEndpoints(b[b[0] + s.n..], b[4]).IOError?))
  {
    hide SkipExtra, ParseEndpoints;
  }

  // The layout of an alternate setting that declares count endpoints.
  function Declaring(a: AltSetting, count: byte): seq<byte>
    requires WellFormedAlt(a)
    ensures |PrintAlt(a)| >= 9
  {
    AltHeaderFields(a);
    PrintAlt(a)[4 := count]
  }

  lemma AltPieces(a: AltSetting, count: byte, rest: seq<byte>)
    requires WellFormedAlt(a)
    ensures var b := Declaring(a, count) + rest;
            && |b| >= 9 && b[0] == a.bLength && b[1] == 4 && b[4] == count && a.bLength + |a.extra| <= |b|
            && AltFields(b) == a.(bNumEndpoints := count, extra := [], endpoints := [])
            && b[a.bLength..] == a.extra + (PrintEndpoints(a.endpoints) + rest)
            && b[a.bLength..a.bLength + |a.extra|] == a.extra
            && b[a.bLength + |a.extra|..] == PrintEndpoints(a.endpoints) + rest
  {
    hide PrintEndpoints, WellFormedExtra;
    var header, points := Fill(AltHeader(a), a.bLength), PrintEndpoints(a.endpoints);
    AltHeaderFields(a);
    var h := header[4 := count];
    assert Declaring(a, count) == h + a.extra + points;
    Regroup(h, a.extra, points, rest);
    CutTwice(h, a.extra, points + rest);
    assert AltFields(h) == AltFields(header).(bNumEndpoints := count);
    SameAltFields(h + (a.extra + (points + rest)), h);
  }

  // However many endpoints are declared, at most those there are are read; asking
  // for more is an error only at the end of the buffer.
  lemma AltDeclares(a: AltSetting, count: byte, rest: seq<byte>)
    requires WellFormedAlt(a) && Stops(rest)
    requires count > |a.endpoints| ==> |rest| < 2 || rest[1] != 5
    ensures ParseAlt(Declaring(a, count) + rest) ==
            if count > 32 || (count > |a.endpoints| && |rest| < 2) then BadAlt
            else if count > |a.endpoints| then OneAlt(a, |PrintAlt(a)|)
            else var es := a.endpoints[..count];
                 OneAlt(a.(bNumEndpoints := count, endpoints := es),
                        a.bLength + |a.extra| + |PrintEndpoints(es)|)
  {
    hide ParseEndpoints, PrintEndpoints, SkipExtra, AltFields, WellFormedExtra, Stops, Declaring;
    AltPieces(a, count, rest);
    EndpointsRead(a.endpoints, count, rest);
    SkipsUpTo(a.extra, PrintEndpoints(a.endpoints) + rest);
    assert EndAt(PrintEndpoints(a.endpoints) + rest) == Done by { StopsIsDone(PrintEndpoints(a.endpoints) + rest); }
    AltHeaderFields(a);
  }

  lemma StopsIsDone(rest: seq<byte>)
    requires Stops(rest)
    ensures Ends(rest) && EndAt(rest) == Done
  {
  }

  // A short descriptor behind an alternate setting without endpoints ends the
  // interface there, without the extra bytes; a malformed one makes it refused.
  lemma AltBefore(a: AltSetting, count: byte, rest: seq<byte>)
    requires WellFormedAlt(a) && a.endpoints == [] && count <= 32 && (CutShort(rest) || Malformed(rest))
    ensures ParseAlt(Declaring(a, count) + rest) ==
            if Malformed(rest) then BadAlt
            else LastAlt(a.(extra := [], bNumEndpoints := count), a.bLength + |a.extra|)
  {
    hide ParseEndpoints, SkipExtra, AltFields, WellFormedExtra, Declaring;
    AltPieces(a, count, rest);
    assert PrintEndpoints(a.endpoints) + rest == rest;
    SkipsUpTo(a.extra, rest);
  }

  /* Interfaces. */

  // When the first alternate setting of an interface is refused, and when there is none.
  lemma InterfaceRefused(b: seq<byte>)
    ensures ParseAlts(b, -1) == Ok([], 0) <==> |b| < 9 || b[1] != 4 || |b| < b[0]
    ensures |b| >= 9 && ParseAlt(b).BadAlt? ==> ParseAlts(b, -1).IOError?
  {
    hide ParseAlt;
    if |b| >= 9 { AltRefused(b); }
  }

  // More alternate settings of the same interface behind those of f.
  lemma {:induction false} InterfaceContinues(f: Interface, number: int, rest: seq<byte>)
    requires WellFormedInterface(f) && (number == -1 || number == f[0].bInterfaceNumber)
    requires Stops(rest) && IsAlternate(rest, f[0].bInterfaceNumber)
    ensures ParseAlts(PrintAlts(f) + rest, number) ==
            match ParseAlts(rest, f[0].bInterfaceNumber)
            case IOError => IOError
            case Ok(more, m) => Ok(f + more, |PrintAlts(f)| + m)
    decreases |f|
  {
    hide ParseAlts, ParseAlt, PrintAlts, PrintAlt, WellFormedAlt, IsAlternate, Stops;
    var first, tail, k := PrintAlt(f[0]), PrintAlts(f[1..]) + rest, f[0].bInterfaceNumber;
    PrintMoreAlts(f, rest);
    if |f| > 1 {
      InterfaceContinues(f[1..], k, rest);
      AltStops(f[1], PrintAlts(f[1..][1..]) + rest);
      PrintMoreAlts(f[1..], rest);
    } else {
      NoAlts(f[1..], rest);
      assert f == [f[0]];
    }
    AltRoundTrip(f[0], tail);
    AltStops(f[0], tail);
    StepAlts(first, tail, f[0], number);
    var r := ParseAlts(rest, k);
    if r.Ok? { assert [f[0]] + (f[1..] + r.value) == f + r.value; }
  }

  // How the interface ends that one more alternate setting of its number follows.
  lemma InterfaceBefore(f: Interface, rest: seq<byte>)
    requires WellFormedInterface(f) && Stops(rest) && |rest| >= 9 && rest[1] == 4 && rest[2] == f[0].bInterfaceNumber
    ensures var r := ParseAlts(PrintAlts(f) + rest, -1);
            && (ParseAlt(rest).BadAlt? ==> r.IOError?)
            && (ParseAlt(rest).LastAlt? ==> r == Ok(f + [ParseAlt(rest).alt], |PrintAlts(f)| + ParseAlt(rest).n))
  {
    hide ParseAlt, PrintAlts, WellFormedAlt, Stops;
    InterfaceContinues(f, -1, rest);
  }

  lemma StepAlts(first: seq<byte>, tail: seq<byte>, a: AltSetting, number: int)
    requires |first| >= 9 && ParseAlt(first + tail) == OneAlt(a, |first|)
    requires number == -1 || number == a.bInterfaceNumber
    requires IsAlternate(tail, a.bInterfaceNumber)
    ensures ParseAlts(first + tail, number) ==
            match ParseAlts(tail, a.bInterfaceNumber)
            case IOError => IOError
            case Ok(more, m) => Ok([a] + more, |first| + m)
  {
    hide ParseAlt;
    Cut(first, tail);
  }

  /* Configurations. */

  // Exactly when parse_configuration refuses its header, for every buffer; otherwise
  // it fails exactly if its interfaces do.
  lemma HeaderRefused(b: seq<byte>)
    ensures |b| < 9 || b[1] != 2 || b[0] < 9 || |b| < b[0] || b[4] > 32 ==> ParseConfig(b).IOError?
    ensures |b| >= 9 && b[1] == 2 && 9 <= b[0] <= |b| && b[4] <= 32 ==>
              (ParseConfig(b).IOError? <==> ParseInterfaces(b[b[0]..], b[4], []).IOError?)
  {
    hide ParseInterfaces;
  }

  // The layout of a configuration that declares count interfaces.
  function Promising(c: Config, count: byte): seq<byte>
    requires WellFormedConfig(c)
    ensures |PrintConfig(c)| >= 9
  {
    assert |ConfigHeader(c)| == 9;
    PrintConfig(c)[4 := count]
  }

  lemma PromisingPieces(c: Config, count: byte, rest: seq<byte>, x: seq<byte>, fs: seq<Interface>, left: nat)
    requires WellFormedConfig(c) && count <= 32
    requires ParseInterfaces(c.extra + (PrintInterfaces(c.interfaces) + rest), count, []) == Ok((x, fs), left)
    ensures ParseConfig(Promising(c, count) + rest) ==
            Ok(c.(bNumInterfaces := |fs|, extra := x, interfaces := fs), left)
  {
    hide ParseInterfaces, PrintInterfaces, WellFormedExtra, ParseConfig;
    var header, body := Fill(ConfigHeader(c), c.bLength), PrintInterfaces(c.interfaces);
    var h := header[4 := count];
    assert header[..9] == ConfigHeader(c);
    assert Promising(c, count) == h + c.extra + body;
    Regroup(h, c.extra, body, rest);
    HeaderPieces(h, c.extra + (body + rest), x, fs, left);
    assert Word(c.wTotalLength % 256, c.wTotalLength / 256) == c.wTotalLength;
  }

  lemma HeaderPieces(header: seq<byte>, body: seq<byte>, x: seq<byte>, fs: seq<Interface>, left: nat)
    requires 9 <= |header| == header[0] && header[1] == 2 && header[4] <= 32
    requires ParseInterfaces(body, header[4], []) == Ok((x, fs), left)
    ensures |fs| <= 32
    ensures ParseConfig(header + body) ==
            Ok(Config(header[0], header[1], Word(header[2], header[3]), |fs|, header[5], header[6],
                      header[7], header[8], x, fs), left)
  {
    hide ParseInterfaces;
    Cut(header, body);
  }

  // count interfaces are asked for where those of fs lie in front of rest.
  lemma {:induction false} InterfacesRead(fs: seq<Interface>, x: seq<byte>, extra: seq<byte>, count: nat,
                                          rest: seq<byte>)
    requires WellFormedInterfaces(fs) && NeighboursDiffer(fs) && Boundary(rest) && count > 0
    requires WellFormedExtra(x) && (x == [] || (extra == [] && fs != []))
    ensures var n := if count < |fs| then count else |fs|;
            ParseInterfaces(x + (PrintInterfaces(fs) + rest), count, extra)
            == Ok((x + extra, fs[..n]), |PrintInterfaces(fs[n..]) + rest|)
    decreases |fs|
  {
    hide ParseInterfaces, ParseAlts, PrintInterfaces, PrintAlts, SkipExtra, IsAlternate, Stops, Boundary,
        WellFormedExtra, WellFormedAlt;
    if fs == [] {
      assert x == [];
      NoneLeft(rest, count, extra);
      assert fs[..0] == fs && fs[0..] == fs;
    } else {
      var first, tail := PrintAlts(fs[0]), PrintInterfaces(fs[1..]) + rest;
      PrintMoreInterfaces(fs, rest);
      NothingInFront(tail, x + extra);
      InterfacesRoundTrip(fs[1..], [], x + extra, rest);
      AltsRoundTrip(fs[0], -1, tail);
      if count > 1 {
        InterfacesRead(fs[1..], [], x + extra, count - 1, rest);
        var n := if count < |fs| then count else |fs|;
        assert fs[..n] == [fs[0]] + fs[1..][..n - 1] && fs[n..] == fs[1..][n - 1..];
        OneInterface(x, first, tail, extra, count, fs[0], fs[1..][..n - 1], |PrintInterfaces(fs[n..]) + rest|);
      } else {
        assert fs[..1] == [fs[0]] + [];
        NoneAsked(tail, x + extra);
        OneInterface(x, first, tail, extra, count, fs[0], [], |tail|);
      }
    }
  }

  lemma NoneAsked(tail: seq<byte>, extra: seq<byte>)
    ensures ParseInterfaces(tail, 0, extra) == Ok((extra, []), |tail|)
  {
  }

  lemma NoneLeft(rest: seq<byte>, count: nat, extra: seq<byte>)
    requires Boundary(rest)
    ensures [] + (PrintInterfaces([]) + rest) == rest && [] + extra == extra
    ensures |PrintInterfaces([]) + rest| == |rest|
    ensures ParseInterfaces(rest, count, extra) == Ok((extra, []), |rest|)
  {
    assert PrintInterfaces([]) + rest == rest;
    assert rest[..0] == [] && rest[0..] == rest;
  }

  lemma OneInterface(x: seq<byte>, first: seq<byte>, tail: seq<byte>, extra: seq<byte>, count: nat, f: Interface,
                     fs: seq<Interface>, left: nat)
    requires WellFormedExtra(x) && Stops(first + tail) && (x == [] || extra == []) && count > 0
    requires first != [] && ParseAlts(first + tail, -1) == Ok(f, |first|)
    requires ParseInterfaces(tail, count - 1, x + extra) == Ok((x + extra, fs), left)
    ensures ParseInterfaces(x + (first + tail), count, extra) == Ok((x + extra, [f] + fs), left)
  {
    hide ParseAlts, SkipExtra, Stops, WellFormedExtra;
    SkipsExactly(x, first + tail);
    InterfaceBytes(x, first, tail, extra);
  }

  // However many interfaces are declared, at most those there are are read; the
  // layout of the others is left.
  lemma ConfigPromises(c: Config, count: byte, rest: seq<byte>)
    requires WellFormedConfig(c) && NeighboursDiffer(c.interfaces) && Boundary(rest) && 0 < count <= 32
    ensures var n := if count < |c.interfaces| then count as nat else |c.interfaces|;
            ParseConfig(Promising(c, count) + rest)
            == Ok(c.(bNumInterfaces := n, interfaces := c.interfaces[..n]),
                  |PrintInterfaces(c.interfaces[n..])| + |rest|)
  {
    hide ParseInterfaces, PrintInterfaces, WellFormedExtra, ParseConfig, Promising;
    InterfacesRead(c.interfaces, c.extra, [], count, rest);
    assert c.extra + [] == c.extra;
    var n := if count < |c.interfaces| then count as nat else |c.interfaces|;
    PromisingPieces(c, count, rest, c.extra, c.interfaces[..n], |PrintInterfaces(c.interfaces[n..])| + |rest|);
  }

  // What lies in front of the first interface where none follows: bytes that are cut
  // short end the configuration, malformed ones are refused, others are its extra.
  lemma ConfigWithout(x: seq<byte>, count: nat, rest: seq<byte>)
    requires WellFormedExtra(x) && Ends(rest) && count > 0
    requires Stops(rest) ==> |rest| < 9 || rest[1] != 4
    ensures ParseInterfaces(x + rest, count, []) ==
            if Malformed(rest) then IOError
            else Ok((if CutShort(rest) then [] else x, []), |rest|)
  {
    hide SkipExtra, ParseAlts, WellFormedExtra;
    SkipsUpTo(x, rest);
    Cut(x, rest);
    InterfaceRefused(rest);
  }

  // An interface that is refused makes the configuration refused.
  lemma ConfigSpoiled(x: seq<byte>, count: nat, rest: seq<byte>, extra: seq<byte>)
    requires WellFormedExtra(x) && Stops(rest) && count > 0 && ParseAlts(rest, -1).IOError?
    ensures ParseInterfaces(x + rest, count, extra).IOError?
  {
    hide SkipExtra, ParseAlts, WellFormedExtra;
    SkipsUpTo(x, rest);
    Cut(x, rest);
  }
}
