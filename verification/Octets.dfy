module Octets {
  type byte = b: int | 0 <= b < 256

  // The value of bytes in network order.
  function BigEndian(b: seq<byte>): nat {
    if b == [] then 0 else 256 * BigEndian(b[..|b| - 1]) + b[|b| - 1]
  }

  // htonl
  function NetworkOrder(v: nat): (b: seq<byte>)
    requires v < 0x1_0000_0000
    ensures |b| == 4
  {
    var w := v / 256;
    var x := w / 256;
    [x / 256, x % 256, w % 256, v % 256]
  }

  lemma BigEndian4(b: seq<byte>)
    requires |b| == 4
    ensures BigEndian(b) == 0x100_0000 * b[0] as int + 0x1_0000 * b[1] as int + 256 * b[2] as int + b[3] as int
  {
    var c, d, e := b[..3], b[..2], b[..1];
    assert c[..2] == d && c[..1] == e && d[..1] == e && e[..0] == [];
    assert BigEndian(e) == b[0];
    assert BigEndian(d) == 256 * BigEndian(e) + b[1];
    assert BigEndian(c) == 256 * BigEndian(d) + b[2];
  }

  lemma NetworkOrderRoundTrip(v: nat)
    requires v < 0x1_0000_0000
    ensures BigEndian(NetworkOrder(v)) == v
  {
    BigEndian4(NetworkOrder(v));
  }
}
