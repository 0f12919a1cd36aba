/**
  usbi_parse_descriptor of descriptor.c: reading the fields of a descriptor as a
  format string says, one letter a field.
 */
module DescriptorFormat {
  import opened Octets

  // The number made of bytes, the first the least significant.
  function LittleEndian(b: seq<byte>): nat {
    if b == [] then 0 else b[0] + 256 * LittleEndian(b[1..])
  }

  function Bytes(v: nat, n: nat): (b: seq<byte>)
    ensures |b| == n
  {
    if n == 0 then [] else [v % 256] + Bytes(v / 256, n - 1)
  }

  function Power256(n: nat): nat {
    if n == 0 then 1 else 256 * Power256(n - 1)
  }

  // Bytes a letter stands for; another letter stands for none and has no field.
  function Width(letter: char): nat {
    match letter
    case 'b' => 1
    case 'w' => 2
    case 'd' => 4
    case 'u' => 16
    case _ => 0
  }

  function Size(format: string): nat {
    if format == "" then 0 else Width(format[0]) + Size(format[1..])
  }

  function Decode(format: string, b: seq<byte>): seq<nat>
    requires Size(format) <= |b|
  {
    if format == "" then []
    else
      var w := Width(format[0]);
      (if w == 0 then [] else [LittleEndian(b[..w])]) + Decode(format[1..], b[w..])
  }

  // The fields fit the format.
  predicate Fits(format: string, fields: seq<nat>) {
    if format == "" then fields == []
    else if Width(format[0]) == 0 then Fits(format[1..], fields)
    else fields != [] && fields[0] < Power256(Width(format[0])) && Fits(format[1..], fields[1..])
  }

  function Encode(format: string, fields: seq<nat>): (b: seq<byte>)
    requires Fits(format, fields)
    ensures |b| == Size(format)
  {
    if format == "" then []
    else if Width(format[0]) == 0 then Encode(format[1..], fields)
    else Bytes(fields[0], Width(format[0])) + Encode(format[1..], fields[1..])
  }

  lemma {:induction false} BytesOfNumber(v: nat, n: nat)
    requires v < Power256(n)
    ensures LittleEndian(Bytes(v, n)) == v
  {
    if n > 0 {
      BytesOfNumber(v / 256, n - 1);
      assert Bytes(v, n)[1..] == Bytes(v / 256, n - 1);
    }
  }

  lemma {:induction false} NumberOfBytes(b: seq<byte>)
    ensures LittleEndian(b) < Power256(|b|) && Bytes(LittleEndian(b), |b|) == b
  {
    if b != [] { NumberOfBytes(b[1..]); }
  }

  // Fields written in a format are read back from it, whatever follows them.
  lemma {:induction false} FieldsRoundTrip(format: string, fields: seq<nat>, rest: seq<byte>)
    requires Fits(format, fields)
    ensures Decode(format, Encode(format, fields) + rest) == fields
  {
    if format != "" {
      var w := Width(format[0]);
      if w == 0 {
        FieldsRoundTrip(format[1..], fields, rest);
        assert (Encode(format, fields) + rest)[0..] == Encode(format[1..], fields) + rest;
      } else {
        var first, more := Bytes(fields[0], w), Encode(format[1..], fields[1..]);
        BytesOfNumber(fields[0], w);
        FieldsRoundTrip(format[1..], fields[1..], rest);
        assert first + more + rest == first + (more + rest);
        assert (first + (more + rest))[w..] == more + rest;
      }
    }
  }

  // And the bytes read are the bytes the fields are written as.
  lemma {:induction false} BytesRoundTrip(format: string, b: seq<byte>)
    requires Size(format) <= |b|
    ensures Fits(format, Decode(format, b)) && Encode(format, Decode(format, b)) == b[..Size(format)]
  {
    if format != "" {
      var w := Width(format[0]);
      BytesRoundTrip(format[1..], b[w..]);
      if w > 0 {
        DecodeFirst(format, b);
        NumberOfBytes(b[..w]);
        EncodeFirst(format, Decode(format, b), b);
      } else {
        var fields := Decode(format[1..], b[w..]);
        assert b[w..] == b && [] + fields == fields;
      }
    }
  }

  lemma DecodeFirst(format: string, b: seq<byte>)
    requires format != "" && Width(format[0]) > 0 && Size(format) <= |b|
    ensures var fields, w := Decode(format, b), Width(format[0]);
            fields != [] && fields[0] == LittleEndian(b[..w]) && fields[1..] == Decode(format[1..], b[w..])
  {
    hide LittleEndian;
  }

  lemma EncodeFirst(format: string, fields: seq<nat>, b: seq<byte>)
    requires format != "" && fields != [] && Size(format) <= |b|
    requires var w := Width(format[0]);
             && w > 0 && fields[0] < Power256(w) && Bytes(fields[0], w) == b[..w]
             && Fits(format[1..], fields[1..]) && Encode(format[1..], fields[1..]) == b[w..][..Size(format[1..])]
    ensures Fits(format, fields) && Encode(format, fields) == b[..Size(format)]
  {
    hide Bytes, Power256;
    var w := Width(format[0]);
    assert b[..Size(format)] == b[..w] + b[w..][..Size(format[1..])];
  }

  lemma {:induction false} SizeConcat(a: string, b: string)
    ensures Size(a + b) == Size(a) + Size(b)
  {
    if a == "" { assert a + b == b; }
    else { SizeConcat(a[1..], b); assert (a + b)[1..] == a[1..] + b; }
  }

  function Field(letter: char, at: nat, b: seq<byte>): seq<nat>
    requires at + Width(letter) <= |b|
  {
    if Width(letter) == 0 then [] else [LittleEndian(b[at..at + Width(letter)])]
  }

  lemma SizeMore(a: string, letter: char)
    ensures Size(a + [letter]) == Size(a) + Width(letter)
  {
    SizeConcat(a, [letter]);
    assert [letter][1..] == "";
  }

  lemma DecodeHead(a: string, b: seq<byte>)
    requires a != "" && Size(a) <= |b|
    ensures Decode(a, b) == Field(a[0], 0, b) + Decode(a[1..], b[Width(a[0])..])
  {
  }

  lemma {:induction false} DecodeMore(a: string, letter: char, b: seq<byte>)
    requires Size(a + [letter]) <= |b|
    ensures Size(a + [letter]) == Size(a) + Width(letter)
    ensures Decode(a + [letter], b) == Decode(a, b) + Field(letter, Size(a), b)
  {
    SizeMore(a, letter);
    hide LittleEndian;
    if a == "" {
      assert a + [letter] == [letter] && [letter][1..] == "";
    } else {
      hide Decode;
      var w := Width(a[0]);
      assert (a + [letter])[1..] == a[1..] + [letter];
      DecodeMore(a[1..], letter, b[w..]);
      DecodeHead(a, b);
      DecodeHead(a + [letter], b);
      var at, n := Size(a[1..]), Width(letter);
      assert b[w..][at..at + n] == b[w + at..w + at + n];
    }
  }

  // usbi_parse_descriptor with the words in bus order.  The fields are listed
  // rather than laid out in a structure.
  method ParseDescriptor(source: seq<byte>, descriptor: string) returns (dest: seq<nat>, sp: nat)
    requires Size(descriptor) <= |source|
    ensures dest == Decode(descriptor, source) && sp == Size(descriptor)
  {
    hide Decode, LittleEndian, Size;
    sp, dest := 0, [];
    NoFields(source);
    for cp := 0 to |descriptor|
      invariant sp == Size(descriptor[..cp]) <= |source| && dest == Decode(descriptor[..cp], source)
    {
      SizeFits(descriptor, cp);
      SizeFits(descriptor, cp + 1);
      DecodeMore(descriptor[..cp], descriptor[cp], source);
      match descriptor[cp]
      case 'b' =>
        Little1(source[sp..sp + 1]);
        dest := dest + [source[sp]];
        sp := sp + 1;
      case 'w' =>
        Little2(source[sp..sp + 2]);
        dest := dest + [256 * source[sp + 1] as int + source[sp] as int];
        sp := sp + 2;
      case 'd' =>
        Little4(source[sp..sp + 4]);
        dest := dest + [0x100_0000 * source[sp + 3] as int + 0x1_0000 * source[sp + 2] as int
                        + 0x100 * source[sp + 1] as int + source[sp] as int];
        sp := sp + 4;
      case 'u' =>
        dest := dest + [LittleEndian(source[sp..sp + 16])];
        sp := sp + 16;
      case _ =>
    }
    assert descriptor[..|descriptor|] == descriptor;
  }

  lemma NoFields(b: seq<byte>)
    ensures Size("") == 0 && Decode("", b) == []
  {
  }

  lemma SizeFits(format: string, n: nat)
    requires n <= |format|
    ensures Size(format[..n]) <= Size(format)
    ensures n < |format| ==> format[..n + 1] == format[..n] + [format[n]]
  {
    SizeConcat(format[..n], format[n..]);
    assert format[..n] + format[n..] == format;
  }

  lemma Little1(b: seq<byte>)
    requires |b| == 1
    ensures LittleEndian(b) == b[0]
  {
  }

  lemma Little2(b: seq<byte>)
    requires |b| == 2
    ensures LittleEndian(b) == 256 * b[1] as int + b[0] as int
  {
    Little1(b[1..]);
  }

  lemma Little4(b: seq<byte>)
    requires |b| == 4
    ensures LittleEndian(b) == 0x100_0000 * b[3] as int + 0x1_0000 * b[2] as int + 0x100 * b[1] as int + b[0] as int
  {
    Little2(b[2..]);
    assert b[1..][1..] == b[2..];
  }
}
