/** Tag-length-value encoding, as X.690 sections 8.1, 8.3 and 10.1 lay it out: definite
    lengths, minimal on output, and integers in two's complement. */
module Der {
  import opened Bytes
  import opened Wrappers

  const IntegerTag: byte := 0x02
  const OctetStringTag: byte := 0x04
  const NullTag: byte := 0x05
  const SequenceTag: byte := 0x30

  // ---------------------------------------------------------------- numbers

  function BigEndian(n: nat): seq<byte> {
    if n == 0 then [] else BigEndian(n / 256) + [(n % 256) as byte]
  }

  function Number(b: seq<byte>): nat {
    if b == [] then 0 else 256 * Number(b[..|b| - 1]) + b[|b| - 1] as nat
  }

  lemma {:induction false} NumberOfBigEndian(n: nat)
    ensures Number(BigEndian(n)) == n
  {
    if n > 0 {
      NumberOfBigEndian(n / 256);
      assert BigEndian(n)[..|BigEndian(n)| - 1] == BigEndian(n / 256);
    }
  }

  lemma {:induction false} BigEndianLength(n: nat, k: nat)
    requires n < Power(k)
    ensures |BigEndian(n)| <= k
  {
    if n > 0 && k > 0 { BigEndianLength(n / 256, k - 1); }
  }

  lemma {:induction false} LeadingZero(b: seq<byte>)
    ensures Number([0] + b) == Number(b)
  {
    if b == [] {
      assert ([0] + b)[..0] == [];
    } else {
      assert ([0] + b)[..|b|] == [0] + b[..|b| - 1];
      LeadingZero(b[..|b| - 1]);
    }
  }

  /** Contents of a non-negative INTEGER: a zero byte keeps the sign bit clear. */
  function IntegerContents(n: nat): seq<byte> {
    var b := BigEndian(n);
    if b == [] || b[0] >= 128 then [0] + b else b
  }

  /** Reads a non-negative INTEGER; a set sign bit is refused. */
  function ReadInteger(b: seq<byte>): Option<nat> {
    if b != [] && b[0] >= 128 then None else Some(Number(b))
  }

  lemma IntegerReadsBack(n: nat)
    ensures ReadInteger(IntegerContents(n)) == Some(n)
  {
    NumberOfBigEndian(n);
    LeadingZero(BigEndian(n));
  }

  // ---------------------------------------------------------------- objects

  datatype Object = Object(tag: byte, contents: seq<byte>, rest: seq<byte>)

  /** One length octet below 128; else the number of length octets, then the length. */
  function LengthOctets(n: nat): seq<byte> {
    if n < 128 then [n as byte]
    else [((128 + |BigEndian(n)|) % 256) as byte] + BigEndian(n)
  }

  function Tlv(tag: byte, contents: seq<byte>): seq<byte> {
    [tag] + LengthOctets(|contents|) + contents
  }

  datatype Length = Length(value: nat, rest: seq<byte>)

  function ReadLength(b: seq<byte>): Option<Length> {
    if b == [] then None
    else if b[0] < 128 then Some(Length(b[0] as nat, b[1..]))
    else
      var k := b[0] as nat - 128;
      if k == 0 || |b| < 1 + k then None
      else Some(Length(Number(b[1..1 + k]), b[1 + k..]))
  }

  function ReadObject(b: seq<byte>): Option<Object> {
    if b == [] then None else
      match ReadLength(b[1..])
      case None => None
      case Some(l) => if l.value > |l.rest| then None else Some(Object(b[0], l.rest[..l.value], l.rest[l.value..]))
  }

  lemma LengthReadsBack(n: nat, rest: seq<byte>)
    requires n < U64
    ensures ReadLength(LengthOctets(n) + rest) == Some(Length(n, rest))
  {
    if n >= 128 {
      NumberOfBigEndian(n);
      EightBytes();
      BigEndianLength(n, 8);
      LongFormReads(((128 + |BigEndian(n)|) % 256) as byte, BigEndian(n), rest);
    }
  }

  lemma LongFormReads(first: byte, b: seq<byte>, rest: seq<byte>)
    requires 0 < |b| <= 8 && first as nat == 128 + |b|
    ensures ReadLength([first] + b + rest) == Some(Length(Number(b), rest))
  {
    var all := [first] + b + rest;
    assert all[1..1 + |b|] == b;
    assert all[1 + |b|..] == rest;
  }

  /** An object reads back, whatever follows it. */
  lemma ObjectReadsBack(tag: byte, contents: seq<byte>, rest: seq<byte>)
    requires |contents| < U64
    ensures ReadObject(Tlv(tag, contents) + rest) == Some(Object(tag, contents, rest))
  {
    LengthReadsBack(|contents|, contents + rest);
    assert (Tlv(tag, contents) + rest)[1..] == LengthOctets(|contents|) + (contents + rest);
    assert (contents + rest)[..|contents|] == contents && (contents + rest)[|contents|..] == rest;
  }

  /** Bytes after an object never change how it reads. */
  lemma ReadIgnoresWhatFollows(b: seq<byte>, more: seq<byte>)
    requires ReadObject(b).Some?
    ensures var o := ReadObject(b).value;
      ReadObject(b + more) == Some(Object(o.tag, o.contents, o.rest + more))
  {
    var l := ReadLength(b[1..]).value;
    assert (b + more)[1..] == b[1..] + more;
    LengthIgnoresWhatFollows(b[1..], more);
    assert (l.rest + more)[..l.value] == l.rest[..l.value];
    assert (l.rest + more)[l.value..] == l.rest[l.value..] + more;
  }

  lemma LengthIgnoresWhatFollows(b: seq<byte>, more: seq<byte>)
    requires ReadLength(b).Some?
    ensures ReadLength(b + more) == Some(Length(ReadLength(b).value.value, ReadLength(b).value.rest + more))
  {
    if b[0] < 128 {
      assert (b + more)[1..] == b[1..] + more;
    } else {
      var k := b[0] as nat - 128;
      assert (b + more)[1..1 + k] == b[1..1 + k];
      assert (b + more)[1 + k..] == b[1 + k..] + more;
    }
  }
}
