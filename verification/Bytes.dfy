/** Bytes and the big-endian integers of the wire format. */
module Bytes {
  type byte = x: int | 0 <= x < 256

  /** Text is what the strings of both sides are on the wire: bytes. */
  type Text = seq<byte>

  const TWO8 := 0x100
  const TWO16 := 0x1_0000
  const TWO32 := 0x1_0000_0000

  function U16(n: nat): seq<byte>
    requires n < TWO16
  {
    [n / 0x100, n % 0x100]
  }

  function U32(n: nat): seq<byte>
    requires n < TWO32
  {
    U16(n / 0x1_0000) + U16(n % 0x1_0000)
  }

  function FromU16(s: seq<byte>): (n: nat)
    requires |s| == 2
    ensures n < TWO16
  {
    var hi: int, lo: int := s[0], s[1];
    hi * 0x100 + lo
  }

  function FromU32(s: seq<byte>): (n: nat)
    requires |s| == 4
    ensures n < TWO32
  {
    FromU16(s[..2]) * 0x1_0000 + FromU16(s[2..])
  }

  lemma U16RoundTrip(n: nat)
    requires n < TWO16
    ensures FromU16(U16(n)) == n
  {
  }

  lemma U32RoundTrip(n: nat)
    requires n < TWO32
    ensures FromU32(U32(n)) == n
  {
    var s := U32(n);
    assert s[..2] == U16(n / 0x1_0000) && s[2..] == U16(n % 0x1_0000);
  }

  lemma FromU16RoundTrip(s: seq<byte>)
    requires |s| == 2
    ensures U16(FromU16(s)) == s
  {
    var n := FromU16(s);
    assert n / 0x100 == s[0] && n % 0x100 == s[1];
  }

  lemma FromU32RoundTrip(s: seq<byte>)
    requires |s| == 4
    ensures U32(FromU32(s)) == s
  {
    FromU16RoundTrip(s[..2]);
    FromU16RoundTrip(s[2..]);
    assert FromU32(s) / 0x1_0000 == FromU16(s[..2]) && FromU32(s) % 0x1_0000 == FromU16(s[2..]);
    assert s[..2] + s[2..] == s;
  }

  function Concat(parts: seq<seq<byte>>): seq<byte> {
    if parts == [] then [] else Concat(parts[..|parts| - 1]) + parts[|parts| - 1]
  }
}
