// Bytes as the firmware stores them, the big-endian packing the archive uses, and optional values.
module Bytes {

  type byte = x: int | 0 <= x < 256

  const U16: int := 65536
  const U32: int := 4294967296

  type u16 = x: int | 0 <= x < 65536
  type u32 = x: int | 0 <= x < 4294967296

  datatype Option<T> = None | Some(value: T)

  function Fill(n: nat, b: byte): (s: seq<byte>)
    ensures |s| == n
    ensures forall i :: 0 <= i < n ==> s[i] == b
  {
    seq(n, i => b)
  }

  function Be16(x: u16): seq<byte> {
    [x / 256, x % 256]
  }

  function Be32(x: u32): seq<byte> {
    [x / 16777216, x / 65536 % 256, x / 256 % 256, x % 256]
  }

  function FromBe16(s: seq<byte>): u16
    requires |s| == 2
  {
    var hi: int := s[0];
    256 * hi + s[1]
  }

  function FromBe32(s: seq<byte>): u32
    requires |s| == 4
  {
    var hi: int := s[0];
    ((hi * 256 + s[1]) * 256 + s[2]) * 256 + s[3]
  }

  lemma Be32RoundTrip(x: u32)
    ensures FromBe32(Be32(x)) == x
  {
    assert x / 65536 == (x / 256) / 256;
    assert x / 16777216 == (x / 65536) / 256;
  }
}
