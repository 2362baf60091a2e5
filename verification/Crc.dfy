// The checksum of user/crc.c. The two 256-entry tables there tabulate eight steps of the
// reflected polynomial 0xA001; here the entries are computed.
module Crc {
  import opened Bytes
  import opened ArchiveSpec

  function Shift(c: bv16): bv16 {
    if c & 1 == 1 then (c >> 1) ^ 0xA001 else c >> 1
  }

  // crc16L[i] in the high byte, crc16H[i] in the low byte.
  function Table(i: bv8): bv16 {
    Shift(Shift(Shift(Shift(Shift(Shift(Shift(Shift(i as bv16))))))))
  }

  datatype Reg = Reg(hi: bv8, lo: bv8)

  function Next(c: Reg, b: bv8): Reg {
    var entry := Table(c.hi ^ b);
    Reg(c.lo ^ ((entry & 0xFF) as bv8), (entry >> 8) as bv8)
  }

  const START: Reg := Reg(0xFF, 0xFF)

  function Run(s: seq<byte>): Reg {
    if s == [] then START else Next(Run(s[..|s| - 1]), s[|s| - 1] as bv8)
  }

  function Crc16(s: seq<byte>): u16 {
    256 * (Run(s).hi as int) + (Run(s).lo as int)
  }

  // GetCRC16: the byte loop.
  method GetCRC16(s: seq<byte>) returns (crc: u16)
    ensures crc == Crc16(s)
  {
    var c := START;
    for i := 0 to |s|
      invariant c == Run(s[..i])
    {
      assert s[..i + 1][..i] == s[..i];
      c := Next(c, s[i] as bv8);
    }
    assert s[..|s|] == s;
    crc := 256 * (c.hi as int) + (c.lo as int);
  }

  // Zero bytes never bring the register to zero.
  lemma ZeroByteKeepsNonZero(c: Reg)
    requires c != Reg(0, 0)
    ensures Next(c, 0) != Reg(0, 0)
  {
  }

  lemma {:induction false} ZeroRun(n: nat)
    ensures Run(Fill(n, 0)) != Reg(0, 0)
  {
    hide Next;
    if n == 0 {
    } else {
      assert Fill(n, 0)[..n - 1] == Fill(n - 1, 0);
      ZeroRun(n - 1);
      ZeroByteKeepsNonZero(Run(Fill(n - 1, 0)));
    }
  }

  // The register over six blank bytes.
  lemma BlankByteSteps()
    ensures Next(START, 255) == Reg(255, 0) && Next(Reg(255, 0), 255) == Reg(0, 0)
    ensures Next(Reg(0, 0), 255) == Reg(64, 64) && Next(Reg(64, 64), 255) == Reg(1, 176)
    ensures Next(Reg(1, 176), 255) == Reg(49, 128) && Next(Reg(49, 128), 255) == Reg(1, 148)
  {
  }

  lemma BlankRunStep(n: nat)
    ensures Run(Fill(n + 1, 255)) == Next(Run(Fill(n, 255)), 255)
  {
    assert Fill(n + 1, 255)[..n] == Fill(n, 255);
  }

  lemma BlankRun()
    ensures Run(Fill(6, 255)) == Reg(1, 148)
  {
    assert Fill(0, 255) == [] && Run([]) == START;
    hide Run, Next;
    BlankByteSteps();
    BlankRunStep(0);
    BlankRunStep(1);
    BlankRunStep(2);
    BlankRunStep(3);
    BlankRunStep(4);
    BlankRunStep(5);
  }

  // Both flash variants of the archive, with the real checksum, meet its assumptions.
  lemma FirmwareConfigsSound()
    ensures Sound(Config(128, Crc16)) && Sound(Config(32, Crc16))
  {
    hide Run;
    BlankRun();
    ZeroRun(10);
  }
}
