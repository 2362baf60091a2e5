// The NOR chip and the two drivers that decide, sector by sector, between a direct program
// and erase-then-program (user/zd25flash.c, user/flash.c).
module NorFlash {
  import opened Bytes

  const SECTOR_SIZE: nat := 4096

  // Programming can only clear bits: the bitwise AND of the low `bits` bits.
  function And(a: nat, b: nat, bits: nat): (r: nat)
    ensures r <= b
  {
    if bits == 0 then 0
    else (if a % 2 == 1 && b % 2 == 1 then 1 else 0) + 2 * And(a / 2, b / 2, bits - 1)
  }

  function Ones(bits: nat): nat {
    if bits == 0 then 0 else 2 * Ones(bits - 1) + 1
  }

  // A blank cell takes any value.
  lemma {:induction false} AndBlank(b: nat, bits: nat)
    requires b <= Ones(bits)
    ensures And(Ones(bits), b, bits) == b
  {
    if bits == 0 {
    } else {
      AndBlank(b / 2, bits - 1);
    }
  }

  predicate Blank(s: seq<byte>) {
    forall i :: 0 <= i < |s| ==> s[i] == 255
  }

  // Start and end of the part of [addr, addr+n) that lies in a sector; empty unless lo < hi.
  function Lo(addr: nat, sector: nat): nat {
    if addr < SECTOR_SIZE * sector then SECTOR_SIZE * sector else addr
  }

  function Hi(addr: nat, n: nat, sector: nat): nat {
    if addr + n < SECTOR_SIZE * sector + SECTOR_SIZE then addr + n else SECTOR_SIZE * sector + SECTOR_SIZE
  }

  // Does a write to [addr, addr+n) find used cells in this sector?
  predicate Dirty(mem: seq<byte>, addr: nat, n: nat, sector: nat)
    requires addr + n <= |mem|
  {
    Lo(addr, sector) < Hi(addr, n, sector) && !Blank(mem[Lo(addr, sector)..Hi(addr, n, sector)])
  }

  // What a checked write leaves in one cell.
  function CellAfter(mem: seq<byte>, addr: nat, data: seq<byte>, a: nat): byte
    requires addr + |data| <= |mem| && a < |mem|
  {
    if addr <= a < addr + |data| then data[a - addr]
    else if Dirty(mem, addr, |data|, a / SECTOR_SIZE) then 255
    else mem[a]
  }

  function Written(mem: seq<byte>, addr: nat, data: seq<byte>): (r: seq<byte>)
    requires addr + |data| <= |mem|
    ensures |r| == |mem|
  {
    seq(|mem|, a requires 0 <= a < |mem| => CellAfter(mem, addr, data, a))
  }

  // The sectors in [first, end) that the write must erase, in order.
  function ErasedBy(mem: seq<byte>, addr: nat, n: nat, first: nat, end: nat): seq<nat>
    requires addr + n <= |mem|
    requires first <= end
    decreases end
  {
    if first == end then []
    else ErasedBy(mem, addr, n, first, end - 1) + (if Dirty(mem, addr, n, end - 1) then [end - 1] else [])
  }

  // One past the last sector a write visits.
  function EndSector(addr: nat, n: nat): nat {
    if n == 0 then addr / SECTOR_SIZE + 1 else (addr + n - 1) / SECTOR_SIZE + 1
  }

  function ErasedByWrite(mem: seq<byte>, addr: nat, n: nat): seq<nat>
    requires addr + n <= |mem|
  {
    ErasedBy(mem, addr, n, addr / SECTOR_SIZE, EndSector(addr, n))
  }

  // A sector rewritten after an erase: the data in its range, blank elsewhere.
  function Rewritten(mem: seq<byte>, base: nat, offset: nat, data: seq<byte>): (r: seq<byte>)
    requires base + SECTOR_SIZE <= |mem| && offset + |data| <= SECTOR_SIZE
    ensures |r| == |mem|
  {
    mem[..base] + Fill(offset, 255) + data + Fill(SECTOR_SIZE - offset - |data|, 255) + mem[base + SECTOR_SIZE..]
  }

  // One sector's share of a checked write.
  function SectorStep(mem: seq<byte>, base: nat, offset: nat, data: seq<byte>): (r: seq<byte>)
    requires base + SECTOR_SIZE <= |mem| && offset + |data| <= SECTOR_SIZE
    ensures |r| == |mem|
  {
    if Blank(mem[base + offset..base + offset + |data|])
    then mem[..base + offset] + data + mem[base + offset + |data|..]
    else Rewritten(mem, base, offset, data)
  }

  // Programming a range: every cell keeps only the bits that are set in both.
  function Programmed(mem: seq<byte>, addr: nat, data: seq<byte>): (r: seq<byte>)
    requires addr + |data| <= |mem|
    ensures |r| == |mem|
  {
    seq(|mem|, a requires 0 <= a < |mem| =>
      if addr <= a < addr + |data| then And(mem[a], data[a - addr], 8) else mem[a])
  }

  lemma ProgramOnBlank(mem: seq<byte>, addr: nat, data: seq<byte>)
    requires addr + |data| <= |mem| && Blank(mem[addr..addr + |data|])
    ensures Programmed(mem, addr, data) == mem[..addr] + data + mem[addr + |data|..]
  {
    forall a | addr <= a < addr + |data|
      ensures Programmed(mem, addr, data)[a] == data[a - addr]
    {
      assert mem[addr..addr + |data|][a - addr] == 255 == Ones(8);
      AndBlank(data[a - addr], 8);
    }
  }

  lemma ProgramNone(mem: seq<byte>, addr: nat)
    requires addr <= |mem|
    ensures Programmed(mem, addr, []) == mem && Blank(mem[addr..addr])
  {
  }

  // Programming half-word by half-word has the same effect as programming the whole range,
  // and overprograms under the same condition.
  lemma ProgramInTwo(mem: seq<byte>, addr: nat, head: seq<byte>, tail: seq<byte>)
    requires addr + |head| + |tail| <= |mem|
    ensures Programmed(Programmed(mem, addr, head), addr + |head|, tail) == Programmed(mem, addr, head + tail)
    ensures Programmed(mem, addr, head)[addr + |head|..addr + |head| + |tail|]
      == mem[addr + |head|..addr + |head| + |tail|]
    ensures Blank(mem[addr..addr + |head| + |tail|]) <==>
      Blank(mem[addr..addr + |head|]) && Blank(mem[addr + |head|..addr + |head| + |tail|])
  {
    BlankConcat(mem[addr..addr + |head|], mem[addr + |head|..addr + |head| + |tail|]);
    assert mem[addr..addr + |head| + |tail|] ==
      mem[addr..addr + |head|] + mem[addr + |head|..addr + |head| + |tail|];
  }

  lemma BlankConcat(s: seq<byte>, t: seq<byte>)
    ensures Blank(s + t) <==> Blank(s) && Blank(t)
  {
    assert forall i :: 0 <= i < |s| ==> (s + t)[i] == s[i];
    assert forall i :: 0 <= i < |t| ==> (s + t)[|s| + i] == t[i];
  }

  // The chip, idealised: program is AND, erase blanks a whole sector.
  class Nor {
    var mem: seq<byte>
    ghost var erased: seq<nat>  // sectors erased so far, in order
    ghost var overprogrammed: bool  // has a used cell ever been programmed?

    ghost predicate Valid()
      reads this
    {
      |mem| % SECTOR_SIZE == 0
    }

    constructor (content: seq<byte>)
      requires |content| % SECTOR_SIZE == 0
      ensures Valid() && mem == content && erased == [] && !overprogrammed
    {
      mem := content;
      erased := [];
      overprogrammed := false;
    }

    method Read(addr: nat, n: nat) returns (r: seq<byte>)
      requires addr + n <= |mem|
      ensures r == mem[addr..addr + n]
    {
      r := mem[addr..addr + n];
    }

    method Program(addr: nat, data: seq<byte>)
      requires Valid()
      requires addr + |data| <= |mem|
      modifies this
      ensures Valid() && erased == old(erased)
      ensures mem == Programmed(old(mem), addr, data)
      ensures overprogrammed == (old(overprogrammed) || !Blank(old(mem)[addr..addr + |data|]))
    {
      overprogrammed := overprogrammed || !Blank(mem[addr..addr + |data|]);
      mem := Programmed(mem, addr, data);
    }

    method EraseSector(sector: nat)
      requires Valid()
      requires SECTOR_SIZE * sector + SECTOR_SIZE <= |mem|
      modifies this
      ensures Valid() && |mem| == |old(mem)| && overprogrammed == old(overprogrammed)
      ensures erased == old(erased) + [sector]
      ensures forall a :: 0 <= a < |mem| ==> mem[a] == if a / SECTOR_SIZE == sector then 255 else old(mem)[a]
    {
      erased := erased + [sector];
      var before := mem;
      mem := seq(|before|, a requires 0 <= a < |before| => if a / SECTOR_SIZE == sector then 255 else before[a]);
    }
  }

  lemma SliceOfSlice(mem: seq<byte>, start: nat, size: nat, offset: nat, n: nat)
    requires start + size <= |mem| && offset + n <= size
    ensures mem[start..start + size][offset..offset + n] == mem[start + offset..start + offset + n]
  {
    var part := mem[start..start + size];
    var l, r := part[offset..offset + n], mem[start + offset..start + offset + n];
    forall i | 0 <= i < n ensures l[i] == r[i] {
      assert l[i] == part[offset + i] == mem[start + offset + i];
    }
  }

  // An erase, cell by cell, is one blank range.
  lemma ErasedRange(before: seq<byte>, mem: seq<byte>, sector: nat)
    requires |mem| == |before| && SECTOR_SIZE * sector + SECTOR_SIZE <= |mem|
    requires forall a :: 0 <= a < |mem| ==> mem[a] == if a / SECTOR_SIZE == sector then 255 else before[a]
    ensures var start := SECTOR_SIZE * sector;
      && mem[..start] == before[..start]
      && mem[start..start + SECTOR_SIZE] == Fill(SECTOR_SIZE, 255)
      && mem[start + SECTOR_SIZE..] == before[start + SECTOR_SIZE..]
  {
  }

  // The memory between two sector steps of a checked write: sectors below `sector` are done.
  ghost predicate DoneBelow(mem: seq<byte>, before: seq<byte>, addr: nat, data: seq<byte>, sector: nat)
    requires addr + |data| <= |before|
  {
    && |mem| == |before|
    && forall a :: 0 <= a < |mem| ==>
      mem[a] == if a / SECTOR_SIZE < sector then CellAfter(before, addr, data, a) else before[a]
  }

  // The part of the data that falls into a sector.
  function Part(addr: nat, data: seq<byte>, sector: nat): (r: seq<byte>)
    requires Lo(addr, sector) <= Hi(addr, |data|, sector)
    ensures |r| == Hi(addr, |data|, sector) - Lo(addr, sector)
    ensures Lo(addr, sector) - SECTOR_SIZE * sector + |r| <= SECTOR_SIZE
  {
    data[Lo(addr, sector) - addr..Hi(addr, |data|, sector) - addr]
  }

  // Sectors the write does not reach keep their cells.
  lemma NothingBelow(before: seq<byte>, addr: nat, data: seq<byte>)
    requires addr + |data| <= |before|
    ensures DoneBelow(before, before, addr, data, addr / SECTOR_SIZE)
  {
  }

  // What a sector step leaves in one cell.
  lemma SectorStepCell(mem: seq<byte>, base: nat, offset: nat, data: seq<byte>, a: nat)
    requires base + SECTOR_SIZE <= |mem| && offset + |data| <= SECTOR_SIZE && a < |mem|
    ensures SectorStep(mem, base, offset, data)[a] ==
      if base + offset <= a < base + offset + |data| then data[a - base - offset]
      else if base <= a < base + SECTOR_SIZE && !Blank(mem[base + offset..base + offset + |data|]) then 255
      else mem[a]
  {
  }

  lemma InSectorIff(a: nat, sector: nat)
    ensures a / SECTOR_SIZE == sector <==> SECTOR_SIZE * sector <= a < SECTOR_SIZE * sector + SECTOR_SIZE
    ensures a / SECTOR_SIZE < sector <==> a < SECTOR_SIZE * sector
  {
  }

  // A cell of the sector is in the part exactly when it is in the write.
  lemma InPartIff(addr: nat, data: seq<byte>, sector: nat, a: nat)
    requires Lo(addr, sector) <= Hi(addr, |data|, sector) && a / SECTOR_SIZE == sector
    ensures addr <= a < addr + |data| <==> Lo(addr, sector) <= a < Hi(addr, |data|, sector)
    ensures addr <= a < addr + |data| ==> Part(addr, data, sector)[a - Lo(addr, sector)] == data[a - addr]
  {
  }

  // Cells of sectors not yet reached are still the old ones.
  lemma TargetUntouched(mem: seq<byte>, before: seq<byte>, addr: nat, data: seq<byte>, sector: nat)
    requires addr + |data| <= |before| && DoneBelow(mem, before, addr, data, sector)
    requires Lo(addr, sector) <= Hi(addr, |data|, sector)
    ensures Blank(mem[Lo(addr, sector)..Hi(addr, |data|, sector)]) <==> !Dirty(before, addr, |data|, sector)
  {
    var lo, hi := Lo(addr, sector), Hi(addr, |data|, sector);
    forall a | lo <= a < hi ensures mem[a] == before[a] {
      InSectorIff(a, sector);
    }
    assert mem[lo..hi] == before[lo..hi];
  }

  // One sector step moves the frontier up by one sector.
  lemma StepRaisesFrontier(mem: seq<byte>, before: seq<byte>, addr: nat, data: seq<byte>, sector: nat)
    requires addr + |data| <= |before|
    requires DoneBelow(mem, before, addr, data, sector)
    requires SECTOR_SIZE * sector + SECTOR_SIZE <= |mem|
    requires Lo(addr, sector) <= Hi(addr, |data|, sector)
    ensures var offset := Lo(addr, sector) - SECTOR_SIZE * sector;
      DoneBelow(SectorStep(mem, SECTOR_SIZE * sector, offset, Part(addr, data, sector)), before, addr, data, sector + 1)
    ensures Blank(mem[Lo(addr, sector)..Hi(addr, |data|, sector)]) <==> !Dirty(before, addr, |data|, sector)
  {
    hide SectorStep, Blank, Dirty, Part;
    var lo, base := Lo(addr, sector), SECTOR_SIZE * sector;
    var part := Part(addr, data, sector);
    TargetUntouched(mem, before, addr, data, sector);
    assert base + (lo - base) + |part| == Hi(addr, |data|, sector);
    var after := SectorStep(mem, base, lo - base, part);
    hide Lo, Hi;
    forall a | 0 <= a < |mem|
      ensures after[a] == if a / SECTOR_SIZE < sector + 1 then CellAfter(before, addr, data, a) else before[a]
    {
      SectorStepCell(mem, base, lo - base, part, a);
      InSectorIff(a, sector);
      if a / SECTOR_SIZE == sector {
        InPartIff(addr, data, sector, a);
      }
    }
  }

  // When the frontier has passed the last touched sector, the write is complete.
  lemma FrontierPastEnd(mem: seq<byte>, before: seq<byte>, addr: nat, data: seq<byte>, sector: nat)
    requires addr + |data| <= |before|
    requires DoneBelow(mem, before, addr, data, sector)
    requires addr + |data| <= SECTOR_SIZE * sector
    ensures mem == Written(before, addr, data)
  {
    forall a | 0 <= a < |mem|
      ensures mem[a] == Written(before, addr, data)[a]
    {
    }
  }

  // The loop's cursors describe exactly the part of the write in the current sector.
  ghost predicate Cursor(addr: nat, n: nat, size: nat, sector: nat, offset: int, remain: int, left: int, done: int) {
    && 0 <= done && 0 <= offset && 0 <= remain <= left && done + 2 * left == n
    && SECTOR_SIZE * sector + SECTOR_SIZE <= size
    && addr + done == SECTOR_SIZE * sector + 2 * offset == Lo(addr, sector)
    && addr + done + 2 * remain == Hi(addr, n, sector)
    && (left == remain ==> sector + 1 == EndSector(addr, n) && addr + n <= SECTOR_SIZE * sector + SECTOR_SIZE)
    && (left > remain ==> 0 < remain && 2 * offset + 2 * remain == SECTOR_SIZE)
  }

  lemma CursorStarts(addr: nat, n: nat, size: nat)
    requires addr % 2 == 0 && n % 2 == 0 && addr + n <= size && addr < size && size % SECTOR_SIZE == 0
    ensures var offset, left := addr % SECTOR_SIZE / 2, n / 2;
      var remain := SECTOR_SIZE / 2 - offset;
      Cursor(addr, n, size, addr / SECTOR_SIZE, offset, if left <= remain then left else remain, left, 0)
  {
    var sector, offset, left := addr / SECTOR_SIZE, addr % SECTOR_SIZE / 2, n / 2;
    assert 2 * left == n;
    assert 2 * offset == addr - SECTOR_SIZE * sector by { assert addr % SECTOR_SIZE % 2 == 0; }
    InsideSize(addr, size);
    if left <= SECTOR_SIZE / 2 - offset {
      assert n > 0 ==> (addr + n - 1) / SECTOR_SIZE == sector;
    }
  }

  lemma InsideSize(addr: nat, size: nat)
    requires addr < size && size % SECTOR_SIZE == 0
    ensures SECTOR_SIZE * (addr / SECTOR_SIZE) + SECTOR_SIZE <= size
  {
  }

  lemma CursorAdvances(addr: nat, n: nat, size: nat, sector: nat, offset: int, remain: int, left: int, done: int)
    requires Cursor(addr, n, size, sector, offset, remain, left, done)
    requires remain < left && addr + n <= size && size % SECTOR_SIZE == 0
    ensures var rest := left - remain;
      Cursor(addr, n, size, sector + 1, 0,
             if rest > SECTOR_SIZE / 2 then SECTOR_SIZE / 2 else rest, rest, done + 2 * remain)
  {
    assert SECTOR_SIZE * (sector + 1) < size;
  }

  // The checked-write driver. user/zd25flash.c programs a range with one SPI command;
  // user/flash.c is the same algorithm for the flash mapped at FLASH_BASE, programmed half-word
  // by half-word.
  class FlashDriver {
    const dev: Nor
    const buf: array<byte>
    const base: nat
    const halfWords: bool

    ghost predicate Valid()
      reads this, dev
    {
      dev.Valid() && buf.Length == SECTOR_SIZE
    }

    constructor (dev: Nor, base: nat, halfWords: bool)
      requires dev.Valid()
      ensures Valid() && this.dev == dev && fresh(buf)
      ensures this.base == base && this.halfWords == halfWords
    {
      this.dev := dev;
      this.base := base;
      this.halfWords := halfWords;
      buf := new byte[SECTOR_SIZE];
    }

    // Fill the sector buffer.
    method ReadSector(sector: nat)
      requires Valid() && SECTOR_SIZE * sector + SECTOR_SIZE <= |dev.mem|
      modifies buf
      ensures buf[..] == dev.mem[SECTOR_SIZE * sector..SECTOR_SIZE * sector + SECTOR_SIZE]
    {
      var r := dev.Read(SECTOR_SIZE * sector, SECTOR_SIZE);
      forall i | 0 <= i < SECTOR_SIZE {
        buf[i] := r[i];
      }
    }

    // flash_write_nocheck and zd25_flash_write_nocheck: the same AND either way.
    method WriteNoCheck(addr: nat, data: seq<byte>)
      requires Valid() && |data| % 2 == 0 && addr + |data| <= |dev.mem|
      modifies dev
      ensures Valid() && dev.erased == old(dev.erased)
      ensures dev.mem == Programmed(old(dev.mem), addr, data)
      ensures dev.overprogrammed == (old(dev.overprogrammed) || !Blank(old(dev.mem)[addr..addr + |data|]))
    {
      hide Programmed, Blank;
      if halfWords {
        ProgramNone(dev.mem, addr);
        ghost var before := dev.mem;
        var i := 0;
        while 2 * i < |data|
          invariant 0 <= 2 * i <= |data|
          invariant Valid() && dev.erased == old(dev.erased)
          invariant dev.mem == Programmed(before, addr, data[..2 * i])
          invariant dev.overprogrammed == (old(dev.overprogrammed) || !Blank(before[addr..addr + 2 * i]))
        {
          assert data[..2 * i + 2] == data[..2 * i] + data[2 * i..2 * i + 2];
          ProgramInTwo(before, addr, data[..2 * i], data[2 * i..2 * i + 2]);
          assert |data[..2 * i]| == 2 * i && |data[2 * i..2 * i + 2]| == 2;
          dev.Program(addr + 2 * i, data[2 * i..2 * i + 2]);
          i := i + 1;
        }
        assert data[..2 * i] == data;
      } else {
        dev.Program(addr, data);
      }
    }

    // Are the n half-words from byte offset `offset` of the buffer all 0xFFFF?
    method TargetBlank(offset: nat, n: nat) returns (blank: bool)
      requires Valid() && offset + 2 * n <= SECTOR_SIZE
      ensures blank == Blank(buf[offset..offset + 2 * n])
    {
      ghost var target := buf[offset..offset + 2 * n];
      var i := 0;
      while i < n
        invariant 0 <= i <= n
        invariant forall j :: 0 <= j < 2 * i ==> target[j] == 255
      {
        assert target[2 * i] == buf[offset + 2 * i] && target[2 * i + 1] == buf[offset + 2 * i + 1];
        if !(buf[offset + 2 * i] == 255 && buf[offset + 2 * i + 1] == 255) {
          return false;
        }
        i := i + 1;
      }
      return true;
    }

    // Overlay n half-words of data on the buffer.
    method Overlay(offset: nat, data: seq<byte>)
      requires Valid() && |data| % 2 == 0 && offset + |data| <= SECTOR_SIZE
      modifies buf
      ensures forall j :: 0 <= j < SECTOR_SIZE ==>
        buf[j] == if offset <= j < offset + |data| then data[j - offset] else old(buf[j])
    {
      var i := 0;
      while 2 * i < |data|
        invariant 0 <= 2 * i <= |data|
        invariant forall j :: 0 <= j < SECTOR_SIZE ==>
          buf[j] == if offset <= j < offset + 2 * i then data[j - offset] else old(buf[j])
      {
        buf[offset + 2 * i], buf[offset + 2 * i + 1] := data[2 * i], data[2 * i + 1];
        i := i + 1;
      }
    }

    // The dirty branch: erase, re-read, overlay, program the whole sector.
    method Rewrite(sector: nat, offset: nat, data: seq<byte>)
      requires Valid() && |data| % 2 == 0
      requires SECTOR_SIZE * sector + SECTOR_SIZE <= |dev.mem|
      requires offset + |data| <= SECTOR_SIZE
      modifies dev, buf
      ensures Valid() && |dev.mem| == |old(dev.mem)|
      ensures dev.overprogrammed == old(dev.overprogrammed)
      ensures dev.erased == old(dev.erased) + [sector]
      ensures dev.mem == Rewritten(old(dev.mem), SECTOR_SIZE * sector, offset, data)
    {
      hide Programmed;
      var start := SECTOR_SIZE * sector;
      dev.EraseSector(sector);
      ghost var blanked := dev.mem;
      ErasedRange(old(dev.mem), blanked, sector);
      ReadSector(sector);
      assert forall j :: 0 <= j < SECTOR_SIZE ==> buf[j] == 255;
      Overlay(offset, data);
      ProgramOnBlank(blanked, start, buf[..]);
      WriteNoCheck(start, buf[..]);
      assert buf[..] == Fill(offset, 255) + data + Fill(SECTOR_SIZE - offset - |data|, 255);
    }

    // One round of the loop: the part of the write that falls into one sector.
    method WriteInSector(sector: nat, offset: nat, data: seq<byte>)
      requires Valid() && |data| % 2 == 0
      requires SECTOR_SIZE * sector + SECTOR_SIZE <= |dev.mem|
      requires offset + |data| <= SECTOR_SIZE
      modifies dev, buf
      ensures Valid() && |dev.mem| == |old(dev.mem)|
      ensures dev.overprogrammed == old(dev.overprogrammed)
      ensures dev.erased == old(dev.erased) +
        (if Blank(old(dev.mem)[SECTOR_SIZE * sector + offset..SECTOR_SIZE * sector + offset + |data|])
          then [] else [sector])
      ensures dev.mem == SectorStep(old(dev.mem), SECTOR_SIZE * sector, offset, data)
    {
      hide Programmed, Rewritten;
      var start := SECTOR_SIZE * sector;
      ReadSector(sector);
      SliceOfSlice(dev.mem, start, SECTOR_SIZE, offset, |data|);
      assert buf[offset..offset + |data|] == buf[..][offset..offset + |data|];
      var blank := TargetBlank(offset, |data| / 2);
      if !blank {
        Rewrite(sector, offset, data);
      } else {
        ProgramOnBlank(dev.mem, start + offset, data);
        WriteNoCheck(start + offset, data);
      }
    }

    // One round, seen from the whole write: the frontier moves up by one sector.
    method Round(ghost before: seq<byte>, addr: nat, data: seq<byte>, sector: nat,
                 offset: nat, remain: nat, ghost left: int, done: nat)
      requires Valid() && addr % 2 == 0 && |data| % 2 == 0 && addr + |data| <= |before|
      requires DoneBelow(dev.mem, before, addr, data, sector)
      requires Cursor(addr, |data|, |before|, sector, offset, remain, left, done)
      modifies dev, buf
      ensures Valid() && DoneBelow(dev.mem, before, addr, data, sector + 1)
      ensures dev.erased == old(dev.erased) + (if Dirty(before, addr, |data|, sector) then [sector] else [])
      ensures dev.overprogrammed == old(dev.overprogrammed)
    {
      var part := data[done..done + 2 * remain];
      assert part == Part(addr, data, sector);
      ghost var mem := dev.mem;
      WriteInSector(sector, 2 * offset, part);
      StepRaisesFrontier(mem, before, addr, data, sector);
    }

    // zd25_flash_write and flash_write: any even address, any even length, any number of sectors.
    method Write(writeAddr: nat, data: seq<byte>)
      requires Valid() && base <= writeAddr
      requires (writeAddr - base) % 2 == 0 && |data| % 2 == 0 && |data| <= 2 * 65535
      requires writeAddr - base + |data| <= |dev.mem| && writeAddr - base < |dev.mem|
      modifies dev, buf
      ensures Valid()
      ensures dev.mem == Written(old(dev.mem), writeAddr - base, data)
      ensures dev.erased == old(dev.erased) + ErasedByWrite(old(dev.mem), writeAddr - base, |data|)
      ensures dev.overprogrammed == old(dev.overprogrammed)
    {
      WriteAt(writeAddr - base, data);
    }

    // The same, for the address relative to the mapped flash: the sector loop.
    method WriteAt(addr: nat, data: seq<byte>)
      requires Valid() && addr % 2 == 0 && |data| % 2 == 0
      requires addr + |data| <= |dev.mem| && addr < |dev.mem|
      modifies dev, buf
      ensures Valid()
      ensures dev.mem == Written(old(dev.mem), addr, data)
      ensures dev.erased == old(dev.erased) + ErasedByWrite(old(dev.mem), addr, |data|)
      ensures dev.overprogrammed == old(dev.overprogrammed)
    {
      hide DoneBelow, Written, Lo, Hi, Dirty;
      ghost var before := dev.mem;
      var sector := addr / SECTOR_SIZE;
      var offset := addr % SECTOR_SIZE / 2;
      var remain := SECTOR_SIZE / 2 - offset;
      var left := |data| / 2;
      var done := 0;
      if left <= remain {
        remain := left;
      }
      CursorStarts(addr, |data|, |before|);
      NothingBelow(before, addr, data);
      while true
        invariant Valid() && addr / SECTOR_SIZE <= sector
        invariant Cursor(addr, |data|, |before|, sector, offset, remain, left, done)
        invariant DoneBelow(dev.mem, before, addr, data, sector)
        invariant dev.erased == old(dev.erased) + ErasedBy(before, addr, |data|, addr / SECTOR_SIZE, sector)
        invariant dev.overprogrammed == old(dev.overprogrammed)
        decreases left
      {
        Round(before, addr, data, sector, offset, remain, left, done);
        if left == remain {
          break;
        }
        CursorAdvances(addr, |data|, |before|, sector, offset, remain, left, done);
        sector := sector + 1;
        offset := 0;
        done := done + 2 * remain;
        left := left - remain;
        remain := if left > SECTOR_SIZE / 2 then SECTOR_SIZE / 2 else left;
      }
      FrontierPastEnd(dev.mem, before, addr, data, sector + 1);
    }
  }
}
