// How the archive's records and pointers lie in flash sectors and in the RAM page.
module ArchiveLayout {
  import opened Bytes
  import opened NorFlash
  import opened ArchiveSpec

  function Slots(b: seq<byte>): (r: seq<seq<byte>>)
    requires |b| == SECTOR_SIZE
    ensures |r| == SLOTS && forall k :: 0 <= k < SLOTS ==> |r[k]| == 16
  {
    seq(SLOTS, k requires 0 <= k < SLOTS => b[16 * k..16 * k + 16])
  }

  function Entries(b: seq<byte>): (r: seq<seq<byte>>)
    requires |b| == SECTOR_SIZE
    ensures |r| == ENTRIES && forall k :: 0 <= k < ENTRIES ==> |r[k]| == 8
  {
    seq(ENTRIES, k requires 0 <= k < ENTRIES => b[8 * k..8 * k + 8])
  }

  function Sector(mem: seq<byte>, s: nat): (r: seq<byte>)
    requires SECTOR_SIZE * s + SECTOR_SIZE <= |mem|
    ensures |r| == SECTOR_SIZE
  {
    mem[SECTOR_SIZE * s..SECTOR_SIZE * s + SECTOR_SIZE]
  }

  // The chip's memory from the pointer sector on: sector 0, then one sector per page.
  function FlashOf(pages: nat, mem: seq<byte>, erased: seq<nat>): Flash
    requires SECTOR_SIZE * pages + SECTOR_SIZE <= |mem|
  {
    Flash(Entries(Sector(mem, 0)), seq(pages, p requires 0 <= p < pages => Slots(Sector(mem, 1 + p))), erased)
  }

  // A checked write seen from inside its sector.
  function SectorWrite(b: seq<byte>, off: nat, data: seq<byte>): (r: seq<byte>)
    requires off + |data| <= |b|
    ensures |r| == |b|
  {
    if Blank(b[off..off + |data|]) then b[..off] + data + b[off + |data|..]
    else Fill(off, 255) + data + Fill(|b| - off - |data|, 255)
  }

  lemma SliceOfSector(mem: seq<byte>, s: nat, off: nat, n: nat)
    requires SECTOR_SIZE * s + SECTOR_SIZE <= |mem| && off + n <= SECTOR_SIZE
    ensures Sector(mem, s)[off..off + n] == mem[SECTOR_SIZE * s + off..SECTOR_SIZE * s + off + n]
  {
    SliceOfSlice(mem, SECTOR_SIZE * s, SECTOR_SIZE, off, n);
  }

  lemma DirtyIsUsed(mem: seq<byte>, s: nat, off: nat, n: nat)
    requires SECTOR_SIZE * s + SECTOR_SIZE <= |mem| && off + n <= SECTOR_SIZE && 0 < n
    ensures Dirty(mem, SECTOR_SIZE * s + off, n, s) <==> !Blank(Sector(mem, s)[off..off + n])
  {
    SliceOfSector(mem, s, off, n);
    hide Sector;
  }

  lemma WrittenCell(mem: seq<byte>, s: nat, off: nat, data: seq<byte>, i: nat)
    requires SECTOR_SIZE * s + SECTOR_SIZE <= |mem| && off + |data| <= SECTOR_SIZE && 0 < |data| && i < SECTOR_SIZE
    ensures Written(mem, SECTOR_SIZE * s + off, data)[SECTOR_SIZE * s + i] ==
      if off <= i < off + |data| then data[i - off]
      else if Dirty(mem, SECTOR_SIZE * s + off, |data|, s) then 255
      else mem[SECTOR_SIZE * s + i]
  {
    hide Dirty;
    assert (SECTOR_SIZE * s + i) / SECTOR_SIZE == s;
  }

  lemma SectorWriteCell(b: seq<byte>, off: nat, data: seq<byte>, i: nat)
    requires off + |data| <= |b| && i < |b|
    ensures SectorWrite(b, off, data)[i] ==
      if off <= i < off + |data| then data[i - off] else if Blank(b[off..off + |data|]) then b[i] else 255
  {
    hide Blank;
  }

  lemma WrittenInSector(mem: seq<byte>, s: nat, off: nat, data: seq<byte>)
    requires SECTOR_SIZE * s + SECTOR_SIZE <= |mem| && off + |data| <= SECTOR_SIZE && 0 < |data|
    ensures var addr := SECTOR_SIZE * s + off;
      && Sector(Written(mem, addr, data), s) == SectorWrite(Sector(mem, s), off, data)
      && ErasedByWrite(mem, addr, |data|) == if Blank(Sector(mem, s)[off..off + |data|]) then [] else [s]
  {
    hide Written, SectorWrite, Dirty, Blank;
    var addr, b := SECTOR_SIZE * s + off, Sector(mem, s);
    DirtyIsUsed(mem, s, off, |data|);
    assert addr / SECTOR_SIZE == s && (addr + |data| - 1) / SECTOR_SIZE == s;
    assert ErasedBy(mem, addr, |data|, s, s) == [];
    var after := Written(mem, addr, data);
    forall i | 0 <= i < SECTOR_SIZE
      ensures Sector(after, s)[i] == SectorWrite(b, off, data)[i]
    {
      WrittenCell(mem, s, off, data, i);
      SectorWriteCell(b, off, data, i);
      assert Sector(after, s)[i] == after[SECTOR_SIZE * s + i] && b[i] == mem[SECTOR_SIZE * s + i];
    }
  }

  lemma WrittenElsewhere(mem: seq<byte>, s: nat, off: nat, data: seq<byte>, t: nat)
    requires SECTOR_SIZE * s + SECTOR_SIZE <= |mem| && off + |data| <= SECTOR_SIZE && 0 < |data|
    requires SECTOR_SIZE * t + SECTOR_SIZE <= |mem| && s != t
    ensures Sector(Written(mem, SECTOR_SIZE * s + off, data), t) == Sector(mem, t)
  {
    forall i | 0 <= i < SECTOR_SIZE
      ensures Sector(Written(mem, SECTOR_SIZE * s + off, data), t)[i] == Sector(mem, t)[i]
    {
      assert (SECTOR_SIZE * t + i) / SECTOR_SIZE == t;
    }
  }

  lemma BlankIffFill(b: seq<byte>)
    ensures Blank(b) <==> b == Fill(|b|, 255)
  {
  }

  lemma SlotWritten(b: seq<byte>, k: nat, x: seq<byte>)
    requires |b| == SECTOR_SIZE && k < SLOTS && |x| == 16
    ensures Slots(SectorWrite(b, 16 * k, x)) == GroupWrite(Slots(b), k, x, BLANK_SLOT)
    ensures Blank(b[16 * k..16 * k + 16]) <==> Slots(b)[k] == BLANK_SLOT
  {
    BlankIffFill(b[16 * k..16 * k + 16]);
    var after := SectorWrite(b, 16 * k, x);
    forall i | 0 <= i < SLOTS
      ensures after[16 * i..16 * i + 16] == GroupWrite(Slots(b), k, x, BLANK_SLOT)[i]
    {
      assert i < k ==> 16 * i + 16 <= 16 * k;
      assert i > k ==> 16 * k + 16 <= 16 * i;
    }
  }

  lemma EntryWritten(b: seq<byte>, k: nat, e: seq<byte>)
    requires |b| == SECTOR_SIZE && k < ENTRIES && |e| == 8
    ensures Entries(SectorWrite(b, 8 * k, e)) == GroupWrite(Entries(b), k, e, BLANK_ENTRY)
    ensures Blank(b[8 * k..8 * k + 8]) <==> Entries(b)[k] == BLANK_ENTRY
  {
    BlankIffFill(b[8 * k..8 * k + 8]);
    var after := SectorWrite(b, 8 * k, e);
    forall i | 0 <= i < ENTRIES
      ensures after[8 * i..8 * i + 8] == GroupWrite(Entries(b), k, e, BLANK_ENTRY)[i]
    {
      assert i < k ==> 8 * i + 8 <= 8 * k;
      assert i > k ==> 8 * k + 8 <= 8 * i;
    }
  }

  // A record written through the driver is a slot write of the model.
  lemma RecordWriteIsSlotWrite(pages: nat, mem: seq<byte>, erased: seq<nat>, p: nat, k: nat, x: seq<byte>)
    requires SECTOR_SIZE * pages + SECTOR_SIZE <= |mem| && p < pages && k < SLOTS && |x| == 16
    ensures var addr := SECTOR_SIZE * (1 + p) + 16 * k;
      FlashOf(pages, Written(mem, addr, x), erased + ErasedByWrite(mem, addr, 16))
        == WriteSlot(FlashOf(pages, mem, erased), p, k, x)
  {
    hide Written, ErasedByWrite, SectorWrite, Slots, Entries, Sector, GroupWrite;
    var addr := SECTOR_SIZE * (1 + p) + 16 * k;
    WrittenInSector(mem, 1 + p, 16 * k, x);
    SlotWritten(Sector(mem, 1 + p), k, x);
    assert erased + [] == erased;
    WrittenElsewhere(mem, 1 + p, 16 * k, x, 0);
    var after, want := FlashOf(pages, Written(mem, addr, x), erased), WriteSlot(FlashOf(pages, mem, erased), p, k, x);
    forall q | 0 <= q < pages ensures after.pages[q] == want.pages[q] {
      if q != p {
        WrittenElsewhere(mem, 1 + p, 16 * k, x, 1 + q);
      }
    }
    assert after.pages == want.pages;
  }

  // A page pointer written through the driver is an entry write of the model.
  lemma PointerWriteIsEntryWrite(pages: nat, mem: seq<byte>, erased: seq<nat>, k: nat, e: seq<byte>)
    requires SECTOR_SIZE * pages + SECTOR_SIZE <= |mem| && k < ENTRIES && |e| == 8
    ensures FlashOf(pages, Written(mem, 8 * k, e), erased + ErasedByWrite(mem, 8 * k, 8))
      == WriteEntry(FlashOf(pages, mem, erased), k, e)
  {
    hide Written, ErasedByWrite, SectorWrite, Slots, Entries, Sector, GroupWrite;
    WrittenInSector(mem, 0, 8 * k, e);
    EntryWritten(Sector(mem, 0), k, e);
    assert erased + [] == erased;
    var after, want := FlashOf(pages, Written(mem, 8 * k, e), erased), WriteEntry(FlashOf(pages, mem, erased), k, e);
    forall q | 0 <= q < pages ensures after.pages[q] == want.pages[q] {
      WrittenElsewhere(mem, 0, 8 * k, e, 1 + q);
    }
    assert after.pages == want.pages;
  }
}
