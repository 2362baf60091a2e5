// The message archive as the firmware runs it: one RAM page of bytes, a slot cursor and a page
// pointer offset, over the flash driver (user/message_archive.c).
module MessageArchive {
  import opened Bytes
  import opened NorFlash
  import opened ArchiveSpec
  import opened ArchiveLayout

  class MessageArchive {
    const cfg: Config
    const flash: FlashDriver
    const archBuf: array<byte>
    var lastRec: int  // byte offset of the newest record, -1 for none
    var pageNum: nat
    var ptrOffset: nat  // byte offset behind the newest page pointer

    ghost predicate Valid()
      reads this, flash, flash.dev, archBuf
    {
      && Sound(cfg)
      && flash.Valid() && flash.base == 0 && archBuf != flash.buf
      && SECTOR_SIZE * cfg.pages + SECTOR_SIZE <= |flash.dev.mem|
      && archBuf.Length == SECTOR_SIZE
      && (lastRec == -1 || (0 <= lastRec < SECTOR_SIZE && lastRec % 16 == 0))
      && pageNum < cfg.pages
      && ptrOffset <= SECTOR_SIZE && ptrOffset % 8 == 0
    }

    // The abstract state.
    ghost function View(): (s: Archive)
      requires Valid()
      reads this, flash, flash.dev, archBuf
      ensures Shape(cfg, s)
    {
      Archive(FlashOf(cfg.pages, flash.dev.mem, flash.dev.erased), Slots(archBuf[..]),
              if lastRec == -1 then -1 else lastRec / 16, pageNum, ptrOffset / 8)
    }

    // Static storage after a reset.
    constructor (cfg: Config, flash: FlashDriver)
      requires Sound(cfg) && flash.Valid() && flash.base == 0
      requires SECTOR_SIZE * cfg.pages + SECTOR_SIZE <= |flash.dev.mem|
      ensures Valid() && fresh(archBuf) && this.cfg == cfg && this.flash == flash
      ensures View() == PowerOn(FlashOf(cfg.pages, flash.dev.mem, flash.dev.erased))
    {
      this.cfg := cfg;
      this.flash := flash;
      archBuf := new byte[SECTOR_SIZE](_ => 0);
      lastRec, pageNum, ptrOffset := -1, 0, 0;
      new;
      ZeroSlots(archBuf[..]);
    }

    // flash_read of n bytes into the RAM page at `pos`.
    method ReadInto(pos: nat, addr: nat, n: nat)
      requires Valid() && pos + n <= SECTOR_SIZE && addr + n <= |flash.dev.mem|
      modifies archBuf
      ensures archBuf[..] == Overlaid(old(archBuf[..]), pos, flash.dev.mem[addr..addr + n])
    {
      var r := flash.dev.Read(addr, n);
      Put(pos, r);
    }

    method CheckRecord(pos: nat) returns (ok: bool)
      requires Valid() && pos + 16 <= SECTOR_SIZE
      ensures ok == Check(cfg, archBuf[pos..pos + 16])
    {
      var buf := archBuf[pos..pos + 16];
      var length := buf[7];
      var crc := [buf[8], buf[9]];
      if length > PAYLOAD {
        return false;
      }
      buf := buf[8 := 0][9 := 0];
      assert buf[..10 + length] == archBuf[pos..pos + 16][..8] + [0, 0] + archBuf[pos..pos + 16][10..10 + length];
      ok := crc == Be16(cfg.crc(buf[..10 + length]));
      assert crc == archBuf[pos..pos + 16][8..10];
    }

    // The scan of search_last_record over the pointer sector in the RAM page.
    method ScanPointers() returns (found: bool, page: nat, offset: nat)
      requires archBuf.Length == SECTOR_SIZE
      ensures var ptrs := Entries(archBuf[..]);
        var best := Found(cfg, ptrs);
        && found == (best > 0)
        && (found ==> page == PtrPage(ptrs[best - 1]) < cfg.pages && offset == 8 * best)
    {
      hide Search, CheckPtr, PtrTime, PtrPage, Entries;
      ghost var ptrs := Entries(archBuf[..]);
      found, page, offset := false, 0, 0;
      var pos := 0;
      var recTime: u32 := 0;
      ghost var k: nat, best: nat := 0, 0;
      while true
        invariant pos == 8 * k < SECTOR_SIZE && best <= k
        invariant found == (best > 0)
        invariant found ==> page == PtrPage(ptrs[best - 1]) < cfg.pages && offset == 8 * best
        invariant Found(cfg, ptrs) == Search(cfg, ptrs, k, best, recTime)
        decreases ENTRIES - k
      {
        var e := archBuf[pos..pos + 8];
        EntryAt(archBuf[..], k);
        assert e == ptrs[k];
        SearchUnfolds(cfg, ptrs, k, best, recTime);
        if !CheckPtr(cfg, e) {
          break;
        }
        if PtrTime(e) > recTime && PtrPage(e) < cfg.pages {
          page, found, recTime, offset := PtrPage(e), true, PtrTime(e), pos + 8;
          best := k + 1;
        }
        pos, k := pos + 8, k + 1;
        if pos >= SECTOR_SIZE {
          break;
        }
      }
    }

    // search_last_record
    method SearchLastRecord() returns (found: bool, page: nat)
      requires Valid()
      modifies this`ptrOffset, archBuf
      ensures Valid()
      ensures var ptrs := old(View()).flash.ptrs;
        var best := Found(cfg, ptrs);
        && found == (best > 0)
        && (found ==> page == PtrPage(ptrs[best - 1]) < cfg.pages && ptrOffset == 8 * best)
        && (!found ==> ptrOffset == old(ptrOffset))
    {
      hide Found;
      ReadInto(0, 0, SECTOR_SIZE);
      assert archBuf[..] == Sector(flash.dev.mem, 0);
      var offset;
      found, page, offset := ScanPointers();
      if found {
        ptrOffset := offset;
      }
    }

    // create_new_page_ptr
    method CreateNewPagePtr(page: u16, now: u32)
      requires Valid()
      modifies this`ptrOffset, flash.dev, flash.buf
      ensures Valid() && View() == NewPtr(cfg, old(View()), page, now)
    {
      hide Written, ErasedByWrite, FlashOf, WriteEntry, Be32, Be16;
      if ptrOffset >= SECTOR_SIZE {
        ptrOffset := 0;
      }
      var head := Be32(now) + Be16(page);
      var rec := head + Be16(cfg.crc(head));
      assert rec == EncPtr(cfg, now, page);
      PointerWriteIsEntryWrite(cfg.pages, flash.dev.mem, flash.dev.erased, ptrOffset / 8, rec);
      assert 8 * (ptrOffset / 8) == ptrOffset;
      flash.Write(ptrOffset, rec);
      ptrOffset := ptrOffset + 8;
    }

    // Copy bytes into the RAM page.
    method Put(pos: nat, data: seq<byte>)
      requires archBuf.Length == SECTOR_SIZE && pos + |data| <= SECTOR_SIZE
      modifies archBuf
      ensures archBuf[..] == Overlaid(old(archBuf[..]), pos, data)
    {
      forall i | pos <= i < pos + |data| {
        archBuf[i] := data[i - pos];
      }
    }

    // Payload bytes, then a zero tail.
    method PutPayload(pos: nat, payload: seq<byte>)
      requires archBuf.Length == SECTOR_SIZE && pos + PAYLOAD <= SECTOR_SIZE && |payload| <= PAYLOAD
      modifies archBuf
      ensures archBuf[..] == Overlaid(old(archBuf[..]), pos, payload + Fill(PAYLOAD - |payload|, 0))
    {
      ghost var body := payload + Fill(PAYLOAD - |payload|, 0);
      for i := 0 to PAYLOAD
        invariant archBuf[..] == Overlaid(old(archBuf[..]), pos, body[..i])
      {
        archBuf[pos + i] := if i < |payload| then payload[i] else 0;
      }
    }

    // The RAM part of add_record_to_archive: lay the record out in its slot, checksum last.
    method FillSlot(pos: nat, r: Rec)
      requires archBuf.Length == SECTOR_SIZE && pos + 16 <= SECTOR_SIZE
      modifies archBuf
      ensures archBuf[..] == Overlaid(old(archBuf[..]), pos, Enc(cfg, Cut(r)))
    {
      hide Head, Overlaid;
      var rec := Cut(r);
      RecordLaidOut(archBuf[..], pos, Head(rec), rec.payload, Be16(cfg.crc(Head(rec) + [0, 0] + rec.payload)));
      Put(pos, Head(rec) + [0, 0]);
      PutPayload(pos + 10, rec.payload);
      Put(pos + 8, Be16(cfg.crc(archBuf[pos..pos + 10 + |rec.payload|])));
    }

    // add_record_to_archive
    method AddRecord(r: Rec, now: u32)
      requires Valid()
      modifies this, flash.dev, flash.buf, archBuf
      ensures Valid() && View() == Add(cfg, old(View()), r, now)
    {
      hide WriteSlot, WriteEntry, Enc, EncPtr, FlashOf, Slots, Sound, Cut;
      var pos;
      if lastRec == -1 {
        pos := 0;
      } else {
        pos := lastRec + 16;
        if pos >= SECTOR_SIZE - 1 {
          SoundPages(cfg);
          pageNum := pageNum + 1;
          if pageNum >= cfg.pages {
            pageNum := 0;
          }
          CreateNewPagePtr(pageNum, now);
          pos := 0;
        }
      }
      StoreRecord(pos, r);
    }

    // The common tail of add_record_to_archive: slot, flash, cursor.
    method StoreRecord(pos: nat, r: Rec)
      requires Valid() && pos < SECTOR_SIZE && pos % 16 == 0
      modifies this`lastRec, flash.dev, flash.buf, archBuf
      ensures Valid()
      ensures var s, k, x := old(View()), pos / 16, Enc(cfg, Cut(r));
        View() == s.(flash := WriteSlot(s.flash, s.page, k, x), ram := s.ram[k := x], last := k)
    {
      hide Written, ErasedByWrite, FlashOf, WriteSlot, Enc, Slots, Sound;
      ghost var ram, k := archBuf[..], pos / 16;
      FillSlot(pos, r);
      var x := archBuf[pos..pos + 16];
      assert x == Enc(cfg, Cut(r));
      SlotSet(ram, k, x);
      RecordWriteIsSlotWrite(cfg.pages, flash.dev.mem, flash.dev.erased, pageNum, k, x);
      assert SECTOR_SIZE + pageNum * SECTOR_SIZE + pos == SECTOR_SIZE * (1 + pageNum) + 16 * k;
      flash.Write(SECTOR_SIZE + pageNum * SECTOR_SIZE + pos, x);
      lastRec := pos;
    }

    // clear_archive
    method ClearArchive(now: u32)
      requires Valid()
      modifies this, flash.dev, flash.buf, archBuf
      ensures Valid() && View() == Clear(cfg, old(View()), now)
    {
      hide WriteEntry, EncPtr, Written;
      lastRec := -1;
      for i := 0 to SECTOR_SIZE
        invariant Valid() && lastRec == -1
        invariant flash.dev.mem == old(flash.dev.mem) && flash.dev.erased == old(flash.dev.erased)
        invariant forall j :: 0 <= j < i ==> archBuf[j] == 0
      {
        archBuf[i] := 0;
      }
      ZeroSlots(archBuf[..]);
      pageNum, ptrOffset := 0, 0;
      assert View() == PowerOn(old(View()).flash);
      CreateNewPagePtr(0, now);
      assert |View().flash.pages| == cfg.pages;
      EraseFirstPages();
    }

    // clear_archive_page for pages 0..29.
    method EraseFirstPages()
      requires Valid()
      modifies flash.dev
      ensures Valid()
      ensures View() == old(View()).(flash := FirstPagesErased(old(View()).flash))
    {
      hide Sound, FlashOf;
      SoundPages(cfg);
      ghost var mem, erased := flash.dev.mem, flash.dev.erased;
      for i := 0 to CLEARED_PAGES
        invariant Valid() && |flash.dev.mem| == |mem|
        invariant flash.dev.erased == erased + FirstSectors(i)
        invariant forall a :: 0 <= a < |mem| ==>
          flash.dev.mem[a] == if SECTOR_SIZE <= a < SECTOR_SIZE + SECTOR_SIZE * i then 255 else mem[a]
      {
        flash.dev.EraseSector(1 + i);
      }
      FirstPagesBlank(cfg.pages, mem, flash.dev.mem, erased);
    }

    // The record count of the page in RAM: the leading slots that check.
    method CountLeading() returns (cnt: nat)
      requires Valid()
      ensures cnt == RecordsIn(cfg, Slots(archBuf[..]))
    {
      hide Leading, Check, Slots;
      cnt := 0;
      ghost var page := Slots(archBuf[..]);
      while true
        invariant cnt < SLOTS && RecordsIn(cfg, page) == Leading(cfg, page, cnt)
        decreases SLOTS - cnt
      {
        SlotAt(archBuf[..], cnt);
        LeadingUnfolds(cfg, page, cnt);
        var ok := CheckRecord(16 * cnt);
        if !ok {
          break;
        }
        cnt := cnt + 1;
        if cnt >= SLOTS {
          break;
        }
      }
    }

    // open_archive
    method OpenArchive(now: u32)
      requires Valid()
      modifies this, flash.dev, flash.buf, archBuf
      ensures Valid() && View() == Open(cfg, old(View()).flash, now)
    {
      hide Found, Clear, RecordsIn, Merge, Entries, Slots, Sound;
      var found, page := SearchLastRecord();
      if found {
        pageNum := page;
        LoadPages(now);
      } else {
        assert View().flash == old(View()).flash;
        ClearFromFlash(cfg, View(), now);
        ClearArchive(now);
      }
    }

    // The whole current page into RAM.
    method LoadPage()
      requires Valid()
      modifies archBuf
      ensures archBuf[..] == Sector(flash.dev.mem, 1 + pageNum)
    {
      ReadInto(0, SECTOR_SIZE + pageNum * SECTOR_SIZE, SECTOR_SIZE);
    }

    // The current page into RAM, then the page before it behind its records.
    method LoadPages(now: u32)
      requires Valid()
      modifies this`lastRec, archBuf
      ensures Valid()
      ensures View() == Reload(cfg, old(View()).flash, pageNum, ptrOffset / 8)
    {
      hide RecordsIn, Written, Sound, Slots, Overlaid;
      ghost var f := View().flash;
      LoadPage();
      var cnt := CountLeading();
      lastRec := if cnt > 0 then 16 * (cnt - 1) else -1;
      if cnt < SLOTS {
        var prev := if pageNum > 0 then pageNum - 1 else cfg.pages - 1;
        ReadInto(16 * cnt, SECTOR_SIZE + prev * SECTOR_SIZE + 16 * cnt, SECTOR_SIZE - 16 * cnt);
        SlotsMerged(flash.dev.mem, 1 + pageNum, 1 + prev, cnt);
      } else {
        assert Merge(f.pages[pageNum], f.pages[PrevPage(cfg, pageNum)], cnt) == f.pages[pageNum];
      }
    }

    // get_archive_records_cnt
    method RecordsCount() returns (res: nat)
      requires Valid()
      ensures res == RecordsCnt(cfg, View())
    {
      hide CountFrom, Check, Slots;
      res := 0;
      if lastRec != -1 {
        ghost var ram := Slots(archBuf[..]);
        var pos := lastRec;
        ghost var k: nat := lastRec / 16;
        while true
          invariant pos == 16 * k < SECTOR_SIZE && res < SLOTS
          invariant RecordsCnt(cfg, View()) == CountFrom(cfg, ram, k, res)
          decreases SLOTS - res
        {
          SlotAt(archBuf[..], k);
          CountUnfolds(cfg, ram, k, res);
          var ok := CheckRecord(pos);
          if !ok {
            break;
          }
          res := res + 1;
          if res >= SLOTS {
            break;
          }
          k := Before(k, 1);
          pos := if pos > 0 then pos - 16 else SECTOR_SIZE - 16;
        }
      }
    }

    // get_record_with_offset_from_last
    method GetRecord(offset: u16) returns (rec: Option<Rec>)
      requires Valid()
      ensures rec == Get(cfg, View(), offset)
    {
      hide Check, Slots, Dec;
      if lastRec == -1 {
        return None;
      }
      var pos := lastRec;
      var left: int := offset;
      ghost var last: nat := lastRec / 16;
      ghost var k := Before(last, 0);
      while left > 0
        invariant 0 <= left <= offset
        invariant pos == 16 * k < SECTOR_SIZE && k == Before(last, offset - left)
      {
        pos := if pos > 0 then pos - 16 else SECTOR_SIZE - 16;
        BeforeOneMore(last, offset - left);
        left := left - 1;
        k := Before(last, offset - left);
      }
      SlotAt(archBuf[..], k);
      var slot := archBuf[pos..pos + 16];
      if slot[7] > PAYLOAD {
        assert !Check(cfg, slot) by { LongFails(cfg, slot); }
        return None;
      }
      var ok := CheckRecord(pos);
      rec := if ok then Some(Dec(slot)) else None;
    }
  }

  function Overlaid(b: seq<byte>, pos: nat, data: seq<byte>): (r: seq<byte>)
    requires pos + |data| <= |b|
    ensures |r| == |b|
  {
    b[..pos] + data + b[pos + |data|..]
  }

  // Head, payload and checksum written one after the other give the encoded slot, and the
  // checksum is taken over the right bytes.
  lemma RecordLaidOut(b: seq<byte>, pos: nat, head: seq<byte>, payload: seq<byte>, crc: seq<byte>)
    requires pos + 16 <= |b| && |head| == 8 && |payload| <= PAYLOAD && |crc| == 2
    ensures var body := payload + Fill(PAYLOAD - |payload|, 0);
      var b2 := Overlaid(Overlaid(b, pos, head + [0, 0]), pos + 10, body);
      && b2[pos..pos + 10 + |payload|] == head + [0, 0] + payload
      && Overlaid(b2, pos + 8, crc) == Overlaid(b, pos, head + crc + payload + Fill(PAYLOAD - |payload|, 0))
  {
  }

  lemma LongFails(c: Config, s: seq<byte>)
    requires |s| == 16 && s[7] > PAYLOAD
    ensures !Check(c, s)
  {
  }

  lemma BeforeOneMore(k: nat, o: nat)
    requires k < SLOTS
    ensures Before(k, o + 1) == if Before(k, o) > 0 then Before(k, o) - 1 else SLOTS - 1
  {
    var m := o % SLOTS;
    assert (o + 1) % SLOTS == if m == SLOTS - 1 then 0 else m + 1;
    assert Before(k, o) == if k >= m then k - m else k + SLOTS - m;
  }

  lemma CountUnfolds(c: Config, ram: seq<seq<byte>>, k: nat, found: nat)
    requires |ram| == SLOTS && k < SLOTS && found < SLOTS
    ensures CountFrom(c, ram, k, found) ==
      if !Check(c, ram[k]) then found
      else if found + 1 >= SLOTS then found + 1
      else CountFrom(c, ram, Before(k, 1), found + 1)
  {
  }

  lemma SoundPages(c: Config)
    requires Sound(c)
    ensures CLEARED_PAGES <= c.pages <= 256
  {
  }

  lemma ClearFromFlash(c: Config, s: Archive, now: u32)
    requires Sound(c) && Shape(c, s)
    ensures Shape(c, PowerOn(s.flash)) && Clear(c, s, now) == Clear(c, PowerOn(s.flash), now)
  {
  }

  lemma LeadingUnfolds(c: Config, page: seq<seq<byte>>, k: nat)
    requires |page| == SLOTS && k < SLOTS
    ensures Leading(c, page, k) ==
      if !Check(c, page[k]) then k
      else if k + 1 >= SLOTS then k + 1
      else Leading(c, page, k + 1)
  {
  }

  lemma FirstPagesBlank(pages: nat, mem: seq<byte>, mem': seq<byte>, erased: seq<nat>)
    requires CLEARED_PAGES <= pages && SECTOR_SIZE * pages + SECTOR_SIZE <= |mem| == |mem'|
    requires forall a :: 0 <= a < |mem| ==>
      mem'[a] == if SECTOR_SIZE <= a < SECTOR_SIZE + SECTOR_SIZE * CLEARED_PAGES then 255 else mem[a]
    ensures FlashOf(pages, mem', erased + FirstSectors(CLEARED_PAGES)) == FirstPagesErased(FlashOf(pages, mem, erased))
  {
    assert Sector(mem', 0) == Sector(mem, 0);
    var f', want := FlashOf(pages, mem', erased + FirstSectors(CLEARED_PAGES)),
      FirstPagesErased(FlashOf(pages, mem, erased));
    forall q | 0 <= q < pages
      ensures f'.pages[q] == want.pages[q]
    {
      if q < CLEARED_PAGES {
        BlankSlots(Sector(mem', 1 + q));
      } else {
        assert Sector(mem', 1 + q) == Sector(mem, 1 + q);
      }
    }
  }

  lemma BlankSlots(b: seq<byte>)
    requires |b| == SECTOR_SIZE && Blank(b)
    ensures Slots(b) == PageOfSlots(BLANK_SLOT)
  {
    forall k | 0 <= k < SLOTS ensures b[16 * k..16 * k + 16] == BLANK_SLOT {
    }
  }

  lemma SlotsMerged(mem: seq<byte>, s: nat, t: nat, cnt: nat)
    requires SECTOR_SIZE * s + SECTOR_SIZE <= |mem| && SECTOR_SIZE * t + SECTOR_SIZE <= |mem| && cnt <= SLOTS
    ensures var tail := mem[SECTOR_SIZE * t + 16 * cnt..SECTOR_SIZE * t + SECTOR_SIZE];
      Slots(Overlaid(Sector(mem, s), 16 * cnt, tail)) == Merge(Slots(Sector(mem, s)), Slots(Sector(mem, t)), cnt)
  {
    var a, b := Sector(mem, s), Sector(mem, t);
    SliceOfSector(mem, t, 16 * cnt, SECTOR_SIZE - 16 * cnt);
    var merged := Overlaid(a, 16 * cnt, b[16 * cnt..SECTOR_SIZE]);
    forall k | 0 <= k < SLOTS
      ensures merged[16 * k..16 * k + 16] == if k < cnt then a[16 * k..16 * k + 16] else b[16 * k..16 * k + 16]
    {
      if k < cnt {
        assert 16 * k + 16 <= 16 * cnt;
      } else {
        assert forall i :: 16 * cnt <= i < SECTOR_SIZE ==> merged[i] == b[i];
      }
    }
  }

  lemma SlotSet(b: seq<byte>, k: nat, x: seq<byte>)
    requires |b| == SECTOR_SIZE && k < SLOTS && |x| == 16
    ensures Slots(Overlaid(b, 16 * k, x)) == Slots(b)[k := x]
  {
    var after := Overlaid(b, 16 * k, x);
    forall i | 0 <= i < SLOTS ensures after[16 * i..16 * i + 16] == Slots(b)[k := x][i] {
      assert i < k ==> 16 * i + 16 <= 16 * k;
      assert i > k ==> 16 * k + 16 <= 16 * i;
    }
  }

  lemma ZeroSlots(b: seq<byte>)
    requires |b| == SECTOR_SIZE && forall i :: 0 <= i < SECTOR_SIZE ==> b[i] == 0
    ensures Slots(b) == PageOfSlots(ZERO_SLOT)
  {
    forall k | 0 <= k < SLOTS ensures b[16 * k..16 * k + 16] == ZERO_SLOT {
    }
  }

  // One round of the pointer scan.
  lemma SearchUnfolds(c: Config, ptrs: seq<seq<byte>>, k: nat, best: nat, time: u32)
    requires |ptrs| == ENTRIES && k < ENTRIES && best <= k && |ptrs[k]| == 8
    ensures Search(c, ptrs, k, best, time) ==
      if !CheckPtr(c, ptrs[k]) then best
      else
        var accept := PtrTime(ptrs[k]) > time && PtrPage(ptrs[k]) < c.pages;
        var best' := if accept then k + 1 else best;
        if k + 1 >= ENTRIES then best' else Search(c, ptrs, k + 1, best', if accept then PtrTime(ptrs[k]) else time)
  {
  }

  lemma EntryAt(b: seq<byte>, k: nat)
    requires |b| == SECTOR_SIZE && k < ENTRIES
    ensures Entries(b)[k] == b[8 * k..8 * k + 8]
  {
  }

  lemma SlotAt(b: seq<byte>, k: nat)
    requires |b| == SECTOR_SIZE && k < SLOTS
    ensures Slots(b)[k] == b[16 * k..16 * k + 16]
  {
  }
}
