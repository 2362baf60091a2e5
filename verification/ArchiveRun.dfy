// The archive refines an unbounded log: one invariant relates flash and RAM to the list of
// records added since the last clear, and every operation keeps it.
module ArchiveRun {
  import opened Bytes
  import opened ArchiveSpec
  import opened ArchiveCodec
  import RingIndex

  type Log = seq<Rec>

  ghost predicate AllCut(log: Log) {
    forall j :: 0 <= j < |log| ==> |log[j].payload| <= PAYLOAD
  }

  // Page changes since the clear, and slot of the newest record, after n records.
  function Turns(n: nat): nat {
    if n == 0 then 0 else (n - 1) / SLOTS
  }

  function LastSlot(n: nat): (k: int)
    ensures -1 <= k < SLOTS
  {
    if n == 0 then -1 else (n - 1) % SLOTS
  }

  // The current page after `turn` page changes.
  function PageOf(c: Config, turn: nat): (q: nat)
    requires 0 < c.pages
    ensures q < c.pages
  {
    RingIndex.At(c.pages, turn)
  }

  // The oldest record still in flash: pages are reused after a full round.
  function Oldest(c: Config, n: nat): nat {
    if Turns(n) < c.pages then 0 else SLOTS * (Turns(n) + 1 - c.pages)
  }

  // A page whose first write leaves nothing else behind.
  ghost predicate Clean(p: seq<seq<byte>>, blank: seq<byte>) {
    |p| > 0 && (p[0] == blank ==> forall k :: 0 <= k < |p| ==> p[k] == blank)
  }

  ghost predicate Holds(c: Config, page: seq<seq<byte>>, k: int, r: Rec)
  {
    0 <= k < |page| && |r.payload| <= PAYLOAD && page[k] == Enc(c, r)
  }

  ghost predicate BlankAfter(page: seq<seq<byte>>, last: int) {
    forall k :: 0 <= k < |page| && last < k ==> page[k] == BLANK_SLOT
  }

  // Data pages: every retained record sits in its slot, the rest of the current page is blank,
  // and pages not yet reached can be started cleanly.
  ghost predicate PagesInv(c: Config, pages: seq<seq<seq<byte>>>, log: Log)
    requires 0 < c.pages == |pages| && forall q :: 0 <= q < c.pages ==> PageShape(pages[q])
  {
    var n := |log|;
    && (forall j :: Oldest(c, n) <= j < n ==> Holds(c, pages[PageOf(c, j / SLOTS)], j % SLOTS, log[j]))
    && BlankAfter(pages[PageOf(c, Turns(n))], LastSlot(n))
    && (forall q :: Turns(n) < q < c.pages ==> Clean(pages[q], BLANK_SLOT))
  }

  // RAM: the newest 256 records.
  ghost predicate RamHolds(c: Config, ram: seq<seq<byte>>, log: Log)
    requires PageShape(ram)
  {
    forall j :: 0 <= j < |log| && |log| - SLOTS <= j ==> Holds(c, ram, j % SLOTS, log[j])
  }

  // And no slot that checks beyond them.
  ghost predicate RamInv(c: Config, ram: seq<seq<byte>>, log: Log)
    requires PageShape(ram)
  {
    RamHolds(c, ram, log) && forall k :: |log| <= k < SLOTS ==> !Check(c, ram[k])
  }

  // How many page pointers are in use after `turn` page changes: the sector starts over every 512.
  function PtrsUsed(turn: nat): (off: nat)
    ensures 0 < off <= ENTRIES && off <= turn + 1
  {
    turn % ENTRIES + 1
  }

  // Pointer sector: a non-empty prefix of valid entries that name the pages of the latest turns
  // in order, then blank. Their times are whatever the clock said.
  ghost predicate PtrsInv(c: Config, ptrs: seq<seq<byte>>, turn: nat)
    requires 0 < c.pages
    requires |ptrs| == ENTRIES && forall k :: 0 <= k < ENTRIES ==> |ptrs[k]| == 8
  {
    var off := PtrsUsed(turn);
    && (forall k :: 0 <= k < off ==> CheckPtr(c, ptrs[k]) && PtrPage(ptrs[k]) == PageOf(c, turn + 1 - off + k))
    && (forall k :: off <= k < ENTRIES ==> ptrs[k] == BLANK_ENTRY)
  }

  // What the readers depend on: RAM and cursor hold the newest records of the log.
  ghost predicate ReadInv(c: Config, s: Archive, log: Log) {
    Sound(c) && AllCut(log) && PageShape(s.ram) && s.last == LastSlot(|log|) && RamInv(c, s.ram, log)
  }

  // The whole layout, in RAM and flash.
  ghost predicate Inv(c: Config, s: Archive, log: Log) {
    && Shape(c, s) && ReadInv(c, s, log)
    && s.page == PageOf(c, Turns(|log|))
    && s.off == PtrsUsed(Turns(|log|))
    && PtrsInv(c, s.flash.ptrs, Turns(|log|))
    && PagesInv(c, s.flash.pages, log)
  }

  // Reading the log back -----------------------------------------------------------------

  // Inside the log, a read needs no more than that RAM holds it.
  lemma GetReadsHeld(c: Config, s: Archive, log: Log, offset: nat)
    requires PageShape(s.ram) && s.last == LastSlot(|log|) && RamHolds(c, s.ram, log)
    requires offset % SLOTS < |log|
    ensures Get(c, s, offset) == Some(log[|log| - 1 - offset % SLOTS])
  {
    hide Check, Enc, Dec;
    BeforeNewest(|log|, offset);
    hide Before;
    var j := |log| - 1 - offset % SLOTS;
    assert Holds(c, s.ram, j % SLOTS, log[j]);
    RecordRoundTrip(c, log[j]);
  }

  // get_record_with_offset_from_last returns the record added `offset` calls before the newest.
  lemma GetReadsLog(c: Config, s: Archive, log: Log, offset: nat)
    requires ReadInv(c, s, log)
    ensures Get(c, s, offset) ==
      if offset % SLOTS < |log| then Some(log[|log| - 1 - offset % SLOTS]) else None
  {
    hide Check, Dec, RamHolds;
    if offset % SLOTS < |log| {
      GetReadsHeld(c, s, log, offset);
    } else if |log| > 0 {
      BeforeNewest(|log|, offset);
      hide Before;
    }
  }

  // Going back o slots from the newest of n records meets record n - 1 - o, or a slot beyond n.
  lemma BeforeNewest(n: nat, offset: nat)
    requires 0 < n
    ensures var o, k := offset % SLOTS, Before(LastSlot(n), offset);
      if o < n then k == (n - 1 - o) % SLOTS else n <= k < SLOTS
  {
    var o, last := offset % SLOTS, (n - 1) % SLOTS;
    assert Before(last, offset) == if o <= last then last - o else last - o + SLOTS;
  }

  lemma BeforeStep(k: nat, found: nat)
    requires k < SLOTS && found + 1 < SLOTS
    ensures Before(Before(k, found), 1) == Before(k, found + 1)
  {
  }

  // The backward walk stops at the first slot that does not check, or after 256.
  lemma {:induction false} WalkCounts(c: Config, ram: seq<seq<byte>>, last: nat, n: nat, found: nat)
    requires |ram| == SLOTS && last < SLOTS && found < SLOTS && found <= n
    requires forall o :: 0 <= o < SLOTS ==> (Check(c, ram[Before(last, o)]) <==> o < n)
    ensures CountFrom(c, ram, Before(last, found), found) == if n < SLOTS then n else SLOTS
    decreases SLOTS - found
  {
    hide Check, Before;
    if found < n && found + 1 < SLOTS {
      BeforeStep(last, found);
      WalkCounts(c, ram, last, n, found + 1);
    }
  }

  lemma CountIsLogLength(c: Config, s: Archive, log: Log)
    requires ReadInv(c, s, log)
    ensures RecordsCnt(c, s) == if |log| < SLOTS then |log| else SLOTS
  {
    if |log| > 0 {
      assert Before(s.last, 0) == s.last;
      forall o | 0 <= o < SLOTS
        ensures Check(c, s.ram[Before(s.last, o)]) <==> o < |log|
      {
        hide ReadInv, Check, Before;
        GetReadsLog(c, s, log, o);
      }
      WalkCounts(c, s.ram, s.last, |log|, 0);
    }
  }

  // Adding a record ----------------------------------------------------------------------

  // d page changes within one round move d pages ahead, around the end.
  lemma PageAhead(c: Config, turn: nat, d: nat)
    requires 0 < c.pages && d <= c.pages
    ensures PageOf(c, 0) == 0
    ensures PageOf(c, turn + d) == if PageOf(c, turn) + d < c.pages
      then PageOf(c, turn) + d else PageOf(c, turn) + d - c.pages
  {
    RingIndex.Ahead(c.pages, turn, d);
  }

  // A new page pointer continues the sector, or starts it over when it is full.
  lemma PtrsKept(c: Config, ptrs: seq<seq<byte>>, turn: nat, now: u32)
    requires Sound(c)
    requires |ptrs| == ENTRIES && forall k :: 0 <= k < ENTRIES ==> |ptrs[k]| == 8
    requires PtrsInv(c, ptrs, turn)
    ensures var k := if PtrsUsed(turn) >= ENTRIES then 0 else PtrsUsed(turn);
      var ptrs' := GroupWrite(ptrs, k, EncPtr(c, now, PageOf(c, turn + 1)), BLANK_ENTRY);
      && PtrsUsed(turn + 1) == k + 1
      && (forall i :: 0 <= i < ENTRIES ==> |ptrs'[i]| == 8)
      && PtrsInv(c, ptrs', turn + 1)
      && (ptrs[k] == BLANK_ENTRY <==> PtrsUsed(turn) < ENTRIES)
  {
    hide CheckPtr, PtrTime, EncPtr;
    PointerRoundTrip(c, now, PageOf(c, turn + 1));
    BlankEntryNamesNoPage();
    if PtrsUsed(turn) >= ENTRIES {
      assert PtrPage(ptrs[0]) < c.pages;
    }
    hide PageOf;
  }

  // A record in the current page lands on a blank slot.
  lemma PagesKeptInPage(c: Config, pages: seq<seq<seq<byte>>>, log: Log, r: Rec)
    requires 0 < c.pages == |pages| && forall q :: 0 <= q < c.pages ==> PageShape(pages[q])
    requires PagesInv(c, pages, log) && |r.payload| <= PAYLOAD && LastSlot(|log|) < SLOTS - 1
    ensures var cur, k := PageOf(c, Turns(|log|)), LastSlot(|log|) + 1;
      && pages[cur][k] == BLANK_SLOT
      && PagesInv(c, pages[cur := GroupWrite(pages[cur], k, Enc(c, r), BLANK_SLOT)], log + [r])
  {
    hide Enc, PageOf, Clean;
    var n, cur, k := |log|, PageOf(c, Turns(|log|)), LastSlot(|log|) + 1;
    var pages' := pages[cur := pages[cur][k := Enc(c, r)]];
    assert Turns(n + 1) == Turns(n) && LastSlot(n + 1) == k == n % SLOTS && n / SLOTS == Turns(n);
    forall j | Oldest(c, n + 1) <= j < n + 1
      ensures Holds(c, pages'[PageOf(c, j / SLOTS)], j % SLOTS, (log + [r])[j])
    {
      if j < n {
        assert Holds(c, pages[PageOf(c, j / SLOTS)], j % SLOTS, log[j]);
        if PageOf(c, j / SLOTS) == cur {
          PageAhead(c, j / SLOTS, n / SLOTS - j / SLOTS);
          assert j % SLOTS != k;
        }
      }
    }
    forall q | Turns(n + 1) < q < c.pages ensures Clean(pages'[q], BLANK_SLOT) {
      PageAhead(c, 0, Turns(n));
    }
  }

  // The first record of a page: whatever the page held before is gone.
  lemma PagesKeptOnTurn(c: Config, pages: seq<seq<seq<byte>>>, log: Log, r: Rec)
    requires 0 < c.pages == |pages| && forall q :: 0 <= q < c.pages ==> PageShape(pages[q])
    requires PagesInv(c, pages, log) && |r.payload| <= PAYLOAD && LastSlot(|log|) == SLOTS - 1
    ensures var cur := PageOf(c, Turns(|log|) + 1);
      PagesInv(c, pages[cur := GroupWrite(pages[cur], 0, Enc(c, r), BLANK_SLOT)], log + [r])
  {
    hide Enc, PageOf;
    var n, turn := |log|, Turns(|log|) + 1;
    var cur := PageOf(c, turn);
    var page' := GroupWrite(pages[cur], 0, Enc(c, r), BLANK_SLOT);
    var pages' := pages[cur := page'];
    assert Turns(n + 1) == turn == n / SLOTS && LastSlot(n + 1) == 0 == n % SLOTS;
    ReusedPageIsClean(c, pages, log);
    assert BlankAfter(page', 0);
    forall j | Oldest(c, n + 1) <= j < n + 1
      ensures Holds(c, pages'[PageOf(c, j / SLOTS)], j % SLOTS, (log + [r])[j])
    {
      if j < n {
        assert Holds(c, pages[PageOf(c, j / SLOTS)], j % SLOTS, log[j]);
        PageAhead(c, j / SLOTS, turn - j / SLOTS);
      }
    }
    forall q | turn < q < c.pages ensures Clean(pages'[q], BLANK_SLOT) {
      PageAhead(c, 0, turn);
    }
  }

  // The page about to be started is clean: untouched so far, or its first slot is in use.
  lemma ReusedPageIsClean(c: Config, pages: seq<seq<seq<byte>>>, log: Log)
    requires 0 < c.pages == |pages| && forall q :: 0 <= q < c.pages ==> PageShape(pages[q])
    requires PagesInv(c, pages, log) && LastSlot(|log|) == SLOTS - 1
    ensures Clean(pages[PageOf(c, Turns(|log|) + 1)], BLANK_SLOT)
  {
    var turn := Turns(|log|) + 1;
    if turn < c.pages {
      PageAhead(c, 0, turn);
    } else {
      var j := SLOTS * (turn - c.pages);
      assert Holds(c, pages[PageOf(c, j / SLOTS)], j % SLOTS, log[j]);
      RecordRoundTrip(c, log[j]);
      PageAhead(c, turn - c.pages, c.pages);
    }
  }

  lemma RamHoldsMore(c: Config, ram: seq<seq<byte>>, log: Log, r: Rec)
    requires PageShape(ram) && RamHolds(c, ram, log) && |r.payload| <= PAYLOAD
    ensures RamHolds(c, ram[|log| % SLOTS := Enc(c, r)], log + [r])
  {
    hide Enc;
    var n := |log|;
    var ram' := ram[n % SLOTS := Enc(c, r)];
    forall j | 0 <= j < n + 1 && n + 1 - SLOTS <= j
      ensures Holds(c, ram', j % SLOTS, (log + [r])[j])
    {
      if j < n {
        assert Holds(c, ram, j % SLOTS, log[j]);
        assert j % SLOTS != n % SLOTS;
      }
    }
  }

  lemma RamKept(c: Config, ram: seq<seq<byte>>, log: Log, r: Rec)
    requires PageShape(ram) && RamInv(c, ram, log) && |r.payload| <= PAYLOAD
    ensures RamInv(c, ram[|log| % SLOTS := Enc(c, r)], log + [r])
  {
    hide Enc, Check, RamHolds;
    RamHoldsMore(c, ram, log, r);
  }
}
