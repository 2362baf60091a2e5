// Adds and clears keep the archive's invariant under any clock; what a reboot does to the log,
// and exactly when it does nothing.
module ArchiveReboot {
  import opened Bytes
  import opened ArchiveSpec
  import opened ArchiveCodec
  import opened ArchiveRun
  import RingIndex

  // The parts of the state after an add, within a page and on a page change.
  lemma AddedInPage(c: Config, s: Archive, log: Log, r: Rec, now: u32)
    requires Inv(c, s, log) && !PageIsFull(s)
    ensures var s' := Add(c, s, r, now);
      && s'.flash.ptrs == s.flash.ptrs
      && PagesInv(c, s'.flash.pages, log + [Cut(r)])
      && (s'.page, s'.off, s'.last) == (s.page, s.off, s.last + 1)
  {
    PagesKeptInPage(c, s.flash.pages, log, Cut(r));
    hide PtrsInv, PagesInv, RamInv, Enc, GroupWrite, PageShape;
  }

  lemma AddedOnTurn(c: Config, s: Archive, log: Log, r: Rec, now: u32)
    requires Inv(c, s, log) && PageIsFull(s)
    ensures var s', turn := Add(c, s, r, now), Turns(|log|) + 1;
      && PtrsInv(c, s'.flash.ptrs, turn) && PtrTime(s'.flash.ptrs[s'.off - 1]) == now
      && PagesInv(c, s'.flash.pages, log + [Cut(r)])
      && s'.page == PageOf(c, turn) && s'.off == PtrsUsed(turn) && s'.last == 0
      && (s.off < ENTRIES ==> forall i :: 0 <= i < s.off ==> s'.flash.ptrs[i] == s.flash.ptrs[i])
  {
    PtrsKept(c, s.flash.ptrs, Turns(|log|), now);
    PointerRoundTrip(c, now, PageOf(c, Turns(|log|) + 1));
    PagesKeptOnTurn(c, s.flash.pages, log, Cut(r));
    assert NextPage(c, s.page) == PageOf(c, Turns(|log|) + 1);
    OldPointersStay(c, s, r, now);
    hide PtrsInv, PagesInv, RamInv, Enc, EncPtr, PtrTime, PageShape, GroupWrite, PageOf;
  }

  lemma OldPointersStay(c: Config, s: Archive, r: Rec, now: u32)
    requires Sound(c) && Shape(c, s) && PageIsFull(s)
    requires s.off < ENTRIES ==> s.flash.ptrs[s.off] == BLANK_ENTRY
    ensures s.off < ENTRIES ==> forall i :: 0 <= i < s.off ==> Add(c, s, r, now).flash.ptrs[i] == s.flash.ptrs[i]
  {
    hide Enc, EncPtr;
  }

  lemma NextSlot(n: nat)
    ensures if LastSlot(n) == SLOTS - 1 then n % SLOTS == 0 else LastSlot(n) + 1 == n % SLOTS
    ensures LastSlot(n + 1) == n % SLOTS
  {
  }

  // What the readers see grows by the added record, whatever flash and the clock hold.
  lemma AddKeepsReads(c: Config, s: Archive, log: Log, r: Rec, now: u32)
    requires Shape(c, s) && ReadInv(c, s, log)
    ensures ReadInv(c, Add(c, s, r, now), log + [Cut(r)])
  {
    hide RamInv, Enc, WriteSlot, WriteEntry, FlashShape;
    NextSlot(|log|);
    hide LastSlot;
    RamKept(c, s.ram, log, Cut(r));
  }

  lemma AddKeepsInv(c: Config, s: Archive, log: Log, r: Rec, now: u32)
    requires Inv(c, s, log)
    ensures Inv(c, Add(c, s, r, now), log + [Cut(r)])
  {
    hide PtrsInv, PagesInv, ReadInv, Enc, Shape, Add;
    AddKeepsReads(c, s, log, r, now);
    TurnsNow(c, s, log);
    if PageIsFull(s) {
      AddedOnTurn(c, s, log, r, now);
    } else {
      AddedInPage(c, s, log, r, now);
    }
  }

  lemma TurnsNow(c: Config, s: Archive, log: Log)
    requires ReadInv(c, s, log)
    ensures Turns(|log| + 1) == if PageIsFull(s) then Turns(|log|) + 1 else Turns(|log|)
  {
    hide RamInv;
  }

  // The readers see nothing after a clear, whatever was there before.
  lemma ClearReadsNothing(c: Config, s: Archive, now: u32)
    requires Sound(c) && Shape(c, s)
    ensures ReadInv(c, Clear(c, s, now), [])
  {
    hide Check, WriteEntry;
    UnusedSlotsFail(c);
  }

  // A clear leaves the first 30 pages blank and the others as they were, one pointer for page 0 in
  // front, and the other pointers only if that entry was blank; it erases the pointer sector if it
  // was not, then the sectors of those 30 pages.
  lemma ClearErases(c: Config, s: Archive, now: u32)
    requires Sound(c) && Shape(c, s)
    ensures var t := Clear(c, s, now);
      && t.page == 0 && t.last == -1 && t.off == 1 && |t.flash.ptrs| == 512 && |t.flash.pages| == c.pages
      && (forall q :: 0 <= q < c.pages ==> |t.flash.pages[q]| == 256)
      && (forall q, k :: 0 <= q < 30 && 0 <= k < 256 ==> t.flash.pages[q][k] == Fill(16, 255))
      && (forall q :: 30 <= q < c.pages ==> t.flash.pages[q] == s.flash.pages[q])
      && CheckPtr(c, t.flash.ptrs[0]) && PtrTime(t.flash.ptrs[0]) == now && PtrPage(t.flash.ptrs[0]) == 0
      && (forall k :: 1 <= k < 512 ==>
           t.flash.ptrs[k] == if s.flash.ptrs[0] == Fill(8, 255) then s.flash.ptrs[k] else Fill(8, 255))
      && |t.flash.erased| == |s.flash.erased| + (if s.flash.ptrs[0] == Fill(8, 255) then 30 else 31)
      && t.flash.erased[..|s.flash.erased|] == s.flash.erased
      && (s.flash.ptrs[0] != Fill(8, 255) ==> t.flash.erased[|s.flash.erased|] == 0)
      && t.flash.erased[|t.flash.erased| - 30..] == seq(30, q => 1 + q)
  {
    hide CheckPtr, PtrTime, PtrPage, EncPtr, Check;
    PointerRoundTrip(c, now, 0);
    assert forall q :: 0 <= q < 30 ==> Clear(c, s, now).flash.pages[q] == PageOfSlots(BLANK_SLOT);
  }

  // A clear reaches the empty layout exactly when what it does not erase can be started cleanly.
  ghost predicate Clearable(c: Config, f: Flash)
    requires Sound(c) && FlashShape(c, f)
  {
    && Clean(f.ptrs, BLANK_ENTRY)
    && forall q :: CLEARED_PAGES <= q < c.pages ==> Clean(f.pages[q], BLANK_SLOT)
  }

  lemma ClearEmptiesIff(c: Config, s: Archive, now: u32)
    requires Sound(c) && Shape(c, s)
    ensures Inv(c, Clear(c, s, now), []) <==> Clearable(c, s.flash)
  {
    hide CheckPtr, PtrTime, EncPtr, Check, RamInv;
    PointerRoundTrip(c, now, 0);
    ClearReadsNothing(c, s, now);
    PageAhead(c, 0, 0);
    var t := Clear(c, s, now);
    assert forall k :: 1 <= k < ENTRIES && s.flash.ptrs[0] == BLANK_ENTRY ==> t.flash.ptrs[k] == s.flash.ptrs[k];
    assert PtrsUsed(0) == 1 && (PtrsInv(c, t.flash.ptrs, 0) <==> Clean(s.flash.ptrs, BLANK_ENTRY));
    assert forall q :: CLEARED_PAGES <= q < c.pages ==> t.flash.pages[q] == s.flash.pages[q];
    assert forall q :: 0 <= q < CLEARED_PAGES ==> t.flash.pages[q] == PageOfSlots(BLANK_SLOT);
    assert BlankAfter(t.flash.pages[0], -1) && LastSlot(0) == -1 && Turns(0) == 0;
    assert PagesInv(c, t.flash.pages, []) <==>
      forall q :: CLEARED_PAGES <= q < c.pages ==> Clean(s.flash.pages[q], BLANK_SLOT);
  }

  // What a run leaves behind can always be cleared.
  lemma InvIsClearable(c: Config, s: Archive, log: Log)
    requires Inv(c, s, log)
    ensures Clearable(c, s.flash)
  {
    BlankEntryNamesNoPage();
    assert PtrPage(s.flash.ptrs[0]) < c.pages;
    hide PtrsInv, PageOf, RamInv;
    forall q | CLEARED_PAGES <= q < c.pages ensures Clean(s.flash.pages[q], BLANK_SLOT) {
      if q <= Turns(|log|) {
        StartedPageIsUsed(c, s.flash.pages, log, q);
      }
    }
  }

  // The most recent turn that used page q, counted back from the current one.
  lemma StartedPageIsUsed(c: Config, pages: seq<seq<seq<byte>>>, log: Log, q: nat)
    requires 0 < c.pages == |pages| && forall p :: 0 <= p < c.pages ==> PageShape(pages[p])
    requires PagesInv(c, pages, log) && 0 < |log| && q <= Turns(|log|) && q < c.pages
    ensures pages[q][0] != BLANK_SLOT
  {
    var turn := Turns(|log|);
    var cur := PageOf(c, turn);
    if turn < c.pages {
      PageAhead(c, 0, turn);
    }
    var d := if q <= cur then cur - q else cur + c.pages - q;
    var t := turn - d;
    PageAhead(c, t, d);
    var j := SLOTS * t;
    assert Holds(c, pages[PageOf(c, j / SLOTS)], j % SLOTS, log[j]);
    RecordRoundTrip(c, log[j]);
  }

  // The pointer scan ------------------------------------------------------------------------

  // The first `off` pointers check and name pages; the rest of the sector is blank.
  ghost predicate PointerPrefix(c: Config, ptrs: seq<seq<byte>>, off: nat) {
    && |ptrs| == ENTRIES && off <= ENTRIES
    && (forall k :: 0 <= k < off ==> CheckPtr(c, ptrs[k]) && PtrPage(ptrs[k]) < c.pages)
    && (forall k :: off <= k < ENTRIES ==> ptrs[k] == BLANK_ENTRY)
  }

  function BestTime(ptrs: seq<seq<byte>>, best: nat): u32
    requires best <= |ptrs| && forall k :: 0 <= k < |ptrs| ==> |ptrs[k]| == 8
  {
    if best == 0 then 0 else PtrTime(ptrs[best - 1])
  }

  // Entry best - 1 is the first with the largest time among the first k; 0 if all times are 0.
  ghost predicate IsLatest(ptrs: seq<seq<byte>>, k: nat, best: nat)
    requires k <= |ptrs| && forall i :: 0 <= i < |ptrs| ==> |ptrs[i]| == 8
  {
    && best <= k && (best > 0 ==> 0 < BestTime(ptrs, best))
    && (forall i :: 0 <= i < k ==> PtrTime(ptrs[i]) <= BestTime(ptrs, best))
    && (forall i :: 0 <= i < best - 1 ==> PtrTime(ptrs[i]) < BestTime(ptrs, best))
  }

  lemma {:induction false} SearchFrom(c: Config, ptrs: seq<seq<byte>>, off: nat, k: nat, best: nat)
    requires Sound(c) && PointerPrefix(c, ptrs, off) && k <= off && k < ENTRIES
    requires forall i :: 0 <= i < ENTRIES ==> |ptrs[i]| == 8
    requires best <= k && IsLatest(ptrs, k, best)
    ensures IsLatest(ptrs, off, Search(c, ptrs, k, best, BestTime(ptrs, best)))
    decreases off - k
  {
    hide PtrTime, PtrPage, CheckPtr, IsLatest;
    BlankEntryFails(c);
    if k < off {
      LatestStep(ptrs, k, best);
      if k + 1 < ENTRIES {
        SearchFrom(c, ptrs, off, k + 1, if PtrTime(ptrs[k]) > BestTime(ptrs, best) then k + 1 else best);
      }
    }
  }

  lemma LatestStep(ptrs: seq<seq<byte>>, k: nat, best: nat)
    requires k < |ptrs| && (forall i :: 0 <= i < |ptrs| ==> |ptrs[i]| == 8) && IsLatest(ptrs, k, best) && best <= k
    ensures var best' := if PtrTime(ptrs[k]) > BestTime(ptrs, best) then k + 1 else best;
      IsLatest(ptrs, k + 1, best') && BestTime(ptrs, best') ==
        if PtrTime(ptrs[k]) > BestTime(ptrs, best) then PtrTime(ptrs[k]) else BestTime(ptrs, best)
  {
    hide PtrTime;
  }

  lemma FoundIsLatest(c: Config, ptrs: seq<seq<byte>>, off: nat)
    requires Sound(c) && PointerPrefix(c, ptrs, off)
    requires forall i :: 0 <= i < ENTRIES ==> |ptrs[i]| == 8
    ensures IsLatest(ptrs, off, Found(c, ptrs))
  {
    hide PtrTime, PtrPage, CheckPtr, Search;
    SearchFrom(c, ptrs, off, 0, 0);
  }

  // The newest pointer's time is positive and larger than all others.
  ghost predicate NewestIsLatest(ptrs: seq<seq<byte>>, off: nat)
    requires 0 < off <= |ptrs| && forall i :: 0 <= i < |ptrs| ==> |ptrs[i]| == 8
  {
    0 < PtrTime(ptrs[off - 1]) && forall i :: 0 <= i < off - 1 ==> PtrTime(ptrs[i]) < PtrTime(ptrs[off - 1])
  }

  // Boot finds the newest page pointer exactly when its time is positive and strictly the largest.
  lemma SearchFindsNewestIff(c: Config, ptrs: seq<seq<byte>>, off: nat)
    requires Sound(c) && PointerPrefix(c, ptrs, off) && 0 < off
    requires forall i :: 0 <= i < ENTRIES ==> |ptrs[i]| == 8
    ensures Found(c, ptrs) == off <==> NewestIsLatest(ptrs, off)
  {
    hide PtrTime, PtrPage, CheckPtr, Found;
    FoundIsLatest(c, ptrs, off);
    assert PtrTime(ptrs[off - 1]) <= BestTime(ptrs, Found(c, ptrs));
  }

  // The record scan -------------------------------------------------------------------------

  lemma {:induction false} LeadingIs(c: Config, page: seq<seq<byte>>, cnt: nat, k: nat)
    requires |page| == SLOTS && k <= cnt <= SLOTS && k < SLOTS
    requires forall i :: 0 <= i < cnt ==> Check(c, page[i])
    requires cnt < SLOTS ==> !Check(c, page[cnt])
    ensures Leading(c, page, k) == cnt
    decreases cnt - k
  {
    hide Check;
    if k < cnt && k + 1 < SLOTS {
      LeadingIs(c, page, cnt, k + 1);
    }
  }

  lemma RecordsInIs(c: Config, page: seq<seq<byte>>, cnt: nat)
    requires |page| == SLOTS && cnt <= SLOTS
    requires forall i :: 0 <= i < cnt ==> Check(c, page[i])
    requires cnt < SLOTS ==> !Check(c, page[cnt])
    ensures RecordsIn(c, page) == cnt
  {
    hide Check, Leading;
    LeadingIs(c, page, cnt, 0);
  }

  // Slot k of the page of e turns ago holds the record added there in that turn.
  lemma TurnHolds(c: Config, pages: seq<seq<seq<byte>>>, log: Log, e: nat, k: nat)
    requires 0 < c.pages == |pages| && forall q :: 0 <= q < c.pages ==> PageShape(pages[q])
    requires PagesInv(c, pages, log) && e < c.pages && e <= Turns(|log|) && k < SLOTS
    requires SLOTS * (Turns(|log|) - e) + k < |log|
    ensures var t := Turns(|log|) - e;
      Holds(c, pages[PageOf(c, t)], k, log[SLOTS * t + k]) && Check(c, pages[PageOf(c, t)][k])
  {
    hide Check, Enc;
    var j := SLOTS * (Turns(|log|) - e) + k;
    assert j / SLOTS == Turns(|log|) - e && j % SLOTS == k;
    assert Holds(c, pages[PageOf(c, j / SLOTS)], j % SLOTS, log[j]);
    RecordRoundTrip(c, log[j]);
  }

  lemma CurrentPageHolds(c: Config, s: Archive, log: Log, k: nat)
    requires Inv(c, s, log) && k <= s.last
    ensures Holds(c, s.flash.pages[s.page], k, log[SLOTS * Turns(|log|) + k])
    ensures Check(c, s.flash.pages[s.page][k])
  {
    hide PagesInv, PtrsInv, RamInv, Check;
    TurnHolds(c, s.flash.pages, log, 0, k);
  }

  lemma CurrentRecords(c: Config, s: Archive, log: Log)
    requires Inv(c, s, log)
    ensures RecordsIn(c, s.flash.pages[s.page]) == s.last + 1
  {
    hide Check, PtrsInv, RamInv;
    UnusedSlotsFail(c);
    var page := s.flash.pages[s.page];
    forall i | 0 <= i < s.last + 1 ensures Check(c, page[i]) {
      CurrentPageHolds(c, s, log, i);
    }
    RecordsInIs(c, page, s.last + 1);
  }

  // Reboot ----------------------------------------------------------------------------------

  // How many turns back the page of `d` pointers ago was last used: pages repeat every round.
  function TurnsBack(c: Config, d: nat): (e: nat)
    requires 0 < c.pages
    ensures e < c.pages && e <= d
  {
    if d < c.pages then d else TurnsBack(c, d - c.pages)
  }

  lemma {:induction false} PageBack(c: Config, turn: nat, d: nat)
    requires 0 < c.pages && d <= turn
    ensures PageOf(c, turn - d) == PageOf(c, turn - TurnsBack(c, d))
    ensures PageOf(c, turn - d) == PageOf(c, turn) <==> TurnsBack(c, d) == 0
    decreases d
  {
    hide PageOf;
    if d < c.pages {
      if d > 0 {
        OtherPage(c, turn - d, turn);
      }
    } else {
      PageAhead(c, turn - d, c.pages);
      PageBack(c, turn, d - c.pages);
    }
  }

  lemma OtherPage(c: Config, t: nat, u: nat)
    requires t < u < t + c.pages
    ensures PageOf(c, t) != PageOf(c, u)
  {
    RingIndex.Distinct(c.pages, t, u);
  }

  // Does boot come back to the current page?
  ghost predicate FindsPage(c: Config, s: Archive)
    requires Shape(c, s)
  {
    var best := Found(c, s.flash.ptrs);
    best > 0 && PtrPage(s.flash.ptrs[best - 1]) == s.page
  }

  // The log a reboot falls back to when it does not: nothing without a positive time, otherwise
  // everything up to the end of the last turn on the page whose pointer has the largest time.
  ghost function BootLog(c: Config, s: Archive, log: Log): Log
    requires Inv(c, s, log)
  {
    var best := Found(c, s.flash.ptrs);
    FoundInPrefix(c, s, log);
    if best == 0 then []
    else UpToTurn(log, Turns(|log|) - TurnsBack(c, s.off - best))
  }

  // The records of all turns up to this one.
  function UpToTurn(log: Log, turn: nat): Log {
    if SLOTS * turn + SLOTS >= |log| then log else log[..SLOTS * turn + SLOTS]
  }

  lemma LayoutIsPrefix(c: Config, s: Archive, log: Log)
    requires Inv(c, s, log)
    ensures 0 < s.off && PointerPrefix(c, s.flash.ptrs, s.off)
  {
    hide PagesInv, RamInv, CheckPtr, PtrPage;
  }

  lemma FoundInPrefix(c: Config, s: Archive, log: Log)
    requires Inv(c, s, log)
    ensures var best := Found(c, s.flash.ptrs);
      && best <= s.off && s.off - best <= Turns(|log|) + 1
      && (best > 0 ==> s.off - best <= Turns(|log|))
      && (best == s.off <==> NewestIsLatest(s.flash.ptrs, s.off))
  {
    hide PtrsInv, PagesInv, RamInv, PtrTime, Found;
    LayoutIsPrefix(c, s, log);
    FoundIsLatest(c, s.flash.ptrs, s.off);
    SearchFindsNewestIff(c, s.flash.ptrs, s.off);
  }

  // The page boot finds.
  lemma FoundPage(c: Config, s: Archive, log: Log)
    requires Inv(c, s, log) && Found(c, s.flash.ptrs) > 0
    ensures var best, turn := Found(c, s.flash.ptrs), Turns(|log|);
      && best <= s.off && s.off - best <= turn
      && PtrPage(s.flash.ptrs[best - 1]) == PageOf(c, turn - TurnsBack(c, s.off - best))
      && (FindsPage(c, s) <==> TurnsBack(c, s.off - best) == 0)
  {
    hide PagesInv, RamInv, PtrPage, CheckPtr, Found, PageOf, TurnsBack;
    FoundInPrefix(c, s, log);
    var best, turn := Found(c, s.flash.ptrs), Turns(|log|);
    assert PtrPage(s.flash.ptrs[best - 1]) == PageOf(c, turn + 1 - s.off + (best - 1));
    PageBack(c, turn, s.off - best);
  }

  // The slots the current page has not reached show no record of the predecessor page beyond
  // the log.
  ghost predicate RebootSafe(c: Config, s: Archive, n: nat)
    requires Sound(c) && Shape(c, s)
  {
    forall k :: n <= k < SLOTS ==> !Check(c, s.flash.pages[PrevPage(c, s.page)][k])
  }

  // So it is once 256 records have been added since the clear, or while the predecessor is blank.
  lemma RebootSafeOnceFilled(c: Config, s: Archive, log: Log)
    requires Inv(c, s, log)
    requires |log| >= SLOTS || s.flash.pages[PrevPage(c, s.page)] == PageOfSlots(BLANK_SLOT)
    ensures RebootSafe(c, s, |log|)
  {
    UnusedSlotsFail(c);
  }

  // The newest 256 records are split between the current page and the page before it.
  lemma RecordInOneOfTwoPages(c: Config, pages: seq<seq<seq<byte>>>, log: Log, j: nat)
    requires 1 < c.pages == |pages| && forall q :: 0 <= q < c.pages ==> PageShape(pages[q])
    requires PagesInv(c, pages, log) && j < |log| && |log| - SLOTS <= j
    ensures var page := PageOf(c, Turns(|log|));
      Holds(c, if j % SLOTS <= LastSlot(|log|) then pages[page] else pages[PrevPage(c, page)], j % SLOTS, log[j])
  {
    hide Enc;
    var turn := Turns(|log|);
    assert Holds(c, pages[PageOf(c, j / SLOTS)], j % SLOTS, log[j]);
    assert j / SLOTS == if j % SLOTS <= LastSlot(|log|) then turn else turn - 1;
    if j / SLOTS < turn {
      assert PrevPage(c, PageOf(c, turn)) == PageOf(c, turn - 1);
    }
  }

  // What the RAM page holds when boot comes back to the current page.
  lemma ReloadedRam(c: Config, pages: seq<seq<seq<byte>>>, log: Log)
    requires 1 < c.pages == |pages| && forall q :: 0 <= q < c.pages ==> PageShape(pages[q])
    requires PagesInv(c, pages, log)
    ensures var page := PageOf(c, Turns(|log|));
      var ram := Merge(pages[page], pages[PrevPage(c, page)], LastSlot(|log|) + 1);
      && PageShape(ram) && RamHolds(c, ram, log)
      && (RamInv(c, ram, log) <==> forall k :: |log| <= k < SLOTS ==> !Check(c, pages[PrevPage(c, page)][k]))
  {
    hide Check, Enc, PagesInv;
    var n, page := |log|, PageOf(c, Turns(|log|));
    var prev := pages[PrevPage(c, page)];
    var ram := Merge(pages[page], prev, LastSlot(n) + 1);
    assert PageShape(prev) && PageShape(pages[page]);
    forall j | 0 <= j < n && n - SLOTS <= j ensures Holds(c, ram, j % SLOTS, log[j]) {
      RecordInOneOfTwoPages(c, pages, log, j);
    }
    assert forall k :: n <= k < SLOTS ==> ram[k] == prev[k];
  }

  ghost function Reloaded(s: Archive, prev: nat, off: nat): Archive
    requires |s.flash.pages| > prev && s.page < |s.flash.pages| && -1 <= s.last < SLOTS
    requires PageShape(s.flash.pages[s.page]) && PageShape(s.flash.pages[prev])
  {
    Archive(s.flash, Merge(s.flash.pages[s.page], s.flash.pages[prev], s.last + 1), s.last, s.page, off)
  }

  // Boot comes back to the current page: cursor and page are restored; the readers see the log
  // exactly when the predecessor page shows no stale record.
  lemma ReadsAfterReturn(c: Config, s: Archive, log: Log, now: u32)
    requires Inv(c, s, log) && FindsPage(c, s)
    ensures Open(c, s.flash, now) == Reloaded(s, PrevPage(c, s.page), Found(c, s.flash.ptrs))
    ensures ReadInv(c, Open(c, s.flash, now), log) <==> RebootSafe(c, s, |log|)
  {
    hide PtrsInv, PagesInv, RamInv, Found, RecordsIn, Check;
    CurrentRecords(c, s, log);
    ReloadedRam(c, s.flash.pages, log);
    hide PageOf;
  }

  // A page of an earlier turn is full, and reading it alone is reading the log up to that turn.
  lemma EarlierPageReads(c: Config, pages: seq<seq<seq<byte>>>, log: Log, e: nat)
    requires 1 < c.pages == |pages| && forall q :: 0 <= q < c.pages ==> PageShape(pages[q])
    requires PagesInv(c, pages, log) && 0 < e < c.pages && e <= Turns(|log|)
    ensures var page, short := pages[PageOf(c, Turns(|log|) - e)], UpToTurn(log, Turns(|log|) - e);
      && RecordsIn(c, page) == SLOTS && |short| == SLOTS * (Turns(|log|) - e) + SLOTS
      && LastSlot(|short|) == SLOTS - 1 && RamInv(c, page, short)
  {
    hide Check, Enc, PagesInv, PageOf, RamInv;
    var t := Turns(|log|) - e;
    var page, short := pages[PageOf(c, t)], UpToTurn(log, t);
    assert |short| == SLOTS * t + SLOTS < |log|;
    forall k | 0 <= k < SLOTS ensures Check(c, page[k]) && Holds(c, page, k, short[SLOTS * t + k]) {
      TurnHolds(c, pages, log, e, k);
    }
    FullPageReads(c, page, short, t);
  }

  lemma FullPageReads(c: Config, page: seq<seq<byte>>, short: Log, t: nat)
    requires PageShape(page) && |short| == SLOTS * t + SLOTS
    requires forall k :: 0 <= k < SLOTS ==> Check(c, page[k]) && Holds(c, page, k, short[SLOTS * t + k])
    ensures RecordsIn(c, page) == SLOTS && LastSlot(|short|) == SLOTS - 1 && RamInv(c, page, short)
  {
    hide Check, Holds;
    RecordsInIs(c, page, SLOTS);
    forall j | 0 <= j < |short| && |short| - SLOTS <= j ensures Holds(c, page, j % SLOTS, short[j]) {
      var k := j - SLOTS * t;
      assert Check(c, page[k]) && j % SLOTS == k;
    }
  }

  lemma OpenWithoutPointer(c: Config, f: Flash, now: u32)
    requires Sound(c) && FlashShape(c, f) && Found(c, f.ptrs) == 0
    ensures Shape(c, PowerOn(f)) && Open(c, f, now) == Clear(c, PowerOn(f), now)
  {
    hide Found, Clear;
  }

  lemma OpenOnFullPage(c: Config, f: Flash, p: nat, now: u32)
    requires Sound(c) && FlashShape(c, f) && Found(c, f.ptrs) > 0 &&
      PtrPage(f.ptrs[Found(c, f.ptrs) - 1]) == p < c.pages
    requires RecordsIn(c, f.pages[p]) == SLOTS
    ensures Open(c, f, now) == Archive(f, f.pages[p], SLOTS - 1, p, Found(c, f.ptrs))
  {
    hide Found, PtrPage, RecordsIn;
    assert Merge(f.pages[p], f.pages[PrevPage(c, p)], SLOTS) == f.pages[p];
  }

  // Boot takes an earlier page, or clears: the readers see the log it falls back to.
  lemma ReadsAfterFallback(c: Config, s: Archive, log: Log, now: u32)
    requires Inv(c, s, log) && !FindsPage(c, s)
    ensures ReadInv(c, Open(c, s.flash, now), BootLog(c, s, log))
  {
    hide PtrsInv, PagesInv, RamInv, Check, PageOf, PtrPage, Open, Found, RecordsIn;
    FoundInPrefix(c, s, log);
    var best := Found(c, s.flash.ptrs);
    if best == 0 {
      OpenWithoutPointer(c, s.flash, now);
      ClearReadsNothing(c, PowerOn(s.flash), now);
    } else {
      FoundPage(c, s, log);
      var e := TurnsBack(c, s.off - best);
      EarlierPageReads(c, s.flash.pages, log, e);
      OpenOnFullPage(c, s.flash, PageOf(c, Turns(|log|) - e), now);
    }
  }

  // A reboot restores page, pointer offset and last slot exactly when the newest pointer's time
  // is positive and larger than all others, or there is nothing to restore.
  lemma RebootRestoresIff(c: Config, s: Archive, log: Log, now: u32)
    requires Inv(c, s, log)
    ensures var s' := Open(c, s.flash, now);
      (s'.page, s'.off, s'.last) == (s.page, s.off, s.last) <==> log == [] || NewestIsLatest(s.flash.ptrs, s.off)
  {
    hide PtrsInv, PagesInv, RamInv, Found, NewestIsLatest, RecordsIn;
    FoundInPrefix(c, s, log);
    var best := Found(c, s.flash.ptrs);
    if best == s.off {
      FoundPage(c, s, log);
      ReadsAfterReturn(c, s, log, now);
    } else if best == 0 {
      hide WriteEntry;
      assert log == [] ==> s.page == 0 && s.off == 1;
    }
  }

  // The condition under which a reboot keeps everything.
  ghost predicate RebootOk(c: Config, s: Archive, n: nat)
    requires Sound(c) && Shape(c, s) && 0 < s.off
  {
    if NewestIsLatest(s.flash.ptrs, s.off) then RebootSafe(c, s, n) else n == 0
  }

  lemma RebootKeepsInvIff(c: Config, s: Archive, log: Log, now: u32)
    requires Inv(c, s, log)
    ensures 0 < s.off && (Inv(c, Open(c, s.flash, now), log) <==> RebootOk(c, s, |log|))
  {
    hide PtrsInv, PagesInv, RamInv, Found, NewestIsLatest, RebootSafe, Open;
    FoundInPrefix(c, s, log);
    RebootRestoresIff(c, s, log, now);
    if NewestIsLatest(s.flash.ptrs, s.off) {
      FoundPage(c, s, log);
      ReadsAfterReturn(c, s, log, now);
    } else if |log| == 0 {
      assert log == [];
      FallbackClears(c, s, now);
    }
  }

  lemma FallbackClears(c: Config, s: Archive, now: u32)
    requires Inv(c, s, []) && !NewestIsLatest(s.flash.ptrs, s.off)
    ensures Inv(c, Open(c, s.flash, now), [])
  {
    hide PtrsInv, PagesInv, RamInv, Found, NewestIsLatest, Clearable, Open, Clear;
    FoundInPrefix(c, s, []);
    OpenWithoutPointer(c, s.flash, now);
    InvIsClearable(c, s, []);
    ClearEmptiesIff(c, PowerOn(s.flash), now);
  }

  // What the user sees -------------------------------------------------------------------------

  // The newest 256 records of a log, oldest first.
  function Newest(log: Log): Log {
    if |log| <= SLOTS then log else log[|log| - SLOTS..]
  }

  ghost predicate ReadsAlike(c: Config, s: Archive, s': Archive)
    requires |s.ram| == SLOTS == |s'.ram| && -1 <= s.last < SLOTS && -1 <= s'.last < SLOTS
  {
    forall offset: nat :: Get(c, s', offset) == Get(c, s, offset)
  }

  // Two archives read alike exactly when their newest 256 records agree.
  lemma ReadsAlikeIff(c: Config, s: Archive, s': Archive, log: Log, log': Log)
    requires ReadInv(c, s, log) && ReadInv(c, s', log')
    ensures ReadsAlike(c, s, s') <==> Newest(log) == Newest(log')
    ensures ReadsAlike(c, s, s') ==> RecordsCnt(c, s') == RecordsCnt(c, s)
  {
    hide ReadInv, Get, RecordsCnt, Newest, WindowAt;
    var w, w' := Newest(log), Newest(log');
    WindowReads(c, s, log);
    WindowReads(c, s', log');
    if ReadsAlike(c, s, s') {
      forall o | 0 <= o < SLOTS ensures WindowAt(w, o) == WindowAt(w', o) {
        assert Get(c, s', o) == Get(c, s, o) && o % SLOTS == o;
      }
      SameWindow(w, w');
    }
  }

  // The readers see the newest 256 records of the log.
  lemma WindowReads(c: Config, s: Archive, log: Log)
    requires ReadInv(c, s, log)
    ensures |s.ram| == SLOTS && -1 <= s.last < SLOTS && |Newest(log)| <= SLOTS
    ensures forall offset: nat :: Get(c, s, offset) == WindowAt(Newest(log), offset % SLOTS)
    ensures RecordsCnt(c, s) == |Newest(log)|
  {
    hide RamInv, Get, RecordsCnt;
    CountIsLogLength(c, s, log);
    forall offset: nat ensures Get(c, s, offset) == WindowAt(Newest(log), offset % SLOTS) {
      GetReadsLog(c, s, log, offset);
    }
  }

  function WindowAt(w: Log, o: nat): Option<Rec> {
    if o < |w| then Some(w[|w| - 1 - o]) else None
  }

  lemma SameWindow(w: Log, w': Log)
    requires |w| <= SLOTS && |w'| <= SLOTS && forall o :: 0 <= o < SLOTS ==> WindowAt(w, o) == WindowAt(w', o)
    ensures w == w'
  {
    assert |w| < SLOTS ==> WindowAt(w, |w|) == WindowAt(w', |w|);
    assert |w'| < SLOTS ==> WindowAt(w, |w'|) == WindowAt(w', |w'|);
    forall i | 0 <= i < |w| ensures w[i] == w'[i] {
      assert WindowAt(w, |w| - 1 - i) == WindowAt(w', |w| - 1 - i);
    }
  }

  // What a user reads survives a reboot exactly when there is nothing to read, or boot comes
  // back to the current page and the predecessor page shows no stale record, or the log boot
  // falls back to ends with the same 256 records.
  lemma RebootInvisibleIff(c: Config, s: Archive, log: Log, now: u32)
    requires Inv(c, s, log)
    ensures var s' := Open(c, s.flash, now);
      && |s'.ram| == SLOTS && -1 <= s'.last < SLOTS
      && (ReadsAlike(c, s, s') ==> RecordsCnt(c, s') == RecordsCnt(c, s))
      && (ReadsAlike(c, s, s') <==>
          log == [] || (if FindsPage(c, s) then RebootSafe(c, s, |log|) else Newest(BootLog(c, s, log)) == Newest(log)))
  {
    hide RamInv, PagesInv, PtrsInv, RebootSafe, Get, Found, Open, BootLog, RecordsCnt, ReadsAlike;
    var s' := Open(c, s.flash, now);
    if FindsPage(c, s) {
      ReadsAfterReturn(c, s, log, now);
      hide FindsPage;
      if RebootSafe(c, s, |log|) {
        ReadsAlikeIff(c, s, s', log, log);
      } else if log == [] {
        NothingToRead(c, s, s');
      } else {
        var offset := UnsafeRebootShows(c, s, log, now);
        assert !ReadsAlike(c, s, s') by { DifferentRead(c, s, s', offset); }
      }
    } else {
      ReadsAfterFallback(c, s, log, now);
      ReadsAlikeIff(c, s, s', log, BootLog(c, s, log));
      if log == [] {
        EmptyFallsBackToNothing(c, s);
      }
    }
  }

  lemma DifferentRead(c: Config, s: Archive, s': Archive, offset: nat)
    requires |s.ram| == SLOTS == |s'.ram| && -1 <= s.last < SLOTS && -1 <= s'.last < SLOTS
    requires Get(c, s', offset) != Get(c, s, offset)
    ensures !ReadsAlike(c, s, s')
  {
    hide Get;
  }

  lemma EmptyFallsBackToNothing(c: Config, s: Archive)
    requires Inv(c, s, [])
    ensures BootLog(c, s, []) == []
  {
    FoundInPrefix(c, s, []);
    hide Inv, Found;
  }

  lemma NothingToRead(c: Config, s: Archive, s': Archive)
    requires |s.ram| == SLOTS == |s'.ram| && s.last == -1 == s'.last
    ensures ReadsAlike(c, s, s') && RecordsCnt(c, s) == 0 == RecordsCnt(c, s')
  {
  }

  lemma BeforeReaches(last: nat, k: nat)
    requires last < SLOTS && k < SLOTS
    ensures Before(last, last + SLOTS - k) == k
  {
  }

  // A slot that checks beyond the log is a record no one added.
  lemma UnsafeRebootShows(c: Config, s: Archive, log: Log, now: u32) returns (offset: nat)
    requires Inv(c, s, log) && 0 < |log| && FindsPage(c, s) && !RebootSafe(c, s, |log|)
    ensures |Open(c, s.flash, now).ram| == SLOTS && Open(c, s.flash, now).last == s.last
    ensures Get(c, Open(c, s.flash, now), offset) != Get(c, s, offset)
  {
    hide PagesInv, PtrsInv, Check, Open, Before, FindsPage, Found;
    ReadsAfterReturn(c, s, log, now);
    var prev := s.flash.pages[PrevPage(c, s.page)];
    var k :| |log| <= k < SLOTS && Check(c, prev[k]);
    offset := s.last + SLOTS - k;
    BeforeReaches(s.last, k);
    assert !Check(c, s.ram[k]);
    assert Merge(s.flash.pages[s.page], prev, s.last + 1)[k] == prev[k];
  }
}
