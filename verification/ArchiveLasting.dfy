// What lasts when stale records show after a reboot: the flash layout and every read inside the
// log; pages stay prefixes of records; and what a second reboot does after the first fell back.
module ArchiveLasting {
  import opened Bytes
  import opened ArchiveSpec
  import opened ArchiveCodec
  import opened ArchiveRun
  import opened ArchiveReboot
  import opened ArchiveTheorems

  // The whole layout, except that RAM may show more records than the log has.
  ghost predicate Kept(c: Config, s: Archive, log: Log) {
    && Sound(c) && Shape(c, s) && AllCut(log)
    && s.last == LastSlot(|log|) && RamHolds(c, s.ram, log)
    && s.page == PageOf(c, Turns(|log|))
    && s.off == PtrsUsed(Turns(|log|))
    && PtrsInv(c, s.flash.ptrs, Turns(|log|))
    && PagesInv(c, s.flash.pages, log)
  }

  // The same archive with the RAM slots beyond the log emptied.
  ghost function Emptied(s: Archive, n: nat): (s0: Archive)
    requires PageShape(s.ram)
    ensures PageShape(s0.ram) && s0 == s.(ram := s0.ram)
  {
    var ram := seq(SLOTS, k requires 0 <= k < SLOTS => if k < n then s.ram[k] else ZERO_SLOT);
    assert |ZERO_SLOT| == 16 && forall k :: 0 <= k < SLOTS ==> ram[k] == (if k < n then s.ram[k] else ZERO_SLOT);
    s.(ram := ram)
  }

  lemma EmptiedIsInv(c: Config, s: Archive, log: Log)
    requires Kept(c, s, log)
    ensures Inv(c, Emptied(s, |log|), log)
  {
    hide PtrsInv, PagesInv, Check, Enc;
    UnusedSlotsFail(c);
    var ram, ram0 := s.ram, Emptied(s, |log|).ram;
    forall j | 0 <= j < |log| && |log| - SLOTS <= j ensures Holds(c, ram0, j % SLOTS, log[j]) {
      assert Holds(c, ram, j % SLOTS, log[j]) && j % SLOTS < |log|;
    }
  }

  lemma InvIsKept(c: Config, s: Archive, log: Log)
    requires Inv(c, s, log)
    ensures Kept(c, s, log)
  {
    hide PtrsInv, PagesInv, RamHolds;
  }

  // Inside the log reads are right, and with 256 records everything is.
  lemma KeptReads(c: Config, s: Archive, log: Log, offset: nat)
    requires Kept(c, s, log)
    ensures offset % SLOTS < |log| ==> Get(c, s, offset) == Some(log[|log| - 1 - offset % SLOTS])
    ensures |log| >= SLOTS ==> Inv(c, s, log)
  {
    hide PtrsInv, PagesInv, RamHolds, Get;
    if offset % SLOTS < |log| {
      GetReadsHeld(c, s, log, offset);
    }
  }

  // An add looks at RAM nowhere but in the slot it writes.
  lemma AddIgnoresRam(c: Config, s: Archive, s0: Archive, r: Rec, now: u32)
    requires Sound(c) && Shape(c, s) && Shape(c, s0) && s0 == s.(ram := s0.ram)
    ensures Add(c, s, r, now) == Add(c, s0, r, now).(ram := Add(c, s, r, now).ram)
    ensures Add(c, s, r, now).ram == s.ram[if PageIsFull(s) then 0 else s.last + 1 := Enc(c, Cut(r))]
  {
    hide Enc, EncPtr, WriteSlot, WriteEntry;
  }

  lemma AddKeepsKept(c: Config, s: Archive, log: Log, r: Rec, now: u32)
    requires Kept(c, s, log)
    ensures Kept(c, Add(c, s, r, now), log + [Cut(r)])
    ensures Inv(c, Add(c, Emptied(s, |log|), r, now), log + [Cut(r)])
  {
    hide PtrsInv, PagesInv, RamHolds, Add, Enc, Emptied, PageOf;
    var s0 := Emptied(s, |log|);
    EmptiedIsInv(c, s, log);
    AddKeepsInv(c, s0, log, r, now);
    AddIgnoresRam(c, s, s0, r, now);
    RamHoldsMore(c, s.ram, log, Cut(r));
    NextSlot(|log|);
    hide LastSlot;
  }

  lemma ClearGivesKept(c: Config, s: Archive, log: Log, now: u32)
    requires Kept(c, s, log)
    ensures Inv(c, Clear(c, s, now), [])
  {
    hide PtrsInv, PagesInv, RamHolds, Clear, Clearable;
    EmptiedIsInv(c, s, log);
    InvIsClearable(c, Emptied(s, |log|), log);
    ClearEmptiesIff(c, s, now);
  }

  // A reboot that finds the newest pointer keeps layout and reads inside the log, whatever the
  // predecessor page shows; so does any reboot of an empty archive.
  lemma RebootKeepsKept(c: Config, s: Archive, log: Log, now: u32)
    requires Kept(c, s, log) && (NewestIsLatest(s.flash.ptrs, s.off) || log == [])
    ensures Kept(c, Open(c, s.flash, now), log)
    ensures NewestIsLatest(s.flash.ptrs, s.off) ==> Open(c, s.flash, now).flash == s.flash
    ensures !NewestIsLatest(s.flash.ptrs, s.off) ==>
      Shape(c, PowerOn(s.flash)) && Open(c, s.flash, now) == Clear(c, PowerOn(s.flash), now)
  {
    hide PtrsInv, PagesInv, RamHolds, RamInv, Open, Found, NewestIsLatest, Emptied, FindsPage;
    var s0 := Emptied(s, |log|);
    EmptiedIsInv(c, s, log);
    FoundInPrefix(c, s0, log);
    if NewestIsLatest(s.flash.ptrs, s.off) {
      FoundPage(c, s0, log);
      assert TurnsBack(c, 0) == 0;
      ReadsAfterReturn(c, s0, log, now);
      ReloadedRam(c, s.flash.pages, log);
      hide PageOf;
    } else {
      FallbackClears(c, s0, now);
      OpenWithoutPointer(c, s.flash, now);
      InvIsKept(c, Open(c, s.flash, now), []);
    }
  }

  // Pages ------------------------------------------------------------------------------------

  // Valid records, then blank slots.
  ghost predicate RecordsThenBlank(c: Config, p: seq<seq<byte>>, cnt: nat) {
    cnt <= |p| && forall k :: 0 <= k < |p| ==> if k < cnt then Check(c, p[k]) else p[k] == BLANK_SLOT
  }

  ghost predicate IsPrefix(c: Config, p: seq<seq<byte>>) {
    exists cnt: nat :: RecordsThenBlank(c, p, cnt)
  }

  ghost predicate AllPrefixes(c: Config, pages: seq<seq<seq<byte>>>) {
    forall q :: 0 <= q < |pages| ==> IsPrefix(c, pages[q])
  }

  lemma CurrentIsPrefix(c: Config, s: Archive, log: Log)
    requires Inv(c, s, log)
    ensures IsPrefix(c, s.flash.pages[s.page])
  {
    hide Check, PtrsInv, RamInv;
    var page := s.flash.pages[s.page];
    assert BlankAfter(page, s.last);
    forall k | 0 <= k < s.last + 1 ensures Check(c, page[k]) {
      CurrentPageHolds(c, s, log, k);
    }
    assert RecordsThenBlank(c, page, s.last + 1);
  }

  lemma AddKeepsPrefixes(c: Config, s: Archive, log: Log, r: Rec, now: u32)
    requires Kept(c, s, log) && AllPrefixes(c, s.flash.pages)
    ensures AllPrefixes(c, Add(c, s, r, now).flash.pages)
  {
    hide Check, PtrsInv, PagesInv, RamHolds, Add, IsPrefix, Emptied, PageOf, Inv;
    var s0, s' := Emptied(s, |log|), Add(c, s, r, now);
    AddKeepsKept(c, s, log, r, now);
    AddIgnoresRam(c, s, s0, r, now);
    CurrentIsPrefix(c, Add(c, s0, r, now), log + [Cut(r)]);
    AddGoesTo(c, s, r, now);
    forall q | 0 <= q < c.pages ensures IsPrefix(c, s'.flash.pages[q]) {
      if q != s'.page {
        OtherPagesKept(c, s, r, now, q);
      }
    }
  }

  lemma AddGoesTo(c: Config, s: Archive, r: Rec, now: u32)
    requires Sound(c) && Shape(c, s)
    ensures Add(c, s, r, now).page == if PageIsFull(s) then NextPage(c, s.page) else s.page
  {
    hide Enc, EncPtr, WriteSlot, WriteEntry;
  }

  lemma ClearKeepsPrefixes(c: Config, s: Archive, now: u32)
    requires Sound(c) && Shape(c, s) && AllPrefixes(c, s.flash.pages)
    ensures AllPrefixes(c, Clear(c, s, now).flash.pages)
  {
    hide Check, IsPrefix, EncPtr;
    var s' := Clear(c, s, now);
    BlankIsPrefix(c);
    forall q | 0 <= q < c.pages ensures IsPrefix(c, s'.flash.pages[q]) {
      if q < CLEARED_PAGES {
        assert s'.flash.pages[q] == PageOfSlots(BLANK_SLOT);
      } else {
        assert s'.flash.pages[q] == s.flash.pages[q];
      }
    }
  }

  lemma BlankIsPrefix(c: Config)
    ensures IsPrefix(c, PageOfSlots(BLANK_SLOT))
  {
    assert RecordsThenBlank(c, PageOfSlots(BLANK_SLOT), 0);
  }

  // Runs -------------------------------------------------------------------------------------

  // A reboot must find the newest pointer, or find nothing to lose.
  ghost predicate LayoutOk(s: Archive, n: nat, op: Op)
    requires forall k :: 0 <= k < |s.flash.ptrs| ==> |s.flash.ptrs[k]| == 8
  {
    op.RebootOp? ==> 0 < s.off <= |s.flash.ptrs| && (n == 0 || NewestIsLatest(s.flash.ptrs, s.off))
  }

  ghost predicate LayoutRuns(c: Config, s: Archive, log: Log, ops: seq<Op>, s': Archive)
    requires Sound(c)
    decreases ops
  {
    if ops == [] then s' == s
    else
      && Shape(c, s) && LayoutOk(s, |log|, ops[0])
      && LayoutRuns(c, Step(c, s, ops[0]), LogStep(log, ops[0]), ops[1..], s')
  }

  lemma StepKeepsLayout(c: Config, s: Archive, log: Log, op: Op)
    requires Kept(c, s, log) && LayoutOk(s, |log|, op)
    ensures Kept(c, Step(c, s, op), LogStep(log, op))
    ensures AllPrefixes(c, s.flash.pages) ==> AllPrefixes(c, Step(c, s, op).flash.pages)
  {
    hide PtrsInv, PagesInv, RamHolds, Add, Clear, Open, NewestIsLatest, AllPrefixes, PageOf;
    match op
    case AddOp(r, now) =>
      AddKeepsKept(c, s, log, r, now);
      if AllPrefixes(c, s.flash.pages) {
        AddKeepsPrefixes(c, s, log, r, now);
      }
    case ClearOp(now) =>
      ClearGivesKept(c, s, log, now);
      InvIsKept(c, Clear(c, s, now), []);
      if AllPrefixes(c, s.flash.pages) {
        ClearKeepsPrefixes(c, s, now);
      }
    case RebootOp(now) =>
      RebootKeepsKept(c, s, log, now);
      if AllPrefixes(c, s.flash.pages) && !NewestIsLatest(s.flash.ptrs, s.off) {
        ClearKeepsPrefixes(c, PowerOn(s.flash), now);
      }
  }

  lemma KeptGivesShape(c: Config, s: Archive, log: Log)
    requires Kept(c, s, log)
    ensures Sound(c) && Shape(c, s)
  {
  }

  // Through every run of adds and clears at any times, and of reboots that find the newest page
  // pointer, stale records in the way or not: the layout stays, every read inside the log is
  // right, and if every page was a prefix of records followed by blanks, every page stays one.
  lemma {:induction false} RunKeepsLayout(c: Config, s: Archive, log: Log, ops: seq<Op>, s': Archive, offset: nat)
    requires Kept(c, s, log) && LayoutRuns(c, s, log, ops, s')
    ensures var log' := LogAfter(log, ops);
      && Kept(c, s', log')
      && (offset % SLOTS < |log'| ==> Get(c, s', offset) == Some(log'[|log'| - 1 - offset % SLOTS]))
    ensures AllPrefixes(c, s.flash.pages) ==> AllPrefixes(c, s'.flash.pages)
    decreases ops
  {
    hide Kept, LayoutOk, Step, Get, AllPrefixes;
    KeptGivesShape(c, s, log);
    if ops == [] {
      assert s' == s;
      KeptReads(c, s, log, offset);
      KeptGivesCursor(c, s, log);
    } else {
      StepKeepsLayout(c, s, log, ops[0]);
      RunKeepsLayout(c, Step(c, s, ops[0]), LogStep(log, ops[0]), ops[1..], s', offset);
    }
  }

  lemma KeptGivesCursor(c: Config, s: Archive, log: Log)
    requires Kept(c, s, log)
    ensures |s.ram| == SLOTS && -1 <= s.last < SLOTS
  {
  }

  // The second reboot ------------------------------------------------------------------------

  // A pointer written over a used entry leaves the first entry blank unless it is the first.
  lemma OverwrittenSector(c: Config, ptrs: seq<seq<byte>>, k: nat, e: seq<byte>)
    requires Sound(c) && |ptrs| == ENTRIES && 0 < k < ENTRIES && ptrs[k] != BLANK_ENTRY
    ensures Found(c, GroupWrite(ptrs, k, e, BLANK_ENTRY)) == 0
  {
    hide CheckPtr;
    BlankEntryFails(c);
  }

  // After a reboot has fallen back to an earlier page, the next record turns the page and writes
  // its pointer over a used entry; the reboot after that finds no pointer and clears the archive.
  lemma SecondRebootClears(c: Config, s: Archive, log: Log, t1: u32, r: Rec, t2: u32, t3: u32)
    requires Inv(c, s, log) && !FindsPage(c, s) && Found(c, s.flash.ptrs) > 0
    ensures var fallen := Open(c, s.flash, t1);
      && Shape(c, fallen) && ReadInv(c, fallen, BootLog(c, s, log)) && |BootLog(c, s, log)| >= SLOTS
      && var one := Add(c, fallen, r, t2);
         && ReadInv(c, one, BootLog(c, s, log) + [Cut(r)])
         && Found(c, one.flash.ptrs) == 0
         && ReadInv(c, Open(c, one.flash, t3), [])
  {
    hide PtrsInv, PagesInv, RamInv, Found, Open, Add, PageOf, FindsPage, BootLog;
    FallenState(c, s, log, t1);
    var fallen := Open(c, s.flash, t1);
    ReadsAfterFallback(c, s, log, t1);
    AddKeepsReads(c, fallen, BootLog(c, s, log), r, t2);
    var one := Add(c, fallen, r, t2);
    TurnWritesPointer(c, fallen, r, t2);
    OverwrittenSector(c, s.flash.ptrs, fallen.off, EncPtr(c, t2, NextPage(c, fallen.page)));
    OpenWithoutPointer(c, one.flash, t3);
    ClearReadsNothing(c, PowerOn(one.flash), t3);
  }

  // The state after the fallback: a full page, and a pointer offset inside the used entries.
  lemma FallenState(c: Config, s: Archive, log: Log, now: u32)
    requires Inv(c, s, log) && !FindsPage(c, s) && Found(c, s.flash.ptrs) > 0
    ensures var fallen := Open(c, s.flash, now);
      && Shape(c, fallen) && PageIsFull(fallen) && fallen.flash == s.flash
      && 0 < fallen.off < ENTRIES && s.flash.ptrs[fallen.off] != BLANK_ENTRY
      && |BootLog(c, s, log)| >= SLOTS
  {
    hide PtrsInv, PagesInv, RamInv, Open, PageOf, RecordsIn, Found;
    FoundPage(c, s, log);
    FoundInPrefix(c, s, log);
    var best := Found(c, s.flash.ptrs);
    var e := TurnsBack(c, s.off - best);
    EarlierPageReads(c, s.flash.pages, log, e);
    OpenOnFullPage(c, s.flash, PageOf(c, Turns(|log|) - e), now);
    LayoutIsPrefix(c, s, log);
    assert best < s.off by { assert TurnsBack(c, 0) == 0; }
    BlankEntryNamesNoPage();
    assert PtrPage(s.flash.ptrs[best]) < c.pages;
  }

  lemma TurnWritesPointer(c: Config, s: Archive, r: Rec, now: u32)
    requires Sound(c) && Shape(c, s) && PageIsFull(s) && s.off < ENTRIES
    ensures Add(c, s, r, now).flash.ptrs ==
      GroupWrite(s.flash.ptrs, s.off, EncPtr(c, now, NextPage(c, s.page)), BLANK_ENTRY)
  {
    hide Enc, EncPtr, GroupWrite;
  }
}
