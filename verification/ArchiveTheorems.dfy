// Whole runs of the archive: refinement of the log, wear, and the reboot that fails.
module ArchiveTheorems {
  import opened Bytes
  import opened ArchiveSpec
  import opened ArchiveCodec
  import opened ArchiveRun
  import opened ArchiveReboot

  datatype Op = AddOp(r: Rec, now: u32) | ClearOp(now: u32) | RebootOp(now: u32)

  ghost function Step(c: Config, s: Archive, op: Op): Archive
    requires Sound(c) && Shape(c, s)
  {
    match op
    case AddOp(r, now) => Add(c, s, r, now)
    case ClearOp(now) => Clear(c, s, now)
    case RebootOp(now) => Open(c, s.flash, now)
  }

  function LogStep(log: Log, op: Op): Log {
    match op
    case AddOp(r, _) => log + [Cut(r)]
    case ClearOp(_) => []
    case RebootOp(_) => log
  }

  function LogAfter(log: Log, ops: seq<Op>): Log
    decreases ops
  {
    if ops == [] then log else LogAfter(LogStep(log, ops[0]), ops[1..])
  }

  // Adds and clears are free; a reboot must meet the condition under which it keeps everything.
  ghost predicate OpOk(c: Config, s: Archive, n: nat, op: Op)
    requires Sound(c) && Shape(c, s)
  {
    op.RebootOp? ==> 0 < s.off && RebootOk(c, s, n)
  }

  // s' is reached from s by the operations, each of them allowed where it happens.
  ghost predicate Runs(c: Config, s: Archive, log: Log, ops: seq<Op>, s': Archive)
    requires Sound(c)
    decreases ops
  {
    if ops == [] then s' == s
    else Shape(c, s) && OpOk(c, s, |log|, ops[0]) && Runs(c, Step(c, s, ops[0]), LogStep(log, ops[0]), ops[1..], s')
  }

  lemma StepKeepsInv(c: Config, s: Archive, log: Log, op: Op)
    requires Inv(c, s, log) && OpOk(c, s, |log|, op)
    ensures Inv(c, Step(c, s, op), LogStep(log, op))
  {
    hide PtrsInv, PagesInv, RamInv, RebootOk, Clearable, Add, Clear, Open;
    match op
    case AddOp(r, now) => AddKeepsInv(c, s, log, r, now);
    case ClearOp(now) =>
      InvIsClearable(c, s, log);
      ClearEmptiesIff(c, s, now);
    case RebootOp(now) => RebootKeepsInvIff(c, s, log, now);
  }

  // The layout invariant holds after every run of adds, clears and allowed reboots.
  lemma {:induction false} RunKeepsInv(c: Config, s: Archive, log: Log, ops: seq<Op>, s': Archive)
    requires Inv(c, s, log) && Runs(c, s, log, ops, s')
    ensures Inv(c, s', LogAfter(log, ops))
    decreases ops
  {
    hide Inv, OpOk, Step;
    InvGivesShape(c, s, log);
    if ops == [] {
      assert s' == s;
    } else {
      StepKeepsInv(c, s, log, ops[0]);
      RunKeepsInv(c, Step(c, s, ops[0]), LogStep(log, ops[0]), ops[1..], s');
    }
  }

  lemma InvGivesShape(c: Config, s: Archive, log: Log)
    requires Inv(c, s, log)
    ensures Sound(c) && Shape(c, s) && ReadInv(c, s, log)
  {
  }

  // First boot: flash in which no pointer names a page at a positive time opens as the empty archive.
  lemma FirstBoot(c: Config, f: Flash, now: u32)
    requires Sound(c) && FlashShape(c, f) && Found(c, f.ptrs) == 0 && Clearable(c, f)
    ensures Inv(c, Open(c, f, now), [])
  {
    hide Found, Clear, Open, Inv, Clearable;
    OpenWithoutPointer(c, f, now);
    ClearEmptiesIff(c, PowerOn(f), now);
  }

  // The refinement theorem: from first boot, through any run of adds and clears at any times and
  // allowed reboots, the archive reads as the last 256 records added since the last clear.
  lemma ArchiveRefinesLog(c: Config, f: Flash, now: u32, ops: seq<Op>, s: Archive, offset: nat)
    requires Sound(c) && FlashShape(c, f) && Found(c, f.ptrs) == 0 && Clearable(c, f)
    requires Runs(c, Open(c, f, now), [], ops, s)
    ensures var log := LogAfter([], ops);
      && Inv(c, s, log)
      && RecordsCnt(c, s) == (if |log| < 256 then |log| else 256)
      && Get(c, s, offset) == if offset % 256 < |log| then Some(log[|log| - 1 - offset % 256]) else None
  {
    hide Inv, Get, RecordsCnt, Open, RamInv;
    FirstBoot(c, f, now);
    RunKeepsInv(c, Open(c, f, now), [], ops, s);
    var log := LogAfter([], ops);
    InvGivesShape(c, s, log);
    CountIsLogLength(c, s, log);
    GetReadsLog(c, s, log, offset);
  }

  // Reading without rebooting ----------------------------------------------------------------

  ghost predicate NoReboots(ops: seq<Op>) {
    forall i :: 0 <= i < |ops| ==> !ops[i].RebootOp?
  }

  lemma {:induction false} RunKeepsReads(c: Config, s: Archive, log: Log, ops: seq<Op>, s': Archive)
    requires Sound(c) && Shape(c, s) && ReadInv(c, s, log) && NoReboots(ops) && Runs(c, s, log, ops, s')
    ensures ReadInv(c, s', LogAfter(log, ops))
    decreases ops
  {
    hide ReadInv, Shape, Add, Clear;
    if ops == [] {
      assert s' == s;
    } else {
      match ops[0] {
        case AddOp(r, now) => AddKeepsReads(c, s, log, r, now);
        case ClearOp(now) => ClearReadsNothing(c, s, now);
      }
      RunKeepsReads(c, Step(c, s, ops[0]), LogStep(log, ops[0]), ops[1..], s');
    }
  }

  // Whatever flash holds, after a clear and any adds and clears at any times, count and reads
  // are those of the log.
  lemma ClearedArchiveReadsLog(c: Config, s0: Archive, now: u32, ops: seq<Op>, s: Archive, offset: nat)
    requires Sound(c) && Shape(c, s0) && NoReboots(ops) && Runs(c, Clear(c, s0, now), [], ops, s)
    ensures var log := LogAfter([], ops);
      && |s.ram| == SLOTS && -1 <= s.last < SLOTS
      && RecordsCnt(c, s) == (if |log| < 256 then |log| else 256)
      && Get(c, s, offset) == if offset % 256 < |log| then Some(log[|log| - 1 - offset % 256]) else None
  {
    hide Get, RecordsCnt, Clear, RamInv;
    ClearReadsNothing(c, s0, now);
    RunKeepsReads(c, Clear(c, s0, now), [], ops, s);
    CountIsLogLength(c, s, LogAfter([], ops));
    GetReadsLog(c, s, LogAfter([], ops), offset);
  }

  // Wear ------------------------------------------------------------------------------------

  // How often the trace erases the pointer sector.
  ghost function Zeros(trace: seq<nat>): nat {
    multiset(trace)[0]
  }

  // Pages 1..t whose first slot was in use.
  ghost function UsedPages(pages: seq<seq<seq<byte>>>, t: nat): (r: nat)
    requires t < |pages| && forall q :: 0 <= q < |pages| ==> PageShape(pages[q])
    ensures r <= t
  {
    if t == 0 then 0 else UsedPages(pages, t - 1) + if pages[t][0] == BLANK_SLOT then 0 else 1
  }

  // Data-sector erases after t page changes, over what the pages held at the start.
  ghost function DataErases(c: Config, pages: seq<seq<seq<byte>>>, t: nat): (r: nat)
    requires 0 < c.pages == |pages| && forall q :: 0 <= q < |pages| ==> PageShape(pages[q])
    ensures r <= t
  {
    if t < c.pages then UsedPages(pages, t) else UsedPages(pages, c.pages - 1) + t - (c.pages - 1)
  }

  // Erases of the pointer sector and of data sectors, and what is left of the start pages.
  ghost predicate WearInv(c: Config, s0: Archive, s: Archive, trace: seq<nat>, n: nat)
    requires Sound(c) && Shape(c, s0) && Shape(c, s)
  {
    && s.flash.erased == s0.flash.erased + trace
    && Zeros(trace) == Turns(n) / ENTRIES
    && |trace| - Zeros(trace) == DataErases(c, s0.flash.pages, Turns(n))
    && forall q :: Turns(n) < q < c.pages ==> s.flash.pages[q] == s0.flash.pages[q]
  }

  // The sectors one add erases: none while the page lasts; on a page change the pointer sector
  // if it is full, and the new page if it has been used.
  ghost function AddErases(c: Config, s: Archive): seq<nat>
    requires Sound(c) && Shape(c, s)
  {
    if !PageIsFull(s) then []
    else
      var page := NextPage(c, s.page);
      (if s.off >= ENTRIES then [0] else []) + (if s.flash.pages[page][0] == BLANK_SLOT then [] else [1 + page])
  }

  lemma AddErasesOnly(c: Config, s: Archive, log: Log, r: Rec, now: u32)
    requires Inv(c, s, log)
    ensures Add(c, s, r, now).flash.erased == s.flash.erased + AddErases(c, s)
  {
    hide PagesInv, PtrsInv, RamInv, Enc;
    if PageIsFull(s) {
      PtrsKept(c, s.flash.ptrs, Turns(|log|), now);
    } else {
      PagesKeptInPage(c, s.flash.pages, log, Cut(r));
    }
  }

  // The page a change moves to is untouched on the first round and used from then on.
  lemma NextPageUse(c: Config, s: Archive, log: Log)
    requires Inv(c, s, log) && PageIsFull(s)
    ensures var t := Turns(|log|) + 1;
      && NextPage(c, s.page) == PageOf(c, t)
      && (t < c.pages ==> NextPage(c, s.page) == t)
      && (t >= c.pages ==> s.flash.pages[NextPage(c, s.page)][0] != BLANK_SLOT)
  {
    hide PtrsInv, RamInv;
    var t := Turns(|log|) + 1;
    PageAhead(c, 0, if t < c.pages then t else 0);
    if t >= c.pages {
      StartedPageIsUsed(c, s.flash.pages, log, NextPage(c, s.page));
    }
  }

  lemma TraceGrows(trace: seq<nat>, ptr: bool, data: bool, page: nat)
    ensures var more := (if ptr then [0] else []) + (if data then [1 + page] else []);
      && Zeros(trace + more) == Zeros(trace) + (if ptr then 1 else 0)
      && |trace + more| - Zeros(trace + more) == |trace| - Zeros(trace) + (if data then 1 else 0)
  {
    var more := (if ptr then [0] else []) + (if data then [1 + page] else []);
    assert multiset(trace + more) == multiset(trace) + multiset(more);
  }

  // A page change: the wear formulas move on by one turn.
  lemma WearOnTurn(c: Config, s0: Archive, s: Archive, trace: seq<nat>, log: Log)
    requires Inv(c, s, log) && PageIsFull(s)
    requires Shape(c, s0) && WearInv(c, s0, s, trace, |log|)
    ensures var t := Turns(|log|) + 1;
      && Zeros(trace + AddErases(c, s)) == t / ENTRIES
      && |trace + AddErases(c, s)| - Zeros(trace + AddErases(c, s)) == DataErases(c, s0.flash.pages, t)
  {
    hide PagesInv, PtrsInv, RamInv, Zeros, PageOf, DataErases;
    NextPageUse(c, s, log);
    var page := NextPage(c, s.page);
    WearCounts(c, s0.flash.pages, trace, s.off, s.flash.pages[page][0] != BLANK_SLOT, page, Turns(|log|) + 1);
  }

  // The formulas over one turn: what the pointer offset and the new page's use add.
  lemma WearCounts(c: Config, pages: seq<seq<seq<byte>>>, trace: seq<nat>, off: nat, used: bool, page: nat, t: nat)
    requires 0 < t && 0 < c.pages == |pages| && forall q :: 0 <= q < |pages| ==> PageShape(pages[q])
    requires off == PtrsUsed(t - 1)
    requires Zeros(trace) == (t - 1) / ENTRIES && |trace| - Zeros(trace) == DataErases(c, pages, t - 1)
    requires t < c.pages ==> PageShape(pages[t]) && (used <==> pages[t][0] != BLANK_SLOT)
    requires t >= c.pages ==> used
    ensures var more := (if off >= ENTRIES then [0] else []) + (if used then [1 + page] else []);
      && Zeros(trace + more) == t / ENTRIES
      && |trace + more| - Zeros(trace + more) == DataErases(c, pages, t)
  {
    hide Zeros, DataErases;
    TraceGrows(trace, off >= ENTRIES, used, page);
    PointerTurn(t);
    DataErasesGrows(c, pages, t, used);
  }

  lemma PointerTurn(t: nat)
    requires 0 < t
    ensures if (t - 1) % ENTRIES + 1 >= ENTRIES
      then t / ENTRIES == (t - 1) / ENTRIES + 1 else t / ENTRIES == (t - 1) / ENTRIES
  {
  }

  lemma DataErasesGrows(c: Config, pages: seq<seq<seq<byte>>>, t: nat, used: bool)
    requires 0 < t && 0 < c.pages == |pages| && forall q :: 0 <= q < |pages| ==> PageShape(pages[q])
    requires t < c.pages ==> PageShape(pages[t]) && (used <==> pages[t][0] != BLANK_SLOT)
    requires t >= c.pages ==> used
    ensures DataErases(c, pages, t) == DataErases(c, pages, t - 1) + if used then 1 else 0
  {
  }

  // Pages not reached yet keep what they held at the start.
  lemma UntouchedPages(c: Config, s0: Archive, s: Archive, trace: seq<nat>, log: Log, r: Rec, now: u32, q: nat)
    requires Inv(c, s, log)
    requires Shape(c, s0) && WearInv(c, s0, s, trace, |log|)
    requires Turns(|log| + 1) < q < c.pages
    ensures Add(c, s, r, now).flash.pages[q] == s0.flash.pages[q]
  {
    hide PagesInv, PtrsInv, RamInv, Zeros, DataErases, PageShape, Add, PageOf;
    if PageIsFull(s) {
      NextPageUse(c, s, log);
    } else {
      PageAhead(c, 0, Turns(|log| + 1));
    }
    TurnsNow(c, s, log);
    OtherPagesKept(c, s, r, now, q);
  }

  // An add touches no page but the one it writes to.
  lemma OtherPagesKept(c: Config, s: Archive, r: Rec, now: u32, q: nat)
    requires Sound(c) && Shape(c, s) && q < c.pages && q != (if PageIsFull(s) then NextPage(c, s.page) else s.page)
    ensures Add(c, s, r, now).flash.pages[q] == s.flash.pages[q]
  {
    hide Enc, EncPtr, GroupWrite;
  }

  lemma WearStep(c: Config, s0: Archive, s: Archive, trace: seq<nat>, log: Log, r: Rec, now: u32)
    requires Inv(c, s, log)
    requires Shape(c, s0) && WearInv(c, s0, s, trace, |log|)
    requires Shape(c, Add(c, s, r, now))
    ensures WearInv(c, s0, Add(c, s, r, now), trace + AddErases(c, s), |log| + 1)
  {
    hide Inv, PageShape, Add, Zeros, DataErases, AddErases, RamInv;
    InvGivesShape(c, s, log);
    AddErasesOnly(c, s, log, r, now);
    var s' := Add(c, s, r, now);
    forall q | Turns(|log| + 1) < q < c.pages ensures s'.flash.pages[q] == s0.flash.pages[q] {
      UntouchedPages(c, s0, s, trace, log, r, now, q);
    }
    TurnsNow(c, s, log);
    if PageIsFull(s) {
      WearOnTurn(c, s0, s, trace, log);
    } else {
      assert trace + [] == trace && AddErases(c, s) == [] by { NoErases(c, s); }
    }
    assert s'.flash.erased == s0.flash.erased + (trace + AddErases(c, s));
  }

  lemma NoErases(c: Config, s: Archive)
    requires Sound(c) && Shape(c, s) && !PageIsFull(s)
    ensures AddErases(c, s) == []
  {
    hide Shape;
  }

  ghost predicate OnlyAdds(ops: seq<Op>) {
    forall i :: 0 <= i < |ops| ==> ops[i].AddOp?
  }

  lemma {:induction false} WearRun(c: Config, s0: Archive, s: Archive, trace: seq<nat>, log: Log, ops: seq<Op>,
                                   s': Archive)
      returns (trace': seq<nat>)
    requires Inv(c, s, log) && Shape(c, s0) && WearInv(c, s0, s, trace, |log|)
    requires OnlyAdds(ops) && Runs(c, s, log, ops, s')
    ensures Shape(c, s') && WearInv(c, s0, s', trace', |log| + |ops|)
    decreases ops
  {
    hide WearInv, AddErases, Add, PagesInv, PtrsInv, RamInv;
    trace' := trace;
    if ops == [] {
    } else {
      var op := ops[0];
      assert op.AddOp?;
      AddKeepsInv(c, s, log, op.r, op.now);
      WearStep(c, s0, s, trace, log, op.r, op.now);
      trace' := WearRun(c, s0, Step(c, s, op), trace + AddErases(c, s), LogStep(log, op), ops[1..], s');
    }
  }

  // Wear over n adds at any times after a clear: the pointer sector is erased once per 512 page changes, and
  // data sectors once per page change onto a used page, so at most once per page change.
  lemma WearBound(c: Config, s: Archive, ops: seq<Op>, s': Archive) returns (trace: seq<nat>)
    requires Inv(c, s, []) && OnlyAdds(ops) && Runs(c, s, [], ops, s')
    ensures s'.flash.erased == s.flash.erased + trace
    ensures Zeros(trace) == Turns(|ops|) / ENTRIES
    ensures |trace| - Zeros(trace) == DataErases(c, s.flash.pages, Turns(|ops|)) <= Turns(|ops|)
  {
    trace := WearRun(c, s, s, [], [], ops, s');
  }

  // Reboots that fail --------------------------------------------------------------------------

  // With the last page full of old records, one record after a clear reads as 256 after a reboot.
  lemma StaleRecordsReappear(c: Config, s: Archive, log: Log, r: Rec, t1: u32, t2: u32, t3: u32)
    requires Inv(c, s, log) && |log| == SLOTS * c.pages && CLEARED_PAGES < c.pages && 0 < t1
    ensures var one := Add(c, Clear(c, s, t1), r, t2);
      && Inv(c, one, [Cut(r)]) && RecordsCnt(c, one) == 1
      && |Open(c, one.flash, t3).ram| == SLOTS && RecordsCnt(c, Open(c, one.flash, t3)) == SLOTS
  {
    hide Found, RecordsCnt, Clear, Add, Open, Inv, RamInv, Clearable;
    InvGivesShape(c, s, log);
    var empty := Clear(c, s, t1);
    InvIsClearable(c, s, log);
    ClearEmptiesIff(c, s, t1);
    EmptyCursor(c, empty);
    AddKeepsInv(c, empty, [], r, t2);
    var one := Add(c, empty, r, t2);
    assert [] + [Cut(r)] == [Cut(r)];
    InvGivesShape(c, one, [Cut(r)]);
    CountIsLogLength(c, one, [Cut(r)]);
    ClearedPointer(c, s, log, r, t1, t2);
    OldPageSurvivesClear(c, s, log, r, t1, t2);
    StaleRam(c, one, Cut(r), t3);
  }

  lemma EmptyCursor(c: Config, s: Archive)
    requires Inv(c, s, [])
    ensures !PageIsFull(s) && s.page == 0
  {
    hide PtrsInv, PagesInv, RamInv;
  }

  lemma ClearedPointer(c: Config, s: Archive, log: Log, r: Rec, t1: u32, t2: u32)
    requires Inv(c, s, log) && 0 < t1 && Shape(c, Clear(c, s, t1))
    requires !PageIsFull(Clear(c, s, t1)) && Clear(c, s, t1).page == 0
    ensures var one := Add(c, Clear(c, s, t1), r, t2);
      one.off == 1 && |one.flash.ptrs[0]| == 8 && PtrTime(one.flash.ptrs[0]) == t1
  {
    hide PtrsInv, PagesInv, RamInv, Enc, EncPtr, PtrTime;
    PointerRoundTrip(c, t1, 0);
  }

  // With the clock set back, the record that opens a new page is lost: boot falls back to the
  // full page before it, although no stale record is in the way.
  lemma ClockSetBackLosesRecord(c: Config, s: Archive, log: Log, r: Rec, now: u32, t: u32)
    requires Inv(c, s, log) && PageIsFull(s) && s.off < ENTRIES && NewestIsLatest(s.flash.ptrs, s.off)
    requires now <= PtrTime(s.flash.ptrs[s.off - 1])
    ensures var one := Add(c, s, r, now);
      && Inv(c, one, log + [Cut(r)]) && RebootSafe(c, one, |log| + 1)
      && Get(c, one, 0) == Some(Cut(r))
      && ReadInv(c, Open(c, one.flash, t), log)
      && Get(c, Open(c, one.flash, t), 0) == Some(log[|log| - 1])
  {
    hide Inv, ReadInv, Add, Open, Get, RebootSafe, BootLog, UpToTurn, NewestIsBehind, FindsPage;
    InvGivesShape(c, s, log);
    var one, all := Add(c, s, r, now), log + [Cut(r)];
    AddKeepsInv(c, s, log, r, now);
    InvGivesShape(c, one, all);
    FullTurn(c, s, log);
    RebootSafeOnceFilled(c, one, all);
    TurnIsBehind(c, s, log, r, now);
    FallsBackOneTurn(c, one, all);
    TurnsNow(c, s, log);
    assert UpToTurn(all, Turns(|log|)) == log by { UpToFullTurn(log, Cut(r)); }
    ReadsAfterFallback(c, one, all, t);
    GetReadsLog(c, one, all, 0);
    GetReadsLog(c, Open(c, one.flash, t), log, 0);
  }

  lemma FullTurn(c: Config, s: Archive, log: Log)
    requires ReadInv(c, s, log) && PageIsFull(s)
    ensures |log| == SLOTS * Turns(|log|) + SLOTS
  {
    hide RamInv;
  }

  lemma UpToFullTurn(log: Log, r: Rec)
    requires |log| == SLOTS * Turns(|log|) + SLOTS
    ensures UpToTurn(log + [r], Turns(|log|)) == log
  {
  }

  // The newest pointer is not later than the one before it, which is the latest of the others.
  ghost predicate NewestIsBehind(ptrs: seq<seq<byte>>, off: nat)
    requires 1 < off <= |ptrs| && forall i :: 0 <= i < |ptrs| ==> |ptrs[i]| == 8
  {
    NewestIsLatest(ptrs, off - 1) && PtrTime(ptrs[off - 1]) <= PtrTime(ptrs[off - 2])
  }

  lemma TurnIsBehind(c: Config, s: Archive, log: Log, r: Rec, now: u32)
    requires Inv(c, s, log) && PageIsFull(s) && s.off < ENTRIES && NewestIsLatest(s.flash.ptrs, s.off)
    requires now <= PtrTime(s.flash.ptrs[s.off - 1])
    ensures var one := Add(c, s, r, now);
      0 < s.off && one.off == s.off + 1 && NewestIsBehind(one.flash.ptrs, one.off)
  {
    hide PagesInv, RamInv, PtrTime, Add, PtrsInv, PageOf;
    AddedOnTurn(c, s, log, r, now);
  }

  lemma FallsBackOneTurn(c: Config, s: Archive, log: Log)
    requires Inv(c, s, log) && 1 < s.off && NewestIsBehind(s.flash.ptrs, s.off)
    ensures !FindsPage(c, s) && 0 < Turns(|log|) && BootLog(c, s, log) == UpToTurn(log, Turns(|log|) - 1)
  {
    hide PtrsInv, PagesInv, RamInv, PtrTime, Found, FindsPage;
    LayoutIsPrefix(c, s, log);
    FoundIsLatest(c, s.flash.ptrs, s.off);
    assert Found(c, s.flash.ptrs) == s.off - 1;
    FoundPage(c, s, log);
    assert TurnsBack(c, 1) == 1;
  }

  ghost predicate AllCheck(c: Config, page: seq<seq<byte>>) {
    |page| == SLOTS && forall k :: 0 <= k < SLOTS ==> Check(c, page[k])
  }

  lemma OldPageSurvivesClear(c: Config, s: Archive, log: Log, r: Rec, t1: u32, t2: u32)
    requires Inv(c, s, log) && |log| == SLOTS * c.pages && CLEARED_PAGES < c.pages
    requires Shape(c, Clear(c, s, t1)) && !PageIsFull(Clear(c, s, t1)) && Clear(c, s, t1).page == 0
    ensures var page := Add(c, Clear(c, s, t1), r, t2).flash.pages[c.pages - 1];
      AllCheck(c, page)
  {
    hide Check, Enc, PtrsInv, RamInv;
    PageAhead(c, 0, c.pages - 1);
    var last := s.flash.pages[c.pages - 1];
    forall k | 0 <= k < SLOTS ensures Check(c, last[k]) {
      CurrentPageHolds(c, s, log, k);
    }
  }

  lemma StaleRam(c: Config, one: Archive, r: Rec, now: u32)
    requires Inv(c, one, [r]) && PtrTime(one.flash.ptrs[0]) > 0
    requires AllCheck(c, one.flash.pages[c.pages - 1])
    ensures |Open(c, one.flash, now).ram| == SLOTS && RecordsCnt(c, Open(c, one.flash, now)) == SLOTS
  {
    hide Check, Enc, PtrsInv, RamInv, PagesInv, Open, CountFrom, Found, PtrTime;
    FoundInPrefix(c, one, [r]);
    FoundPage(c, one, [r]);
    ReadsAfterReturn(c, one, [r], now);
    CurrentPageHolds(c, one, [r], 0);
    hide Holds;
    var page, prev := one.flash.pages[one.page], one.flash.pages[PrevPage(c, one.page)];
    assert one.last == 0 && PageShape(page) && AllCheck(c, prev);
    hide Inv;
    MergeChecks(c, page, prev);
    FullWalk(c, Merge(page, prev, 1));
  }

  lemma FullWalk(c: Config, ram: seq<seq<byte>>)
    requires AllCheck(c, ram)
    ensures CountFrom(c, ram, 0, 0) == SLOTS
  {
    hide Check, CountFrom;
    assert Before(0, 0) == 0;
    WalkCounts(c, ram, 0, SLOTS, 0);
  }

  lemma MergeChecks(c: Config, page: seq<seq<byte>>, prev: seq<seq<byte>>)
    requires |page| == SLOTS && Check(c, page[0]) && AllCheck(c, prev)
    ensures AllCheck(c, Merge(page, prev, 1))
  {
    hide Check;
    forall k | 0 <= k < SLOTS ensures Check(c, Merge(page, prev, 1)[k]) {
      assert Merge(page, prev, 1)[k] == if k == 0 then page[k] else prev[k];
    }
  }
}
