// The message archive as a state machine over values (user/message_archive.c): what is in
// flash, what is in the RAM page, and what each entry point does to both.
module ArchiveSpec {
  import opened Bytes
  import RingIndex

  const SLOTS: nat := 256  // records per page
  const ENTRIES: nat := 512  // page pointers per pointer sector
  const PAYLOAD: nat := 6  // payload bytes per record
  const CLEARED_PAGES: nat := 30  // pages erased by a clear

  const BLANK_SLOT: seq<byte> := Fill(16, 255)
  const ZERO_SLOT: seq<byte> := Fill(16, 0)
  const BLANK_ENTRY: seq<byte> := Fill(8, 255)

  // The page count (128 on the SPI flash, 32 on the internal flash) and the checksum.
  datatype Config = Config(pages: nat, crc: seq<byte> -> u16)

  // What the archive needs of them: blank pointer entries and zeroed slots do not check.
  ghost predicate Sound(c: Config) {
    && CLEARED_PAGES <= c.pages <= 256
    && c.crc(Fill(6, 255)) != 65535
    && c.crc(Fill(10, 0)) != 0
  }

  datatype Rec = Rec(time: u32, id: u16, kind: byte, payload: seq<byte>)

  function Cut(r: Rec): (r': Rec)
    ensures |r'.payload| <= PAYLOAD
  {
    if |r.payload| > PAYLOAD then r.(payload := r.payload[..PAYLOAD]) else r
  }

  // Record slots -----------------------------------------------------------------------

  function Head(r: Rec): (s: seq<byte>)
    requires |r.payload| <= PAYLOAD
    ensures |s| == 8
  {
    Be32(r.time) + Be16(r.id) + [r.kind, |r.payload|]
  }

  function Enc(c: Config, r: Rec): (s: seq<byte>)
    requires |r.payload| <= PAYLOAD
    ensures |s| == 16
  {
    Head(r) + Be16(c.crc(Head(r) + [0, 0] + r.payload)) + r.payload + Fill(PAYLOAD - |r.payload|, 0)
  }

  // check_record, with lengths past the slot taken as invalid.
  predicate Check(c: Config, s: seq<byte>) {
    |s| == 16 && s[7] <= PAYLOAD && s[8..10] == Be16(c.crc(s[..8] + [0, 0] + s[10..10 + s[7]]))
  }

  function Dec(s: seq<byte>): Rec
    requires |s| == 16 && s[7] <= PAYLOAD
  {
    Rec(FromBe32(s[..4]), FromBe16(s[4..6]), s[6], s[10..10 + s[7]])
  }

  // Page pointers ----------------------------------------------------------------------

  function EncPtr(c: Config, time: u32, page: u16): (e: seq<byte>)
    ensures |e| == 8
  {
    Be32(time) + Be16(page) + Be16(c.crc(Be32(time) + Be16(page)))
  }

  predicate CheckPtr(c: Config, e: seq<byte>) {
    |e| == 8 && e[6..8] == Be16(c.crc(e[..6]))
  }

  function PtrTime(e: seq<byte>): u32
    requires |e| == 8
  {
    FromBe32(e[..4])
  }

  function PtrPage(e: seq<byte>): u16
    requires |e| == 8
  {
    FromBe16(e[4..6])
  }

  // State ------------------------------------------------------------------------------

  // `erased` lists the sectors erased so far: 0 is the pointer sector, 1 + p is page p.
  datatype Flash = Flash(ptrs: seq<seq<byte>>, pages: seq<seq<seq<byte>>>, erased: seq<nat>)

  // `last` is the slot of the newest record, -1 for none; `off` counts the pointers in use.
  datatype Archive = Archive(flash: Flash, ram: seq<seq<byte>>, last: int, page: nat, off: nat)

  ghost predicate PageShape(p: seq<seq<byte>>) {
    |p| == SLOTS && forall k :: 0 <= k < SLOTS ==> |p[k]| == 16
  }

  ghost predicate FlashShape(c: Config, f: Flash) {
    && |f.ptrs| == ENTRIES
    && (forall k :: 0 <= k < ENTRIES ==> |f.ptrs[k]| == 8)
    && |f.pages| == c.pages
    && (forall q :: 0 <= q < c.pages ==> PageShape(f.pages[q]))
  }

  ghost predicate Shape(c: Config, s: Archive) {
    && FlashShape(c, s.flash)
    && PageShape(s.ram)
    && -1 <= s.last < SLOTS
    && s.page < c.pages
    && s.off <= ENTRIES
  }

  // A checked write of one cell group k of a sector: in place when the group is blank,
  // otherwise everything else in the sector is lost.
  function GroupWrite(g: seq<seq<byte>>, k: nat, x: seq<byte>, blank: seq<byte>): (r: seq<seq<byte>>)
    requires k < |g|
    ensures |r| == |g|
  {
    if g[k] == blank then g[k := x]
    else seq(|g|, i => if i == k then x else blank)
  }

  function WriteEntry(f: Flash, k: nat, e: seq<byte>): Flash
    requires k < |f.ptrs|
  {
    Flash(GroupWrite(f.ptrs, k, e, BLANK_ENTRY), f.pages,
          if f.ptrs[k] == BLANK_ENTRY then f.erased else f.erased + [0])
  }

  function WriteSlot(f: Flash, p: nat, k: nat, x: seq<byte>): Flash
    requires p < |f.pages| && k < |f.pages[p]|
  {
    Flash(f.ptrs, f.pages[p := GroupWrite(f.pages[p], k, x, BLANK_SLOT)],
          if f.pages[p][k] == BLANK_SLOT then f.erased else f.erased + [1 + p])
  }

  // Operations -------------------------------------------------------------------------

  // create_new_page_ptr
  function NewPtr(c: Config, s: Archive, page: u16, now: u32): Archive
    requires |s.flash.ptrs| == ENTRIES && s.off <= ENTRIES
  {
    var k := if s.off >= ENTRIES then 0 else s.off;
    s.(flash := WriteEntry(s.flash, k, EncPtr(c, now, page)), off := k + 1)
  }

  predicate PageIsFull(s: Archive) {
    s.last == SLOTS - 1
  }

  function NextPage(c: Config, p: nat): nat {
    RingIndex.Next(c.pages, p)
  }

  // The page change at the start of add_record_to_archive, if one is due.
  function Turned(c: Config, s: Archive, now: u32): Archive
    requires |s.flash.ptrs| == ENTRIES && s.off <= ENTRIES && s.page < c.pages <= 256
  {
    if PageIsFull(s) then NewPtr(c, s.(page := NextPage(c, s.page), last := -1), NextPage(c, s.page), now) else s
  }

  // add_record_to_archive
  ghost function Add(c: Config, s: Archive, r: Rec, now: u32): (s': Archive)
    requires Sound(c) && Shape(c, s)
    ensures Shape(c, s')
  {
    var t := Turned(c, s, now);
    var x := Enc(c, Cut(r));
    t.(flash := WriteSlot(t.flash, t.page, t.last + 1, x), ram := t.ram[t.last + 1 := x], last := t.last + 1)
  }

  function PageOfSlots(slot: seq<byte>): (p: seq<seq<byte>>)
    requires |slot| == 16
    ensures |p| == SLOTS && forall k :: 0 <= k < SLOTS ==> p[k] == slot && |p[k]| == 16
  {
    seq(SLOTS, _ => slot)
  }

  // Sectors of the first n pages.
  function FirstSectors(n: nat): (r: seq<nat>)
    ensures |r| == n && forall q :: 0 <= q < n ==> r[q] == 1 + q
  {
    seq(n, q => 1 + q)
  }

  // What static storage holds after a reset.
  function PowerOn(f: Flash): Archive {
    Archive(f, PageOfSlots(ZERO_SLOT), -1, 0, 0)
  }

  // The loop of clear_archive over clear_archive_page: only the first 30 pages are erased.
  function FirstPagesErased(f: Flash): Flash {
    Flash(f.ptrs,
          seq(|f.pages|, q requires 0 <= q < |f.pages| =>
            if q < CLEARED_PAGES then PageOfSlots(BLANK_SLOT) else f.pages[q]),
          f.erased + FirstSectors(CLEARED_PAGES))
  }

  // clear_archive
  ghost function Clear(c: Config, s: Archive, now: u32): (r: Archive)
    requires Sound(c) && Shape(c, s)
    ensures Shape(c, r)
  {
    var t := NewPtr(c, PowerOn(s.flash), 0, now);
    assert PageShape(PageOfSlots(BLANK_SLOT)) && PageShape(PageOfSlots(ZERO_SLOT));
    t.(flash := FirstPagesErased(t.flash))
  }

  // search_last_record: the newest accepted pointer of the prefix that checks, from entry k on.
  // `best` is the number of entries up to and including it, 0 for none.
  function Search(c: Config, ptrs: seq<seq<byte>>, k: nat, best: nat, time: u32): (r: nat)
    requires |ptrs| == ENTRIES && k < ENTRIES && best <= k
    ensures r <= ENTRIES
    ensures r != best ==> k < r && CheckPtr(c, ptrs[r - 1]) && PtrPage(ptrs[r - 1]) < c.pages
    decreases ENTRIES - k
  {
    if !CheckPtr(c, ptrs[k]) then best
    else
      var accept := PtrTime(ptrs[k]) > time && PtrPage(ptrs[k]) < c.pages;
      var best' := if accept then k + 1 else best;
      var time' := if accept then PtrTime(ptrs[k]) else time;
      if k + 1 >= ENTRIES then best' else Search(c, ptrs, k + 1, best', time')
  }

  // What search_last_record finds.
  function Found(c: Config, ptrs: seq<seq<byte>>): (r: nat)
    requires |ptrs| == ENTRIES
    ensures r <= ENTRIES
    ensures r > 0 ==> CheckPtr(c, ptrs[r - 1]) && PtrPage(ptrs[r - 1]) < c.pages
  {
    Search(c, ptrs, 0, 0, 0)
  }

  // The number of leading slots that check, from slot k on.
  function Leading(c: Config, page: seq<seq<byte>>, k: nat): (r: nat)
    requires |page| == SLOTS && k < SLOTS
    ensures k <= r <= SLOTS
    decreases SLOTS - k
  {
    if !Check(c, page[k]) then k
    else if k + 1 >= SLOTS then k + 1
    else Leading(c, page, k + 1)
  }

  function RecordsIn(c: Config, page: seq<seq<byte>>): (r: nat)
    requires |page| == SLOTS
    ensures r <= SLOTS
  {
    Leading(c, page, 0)
  }

  function PrevPage(c: Config, p: nat): nat
    requires 0 < c.pages
  {
    if p > 0 then p - 1 else c.pages - 1
  }

  // The current page's records, then whatever the page before holds in the remaining slots.
  function Merge(page: seq<seq<byte>>, prev: seq<seq<byte>>, cnt: nat): seq<seq<byte>>
    requires |page| == SLOTS == |prev| && cnt <= SLOTS
  {
    page[..cnt] + prev[cnt..]
  }

  ghost function Reload(c: Config, f: Flash, page: nat, off: nat): Archive
    requires FlashShape(c, f) && page < c.pages
  {
    var cnt := RecordsIn(c, f.pages[page]);
    Archive(f, Merge(f.pages[page], f.pages[PrevPage(c, page)], cnt), cnt - 1, page, off)
  }

  // open_archive after a reset: everything in RAM is rebuilt from flash.
  ghost function Open(c: Config, f: Flash, now: u32): Archive
    requires Sound(c) && FlashShape(c, f)
  {
    var found := Found(c, f.ptrs);
    if found == 0 then Clear(c, PowerOn(f), now)
    else Reload(c, f, PtrPage(f.ptrs[found - 1]), found)
  }

  // get_archive_records_cnt: walk back from slot k until a slot does not check.
  function CountFrom(c: Config, ram: seq<seq<byte>>, k: nat, found: nat): nat
    requires |ram| == SLOTS && k < SLOTS && found < SLOTS
    decreases SLOTS - found
  {
    if !Check(c, ram[k]) then found
    else if found + 1 >= SLOTS then found + 1
    else CountFrom(c, ram, Before(k, 1), found + 1)
  }

  function RecordsCnt(c: Config, s: Archive): nat
    requires |s.ram| == SLOTS && -1 <= s.last < SLOTS
  {
    if s.last < 0 then 0 else CountFrom(c, s.ram, s.last, 0)
  }

  // The slot `offset` steps behind slot k on the ring.
  function Before(k: nat, offset: nat): (r: nat)
    requires k < SLOTS
    ensures r < SLOTS
  {
    (k + SLOTS - offset % SLOTS) % SLOTS
  }

  // get_record_with_offset_from_last
  function Get(c: Config, s: Archive, offset: nat): Option<Rec>
    requires |s.ram| == SLOTS && -1 <= s.last < SLOTS
  {
    if s.last < 0 then None
    else
      var x := s.ram[Before(s.last, offset)];
      if Check(c, x) then Some(Dec(x)) else None
  }
}
