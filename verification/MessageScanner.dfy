// The message scanner (user/message_scaner.c): it archives every change of a watched bit to a
// non-zero value, and counts and looks up the active messages.
module MessageScanner {
  import opened Bytes
  import opened ArchiveSpec
  import opened ArchiveRun
  import opened ArchiveReboot
  import MessageArchive
  import PlcImage

  const MAX_MSG: nat := 63

  // A watched bit: variable type 0 is a cluster bit, 2 a network bit; others keep their value.
  datatype Conf = Conf(varType: byte, msgType: byte, index: u16, value: byte, prev: byte, used: bool)

  datatype Bits = Bits(cluster: seq<byte>, net: seq<byte>)

  predicate BitsShape(b: Bits) {
    |b.cluster| == PlcImage.CLUST_BITS && |b.net| == PlcImage.NET_BITS
  }

  // The configuration's indices stay inside the tables.
  predicate ConfOk(f: Conf) {
    f.used ==> (f.varType == 0 ==> f.index < PlcImage.CLUST_BITS) && (f.varType == 2 ==> f.index < PlcImage.NET_BITS)
  }

  predicate Configured(confs: seq<Conf>) {
    |confs| == MAX_MSG && forall i :: 0 <= i < MAX_MSG ==> ConfOk(confs[i])
  }

  // The value a pass reads for a configured message.
  function Current(f: Conf, b: Bits): byte
    requires ConfOk(f) && BitsShape(b)
  {
    if f.used && f.varType == 0 then b.cluster[f.index]
    else if f.used && f.varType == 2 then b.net[f.index]
    else f.value
  }

  function Refreshed(f: Conf, b: Bits): (f': Conf)
    requires ConfOk(f) && BitsShape(b)
    ensures ConfOk(f')
  {
    f.(value := Current(f, b))
  }

  function Scanned(f: Conf, b: Bits): (f': Conf)
    requires ConfOk(f) && BitsShape(b)
    ensures ConfOk(f')
  {
    if f.used then f.(value := Current(f, b), prev := Current(f, b)) else f
  }

  predicate Rises(f: Conf, b: Bits)
    requires ConfOk(f) && BitsShape(b)
  {
    f.used && Current(f, b) != f.prev && Current(f, b) != 0
  }

  // The archive record of a change: version, variable type, index and value.
  function RecordOf(f: Conf, value: byte, time: u32): Rec {
    Rec(time, 0, f.msgType, [1, f.varType, f.index / 256, f.index % 256, value])
  }

  // The records of one scan over the first n messages, with the clock read at each.
  function ScanRecords(confs: seq<Conf>, b: Bits, clock: seq<u32>, n: nat): seq<Rec>
    requires Configured(confs) && BitsShape(b) && |clock| == MAX_MSG && n <= MAX_MSG
  {
    if n == 0 then []
    else
      var f := confs[n - 1];
      ScanRecords(confs, b, clock, n - 1) + (if Rises(f, b) then [RecordOf(f, Current(f, b), clock[n - 1])] else [])
  }

  function ScannedAll(confs: seq<Conf>, b: Bits): (r: seq<Conf>)
    requires Configured(confs) && BitsShape(b)
    ensures Configured(r)
  {
    seq(MAX_MSG, i requires 0 <= i < MAX_MSG => Scanned(confs[i], b))
  }

  // A count or lookup pass refreshes the first m messages.
  function RefreshedUpTo(confs: seq<Conf>, b: Bits, m: nat): (r: seq<Conf>)
    requires Configured(confs) && BitsShape(b) && m <= MAX_MSG
    ensures Configured(r)
  {
    seq(MAX_MSG, i requires 0 <= i < MAX_MSG => if i < m then Refreshed(confs[i], b) else confs[i])
  }

  // Is message i active under these bits?
  predicate Active(confs: seq<Conf>, b: Bits, i: nat)
    requires Configured(confs) && BitsShape(b) && i < MAX_MSG
  {
    confs[i].used && Current(confs[i], b) != 0
  }

  // What a pass takes a message's value to be: the cluster or network bit it watches; messages of
  // other variable types keep theirs.
  function ValueOf(f: Conf, b: Bits): byte
    requires ConfOk(f) && BitsShape(b) && f.used
  {
    if f.varType == 0 then b.cluster[f.index] else if f.varType == 2 then b.net[f.index] else f.value
  }

  predicate Shows(confs: seq<Conf>, b: Bits, i: nat)
    requires Configured(confs) && BitsShape(b)
  {
    i < MAX_MSG && confs[i].used && ValueOf(confs[i], b) != 0
  }

  // The active messages below n: every message in use with a non-zero value exactly once, in index
  // order.
  function ActiveList(confs: seq<Conf>, b: Bits, n: nat): (list: seq<nat>)
    requires Configured(confs) && BitsShape(b) && n <= MAX_MSG
    ensures forall k :: 0 <= k < |list| ==> list[k] < n && Shows(confs, b, list[k])
    ensures forall j, k :: 0 <= j < k < |list| ==> list[j] < list[k]
    ensures forall i :: 0 <= i < n && Shows(confs, b, i) ==> i in list
  {
    if n == 0 then [] else ActiveList(confs, b, n - 1) + (if Active(confs, b, n - 1) then [n - 1] else [])
  }

  // The archive after adding the records in order; `ptrClock` is what the clock says when each
  // add looks at it for a page pointer.
  ghost function AddedAll(c: Config, s: Archive, recs: seq<Rec>, ptrClock: seq<u32>): (s': Archive)
    requires Sound(c) && Shape(c, s) && |recs| <= |ptrClock|
    ensures Shape(c, s')
  {
    if recs == [] then s
    else Add(c, AddedAll(c, s, recs[..|recs| - 1], ptrClock), recs[|recs| - 1], ptrClock[|recs| - 1])
  }

  class Scanner {
    var confs: seq<Conf>
    const archive: MessageArchive.MessageArchive

    ghost predicate Valid()
      reads this, archive, archive.flash, archive.flash.dev, archive.archBuf
    {
      Configured(confs) && archive.Valid()
    }

    constructor (confs: seq<Conf>, archive: MessageArchive.MessageArchive)
      requires Configured(confs) && archive.Valid()
      ensures Valid() && this.confs == confs && this.archive == archive
    {
      this.confs, this.archive := confs, archive;
    }

    // scan_messages; `clock` is read for each record, `ptrClock` for each page pointer.
    method ScanMessages(b: Bits, clock: seq<u32>, ptrClock: seq<u32>)
      requires Valid() && BitsShape(b) && |clock| == MAX_MSG == |ptrClock|
      modifies this, archive, archive.flash.dev, archive.flash.buf, archive.archBuf
      ensures Valid() && confs == ScannedAll(old(confs), b)
      ensures var recs := ScanRecords(old(confs), b, clock, MAX_MSG);
        |recs| <= MAX_MSG && archive.View() == AddedAll(archive.cfg, old(archive.View()), recs, ptrClock)
    {
      hide Add, Sound, AddedAll, ScanRecords;
      ghost var recs: seq<Rec> := [];
      NothingScanned(archive.cfg, archive.View(), confs, b, clock, ptrClock);
      var ticks := 0;
      for i := 0 to MAX_MSG
        invariant Valid() && recs == ScanRecords(old(confs), b, clock, i) && ticks == |recs| <= i
        invariant archive.View() == AddedAll(archive.cfg, old(archive.View()), recs, ptrClock)
        invariant forall j :: 0 <= j < MAX_MSG ==>
          confs[j] == if j < i then Scanned(old(confs)[j], b) else old(confs)[j]
      {
        OneMoreScanned(archive.cfg, old(archive.View()), old(confs), b, clock, i, ptrClock);
        if confs[i].used {
          confs := confs[i := Refreshed(confs[i], b)];
          var f := confs[i];
          if f.value != f.prev && f.value != 0 {
            var rec := RecordOf(f, f.value, clock[i]);
            recs := recs + [rec];
            archive.AddRecord(rec, ptrClock[ticks]);
            ticks := ticks + 1;
          }
          confs := confs[i := f.(prev := f.value)];
        }
      }
    }

    // get_active_messages_cnt
    method ActiveCount(b: Bits) returns (res: nat)
      requires Configured(confs) && BitsShape(b)
      modifies this`confs
      ensures confs == RefreshedUpTo(old(confs), b, MAX_MSG)
      ensures res == |ActiveList(old(confs), b, MAX_MSG)|
    {
      res := 0;
      for i := 0 to MAX_MSG
        invariant |confs| == MAX_MSG && res == |ActiveList(old(confs), b, i)|
        invariant forall j :: 0 <= j < MAX_MSG ==>
          confs[j] == if j < i then Refreshed(old(confs)[j], b) else old(confs)[j]
      {
        if confs[i].used {
          confs := confs[i := Refreshed(confs[i], b)];
          if confs[i].value != 0 {
            res := res + 1;
          }
        }
      }
    }

    // get_message_by_number: the index of the num-th active message, if there is one.
    method ByNumber(num: byte, b: Bits) returns (found: Option<nat>)
      requires Configured(confs) && BitsShape(b)
      modifies this`confs
      ensures exists m: nat :: m <= MAX_MSG && confs == RefreshedUpTo(old(confs), b, m)
      ensures var list := ActiveList(old(confs), b, MAX_MSG);
        found == if num < |list| then Some(list[num]) else None
    {
      var pos := 0;
      for i := 0 to MAX_MSG
        invariant |confs| == MAX_MSG && pos == |ActiveList(old(confs), b, i)| && pos <= num
        invariant forall j :: 0 <= j < MAX_MSG ==>
          confs[j] == if j < i then Refreshed(old(confs)[j], b) else old(confs)[j]
      {
        if confs[i].used {
          confs := confs[i := Refreshed(confs[i], b)];
          if confs[i].value != 0 {
            if num == pos {
              ListGrows(old(confs), b, i + 1, MAX_MSG);
              assert ActiveList(old(confs), b, i + 1) == ActiveList(old(confs), b, i) + [i];
              assert confs == RefreshedUpTo(old(confs), b, i + 1);
              return Some(i);
            }
            pos := pos + 1;
          }
        }
      }
      assert confs == RefreshedUpTo(old(confs), b, MAX_MSG);
      return None;
    }
  }

  lemma NothingScanned(c: Config, s: Archive, confs: seq<Conf>, b: Bits, clock: seq<u32>, ptrClock: seq<u32>)
    requires Sound(c) && Shape(c, s) && Configured(confs) && BitsShape(b) && |clock| == MAX_MSG
    ensures ScanRecords(confs, b, clock, 0) == [] && AddedAll(c, s, [], ptrClock) == s
  {
  }

  lemma OneMoreScanned(c: Config, s: Archive, confs: seq<Conf>, b: Bits, clock: seq<u32>, i: nat, ptrClock: seq<u32>)
    requires Sound(c) && Shape(c, s) && Configured(confs) && BitsShape(b) && |clock| == MAX_MSG == |ptrClock| &&
      i < MAX_MSG
    requires |ScanRecords(confs, b, clock, i)| <= i
    ensures var f, recs := confs[i], ScanRecords(confs, b, clock, i);
      && ScanRecords(confs, b, clock, i + 1) ==
        recs + (if Rises(f, b) then [RecordOf(f, Current(f, b), clock[i])] else [])
      && forall r: Rec ::
           AddedAll(c, s, recs + [r], ptrClock) == Add(c, AddedAll(c, s, recs, ptrClock), r, ptrClock[|recs|])
  {
    hide Add, Shape, Sound;
    var recs := ScanRecords(confs, b, clock, i);
    forall r: Rec
      ensures AddedAll(c, s, recs + [r], ptrClock) == Add(c, AddedAll(c, s, recs, ptrClock), r, ptrClock[|recs|])
    {
      assert (recs + [r])[..|recs|] == recs;
    }
  }

  lemma {:induction false} ListGrows(confs: seq<Conf>, b: Bits, n: nat, m: nat)
    requires Configured(confs) && BitsShape(b) && n <= m <= MAX_MSG
    ensures ActiveList(confs, b, n) <= ActiveList(confs, b, m)
    decreases m - n
  {
    if n == m {
    } else {
      ListGrows(confs, b, n, m - 1);
    }
  }

  // The records of a scan ----------------------------------------------------------------

  // Message i, in use, has a non-zero value that differs from the one of the last scan.
  predicate Announces(confs: seq<Conf>, b: Bits, i: nat)
    requires Configured(confs) && BitsShape(b)
  {
    i < MAX_MSG && confs[i].used && ValueOf(confs[i], b) != confs[i].prev && ValueOf(confs[i], b) != 0
  }

  // The messages below n that do, in index order.
  ghost function Announcers(confs: seq<Conf>, b: Bits, n: nat): (list: seq<nat>)
    requires Configured(confs) && BitsShape(b) && n <= MAX_MSG
    ensures forall k :: 0 <= k < |list| ==> list[k] < n && Announces(confs, b, list[k])
    ensures forall j, k :: 0 <= j < k < |list| ==> list[j] < list[k]
    ensures forall i :: 0 <= i < n && Announces(confs, b, i) ==> i in list
  {
    if n == 0 then []
    else Announcers(confs, b, n - 1) + (if Announces(confs, b, n - 1) then [n - 1] else [])
  }

  // What the archive viewer takes from a record: time, kind of record, type of message, the
  // version, the variable type, the bit's number and its value.
  predicate Says(r: Rec, time: u32, msgType: byte, varType: byte, number: u16, value: byte) {
    && r.time == time && r.id == 0 && r.kind == msgType && |r.payload| == 5
    && r.payload[0] == 1 && r.payload[1] == varType && FromBe16(r.payload[2..4]) == number && r.payload[4] == value
  }

  // A scan archives one record per message that announces itself, in index order, and each says
  // when, which bit and what value.
  lemma {:induction false} ScanRecordsSay(confs: seq<Conf>, b: Bits, clock: seq<u32>, n: nat)
    requires Configured(confs) && BitsShape(b) && |clock| == MAX_MSG && n <= MAX_MSG
    ensures var recs, who := ScanRecords(confs, b, clock, n), Announcers(confs, b, n);
      && |recs| == |who|
      && forall k :: 0 <= k < |recs| ==>
        var f := confs[who[k]];
        Says(recs[k], clock[who[k]], f.msgType, f.varType, f.index, ValueOf(f, b))
  {
    if n == 0 {
    } else {
      ScanRecordsSay(confs, b, clock, n - 1);
      var f := confs[n - 1];
      if f.used {
        RecordSays(f, ValueOf(f, b), clock[n - 1]);
      }
      hide RecordOf, Says;
    }
  }

  lemma RecordSays(f: Conf, value: byte, time: u32)
    ensures Says(RecordOf(f, value, time), time, f.msgType, f.varType, f.index, value)
  {
    var p := RecordOf(f, value, time).payload;
    assert p[2..4] == [p[2], p[3]];
  }

  // Runs --------------------------------------------------------------------------------

  datatype Event = Scan(b: Bits, clock: seq<u32>) | Look(b: Bits, m: nat)

  predicate EventOk(e: Event) {
    match e
    case Scan(b, clock) => BitsShape(b) && |clock| == MAX_MSG
    case Look(b, m) => BitsShape(b) && m <= MAX_MSG
  }

  // The records archived by a run of scans, counts and lookups.
  function RunRecords(confs: seq<Conf>, events: seq<Event>): seq<Rec>
    requires Configured(confs) && forall k :: 0 <= k < |events| ==> EventOk(events[k])
    decreases events
  {
    if events == [] then []
    else
      assert EventOk(events[0]);
      match events[0]
      case Scan(b, clock) => ScanRecords(confs, b, clock, MAX_MSG) + RunRecords(ScannedAll(confs, b), events[1..])
      case Look(b, m) => RunRecords(RefreshedUpTo(confs, b, m), events[1..])
  }

  // The records the scans alone call for: per scan and message, a change since the last scan to a
  // non-zero value. Nothing but the scans' own bits enters.
  function Changes(confs: seq<Conf>, last: seq<byte>, b: Bits, clock: seq<u32>, n: nat): seq<Rec>
    requires Configured(confs) && |last| == MAX_MSG && BitsShape(b) && |clock| == MAX_MSG && n <= MAX_MSG
  {
    if n == 0 then []
    else
      var f := confs[n - 1];
      var now := Watched(f, b);
      Changes(confs, last, b, clock, n - 1) +
        (if now != last[n - 1] && now != 0 then [RecordOf(f, now, clock[n - 1])] else [])
  }

  // The watched bit itself: 0 for unused entries and for variable types the scanner does not read.
  function Watched(f: Conf, b: Bits): byte
    requires ConfOk(f) && BitsShape(b)
  {
    if f.used && f.varType == 0 then b.cluster[f.index] else if f.used && f.varType == 2 then b.net[f.index] else 0
  }

  function WatchedAll(confs: seq<Conf>, b: Bits): (r: seq<byte>)
    requires Configured(confs) && BitsShape(b)
    ensures |r| == MAX_MSG
  {
    seq(MAX_MSG, i requires 0 <= i < MAX_MSG => Watched(confs[i], b))
  }

  function ChangesOf(confs: seq<Conf>, last: seq<byte>, events: seq<Event>): seq<Rec>
    requires Configured(confs) && |last| == MAX_MSG && forall k :: 0 <= k < |events| ==> EventOk(events[k])
    decreases events
  {
    if events == [] then []
    else
      assert EventOk(events[0]);
      match events[0]
      case Scan(b, clock) => Changes(confs, last, b, clock, MAX_MSG) +
        ChangesOf(confs, WatchedAll(confs, b), events[1..])
      case Look(_, _) => ChangesOf(confs, last, events[1..])
  }

  // The same configuration, whatever the values; previous values as given.
  ghost predicate Tracks(confs: seq<Conf>, now: seq<Conf>, last: seq<byte>) {
    && Configured(confs) && Configured(now) && |last| == MAX_MSG
    && forall i :: 0 <= i < MAX_MSG ==>
      && now[i].(value := 0, prev := 0) == confs[i].(value := 0, prev := 0)
      && (confs[i].used ==> now[i].prev == last[i])
      && (!confs[i].used ==> last[i] == 0)
      && (confs[i].used && confs[i].varType != 0 && confs[i].varType != 2 ==> now[i].value == 0)
  }

  lemma {:induction false} ScanIsChanges(confs: seq<Conf>, now: seq<Conf>, last: seq<byte>, b: Bits, clock: seq<u32>,
                                         n: nat)
    requires Tracks(confs, now, last) && BitsShape(b) && |clock| == MAX_MSG && n <= MAX_MSG
    ensures ScanRecords(now, b, clock, n) == Changes(confs, last, b, clock, n)
  {
    if n == 0 {
    } else {
      ScanIsChanges(confs, now, last, b, clock, n - 1);
      assert now[n - 1].(value := 0, prev := 0) == confs[n - 1].(value := 0, prev := 0);
    }
  }

  // The archived records of any run are exactly the scan-to-scan changes to a non-zero value, in
  // order, whatever counts and lookups happen in between.
  lemma {:induction false} ArchivedAreChanges(confs: seq<Conf>, now: seq<Conf>, last: seq<byte>, events: seq<Event>)
    requires Tracks(confs, now, last) && forall k :: 0 <= k < |events| ==> EventOk(events[k])
    ensures RunRecords(now, events) == ChangesOf(confs, last, events)
    decreases events
  {
    if events == [] {
    } else {
      assert EventOk(events[0]);
      match events[0] {
        case Scan(b, clock) =>
          ScanIsChanges(confs, now, last, b, clock, MAX_MSG);
          ScanTracks(confs, now, last, b);
          hide Tracks, ScanRecords, Changes;
          ArchivedAreChanges(confs, ScannedAll(now, b), WatchedAll(confs, b), events[1..]);
        case Look(b, m) =>
          LookTracks(confs, now, last, b, m);
          hide Tracks;
          ArchivedAreChanges(confs, RefreshedUpTo(now, b, m), last, events[1..]);
      }
    }
  }

  lemma ScanTracks(confs: seq<Conf>, now: seq<Conf>, last: seq<byte>, b: Bits)
    requires Tracks(confs, now, last) && BitsShape(b)
    ensures Tracks(confs, ScannedAll(now, b), WatchedAll(confs, b))
  {
  }

  lemma LookTracks(confs: seq<Conf>, now: seq<Conf>, last: seq<byte>, b: Bits, m: nat)
    requires Tracks(confs, now, last) && BitsShape(b) && m <= MAX_MSG
    ensures Tracks(confs, RefreshedUpTo(now, b, m), last)
  {
  }

  // As read from the configuration: all values and previous values zero.
  lemma RunFromConfiguration(confs: seq<Conf>, events: seq<Event>)
    requires Configured(confs) && forall i :: 0 <= i < MAX_MSG ==> confs[i].value == 0 == confs[i].prev
    requires forall k :: 0 <= k < |events| ==> EventOk(events[k])
    ensures RunRecords(confs, events) == ChangesOf(confs, Fill(MAX_MSG, 0), events)
  {
    ArchivedAreChanges(confs, confs, Fill(MAX_MSG, 0), events);
  }

  // Into the archive -------------------------------------------------------------------------

  function CutAll(recs: seq<Rec>): Log {
    if recs == [] then [] else CutAll(recs[..|recs| - 1]) + [Cut(recs[|recs| - 1])]
  }

  // A scan's records extend the archive's log in order, whatever the clock says.
  lemma {:induction false} RecordsExtendLog(c: Config, s: Archive, log: Log, recs: seq<Rec>, ptrClock: seq<u32>)
    requires Sound(c) && Shape(c, s) && Inv(c, s, log) && |recs| <= |ptrClock|
    ensures Inv(c, AddedAll(c, s, recs, ptrClock), log + CutAll(recs))
  {
    hide Inv, Add;
    if recs == [] {
      assert log + CutAll(recs) == log;
    } else {
      var k := |recs| - 1;
      RecordsExtendLog(c, s, log, recs[..k], ptrClock);
      AddKeepsInv(c, AddedAll(c, s, recs[..k], ptrClock), log + CutAll(recs[..k]), recs[k], ptrClock[k]);
      assert log + CutAll(recs) == log + CutAll(recs[..k]) + [Cut(recs[k])];
    }
  }

  lemma {:induction false} ScanRecordsFew(confs: seq<Conf>, b: Bits, clock: seq<u32>, n: nat)
    requires Configured(confs) && BitsShape(b) && |clock| == MAX_MSG && n <= MAX_MSG
    ensures |ScanRecords(confs, b, clock, n)| <= n
  {
    if n == 0 {
    } else {
      ScanRecordsFew(confs, b, clock, n - 1);
    }
  }

  // A whole scan, seen in the archive: the log grows by exactly the changes of this scan.
  lemma ScanExtendsArchive(c: Config, s: Archive, log: Log, confs: seq<Conf>, now: seq<Conf>, last: seq<byte>,
                           b: Bits, clock: seq<u32>, ptrClock: seq<u32>)
    requires Inv(c, s, log) && |ptrClock| == MAX_MSG
    requires Tracks(confs, now, last) && BitsShape(b) && |clock| == MAX_MSG
    ensures var recs := ScanRecords(now, b, clock, MAX_MSG);
      && Sound(c) && Shape(c, s) && |recs| <= MAX_MSG
      && Inv(c, AddedAll(c, s, recs, ptrClock), log + CutAll(Changes(confs, last, b, clock, MAX_MSG)))
  {
    hide PagesInv, PtrsInv, RamInv, ScanRecords, Changes;
    ScanRecordsFew(now, b, clock, MAX_MSG);
    ScanIsChanges(confs, now, last, b, clock, MAX_MSG);
    hide Tracks;
    RecordsExtendLog(c, s, log, ScanRecords(now, b, clock, MAX_MSG), ptrClock);
  }
}
