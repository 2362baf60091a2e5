// The list of up to three trends, its backup registers and the samples routed to it from CAN
// (user/trend_data.c).
module TrendList {
  import opened Bytes
  import opened TrendRing

  const TREND_MAX: nat := 3
  const INPUT_CNT: nat := 14
  const MARKER: u16 := 0x1234

  // Three packed words per trend, the trend count, and the marker that the rest is meaningful.
  datatype Backup = Backup(marker: u16, cnt: u16, source: seq<u16>, mins: seq<u16>, maxs: seq<u16>)

  function Word(hi: byte, lo: byte): u16 {
    var h: int := hi;
    256 * h + lo
  }

  function Hi(w: u16): byte { w / 256 }

  function Lo(w: u16): byte { w % 256 }

  ghost predicate BackupShape(b: Backup) {
    |b.source| == TREND_MAX == |b.mins| && |b.maxs| == TREND_MAX
  }

  function DefaultBackup(): Backup {
    Backup(MARKER, 0, [0x0101, 0x0101, 0x0101], [0, 0, 0], [0xFFFF, 0xFFFF, 0xFFFF])
  }

  function LimitsIn(b: Backup, i: nat): Limits
    requires i < |b.source| && i < |b.mins| && i < |b.maxs|
  {
    Limits(Hi(b.mins[i]), Lo(b.mins[i]), Hi(b.maxs[i]), Lo(b.maxs[i]), Lo(b.source[i]), Hi(b.source[i]))
  }

  // Input number 0 becomes 1, numbers past 14 become 14; init_trends applies the correction for
  // every trend to the first one.
  function Corrected(inp: byte, target: byte): byte {
    if inp == 0 then 1 else if inp > INPUT_CNT then INPUT_CNT else target
  }

  function FirstInput(i0: byte, i1: byte, i2: byte): byte {
    Corrected(i2, Corrected(i1, Corrected(i0, i0)))
  }

  function Saved(b: Backup, trends: seq<Trend>, cnt: byte): Backup
    requires |trends| == TREND_MAX
  {
    Backup(b.marker, cnt,
           seq(TREND_MAX, i requires 0 <= i < TREND_MAX => Word(trends[i].limits.devAddr, trends[i].limits.inpNum)),
           seq(TREND_MAX, i requires 0 <= i < TREND_MAX => Word(trends[i].limits.minWarn, trends[i].limits.minAlarm)),
           seq(TREND_MAX, i requires 0 <= i < TREND_MAX => Word(trends[i].limits.maxWarn, trends[i].limits.maxAlarm)))
  }

  // What init_trends makes of the registers: limits per slot.
  function RestoredLimits(b: Backup, i: nat): Limits
    requires |b.source| == TREND_MAX == |b.mins| && |b.maxs| == TREND_MAX && i < TREND_MAX
  {
    var l := LimitsIn(b, i);
    if i == 0 then l.(inpNum := FirstInput(Lo(b.source[0]), Lo(b.source[1]), Lo(b.source[2]))) else l
  }

  function RestoredCnt(b: Backup): byte {
    if b.cnt % 256 > TREND_MAX then TREND_MAX else b.cnt % 256
  }

  function Removed<T>(s: seq<T>, i: nat): seq<T>
    requires i < |s|
  {
    s[..i] + s[i + 1..]
  }

  class TrendStore {
    var trends: seq<Trend>
    var cnt: byte
    var backup: Backup

    ghost predicate Valid()
      reads this
    {
      && |trends| == TREND_MAX && cnt <= TREND_MAX && BackupShape(backup)
      && forall i :: 0 <= i < TREND_MAX ==> Shaped(trends[i])
    }

    // The trends in use.
    function List(): seq<Trend>
      reads this
      requires cnt <= |trends|
    {
      trends[..cnt]
    }

    // init_trends at boot, over whatever the backup registers hold.
    constructor (b: Backup)
      requires BackupShape(b)
      ensures Valid()
      ensures backup == if b.marker == MARKER then b else DefaultBackup()
      ensures cnt == RestoredCnt(backup)
      ensures forall i :: 0 <= i < TREND_MAX ==> trends[i] == NewTrend().(limits := RestoredLimits(backup, i))
    {
      var used := if b.marker == MARKER then b else DefaultBackup();
      var t := NewTrend();
      var first := LimitsIn(used, 0);
      if first.inpNum == 0 {
        first := first.(inpNum := 1);
      }
      if first.inpNum > INPUT_CNT {
        first := first.(inpNum := INPUT_CNT);
      }
      var second := LimitsIn(used, 1);
      if second.inpNum == 0 {
        first := first.(inpNum := 1);
      }
      if second.inpNum > INPUT_CNT {
        first := first.(inpNum := INPUT_CNT);
      }
      var third := LimitsIn(used, 2);
      if third.inpNum == 0 {
        first := first.(inpNum := 1);
      }
      if third.inpNum > INPUT_CNT {
        first := first.(inpNum := INPUT_CNT);
      }
      backup := used;
      cnt := RestoredCnt(used);
      trends := [t.(limits := first), t.(limits := second), t.(limits := third)];
    }

    // add_trend
    method Add(t: Trend) returns (ok: bool)
      requires Valid() && Shaped(t)
      modifies this
      ensures Valid() && backup == old(backup)
      ensures ok == (old(cnt) < TREND_MAX)
      ensures trends == if ok then old(trends)[old(cnt) := t] else old(trends)
      ensures List() == if ok then old(List()) + [t] else old(List())
    {
      ok := cnt < TREND_MAX;
      if ok {
        trends := trends[cnt := t];
        cnt := cnt + 1;
      }
    }

    // delete_trend: numbers count from 1; any other number does nothing.
    method Delete(num: byte)
      requires Valid()
      modifies this
      ensures Valid() && backup == old(backup)
      ensures trends == if 1 <= num <= old(cnt) then Removed(old(trends), num - 1) + [NewTrend()] else old(trends)
      ensures List() == if 1 <= num <= old(cnt) then Removed(old(List()), num - 1) else old(List())
    {
      if 1 <= num <= cnt {
        ghost var before := trends;
        var n: nat := num;
        while n < TREND_MAX
          invariant num <= n <= TREND_MAX && |trends| == TREND_MAX && cnt == old(cnt) && backup == old(backup)
          invariant trends[0] == if num == 1 && n >= 2 then before[1] else before[0]
          invariant trends[1] == if num <= 2 && n >= 3 then before[2] else before[1]
          invariant trends[2] == before[2]
        {
          trends := trends[n - 1 := trends[n]];
          n := n + 1;
        }
        trends := trends[TREND_MAX - 1 := NewTrend()];
        cnt := cnt - 1;
        assert List() == Removed(before[..old(cnt)], num - 1);
      }
    }

    // save_trends
    method Save()
      requires Valid()
      modifies this`backup
      ensures Valid() && backup == Saved(old(backup), trends, cnt)
    {
      backup := backup.(cnt := cnt);
      var i := 0;
      while i < TREND_MAX
        invariant 0 <= i <= TREND_MAX && BackupShape(backup)
        invariant backup.marker == old(backup).marker && backup.cnt == cnt
        invariant forall j :: 0 <= j < i ==>
          && backup.source[j] == Word(trends[j].limits.devAddr, trends[j].limits.inpNum)
          && backup.mins[j] == Word(trends[j].limits.minWarn, trends[j].limits.minAlarm)
          && backup.maxs[j] == Word(trends[j].limits.maxWarn, trends[j].limits.maxAlarm)
      {
        var l := trends[i].limits;
        backup := backup.(source := backup.source[i := Word(l.devAddr, l.inpNum)],
                          mins := backup.mins[i := Word(l.minWarn, l.minAlarm)],
                          maxs := backup.maxs[i := Word(l.maxWarn, l.maxAlarm)]);
        i := i + 1;
      }
    }

    // check_and_add_data_to_trend_from_can: every slot, in use or not.
    method AddFromCan(node: byte, input: byte, value: byte, now: u32)
      requires Valid()
      modifies this`trends
      ensures Valid()
      ensures forall i :: 0 <= i < TREND_MAX ==>
        var t := old(trends)[i];
        trends[i] == if t.limits.devAddr == node && t.limits.inpNum == input then Sampled(t, Point(value, now)) else t
    {
      for i := 0 to TREND_MAX
        invariant Valid()
        invariant forall j :: 0 <= j < TREND_MAX ==>
          var t := old(trends)[j];
          trends[j] == if j < i && t.limits.devAddr == node && t.limits.inpNum == input
            then Sampled(t, Point(value, now)) else t
      {
        if trends[i].limits.devAddr == node && trends[i].limits.inpNum == input {
          trends := trends[i := Sampled(trends[i], Point(value, now))];
        }
      }
    }
  }

  // Is this an input number the correction leaves alone?
  predicate InRange(inp: byte) {
    1 <= inp <= INPUT_CNT
  }

  // The registers byte for byte: device address and input number, the two minima, the two maxima.
  lemma SavedWords(b: Backup, trends: seq<Trend>, cnt: byte)
    requires |trends| == 3
    ensures var s := Saved(b, trends, cnt);
      && s.marker == b.marker && s.cnt == cnt && |s.source| == 3 && |s.mins| == 3 && |s.maxs| == 3
      && forall i :: 0 <= i < 3 ==>
        var l := trends[i].limits;
        && s.source[i] == 256 * l.devAddr as int + l.inpNum as int
        && s.mins[i] == 256 * l.minWarn as int + l.minAlarm as int
        && s.maxs[i] == 256 * l.maxWarn as int + l.maxAlarm as int
  {
  }

  // Save and restore keep count and limits exactly when the first trend's input number is what
  // the last out-of-range number (its own last of all) would set it to; numbers in range throughout,
  // as the editor leaves them, are one such case.
  lemma RestoreAfterSaveIff(b: Backup, trends: seq<Trend>, cnt: byte)
    requires |trends| == TREND_MAX && cnt <= TREND_MAX
    ensures var s := Saved(b, trends, cnt);
      var i0, i1, i2 := trends[0].limits.inpNum, trends[1].limits.inpNum, trends[2].limits.inpNum;
      && RestoredCnt(s) == cnt
      && ((forall i :: 0 <= i < TREND_MAX ==> RestoredLimits(s, i) == trends[i].limits)
          <==> if !InRange(i2) then i0 == (if i2 == 0 then 1 else INPUT_CNT)
               else if !InRange(i1) then i0 == (if i1 == 0 then 1 else INPUT_CNT)
               else InRange(i0))
  {
    var s := Saved(b, trends, cnt);
    forall i | 0 <= i < TREND_MAX ensures LimitsIn(s, i) == trends[i].limits {
    }
    assert RestoredLimits(s, 1) == trends[1].limits && RestoredLimits(s, 2) == trends[2].limits;
    assert RestoredLimits(s, 0) == trends[0].limits <==>
      FirstInput(trends[0].limits.inpNum, trends[1].limits.inpNum, trends[2].limits.inpNum) == trends[0].limits.inpNum;
  }
}
