// Calendar arithmetic: seconds since 2001-01-01 to date and time of day and back
// (get_archive_message_time, draw_time, time_from_uint32 and time_to_uint32), against the
// Gregorian calendar of section 3.2.1 of ISO 8601:2004.
module Calendar {
  import opened Bytes

  const JD0: int := 2451911

  // The date and time of day held by the clock; the year counts from 2000.
  datatype Stamp = Stamp(year: byte, month: byte, date: byte, hour: byte, min: byte, sec: byte)

  function U8(x: int): byte { x % 256 }

  function Mod32(x: int): u32 { x % U32 }

  // The C division of a possibly negative number truncates.
  function TruncDiv(x: int, d: int): int
    requires d > 0
  {
    if x >= 0 then x / d else -((-x) / d)
  }

  // Century, year of the century and month counted from March, and day of the month.
  datatype Parts = Parts(b: int, d: int, m: int, date: int)

  // The calendar part of get_archive_message_time, draw_time and time_from_uint32, which
  // agree: every 8-bit variable truncates.
  function CenturyOf(ace: int): (int, int) {
    var b := U8(Mod32(4 * ace + 3) / 146097);
    (b, Mod32(ace - (146097 * b) / 4))
  }

  function YearInCentury(ace: int): (int, int) {
    var d := U8(Mod32(4 * ace + 3) / 1461);
    (d, Mod32(ace - (1461 * d) / 4))
  }

  function MonthInYear(ace: int): (int, int) {
    var m := U8(Mod32(5 * ace + 2) / 153);
    (m, U8(Mod32(ace - (153 * m + 2) / 5 + 1)))
  }

  function SplitDays(days: u32): Parts {
    var (b, ace1) := CenturyOf(Mod32(days + 32044 + JD0));
    var (d, ace2) := YearInCentury(ace1);
    var (m, date) := MonthInYear(ace2);
    Parts(b, d, m, date)
  }

  function Decode(t: u32): Stamp {
    var p := SplitDays(t / 86400);
    Stamp(U8(100 * p.b + p.d - 4800 + p.m / 10 - 2000), U8(p.m + 3 - 12 * (p.m / 10)), U8(p.date),
          (t / 3600) % 24, (t / 60) % 60, t % 60)
  }

  // time_to_uint32: the day count, and the seconds modulo 2^32.
  function EncodeDays(x: Stamp): int {
    var a := U8(TruncDiv(14 - x.month, 12));
    var y := (x.year + 2000 + 4800 - a) % U16;
    var m := U8(x.month + 12 * a - 3);
    x.date + (153 * m + 2) / 5 + 365 * y + y / 4 + TruncDiv(-y, 100) + y / 400 - 32045 - JD0
  }

  function Encode(x: Stamp): u32 {
    Mod32(Mod32(EncodeDays(x)) * 86400 + x.hour * 3600 + x.min * 60 + x.sec)
  }

  // The Gregorian calendar --------------------------------------------------------------

  predicate Leap(y: int) {
    y % 4 == 0 && (y % 100 != 0 || y % 400 == 0)
  }

  function DaysInMonth(y: int, m: int): int {
    if m == 2 then (if Leap(y) then 29 else 28)
    else if m == 4 || m == 6 || m == 9 || m == 11 then 30
    else 31
  }

  // Days of the year before month m.
  function DaysBeforeMonth(y: int, m: int): int
    decreases m
  {
    if m <= 1 then 0 else DaysBeforeMonth(y, m - 1) + DaysInMonth(y, m - 1)
  }

  // Days from 0001-01-01 to the start of year y.
  function DaysBeforeYear(y: int): int {
    365 * (y - 1) + (y - 1) / 4 - (y - 1) / 100 + (y - 1) / 400
  }

  predicate ValidDate(y: int, m: int, d: int) {
    1 <= m <= 12 && 1 <= d <= DaysInMonth(y, m)
  }

  // Julian day number; 0001-01-01 is day 1721426.
  function Jdn(y: int, m: int, d: int): int {
    1721425 + DaysBeforeYear(y) + DaysBeforeMonth(y, m) + d
  }

  predicate ValidStamp(x: Stamp) {
    ValidDate(2000 + x.year, x.month, x.date) && x.hour < 24 && x.min < 60 && x.sec < 60
  }

  // Seconds since 2001-01-01 00:00:00, as an unbounded integer.
  function Seconds(x: Stamp): int {
    86400 * (Jdn(2000 + x.year, x.month, x.date) - JD0) + 3600 * x.hour + 60 * x.min + x.sec
  }

  lemma MonthTable(y: int)
    ensures DaysBeforeMonth(y, 1) == 0 && DaysBeforeMonth(y, 2) == 31
    ensures var f := if Leap(y) then 1 else 0;
      && DaysBeforeMonth(y, 3) == 59 + f && DaysBeforeMonth(y, 4) == 90 + f && DaysBeforeMonth(y, 5) == 120 + f
      && DaysBeforeMonth(y, 6) == 151 + f && DaysBeforeMonth(y, 7) == 181 + f && DaysBeforeMonth(y, 8) == 212 + f
      && DaysBeforeMonth(y, 9) == 243 + f && DaysBeforeMonth(y, 10) == 273 + f && DaysBeforeMonth(y, 11) == 304 + f
      && DaysBeforeMonth(y, 12) == 334 + f
  {
    hide Leap;
    assert DaysBeforeMonth(y, 2) == 31;
    assert DaysBeforeMonth(y, 4) == DaysBeforeMonth(y, 3) + 31;
    assert DaysBeforeMonth(y, 6) == DaysBeforeMonth(y, 5) + 31;
    assert DaysBeforeMonth(y, 8) == DaysBeforeMonth(y, 7) + 31;
    assert DaysBeforeMonth(y, 10) == DaysBeforeMonth(y, 9) + 30;
    assert DaysBeforeMonth(y, 12) == DaysBeforeMonth(y, 11) + 30;
  }

  lemma YearLength(y: int)
    requires 1 <= y
    ensures DaysBeforeYear(y + 1) == DaysBeforeYear(y) + (if Leap(y) then 366 else 365)
  {
    DivStep(y, 4);
    DivStep(y, 100);
    DivStep(y, 400);
    Multiples(y);
    YearStep(y / 4, y / 100, y / 400, (y - 1) / 4, (y - 1) / 100, (y - 1) / 400, y);
  }

  // Multiples of 400 are multiples of 100, and those of 4.
  lemma Multiples(y: int)
    ensures y % 400 == 0 ==> y % 100 == 0
    ensures y % 100 == 0 ==> y % 4 == 0
  {
    if y % 400 == 0 {
      assert y == 100 * (4 * (y / 400));
      TimesMod(4 * (y / 400), 100);
    }
    if y % 100 == 0 {
      assert y == 4 * (25 * (y / 100));
      TimesMod(25 * (y / 100), 4);
    }
  }

  lemma TimesMod(k: int, m: int)
    requires m == 4 || m == 100
    ensures m * k % m == 0
  {
  }

  // The day counts around a year, from its quotients.
  lemma YearStep(q4: int, q100: int, q400: int, p4: int, p100: int, p400: int, y: int)
    requires q4 == p4 + (if y % 4 == 0 then 1 else 0)
    requires q100 == p100 + (if y % 100 == 0 then 1 else 0)
    requires q400 == p400 + (if y % 400 == 0 then 1 else 0)
    requires (y % 400 == 0 ==> y % 100 == 0) && (y % 100 == 0 ==> y % 4 == 0)
    ensures 365 * y + q4 - q100 + q400 == 365 * (y - 1) + p4 - p100 + p400 + (if Leap(y) then 366 else 365)
  {
  }

  lemma DivStep(y: int, k: int)
    requires 1 <= y && (k == 4 || k == 100 || k == 400)
    ensures y / k == (y - 1) / k + (if y % k == 0 then 1 else 0)
  {
  }

  // A month counted from March of its March-based year: day offset of its first day.
  lemma MonthFromMarch(y: int, m: int)
    requires 0 <= m < 12 && 1 <= y
    ensures Jdn(if m < 10 then y else y + 1, if m < 10 then m + 3 else m - 9, 1) == Jdn(y, 3, 1) + (153 * m + 2) / 5
  {
    MonthTable(y);
    MonthTable(y + 1);
    YearLength(y);
    hide Leap, DaysBeforeYear, DaysBeforeMonth;
  }

  // Decoding ----------------------------------------------------------------------------

  lemma CenturyStage(n: int)
    requires 2483955 <= n <= 2533665
    ensures var b := (4 * n + 3) / 146097;
      var rest := n - (146097 * b) / 4;
      68 <= b <= 69 && 0 <= rest <= 36523
  {
  }

  lemma YearStage(k: int)
    requires 0 <= k <= 36523
    ensures var d := (4 * k + 3) / 1461;
      var rest := k - (1461 * d) / 4;
      0 <= d <= 99 && 0 <= rest <= 365 && (rest == 365 ==> d % 4 == 3 && d < 99)
  {
    var d := (4 * k + 3) / 1461;
    assert 1461 * d <= 4 * k + 3 < 1461 * d + 1461;
    if d % 4 == 3 {
      assert d == 4 * (d / 4) + 3;
    }
  }

  function MarchMonthLength(m: int): int {
    if m == 11 then 29 else if m == 1 || m == 3 || m == 6 || m == 8 then 30 else 31
  }

  lemma MonthStage(k: int)
    requires 0 <= k <= 365
    ensures var m := (5 * k + 2) / 153;
      var rest := k - (153 * m + 2) / 5;
      0 <= m <= 11 && 0 <= rest < MarchMonthLength(m) && (rest == 28 && m == 11 ==> k == 365)
  {
  }

  // 1 March of March-based year d of century b.
  lemma MarchFirst(b: int, d: int)
    requires 68 <= b <= 69 && 0 <= d < 100
    ensures Jdn(100 * b + d - 4800, 3, 1) == (146097 * b) / 4 + (1461 * d) / 4 - 32044
  {
    var y := 100 * b + d - 4800;
    MonthTable(y);
    hide DaysBeforeMonth;
    DivStep(y, 4);
    assert (y - 1) / 100 == (if d == 0 then b - 49 else b - 48);
    assert (y - 1) / 400 == (if y == 2000 then 4 else 5);
    assert y / 4 == 25 * (b - 48) + d / 4;
    assert Leap(y) <==> d % 4 == 0 && y != 2100;
    assert (1461 * d) / 4 == 365 * d + d / 4;
  }

  // SplitDays without its truncations.
  function Split(n: int): Parts {
    var b := (4 * n + 3) / 146097;
    var ace1 := n - (146097 * b) / 4;
    var d := (4 * ace1 + 3) / 1461;
    var ace2 := ace1 - (1461 * d) / 4;
    var m := (5 * ace2 + 2) / 153;
    Parts(b, d, m, ace2 - (153 * m + 2) / 5 + 1)
  }

  function YearOf(p: Parts): int {
    100 * p.b + p.d - 4800 + (if p.m < 10 then 0 else 1)
  }

  function MonthOf(p: Parts): int {
    if p.m < 10 then p.m + 3 else p.m - 9
  }

  lemma Assemble(p: Parts, ace2: int)
    requires 68 <= p.b <= 69 && 0 <= p.d <= 99 && 0 <= p.m <= 11
    requires 0 <= ace2 <= 365 && (ace2 == 365 ==> p.d % 4 == 3 && p.d < 99)
    requires p.date == ace2 - (153 * p.m + 2) / 5 + 1
    requires 1 <= p.date <= MarchMonthLength(p.m) && (p.date == 29 && p.m == 11 ==> ace2 == 365)
    ensures ValidDate(YearOf(p), MonthOf(p), p.date)
    ensures Jdn(YearOf(p), MonthOf(p), p.date) == (146097 * p.b) / 4 + (1461 * p.d) / 4 + ace2 - 32044
  {
    var y := 100 * p.b + p.d - 4800;
    MarchFirst(p.b, p.d);
    MonthFromMarch(y, p.m);
    assert Jdn(YearOf(p), MonthOf(p), p.date) == Jdn(YearOf(p), MonthOf(p), 1) + p.date - 1;
    if p.m == 11 && p.date == 29 {
      LeapAfter(p.b, p.d);
    }
  }

  lemma LeapAfter(b: int, d: int)
    requires 68 <= b <= 69 && 0 <= d < 99 && d % 4 == 3
    ensures Leap(100 * b + d - 4800 + 1)
  {
  }

  lemma SplitIsDate(n: int)
    requires 2483955 <= n <= 2533665
    ensures var p := Split(n);
      && 68 <= p.b <= 69 && 0 <= p.d <= 99 && 0 <= p.m <= 11 && 1 <= p.date <= 31
      && ValidDate(YearOf(p), MonthOf(p), p.date)
      && Jdn(YearOf(p), MonthOf(p), p.date) == n - 32044
  {
    hide Jdn, ValidDate;
    var p := Split(n);
    CenturyStage(n);
    var ace1 := n - (146097 * p.b) / 4;
    YearStage(ace1);
    var ace2 := ace1 - (1461 * p.d) / 4;
    MonthStage(ace2);
    Assemble(p, ace2);
  }

  lemma Fits8(x: int)
    requires 0 <= x < 256
    ensures U8(x) == x
  {
  }

  lemma Fits32(x: int)
    requires 0 <= x < U32
    ensures Mod32(x) == x
  {
  }

  lemma CenturyExact(n: int)
    requires 2483955 <= n <= 2533665
    ensures CenturyOf(n) == ((4 * n + 3) / 146097, n - (146097 * ((4 * n + 3) / 146097)) / 4)
    ensures 0 <= CenturyOf(n).1 <= 36523
  {
    hide U8, Mod32;
    CenturyStage(n);
    Fits32(4 * n + 3);
    Fits8((4 * n + 3) / 146097);
    Fits32(n - (146097 * ((4 * n + 3) / 146097)) / 4);
  }

  lemma YearExact(n: int)
    requires 0 <= n <= 36523
    ensures YearInCentury(n) == ((4 * n + 3) / 1461, n - (1461 * ((4 * n + 3) / 1461)) / 4)
    ensures 0 <= YearInCentury(n).1 <= 365
  {
    hide U8, Mod32;
    YearStage(n);
    Fits32(4 * n + 3);
    Fits8((4 * n + 3) / 1461);
    Fits32(n - (1461 * ((4 * n + 3) / 1461)) / 4);
  }

  lemma MonthExact(n: int)
    requires 0 <= n <= 365
    ensures MonthInYear(n) == ((5 * n + 2) / 153, n - (153 * ((5 * n + 2) / 153) + 2) / 5 + 1)
  {
    hide U8, Mod32;
    MonthStage(n);
    var m := (5 * n + 2) / 153;
    var date := n - (153 * m + 2) / 5 + 1;
    Fits32(5 * n + 2);
    Fits8(m);
    Fits32(date);
    Fits8(date);
  }

  // No 32-bit or 8-bit intermediate of the C code loses information.
  lemma SplitDaysIsSplit(days: u32)
    requires days <= 49710
    ensures SplitDays(days) == Split(days + 32044 + JD0)
  {
    var n := days + 32044 + JD0;
    hide U8, CenturyOf, YearInCentury, MonthInYear;
    assert Mod32(n) == n;
    hide Mod32;
    CenturyExact(n);
    YearExact(CenturyOf(n).1);
    MonthExact(YearInCentury(CenturyOf(n).1).1);
  }

  lemma FieldsFit(p: Parts)
    requires 68 <= p.b <= 69 && 0 <= p.d <= 99 && 0 <= p.m <= 11 && 1 <= p.date <= 31
    ensures U8(100 * p.b + p.d - 4800 + p.m / 10 - 2000) == YearOf(p) - 2000
    ensures U8(p.m + 3 - 12 * (p.m / 10)) == MonthOf(p) && U8(p.date) == p.date
  {
    assert p.m / 10 == if p.m < 10 then 0 else 1;
  }

  lemma DecodeIsSplit(t: u32)
    ensures var p := Split(t / 86400 + 32044 + JD0);
      0 <= YearOf(p) - 2000 < 256 && 0 <= MonthOf(p) < 256 && 0 <= p.date < 256 &&
      Decode(t) == Stamp(YearOf(p) - 2000, MonthOf(p), p.date, (t / 3600) % 24, (t / 60) % 60, t % 60)
  {
    hide Split, SplitDays, Jdn, ValidDate, U8, YearOf, MonthOf;
    var p := Split(t / 86400 + 32044 + JD0);
    SplitIsDate(t / 86400 + 32044 + JD0);
    SplitDaysIsSplit(t / 86400);
    FieldsFit(p);
  }

  lemma TimeOfDay(t: u32)
    ensures t == 86400 * (t / 86400) + 3600 * ((t / 3600) % 24) + 60 * ((t / 60) % 60) + t % 60
  {
    assert t / 3600 == (t / 60) / 60 && t / 86400 == (t / 3600) / 24;
  }

  // For every 32-bit time the decoded stamp is a valid Gregorian date and time of day, and it
  // denotes exactly that time.
  lemma DecodeDenotes(t: u32)
    ensures ValidStamp(Decode(t))
    ensures Jdn(2000 + Decode(t).year, Decode(t).month, Decode(t).date) == JD0 + t / 86400
    ensures Seconds(Decode(t)) == t
  {
    DecodeIsSplit(t);
    SplitIsDate(t / 86400 + 32044 + JD0);
    TimeOfDay(t);
    hide Jdn, Decode, Split;
  }

  // Encoding ----------------------------------------------------------------------------

  lemma EncodeJdn(x: Stamp)
    requires ValidStamp(x)
    ensures var a := if x.month < 3 then 1 else 0;
      var y, m := x.year + 6800 - a, x.month + 12 * a - 3;
      x.date + (153 * m + 2) / 5 + 365 * y + y / 4 - y / 100 + y / 400 - 32045 == Jdn(2000 + x.year, x.month, x.date)
  {
    var a := if x.month < 3 then 1 else 0;
    var y, m := x.year + 6800 - a, x.month + 12 * a - 3;
    var march := y - 4800;
    MonthRange(x);
    MonthFromMarch(march, m);
    hide Jdn, ValidDate;
    MarchJdn(march);
    assert Jdn(2000 + x.year, x.month, x.date) == Jdn(2000 + x.year, x.month, 1) + x.date - 1
      by { SameMonth(2000 + x.year, x.month, x.date); }
  }

  lemma SameMonth(y: int, m: int, d: int)
    ensures Jdn(y, m, d) == Jdn(y, m, 1) + d - 1
  {
  }

  lemma MarchJdn(march: int)
    requires 1 <= march
    ensures var y := march + 4800;
      Jdn(march, 3, 1) == 365 * y + y / 4 - y / 100 + y / 400 - 32045 + 1
  {
    var y := march + 4800;
    MonthTable(march);
    hide DaysBeforeMonth;
    DivStep(march, 4);
    DivStep(march, 100);
    DivStep(march, 400);
    assert y / 4 == march / 4 + 1200 && y / 100 == march / 100 + 48 && y / 400 == march / 400 + 12;
  }

  lemma MonthRange(x: Stamp)
    requires ValidStamp(x)
    ensures 1 <= x.month <= 12
  {
  }

  lemma EncodeDaysIsJdn(x: Stamp)
    requires ValidStamp(x)
    ensures EncodeDays(x) == Jdn(2000 + x.year, x.month, x.date) - JD0
  {
    hide Jdn, ValidDate, U8;
    EncodeJdn(x);
    MonthRange(x);
    var a := if x.month < 3 then 1 else 0;
    assert TruncDiv(14 - x.month, 12) == a;
    Fits8(a);
    Fits8(x.month + 12 * a - 3);
  }

  // time_to_uint32 is the stamp's second count modulo 2^32.
  lemma EncodeIsSeconds(x: Stamp)
    requires ValidStamp(x)
    ensures Encode(x) == Seconds(x) % U32
  {
    hide Jdn, ValidStamp, EncodeDays, Mod32;
    EncodeDaysIsJdn(x);
    ModTimes(EncodeDays(x), x.hour * 3600 + x.min * 60 + x.sec);
  }

  lemma ModTimes(days: int, rest: int)
    ensures Mod32(Mod32(days) * 86400 + rest) == (days * 86400 + rest) % U32
  {
    var q := days / U32;
    assert days * 86400 + rest == Mod32(days) * 86400 + rest + U32 * (86400 * q);
    ModPeriod(Mod32(days) * 86400 + rest, 86400 * q);
  }

  lemma ModPeriod(x: int, k: int)
    ensures (x + U32 * k) % U32 == x % U32
  {
    var q := (x + U32 * k) / U32 - k;
    assert x == U32 * q + (x + U32 * k) % U32;
  }

  // Encoding undoes decoding for every 32-bit time.
  lemma EncodeDecode(t: u32)
    ensures Encode(Decode(t)) == t
  {
    DecodeDenotes(t);
    hide Encode, Decode, Seconds, ValidStamp;
    EncodeIsSeconds(Decode(t));
  }

  // A later valid date has a larger day number.
  lemma JdnGrows(y: int, m: int, d: int, y': int, m': int, d': int)
    requires 1 <= y && ValidDate(y, m, d) && ValidDate(y', m', d')
    requires y < y' || (y == y' && (m < m' || (m == m' && d < d')))
    ensures Jdn(y, m, d) < Jdn(y', m', d')
  {
    MonthTable(y);
    MonthTable(y');
    YearLength(y);
    YearsGrow(y + 1, y');
    hide DaysBeforeMonth, DaysBeforeYear;
  }

  lemma YearsGrow(y: int, y': int)
    requires 1 <= y
    ensures y <= y' ==> DaysBeforeYear(y) <= DaysBeforeYear(y')
    decreases y' - y
  {
    if y < y' {
      YearLength(y);
      YearsGrow(y + 1, y');
    }
  }

  // Days, hours, minutes and seconds are determined by their sum.
  lemma TimeParts(d: int, h: int, m: int, s: int, d': int, h': int, m': int, s': int)
    requires 0 <= h < 24 && 0 <= m < 60 && 0 <= s < 60 && 0 <= h' < 24 && 0 <= m' < 60 && 0 <= s' < 60
    requires 86400 * d + 3600 * h + 60 * m + s == 86400 * d' + 3600 * h' + 60 * m' + s'
    ensures d == d' && h == h' && m == m' && s == s'
  {
    assert 0 <= 3600 * h + 60 * m + s < 86400 && 0 <= 3600 * h' + 60 * m' + s' < 86400;
    assert d == d';
    assert 0 <= 60 * m + s < 3600 && 0 <= 60 * m' + s' < 3600;
    assert h == h';
  }

  lemma SecondsInjective(x: Stamp, x': Stamp)
    requires ValidStamp(x) && ValidStamp(x') && Seconds(x) == Seconds(x')
    ensures x == x'
  {
    var j, j' := Jdn(2000 + x.year, x.month, x.date), Jdn(2000 + x'.year, x'.month, x'.date);
    TimeParts(j - JD0, x.hour, x.min, x.sec, j' - JD0, x'.hour, x'.min, x'.sec);
    hide Jdn, ValidDate;
    JdnInjective(2000 + x.year, x.month, x.date, 2000 + x'.year, x'.month, x'.date);
  }

  lemma JdnInjective(y: int, m: int, d: int, y': int, m': int, d': int)
    requires 1 <= y && 1 <= y' && ValidDate(y, m, d) && ValidDate(y', m', d') && Jdn(y, m, d) == Jdn(y', m', d')
    ensures y == y' && m == m' && d == d'
  {
    hide Jdn, ValidDate;
    if y < y' || (y == y' && (m < m' || (m == m' && d < d'))) {
      JdnGrows(y, m, d, y', m', d');
    } else if y > y' || m > m' || d > d' {
      JdnGrows(y', m', d', y, m, d);
    }
  }

  lemma YearBounds(x: Stamp)
    requires ValidStamp(x) && x.year <= 99
    ensures x.year >= 1 ==> 0 <= Seconds(x) < U32
    ensures x.year == 0 ==> -U32 < Seconds(x) < 0
  {
    MonthTable(2000 + x.year);
    YearsGrow(2001, 2000 + x.year);
    YearsGrow(2000 + x.year, 2100);
    assert DaysBeforeYear(2001) == 730485 && DaysBeforeYear(2000) == 730119 && DaysBeforeYear(2100) < 767000;
    hide DaysBeforeYear, DaysBeforeMonth, Leap;
  }

  // For the clock's years 2000 to 2099, decoding undoes encoding exactly from 2001 on:
  // a date in 2000 comes back as one past 2130.
  lemma DecodeEncodeIff(x: Stamp)
    requires ValidStamp(x) && x.year <= 99
    ensures Decode(Encode(x)) == x <==> x.year >= 1
  {
    hide Encode, Decode, ValidStamp, Seconds;
    YearBounds(x);
    EncodeIsSeconds(x);
    DecodeDenotes(Encode(x));
    if x.year >= 1 {
      SecondsInjective(Decode(Encode(x)), x);
    }
  }
}
