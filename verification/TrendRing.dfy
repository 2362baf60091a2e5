// Trend history: the 64-point ring of user/trend_data.c and its readers in
// user/menu/draw_trend_menu.c.
module TrendRing {
  import opened Bytes

  const TREND_SIZE: nat := 64
  const WINDOW: nat := 63  // points a reader looks at
  const NO_TIME: u32 := 0xFFFFFFFF  // marks an unused point

  datatype Point = Point(data: byte, time: u32)

  datatype Limits = Limits(minWarn: byte, minAlarm: byte, maxWarn: byte, maxAlarm: byte, inpNum: byte, devAddr: byte)

  datatype Trend = Trend(point: seq<Point>, first: nat, cur: nat, full: bool, limits: Limits)

  predicate Shaped(t: Trend) {
    |t.point| == TREND_SIZE && t.first < TREND_SIZE && t.cur < TREND_SIZE
  }

  function Unused(n: nat): (s: seq<Point>)
    ensures |s| == n && forall k :: 0 <= k < n ==> s[k] == Point(0, NO_TIME)
  {
    seq(n, _ => Point(0, NO_TIME))
  }

  // get_new_trend
  function NewTrend(): (t: Trend)
    ensures Shaped(t)
  {
    Trend(Unused(TREND_SIZE), 0, 0, false, Limits(0, 0, 255, 255, 1, 0))
  }

  // add_data_to_trend
  function Sampled(t: Trend, p: Point): (t': Trend)
    requires Shaped(t)
    ensures Shaped(t')
  {
    var cur := if t.cur + 1 >= TREND_SIZE then 0 else t.cur + 1;
    var full := t.full || t.cur + 1 >= TREND_SIZE;
    var first := if !full then t.first else if t.first + 1 >= TREND_SIZE then 0 else t.first + 1;
    Trend(t.point[t.cur := p], first, cur, full, t.limits)
  }

  // The reader's cursor i points after the first one.
  function Cursor(t: Trend, i: nat): (pos: nat)
    requires Shaped(t) && i <= TREND_SIZE
    ensures pos < TREND_SIZE
  {
    if t.first + i < TREND_SIZE then t.first + i else t.first + i - TREND_SIZE
  }

  // How many points from the i-th on a reader counts before an unused one or the window's end.
  function CountFrom(t: Trend, i: nat): (n: nat)
    requires Shaped(t) && i <= WINDOW
    ensures i <= n <= WINDOW
    decreases WINDOW - i
  {
    if i == WINDOW || t.point[Cursor(t, i)].time == NO_TIME then i else CountFrom(t, i + 1)
  }

  // What the readers see.
  function Window(t: Trend): (w: seq<Point>)
    requires Shaped(t)
    ensures |w| <= WINDOW
  {
    seq(CountFrom(t, 0), i requires 0 <= i < CountFrom(t, 0) => t.point[Cursor(t, i)])
  }

  class TrendBuffer {
    var point: seq<Point>
    var firstPoint: nat
    var curPoint: nat
    var fullFlag: bool
    var limits: Limits

    function View(): Trend
      reads this
    {
      Trend(point, firstPoint, curPoint, fullFlag, limits)
    }

    ghost predicate Valid()
      reads this
    {
      Shaped(View())
    }

    constructor ()
      ensures Valid() && View() == NewTrend()
    {
      var t := NewTrend();
      point, firstPoint, curPoint, fullFlag, limits := t.point, t.first, t.cur, t.full, t.limits;
    }

    method AddData(p: Point)
      requires Valid()
      modifies this
      ensures Valid() && View() == Sampled(old(View()), p)
    {
      point := point[curPoint := p];
      curPoint := curPoint + 1;
      if curPoint >= TREND_SIZE {
        curPoint := 0;
        fullFlag := true;
      }
      if fullFlag {
        firstPoint := firstPoint + 1;
        if firstPoint >= TREND_SIZE {
          firstPoint := 0;
        }
      }
    }

    // get_trend_data_cnt
    method DataCnt() returns (cnt: nat)
      requires Valid()
      ensures cnt == |Window(View())|
    {
      cnt := 0;
      var pos := firstPoint;
      for i := 0 to WINDOW
        invariant cnt == i && pos == Cursor(View(), i)
        invariant CountFrom(View(), 0) == CountFrom(View(), i)
      {
        if point[pos].time == NO_TIME {
          break;
        }
        cnt := cnt + 1;
        pos := pos + 1;
        if pos >= TREND_SIZE {
          pos := 0;
        }
      }
    }

    // get_trend_cur_value and get_trend_end_time walk to the same point.
    method Last() returns (p: Point)
      requires Valid()
      ensures var w := Window(View());
        p == if w == [] then Point(0, 0) else w[|w| - 1]
    {
      var cnt := DataCnt();
      p := Point(0, 0);
      var pos := firstPoint;
      for i := 0 to cnt
        invariant pos == Cursor(View(), i)
        invariant i < cnt || cnt == 0
      {
        if i == cnt - 1 {
          return point[pos];
        }
        pos := pos + 1;
        if pos >= TREND_SIZE {
          pos := 0;
        }
      }
    }

    // get_trend_min
    method Min() returns (value: byte)
      requires Valid()
      ensures IsMin(Window(View()), value)
    {
      var cnt := DataCnt();
      ghost var w := Window(View());
      hide IsMin;
      assert IsMin(w[..0], 255) by { MinOfNothing(); }
      value := 255;
      var pos := firstPoint;
      for i := 0 to cnt
        invariant pos == Cursor(View(), i)
        invariant IsMin(w[..i], value)
      {
        assert w[..i + 1] == w[..i] + [point[pos]];
        MinExtends(w[..i], point[pos], value);
        if point[pos].data < value {
          value := point[pos].data;
        }
        pos := pos + 1;
        if pos >= TREND_SIZE {
          pos := 0;
        }
      }
      assert w[..cnt] == w;
    }

    // get_trend_max: five units of headroom where they fit.
    method Max() returns (value: byte)
      requires Valid()
      ensures exists m: byte :: IsMax(Window(View()), m) && value == if m <= 250 then m + 5 else m
    {
      var cnt := DataCnt();
      ghost var w := Window(View());
      hide IsMax;
      assert IsMax(w[..0], 0) by { MinOfNothing(); }
      value := 0;
      var pos := firstPoint;
      for i := 0 to cnt
        invariant pos == Cursor(View(), i)
        invariant IsMax(w[..i], value)
      {
        assert w[..i + 1] == w[..i] + [point[pos]];
        MaxExtends(w[..i], point[pos], value);
        if point[pos].data > value {
          value := point[pos].data;
        }
        pos := pos + 1;
        if pos >= TREND_SIZE {
          pos := 0;
        }
      }
      assert w[..cnt] == w;
      assert IsMax(w, value);
      if value <= 250 {
        value := value + 5;
      }
    }

    // get_trend_begin_time
    method BeginTime() returns (time: u32)
      requires Valid()
      ensures time == if Window(View()) == [] then NO_TIME else Window(View())[0].time
    {
      time := point[firstPoint].time;
      assert CountFrom(View(), 0) > 0 <==> point[Cursor(View(), 0)].time != NO_TIME;
    }
  }

  // 255 when there is nothing, the smallest data value otherwise.
  predicate IsMin(w: seq<Point>, m: byte) {
    && (forall i :: 0 <= i < |w| ==> m <= w[i].data)
    && (if w == [] then m == 255 else exists i :: 0 <= i < |w| && w[i].data == m)
  }

  predicate IsMax(w: seq<Point>, m: byte) {
    && (forall i :: 0 <= i < |w| ==> w[i].data <= m)
    && (if w == [] then m == 0 else exists i :: 0 <= i < |w| && w[i].data == m)
  }

  lemma MinOfNothing()
    ensures IsMin([], 255) && IsMax([], 0)
  {
  }

  lemma MinExtends(w: seq<Point>, p: Point, m: byte)
    requires IsMin(w, m)
    ensures IsMin(w + [p], if p.data < m then p.data else m)
  {
    var w' := w + [p];
    if p.data <= m {
      assert w'[|w|].data == p.data;
    } else {
      var i :| 0 <= i < |w| && w[i].data == m;
      assert w'[i].data == m;
    }
  }

  lemma MaxExtends(w: seq<Point>, p: Point, m: byte)
    requires IsMax(w, m)
    ensures IsMax(w + [p], if p.data > m then p.data else m)
  {
    var w' := w + [p];
    if p.data >= m {
      assert w'[|w|].data == p.data;
    } else {
      var i :| 0 <= i < |w| && w[i].data == m;
      assert w'[i].data == m;
    }
  }

  // The sliding window ---------------------------------------------------------------------

  function SampledAll(samples: seq<Point>): (t: Trend)
    ensures Shaped(t)
  {
    if samples == [] then NewTrend() else Sampled(SampledAll(samples[..|samples| - 1]), samples[|samples| - 1])
  }

  // After n samples: point k holds the newest sample that fell on it; the write position is
  // n modulo 64, and the first position trails it by one once the ring is full.
  ghost predicate History(t: Trend, samples: seq<Point>) {
    var n := |samples|;
    && Shaped(t)
    && t.cur == n % TREND_SIZE && (t.full <==> n >= TREND_SIZE)
    && t.first == (if n < TREND_SIZE then 0 else (n + 1) % TREND_SIZE)
    && (forall j :: 0 <= j < n && n - TREND_SIZE <= j ==> t.point[j % TREND_SIZE] == samples[j])
    && (forall k :: n <= k < TREND_SIZE ==> t.point[k].time == NO_TIME)
  }

  lemma {:induction false} HistoryHolds(samples: seq<Point>)
    ensures History(SampledAll(samples), samples)
  {
    if samples == [] {
    } else {
      HistoryHolds(samples[..|samples| - 1]);
      HistoryStep(SampledAll(samples[..|samples| - 1]), samples[..|samples| - 1], samples[|samples| - 1]);
      assert samples[..|samples| - 1] + [samples[|samples| - 1]] == samples;
    }
  }

  lemma HistoryStep(t: Trend, samples: seq<Point>, p: Point)
    requires History(t, samples)
    ensures History(Sampled(t, p), samples + [p])
  {
    var n, t', all := |samples|, Sampled(t, p), samples + [p];
    forall j | 0 <= j < n + 1 && n + 1 - TREND_SIZE <= j
      ensures t'.point[j % TREND_SIZE] == all[j]
    {
      assert j < n ==> j % TREND_SIZE != n % TREND_SIZE;
    }
  }

  // The last 63 samples, or all there are.
  function Recent(samples: seq<Point>): seq<Point> {
    if |samples| <= 63 then samples else samples[|samples| - 63..]
  }

  lemma ModIs(x: nat, q: int, r: nat)
    requires x == TREND_SIZE * q + r && r < TREND_SIZE
    ensures x % TREND_SIZE == r
  {
  }

  lemma RecentAt(t: Trend, samples: seq<Point>, i: nat)
    requires History(t, samples) && i < |Recent(samples)|
    ensures t.point[Cursor(t, i)] == Recent(samples)[i]
  {
    var n := |samples|;
    if n >= TREND_SIZE {
      var j, q := n - WINDOW + i, (n + 1) / TREND_SIZE;
      assert n + 1 == TREND_SIZE * q + t.first;
      ModIs(j, if t.first + i < TREND_SIZE then q - 1 else q, Cursor(t, i));
    } else {
      assert i % TREND_SIZE == i;
      if n == WINDOW {
        assert Recent(samples) == samples;
      }
    }
  }

  // The reader stops at the first unused point.
  lemma {:induction false} CountReaches(t: Trend, r: seq<Point>, i: nat)
    requires Shaped(t) && i <= |r| <= WINDOW
    requires forall k :: 0 <= k < |r| ==> t.point[Cursor(t, k)] == r[k]
    requires |r| < WINDOW ==> t.point[Cursor(t, |r|)].time == NO_TIME
    ensures CountFrom(t, i) <= |r|
    ensures CountFrom(t, i) == |r| <==> forall k :: i <= k < |r| ==> r[k].time != NO_TIME
    decreases |r| - i
  {
    hide Cursor;
    if i == |r| {
    } else {
      CountReaches(t, r, i + 1);
    }
  }

  // The readers see exactly the last 63 samples, in order, exactly when none of those carries
  // the unused-point time.
  lemma WindowIsRecentIff(samples: seq<Point>)
    ensures Window(SampledAll(samples)) == Recent(samples)
      <==> forall k :: 0 <= k < |Recent(samples)| ==> Recent(samples)[k].time != NO_TIME
  {
    var t := SampledAll(samples);
    HistoryHolds(samples);
    RecentInRing(t, samples);
    hide History, Recent, Cursor, SampledAll, Window, CountFrom;
    CountReaches(t, Recent(samples), 0);
    WindowIs(t, Recent(samples));
  }

  lemma WindowIs(t: Trend, r: seq<Point>)
    requires Shaped(t) && |r| <= WINDOW && forall k :: 0 <= k < |r| ==> t.point[Cursor(t, k)] == r[k]
    ensures Window(t) == r <==> CountFrom(t, 0) == |r|
  {
    hide Cursor, CountFrom;
  }

  // The recent samples lie in the ring from the first position on, with an unused point behind
  // them while they do not fill the window.
  lemma RecentInRing(t: Trend, samples: seq<Point>)
    requires History(t, samples)
    ensures var r := Recent(samples);
      && |r| <= WINDOW && (forall k :: 0 <= k < |r| ==> t.point[Cursor(t, k)] == r[k])
      && (|r| < WINDOW ==> t.point[Cursor(t, |r|)].time == NO_TIME)
  {
    var r := Recent(samples);
    assert |r| < WINDOW ==> t.point[Cursor(t, |r|)].time == NO_TIME;
    hide Cursor;
    forall i | 0 <= i < |r| ensures t.point[Cursor(t, i)] == r[i] {
      RecentAt(t, samples, i);
    }
  }
}
