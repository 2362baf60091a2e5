// The clamping digit editor shared by user/menu/add_trend_menu.c, edit_trend_menu.c and
// set_time_menu.c: fields of decimal digits, one selected, each keystroke clamped at once.
module DigitEditor {
  import opened Bytes
  import TrendList

  const FIELDS: nat := 6

  datatype Kind = AddTrend | EditTrend | SetTime

  datatype Field = Field(value: nat, min: nat, max: nat, width: nat, selected: bool)

  datatype Key = Digit(d: nat) | Right | Left | Up | Down | Enter | Exit | NoKey

  // `pos` is the cursor column, from 1. `rows` are the edited structures, one member per field,
  // and `cur` the one on screen: the new trend, the copies of all trends, or the time. `inUse`
  // counts the trends in use; `written` is what the time menu last set the clock to.
  datatype Editor = Editor(kind: Kind, fields: seq<Field>, pos: byte, prev: Key, rows: seq<seq<nat>>, cur: nat,
                           inUse: nat, written: Option<seq<nat>>)

  datatype Outcome = Stay | Leave | Store

  // Minimum, maximum, width. Device address, input number, then the four limits.
  const TREND_BOUNDS: seq<(nat, nat, nat)> :=
    [(0, 255, 3), (1, 14, 2), (0, 255, 3), (0, 255, 3), (0, 255, 3), (0, 255, 3)]
  // Hour, minute, second, day, month, year.
  const TIME_BOUNDS: seq<(nat, nat, nat)> := [(0, 23, 2), (0, 59, 2), (0, 59, 2), (1, 31, 2), (1, 12, 2), (0, 99, 2)]

  function Bounds(kind: Kind): (b: seq<(nat, nat, nat)>)
    ensures |b| == FIELDS
  {
    if kind == SetTime then TIME_BOUNDS else TREND_BOUNDS
  }

  predicate Within(kind: Kind, row: seq<nat>) {
    |row| == FIELDS && forall i :: 0 <= i < FIELDS ==> Bounds(kind)[i].0 <= row[i] <= Bounds(kind)[i].1
  }

  // Enough of a shape for every operation.
  predicate Shaped(e: Editor) {
    && |e.fields| == FIELDS && e.cur < |e.rows|
    && (forall r :: 0 <= r < |e.rows| ==> |e.rows[r]| == FIELDS)
    && (e.kind == EditTrend ==> e.inUse <= |e.rows|)
  }

  // The operations -------------------------------------------------------------------------

  // The fields of a row, the first selected.
  function FieldsOf(kind: Kind, row: seq<nat>): (f: seq<Field>)
    requires |row| == FIELDS
    ensures |f| == FIELDS
  {
    seq(FIELDS, i requires 0 <= i < FIELDS =>
      Field(row[i], Bounds(kind)[i].0, Bounds(kind)[i].1, Bounds(kind)[i].2, i == 0))
  }

  // The menu as it opens.
  function Opened(kind: Kind, rows: seq<seq<nat>>, inUse: nat, prev: Key): Editor
    requires 0 < |rows| && |rows[0]| == FIELDS
  {
    Editor(kind, FieldsOf(kind, rows[0]), 1, prev, rows, 0, inUse, None)
  }

  // get_cur_param: the first selected field, 0 if none.
  function CurrentFrom(fields: seq<Field>, i: nat): (r: nat)
    requires i <= |fields|
    ensures 0 < |fields| ==> r < |fields|
    decreases |fields| - i
  {
    if i == |fields| then 0 else if fields[i].selected then i else CurrentFrom(fields, i + 1)
  }

  function Current(e: Editor): (r: nat)
    ensures |e.fields| == FIELDS ==> r < FIELDS
  {
    CurrentFrom(e.fields, 0)
  }

  // pos_to_right
  function ToRight(e: Editor): (e': Editor)
    requires |e.fields| == FIELDS
    ensures |e'.fields| == FIELDS
  {
    var cur := Current(e);
    var f := e.fields[cur];
    var pos: nat := if e.pos == 0 then 1 else if e.pos > f.width then f.width else e.pos;
    if pos < f.width then e.(fields := e.fields[cur := f.(selected := true)], pos := (pos + 1) % 256)
    else
      var next := if cur + 1 >= FIELDS then 0 else cur + 1;
      var fields := e.fields[cur := f.(selected := false)];
      e.(fields := fields[next := fields[next].(selected := true)], pos := 1)
  }

  // The value with one decimal digit replaced, digit 0 being the hundreds.
  function Replaced(value: nat, index: nat, digit: nat): nat
    requires index < 3
  {
    var h, t, u := value / 100, value / 10 % 10, value % 10;
    if index == 0 then 100 * digit + 10 * t + u
    else if index == 1 then 100 * h + 10 * digit + u
    else 100 * h + 10 * t + digit
  }

  function Clamp(x: nat, lo: nat, hi: nat): nat {
    var raised := if x < lo then lo else x;
    if raised > hi then hi else raised
  }

  // The digit the cursor is on; past 2 there is none.
  function DigitIndex(width: nat, pos: byte): byte {
    (3 - width + (pos - 1)) % 256
  }

  // The structure a digit is stored into: the time menu reads the clock again for it.
  function Base(e: Editor, now: seq<nat>): (b: seq<nat>)
    requires Shaped(e) && |now| == FIELDS
    ensures |b| == FIELDS
  {
    if e.kind == SetTime then now else e.rows[e.cur]
  }

  // A value enters field k and the edited structure; the time menu sets the clock to all of it.
  function Put(e: Editor, k: nat, value: nat, now: seq<nat>): (e': Editor)
    requires Shaped(e) && k < FIELDS && |now| == FIELDS
    ensures Shaped(e')
  {
    var row := Base(e, now)[k := value];
    e.(fields := e.fields[k := e.fields[k].(value := value)], rows := e.rows[e.cur := row],
       written := if e.kind == SetTime then Some(row) else e.written)
  }

  // update_param_value and update_date_time_value on the selected field.
  function Typed(e: Editor, digit: nat, now: seq<nat>): (e': Editor)
    requires Shaped(e) && |now| == FIELDS
    ensures Shaped(e')
  {
    var cur := Current(e);
    var f := e.fields[cur];
    var index := DigitIndex(f.width, e.pos);
    if index >= 3 then e.(rows := e.rows[e.cur := Base(e, now)])
    else ToRight(Put(e, cur, Clamp(Replaced(f.value, index, digit), f.min, f.max), now))
  }

  // KEY_UP and KEY_DOWN in the edit menu: another trend's fields, the cursor column left alone.
  function Switched(e: Editor, row: nat): (e': Editor)
    requires Shaped(e) && row < |e.rows|
    ensures Shaped(e')
  {
    e.(cur := row, fields := FieldsOf(e.kind, e.rows[row]))
  }

  predicate Full(e: Editor) {
    e.kind == AddTrend && e.inUse >= TrendList.TREND_MAX
  }

  // One pass of the menu with a key; `now` is the clock as a digit reads it. Digits act when the
  // key changed, in the edit menu every key; a full trend list takes nothing.
  function Pressed(e: Editor, k: Key, now: seq<nat>): (e': Editor)
    requires Shaped(e) && |now| == FIELDS
    ensures Shaped(e')
  {
    var once := e.prev != k;
    var e' :=
      if Full(e) then e
      else match k
        case Digit(d) => if once then Typed(e, d, now) else e
        case Right => if once || e.kind != EditTrend then ToRight(e) else e
        case Up => if once && e.kind == EditTrend then Switched(e, if e.cur > 0 then e.cur - 1 else e.cur) else e
        case Down => if once && e.kind == EditTrend
          then Switched(e, if e.cur + 1 < e.inUse then e.cur + 1 else e.cur) else e
        case _ => e;
    e'.(prev := k)
  }

  // Does the pass leave the menu, and does it store what was edited?
  function Result(e: Editor, k: Key): Outcome {
    match e.kind
    case SetTime => if k == Left || k == Enter then Leave else Stay
    case AddTrend =>
      if k == Left || k == Exit then Leave
      else if k == Down || k == Enter then (if Full(e) then Leave else Store)
      else Stay
    case EditTrend =>
      if e.prev == k then Stay
      else if k == Left || k == Enter then Store
      else if k == Exit then Leave
      else Stay
  }

  // The time menu first shows the clock: in the structure and in every field but the selected.
  function Refreshed(e: Editor, shown: seq<nat>): (e': Editor)
    requires Shaped(e) && |shown| == FIELDS
    ensures Shaped(e')
  {
    if e.kind != SetTime then e
    else e.(rows := e.rows[e.cur := shown],
            fields := seq(FIELDS, i requires 0 <= i < FIELDS =>
              if e.fields[i].selected then e.fields[i] else e.fields[i].(value := shown[i])))
  }

  // What the clock says when a pass shows it and when a digit is stored.
  datatype Reading = Reading(shown: seq<nat>, now: seq<nat>)

  predicate ReadingOk(r: Reading) {
    Within(SetTime, r.shown) && Within(SetTime, r.now)
  }

  function Passed(e: Editor, k: Key, r: Reading): (e': Editor)
    requires Shaped(e) && ReadingOk(r)
    ensures Shaped(e')
  {
    Pressed(Refreshed(e, r.shown), k, r.now)
  }

  class Menu {
    const kind: Kind
    var fields: seq<Field>
    var pos: byte
    var prevKey: Key
    var rows: seq<seq<nat>>
    var curTrend: nat
    var inUse: nat
    var written: Option<seq<nat>>

    function View(): Editor
      reads this
    {
      Editor(kind, fields, pos, prevKey, rows, curTrend, inUse, written)
    }

    // init_add_trend_menu, init_edit_trend_menu and init_time_menu
    constructor (kind: Kind, rows: seq<seq<nat>>, inUse: nat, prev: Key)
      requires 0 < |rows| && |rows[0]| == FIELDS
      ensures View() == Opened(kind, rows, inUse, prev)
      ensures pos == 1 && curTrend == 0 && written == None && |fields| == 6
      ensures this.kind == kind && this.rows == rows && this.inUse == inUse && prevKey == prev
      ensures forall j :: 0 <= j < 6 ==> fields[j].value == rows[0][j] && (fields[j].selected <==> j == 0)
    {
      this.kind, this.rows, this.inUse := kind, rows, inUse;
      fields := FieldsOf(kind, rows[0]);
      pos, prevKey, curTrend, written := 1, prev, 0, None;
    }

    method GetCurParam() returns (cur: nat)
      requires |fields| == FIELDS
      ensures cur == Current(View())
    {
      cur := 0;
      for i := 0 to FIELDS
        invariant cur == 0 && Current(View()) == CurrentFrom(fields, i)
      {
        if fields[i].selected {
          return i;
        }
      }
    }

    method PosToRight()
      requires |fields| == FIELDS
      modifies this
      ensures View() == ToRight(old(View()))
    {
      var cur := GetCurParam();
      fields := fields[cur := fields[cur].(selected := true)];
      var width := fields[cur].width;
      var p: nat := pos;
      if p == 0 {
        p := 1;
      }
      if p > width {
        p := width;
      }
      if p < width {
        pos := (p + 1) % 256;
      } else {
        fields := fields[cur := fields[cur].(selected := false)];
        cur := cur + 1;
        if cur >= FIELDS {
          cur := 0;
        }
        fields := fields[cur := fields[cur].(selected := true)];
        pos := 1;
      }
    }

    // The subtraction loops that split a value into three digits.
    method SplitDigits(value: nat) returns (digits: seq<nat>)
      ensures digits == [value / 100, value / 10 % 10, value % 10]
    {
      var rest, h, t := value, 0, 0;
      while rest >= 100
        invariant 0 <= rest && value == 100 * h + rest
      {
        rest, h := rest - 100, h + 1;
      }
      while rest >= 10
        invariant 0 <= rest < 100 && value == 100 * h + 10 * t + rest && 0 <= t && 10 * t + rest < 100
      {
        rest, t := rest - 10, t + 1;
      }
      DigitsUnique(value, h, t, rest);
      digits := [h, t, rest];
    }

    // update_param_value, and update_date_time_value with its clock reading and setting.
    method UpdateParamValue(cur: nat, num: nat, now: seq<nat>)
      requires Shaped(View()) && cur == Current(View()) && |now| == FIELDS
      modifies this
      ensures View() == Typed(old(View()), num, now)
    {
      hide ToRight, Bounds, CurrentFrom;
      if kind == SetTime {
        rows := rows[curTrend := now];
      }
      var numbers := SplitDigits(fields[cur].value);
      var index := DigitIndex(fields[cur].width, pos);
      if index >= 3 {
        assert kind != SetTime ==> rows == rows[curTrend := rows[curTrend]];
        return;
      }
      numbers := numbers[index := num];
      var value: nat := numbers[0] * 100 + numbers[1] * 10 + numbers[2];
      if value < fields[cur].min {
        value := fields[cur].min;
      }
      if value > fields[cur].max {
        value := fields[cur].max;
      }
      var row: seq<nat> := rows[curTrend][cur := value];
      rows := rows[curTrend := row];
      fields := fields[cur := fields[cur].(value := value)];
      if kind == SetTime {
        written := Some(rows[curTrend]);
      }
      assert View() == Put(old(View()), cur, value, now);
      PosToRight();
    }

    // One pass behind the display: what the key does, and whether it leaves the menu.
    method Press(k: Key, now: seq<nat>) returns (out: Outcome)
      requires Shaped(View()) && |now| == FIELDS
      modifies this
      ensures View() == Pressed(old(View()), k, now) && out == Result(old(View()), k)
      ensures kind == SetTime ==> out != Store && (out == Leave <==> k == Left || k == Enter)
      ensures kind == AddTrend ==> (out == Store <==> (k == Down || k == Enter) && inUse < 3)
      ensures kind == AddTrend ==>
        (out == Leave <==> k == Left || k == Exit || ((k == Down || k == Enter) && inUse >= 3))
      ensures kind == EditTrend ==> (out == Store <==> old(prevKey) != k && (k == Left || k == Enter))
      ensures kind == EditTrend ==> (out == Leave <==> old(prevKey) != k && k == Exit)
    {
      hide Typed, ToRight;
      out := Stay;
      if kind == AddTrend && inUse >= TrendList.TREND_MAX {
        if k == Left || k == Exit || k == Down || k == Enter {
          out := Leave;
        }
      } else if kind != EditTrend || k != prevKey {
        match k
        case Digit(d) =>
          if prevKey != k {
            var cur := GetCurParam();
            UpdateParamValue(cur, d, now);
          }
        case Right => PosToRight();
        case Left => out := if kind == EditTrend then Store else Leave;
        case Enter => out := if kind == SetTime then Leave else Store;
        case Exit => out := if kind == SetTime then Stay else Leave;
        case Up =>
          if kind == EditTrend {
            if curTrend > 0 {
              curTrend := curTrend - 1;
            }
            fields := FieldsOf(kind, rows[curTrend]);
          }
        case Down =>
          if kind == AddTrend {
            out := Store;
          } else if kind == EditTrend {
            if curTrend + 1 < inUse {
              curTrend := curTrend + 1;
            }
            fields := FieldsOf(kind, rows[curTrend]);
          }
        case NoKey =>
      }
      prevKey := k;
    }

    // The reading loop of update_time_menu.
    method ShowClock(shown: seq<nat>)
      requires Shaped(View()) && kind == SetTime && |shown| == FIELDS
      modifies this
      ensures View() == Refreshed(old(View()), shown)
    {
      rows := rows[curTrend := shown];
      for i := 0 to FIELDS
        invariant |fields| == FIELDS && View() == old(View()).(rows := rows, fields := fields)
        invariant rows == old(rows)[curTrend := shown]
        invariant forall j :: 0 <= j < FIELDS ==>
          fields[j] == if j < i && !old(fields)[j].selected then old(fields)[j].(value := shown[j]) else old(fields)[j]
      {
        if !fields[i].selected {
          fields := fields[i := fields[i].(value := shown[i])];
        }
      }
      assert fields == Refreshed(old(View()), shown).fields;
    }
  }

  lemma DigitsUnique(value: nat, h: nat, t: nat, u: nat)
    requires value == 100 * h + 10 * t + u && t < 10 && u < 10
    ensures value / 100 == h && value / 10 % 10 == t && value % 10 == u
  {
    assert value / 10 == 10 * h + t;
  }

  // Legal states ---------------------------------------------------------------------------

  ghost predicate SelectedIs(e: Editor, i: nat)
    requires |e.fields| == FIELDS
  {
    i < FIELDS && forall j :: 0 <= j < FIELDS ==> (e.fields[j].selected <==> j == i)
  }

  // The fields carry the menu's bounds and values within them; in the trend menus they show the
  // row on screen.
  ghost predicate FieldsOk(e: Editor)
    requires Shaped(e)
  {
    forall j :: 0 <= j < FIELDS ==>
      var f := e.fields[j];
      && (f.min, f.max, f.width) == Bounds(e.kind)[j] && f.min <= f.value <= f.max
      && (e.kind != SetTime ==> f.value == e.rows[e.cur][j])
  }

  // Field i and no other is selected, the cursor is inside it, everything stored is in bounds.
  ghost predicate At(e: Editor, i: nat) {
    && Shaped(e) && FieldsOk(e) && SelectedIs(e, i) && 1 <= e.pos <= e.fields[i].width
    && forall r :: 0 <= r < |e.rows| ==> Within(e.kind, e.rows[r])
  }

  lemma {:induction false} CurrentIs(e: Editor, k: nat, i: nat)
    requires |e.fields| == FIELDS && SelectedIs(e, k) && i <= k
    ensures CurrentFrom(e.fields, i) == k
    decreases k - i
  {
    if i == k {
    } else {
      CurrentIs(e, k, i + 1);
    }
  }

  function NextField(k: nat): nat {
    if k + 1 >= FIELDS then 0 else k + 1
  }

  // The cursor moves one column on, or to the first column of the next field.
  lemma ToRightMoves(e: Editor, k: nat)
    requires At(e, k)
    ensures var e' := ToRight(e);
      && e' == e.(fields := e'.fields, pos := e'.pos)
      && (forall i :: 0 <= i < FIELDS ==> e'.fields[i].(selected := false) == e.fields[i].(selected := false))
      && (if e.pos < e.fields[k].width then At(e', k) && e'.pos == e.pos + 1
          else At(e', NextField(k)) && e'.pos == 1)
  {
    CurrentIs(e, k, 0);
    WidthsOk(e);
    hide Within, CurrentFrom, Bounds;
  }

  lemma WidthsOk(e: Editor)
    requires Shaped(e) && FieldsOk(e)
    ensures forall i :: 0 <= i < FIELDS ==>
      && 2 <= e.fields[i].width <= 3
      && e.fields[i].max < (if e.fields[i].width == 2 then 100 else 1000)
  {
  }

  lemma ClampInRange(x: nat, lo: nat, hi: nat)
    requires lo <= hi
    ensures lo <= Clamp(x, lo, hi) <= hi
  {
  }

  lemma PutStaysLegal(e: Editor, k: nat, value: nat, now: seq<nat>)
    requires At(e, k) && Within(SetTime, now) && e.fields[k].min <= value <= e.fields[k].max
    ensures At(Put(e, k, value, now), k)
  {
    assert Within(e.kind, Base(e, now));
    assert Within(e.kind, Base(e, now)[k := value]);
    hide Within, Bounds;
  }

  // A digit on a legal state is stored, clamped, and moves the cursor.
  lemma TypedIs(e: Editor, k: nat, d: nat, now: seq<nat>)
    requires At(e, k) && Within(SetTime, now)
    ensures var f := e.fields[k];
      var index := 3 - f.width + e.pos - 1;
      && 0 <= index < 3
      && var value := Clamp(Replaced(f.value, index, d), f.min, f.max);
         f.min <= value <= f.max && Typed(e, d, now) == ToRight(Put(e, k, value, now))
  {
    CurrentIs(e, k, 0);
    WidthsOk(e);
    var f := e.fields[k];
    ClampInRange(Replaced(f.value, 3 - f.width + e.pos - 1, d), f.min, f.max);
    assert DigitIndex(f.width, e.pos) == 3 - f.width + e.pos - 1;
    hide Within, Bounds, CurrentFrom, Put, ToRight, Replaced, Clamp, DigitIndex;
  }

  lemma SwitchStaysLegal(e: Editor, k: nat, row: nat, key: Key)
    requires At(e, k) && e.kind == EditTrend && row < |e.rows|
    ensures At(Switched(e, row), 0) && At(Switched(e, row).(prev := key), 0)
  {
    WidthsOk(e);
    assert Within(EditTrend, e.rows[row]);
    assert Switched(e, row).fields[0].width == 3;
  }

  // A pass keeps a legal state legal: the same field, the next one, or the first.
  lemma PressStaysLegal(e: Editor, k: nat, key: Key, now: seq<nat>) returns (k': nat)
    requires At(e, k) && Within(SetTime, now)
    ensures At(Pressed(e, key, now), k')
  {
    hide Typed, ToRight, Put, Switched, Bounds, FieldsOk, Replaced, Clamp;
    k' := k;
    PrevKeyFree(e, k, key);
    if !Full(e) {
      match key
      case Digit(d) =>
        if e.prev != key {
          TypedIs(e, k, d, now);
          var f := e.fields[k];
          var value := Clamp(Replaced(f.value, 3 - f.width + e.pos - 1, d), f.min, f.max);
          PutStaysLegal(e, k, value, now);
          k' := MoveStaysLegal(Put(e, k, value, now), k, key);
        }
      case Right =>
        if e.prev != key || e.kind != EditTrend {
          k' := MoveStaysLegal(e, k, key);
        }
      case Up =>
        if e.prev != key && e.kind == EditTrend {
          SwitchStaysLegal(e, k, if e.cur > 0 then e.cur - 1 else e.cur, key);
          k' := 0;
        }
      case Down =>
        if e.prev != key && e.kind == EditTrend {
          SwitchStaysLegal(e, k, if e.cur + 1 < e.inUse then e.cur + 1 else e.cur, key);
          k' := 0;
        }
      case _ =>
    }
  }

  lemma MoveStaysLegal(e: Editor, k: nat, key: Key) returns (k': nat)
    requires At(e, k)
    ensures At(ToRight(e), k') && At(ToRight(e).(prev := key), k')
  {
    ToRightMoves(e, k);
    k' := if e.pos < e.fields[k].width then k else NextField(k);
    hide ToRight, FieldsOk, Within;
    PrevKeyFree(ToRight(e), k', key);
  }

  // The remembered key does not matter to a state's legality.
  lemma PrevKeyFree(e: Editor, k: nat, key: Key)
    requires |e.fields| == FIELDS && (At(e, k) || At(e.(prev := key), k))
    ensures At(e.(prev := key), k)
  {
  }

  lemma RefreshStaysLegal(e: Editor, k: nat, shown: seq<nat>)
    requires At(e, k) && Within(SetTime, shown)
    ensures var e' := Refreshed(e, shown);
      && At(e', k) && e'.fields[k] == e.fields[k]
      && e' == e.(fields := e'.fields, rows := e'.rows) && (e.kind != SetTime ==> e' == e)
  {
  }

  datatype Pass = Pass(key: Key, reading: Reading)

  predicate PassesOk(passes: seq<Pass>) {
    forall i :: 0 <= i < |passes| ==> ReadingOk(passes[i].reading)
  }

  function PassedAll(e: Editor, passes: seq<Pass>): (e': Editor)
    requires Shaped(e) && PassesOk(passes)
    ensures Shaped(e')
    decreases passes
  {
    if passes == [] then e
    else
      assert ReadingOk(passes[0].reading);
      PassedAll(Passed(e, passes[0].key, passes[0].reading), passes[1..])
  }

  // Over every run of passes, in each of the menus, exactly one field is selected, the cursor is
  // inside it, and every value on screen and in the edited structures is in bounds.
  lemma {:induction false} RunStaysLegal(e: Editor, k: nat, passes: seq<Pass>) returns (k': nat)
    requires Shaped(e) && At(e, k) && PassesOk(passes)
    ensures var e' := PassedAll(e, passes);
      At(e', k') && e'.kind == e.kind && |e'.rows| == |e.rows| && e'.inUse == e.inUse
    decreases passes
  {
    hide At, Pressed, Refreshed, Bounds;
    if passes == [] {
      k' := k;
    } else {
      assert ReadingOk(passes[0].reading);
      var key, r := passes[0].key, passes[0].reading;
      RefreshStaysLegal(e, k, r.shown);
      k' := PressStaysLegal(Refreshed(e, r.shown), k, key, r.now);
      PassKeepsFrame(e, key, r);
      k' := RunStaysLegal(Passed(e, key, r), k', passes[1..]);
    }
  }

  lemma PassKeepsFrame(e: Editor, key: Key, r: Reading)
    requires Shaped(e) && ReadingOk(r)
    ensures var e' := Passed(e, key, r);
      e'.kind == e.kind && |e'.rows| == |e.rows| && e'.inUse == e.inUse
  {
    hide Within;
  }

  lemma {:induction false} RunKeepsFrame(e: Editor, passes: seq<Pass>)
    requires Shaped(e) && PassesOk(passes)
    ensures var e' := PassedAll(e, passes);
      e'.kind == e.kind && |e'.rows| == |e.rows| && e'.inUse == e.inUse
    decreases passes
  {
    hide Passed;
    if passes != [] {
      assert ReadingOk(passes[0].reading);
      PassKeepsFrame(e, passes[0].key, passes[0].reading);
      RunKeepsFrame(Passed(e, passes[0].key, passes[0].reading), passes[1..]);
    }
  }

  // Typing a number ------------------------------------------------------------------------

  // The leading i of three digits, and digit i.
  function Leading(v: nat, i: nat): nat
    requires i <= 3
  {
    if i == 0 then v / 1000 else if i == 1 then v / 100 else if i == 2 then v / 10 else v
  }

  function DigitOf(v: nat, i: nat): nat
    requires i < 3
  {
    if i == 0 then v / 100 % 10 else if i == 1 then v / 10 % 10 else v % 10
  }

  lemma LeadingOf(value: nat, h: nat, t: nat, u: nat)
    requires value == 100 * h + 10 * t + u && h < 10 && t < 10 && u < 10
    ensures Leading(value, 0) == 0 && Leading(value, 1) == h && Leading(value, 2) == 10 * h + t &&
      Leading(value, 3) == value
    ensures DigitOf(value, 0) == h && DigitOf(value, 1) == t && DigitOf(value, 2) == u
  {
    DigitsUnique(value, h, t, u);
  }

  lemma ThreeDigits(value: nat) returns (h: nat, t: nat, u: nat)
    requires value < 1000
    ensures value == 100 * h + 10 * t + u && h < 10 && t < 10 && u < 10
    ensures h == value / 100 && t == value / 10 % 10 && u == value % 10
  {
    h, t, u := value / 100, value / 10 % 10, value % 10;
    assert value / 100 == value / 10 / 10;
  }

  lemma ReplacedShares(x: nat, v: nat, i: nat)
    requires x < 1000 && v < 1000 && i < 3 && Leading(x, i) == Leading(v, i)
    ensures Leading(Replaced(x, i, DigitOf(v, i)), i + 1) == Leading(v, i + 1)
  {
    var h, t, u := ThreeDigits(x);
    var a, b, c := ThreeDigits(v);
    LeadingOf(x, h, t, u);
    LeadingOf(v, a, b, c);
    var y := Replaced(x, i, DigitOf(v, i));
    assert y == if i == 0 then 100 * a + 10 * t + u else if i == 1 then 100 * h + 10 * b + u else 100 * h + 10 * t + c;
    hide Leading, DigitOf, Replaced;
    LeadingOf(y, if i == 0 then a else h, if i == 1 then b else t, if i == 2 then c else u);
  }

  // Clamping towards a range that contains v cannot leave the block of numbers that share
  // v's leading digits.
  lemma ClampShares(y: nat, v: nat, i: nat, lo: nat, hi: nat)
    requires i <= 3 && lo <= v <= hi && Leading(y, i) == Leading(v, i)
    ensures Leading(Clamp(y, lo, hi), i) == Leading(v, i)
  {
  }

  // The clock over one digit: at the pass before it, when no key is down, and at its own pass.
  datatype Stroke = Stroke(before: Reading, at: Reading)

  predicate StrokeOk(s: Stroke) {
    ReadingOk(s.before) && ReadingOk(s.at)
  }

  // Key up, key down.
  function DigitTyped(e: Editor, d: nat, s: Stroke): (e': Editor)
    requires Shaped(e) && StrokeOk(s)
    ensures Shaped(e')
  {
    Passed(Passed(e, NoKey, s.before), Digit(d), s.at)
  }

  // The state a digit acts on: the clock shown, no key remembered; field k untouched.
  lemma ReadyForDigit(e: Editor, k: nat, s: Stroke)
    requires At(e, k) && StrokeOk(s)
    ensures var r := Refreshed(Passed(e, NoKey, s.before), s.at.shown);
      && At(r, k) && r.fields[k] == e.fields[k] && r.prev == NoKey
      && r == e.(fields := r.fields, rows := r.rows, prev := NoKey) && (e.kind != SetTime ==> r.rows == e.rows)
  {
    hide FieldsOk, Bounds;
    RefreshStaysLegal(e, k, s.before.shown);
    var r0 := Refreshed(e, s.before.shown);
    assert Passed(e, NoKey, s.before) == r0.(prev := NoKey);
    PrevKeyFree(r0, k, NoKey);
    RefreshStaysLegal(r0.(prev := NoKey), k, s.at.shown);
    hide Refreshed, Passed, Pressed;
  }

  // Where field k and the cursor stand, and what was stored, after a digit brought it to x.
  ghost predicate Landed(e: Editor, e': Editor, k: nat, x: nat, s: Stroke)
    requires Shaped(e) && Shaped(e') && k < FIELDS && StrokeOk(s)
  {
    var row := Base(e, s.at.now)[k := x];
    && e' == e.(fields := e'.fields, pos := e'.pos, prev := e'.prev, rows := e.rows[e.cur := row],
                written := if e.kind == SetTime then Some(row) else e.written)
    && e'.fields[k].value == x
    && (e'.fields[k].min, e'.fields[k].max, e'.fields[k].width) == (e.fields[k].min, e.fields[k].max, e.fields[k].width)
    && (if e.pos < e.fields[k].width then At(e', k) && e'.pos == e.pos + 1 else At(e', NextField(k)) && e'.pos == 1)
  }

  // A pass with a fresh digit stores it, clamped.
  lemma DigitStored(e: Editor, k: nat, d: nat, s: Stroke) returns (x: nat)
    requires At(e, k) && !Full(e) && StrokeOk(s)
    ensures var f := e.fields[k];
      var i := 3 - f.width + e.pos - 1;
      && 0 <= i < 3 && x == Clamp(Replaced(f.value, i, d), f.min, f.max)
      && Landed(e, DigitTyped(e, d, s), k, x, s)
  {
    hide Bounds, CurrentFrom, FieldsOk, Replaced, Clamp, DigitIndex;
    ReadyForDigit(e, k, s);
    var r := Refreshed(Passed(e, NoKey, s.before), s.at.shown);
    TypedIs(r, k, d, s.at.now);
    var f := r.fields[k];
    x := Clamp(Replaced(f.value, 3 - f.width + e.pos - 1, d), f.min, f.max);
    PutStaysLegal(r, k, x, s.at.now);
    var put := Put(r, k, x, s.at.now);
    ToRightMoves(put, k);
    assert DigitTyped(e, d, s) == ToRight(put).(prev := Digit(d));
    PrevKeyFree(ToRight(put), if e.pos < f.width then k else NextField(k), Digit(d));
    assert r.rows[r.cur := Base(r, s.at.now)[k := x]] == e.rows[e.cur := Base(e, s.at.now)[k := x]] by {
      OverwrittenRow(e, r, Base(e, s.at.now)[k := x]);
    }
    hide Refreshed, Passed, Pressed, Typed, ToRight, Replaced, Clamp, At, Within;
  }

  lemma OverwrittenRow(e: Editor, r: Editor, row: seq<nat>)
    requires e.cur == r.cur < |e.rows| == |r.rows|
    requires forall i :: 0 <= i < |e.rows| && i != e.cur ==> r.rows[i] == e.rows[i]
    ensures r.rows[r.cur := row] == e.rows[e.cur := row]
  {
  }

  // Typing the remaining digits of v.
  function NumberTyped(e: Editor, v: nat, i: nat, strokes: seq<Stroke>): (e': Editor)
    requires Shaped(e) && i <= 3 && |strokes| == 3 - i && forall c :: 0 <= c < |strokes| ==> StrokeOk(strokes[c])
    ensures Shaped(e')
    decreases 3 - i
  {
    if i == 3 then e else NumberTyped(DigitTyped(e, DigitOf(v, i), strokes[0]), v, i + 1, strokes[1..])
  }

  // One digit of v: the field shares one more leading digit with v.
  lemma DigitLands(e: Editor, k: nat, v: nat, i: nat, s: Stroke)
    requires At(e, k) && !Full(e) && i < 3 && i == 3 - e.fields[k].width + e.pos - 1 && StrokeOk(s)
    requires e.fields[k].min <= v <= e.fields[k].max && Leading(e.fields[k].value, i) == Leading(v, i)
    ensures var e' := DigitTyped(e, DigitOf(v, i), s);
      var f := e'.fields[k];
      Landed(e, e', k, f.value, s) && Leading(f.value, i + 1) == Leading(v, i + 1)
  {
    var x := DigitStored(e, k, DigitOf(v, i), s);
    DigitShares(e, k, v, i);
    hide DigitTyped, At, Leading, DigitOf, Replaced, Clamp;
  }

  // What the next digit needs to know of the last.
  lemma LandedFrame(e: Editor, e': Editor, k: nat, x: nat, s: Stroke, v: nat, now: seq<nat>)
    requires Shaped(e) && Shaped(e') && k < FIELDS && StrokeOk(s) && |now| == FIELDS
    requires Landed(e, e', k, x, s)
    ensures Full(e') == Full(e) && e'.kind == e.kind && e'.fields[k].value == x
    ensures (e'.fields[k].min, e'.fields[k].max, e'.fields[k].width) ==
      (e.fields[k].min, e.fields[k].max, e.fields[k].width)
    ensures if e.pos < e.fields[k].width then At(e', k) && e'.pos == e.pos + 1 else At(e', NextField(k)) && e'.pos == 1
    ensures e'.rows[e'.cur := Base(e', now)[k := v]] == e.rows[e.cur := Base(e, now)[k := v]]
  {
    hide At;
    var row := Base(e, s.at.now)[k := x];
    assert e'.rows == e.rows[e.cur := row] && e'.cur == e.cur;
    assert Base(e', now)[k := v] == Base(e, now)[k := v];
    OverwrittenRow(e, e', Base(e, now)[k := v]);
  }

  lemma LandedLast(e: Editor, e': Editor, k: nat, x: nat, s: Stroke)
    requires Shaped(e) && Shaped(e') && k < FIELDS && StrokeOk(s)
    requires Landed(e, e', k, x, s)
    ensures var row := Base(e, s.at.now)[k := x];
      e'.rows == e.rows[e.cur := row] && (e.kind == SetTime ==> e'.written == Some(row))
  {
    hide At;
  }

  lemma {:induction false} NumberLands(e: Editor, k: nat, v: nat, i: nat, strokes: seq<Stroke>)
    requires At(e, k) && !Full(e) && i < 3 && i == 3 - e.fields[k].width + e.pos - 1
    requires |strokes| == 3 - i && forall c :: 0 <= c < |strokes| ==> StrokeOk(strokes[c])
    requires e.fields[k].min <= v <= e.fields[k].max && Leading(e.fields[k].value, i) == Leading(v, i)
    ensures var e' := NumberTyped(e, v, i, strokes);
      var row := Base(e, strokes[|strokes| - 1].at.now)[k := v];
      && At(e', NextField(k)) && e'.pos == 1 && e'.fields[k].value == v
      && e'.rows == e.rows[e.cur := row] && (e.kind == SetTime ==> e'.written == Some(row))
    decreases 3 - i
  {
    var s, last := strokes[0], strokes[|strokes| - 1];
    DigitLands(e, k, v, i, s);
    var e1 := DigitTyped(e, DigitOf(v, i), s);
    var x := e1.fields[k].value;
    LandedFrame(e, e1, k, x, s, v, last.at.now);
    LandedLast(e, e1, k, x, s);
    hide DigitTyped, At, FieldsOk, SelectedIs, Leading, DigitOf, Landed, Base, Bounds, Full;
    if e.pos < e.fields[k].width {
      assert strokes[1..][|strokes| - 2] == last;
      NumberLands(e1, k, v, i + 1, strokes[1..]);
    } else {
      LeadingAll(x);
      LeadingAll(v);
      assert NumberTyped(e1, v, 3, strokes[1..]) == e1;
    }
  }

  // A clamped digit of v keeps the field on the way to v.
  lemma DigitShares(e: Editor, k: nat, v: nat, i: nat)
    requires At(e, k) && i < 3 && i == 3 - e.fields[k].width + e.pos - 1
    requires e.fields[k].min <= v <= e.fields[k].max && Leading(e.fields[k].value, i) == Leading(v, i)
    ensures var f := e.fields[k];
      Leading(Clamp(Replaced(f.value, i, DigitOf(v, i)), f.min, f.max), i + 1) == Leading(v, i + 1)
  {
    WidthsOk(e);
    hide Leading, Replaced, Clamp, DigitOf, FieldsOk, Within;
    var f := e.fields[k];
    ReplacedShares(f.value, v, i);
    ClampShares(Replaced(f.value, i, DigitOf(v, i)), v, i + 1, f.min, f.max);
  }

  lemma LeadingAll(v: nat)
    ensures Leading(v, 3) == v
  {
  }

  // From any legal state at the start of a field, typing the field's digits of any value within
  // its bounds stores exactly that value and selects the next field, although every keystroke is
  // clamped. A trend's other members and the other trends stay; the time menu sets the clock to
  // its last reading with that one member replaced.
  lemma TypingEnters(e: Editor, k: nat, v: nat, strokes: seq<Stroke>)
    requires At(e, k) && !Full(e) && e.pos == 1
    requires e.fields[k].min <= v <= e.fields[k].max
    requires |strokes| == e.fields[k].width && forall c :: 0 <= c < |strokes| ==> StrokeOk(strokes[c])
    ensures |strokes| == 2 || |strokes| == 3
    ensures var e' := NumberTyped(e, v, 3 - |strokes|, strokes);
      var row := Base(e, strokes[|strokes| - 1].at.now)[k := v];
      && At(e', NextField(k)) && e'.pos == 1 && e'.fields[k].value == v
      && e'.rows == e.rows[e.cur := row] && (e.kind == SetTime ==> e'.written == Some(row))
  {
    WidthsOk(e);
    assert Leading(e.fields[k].value, 3 - e.fields[k].width) == 0 == Leading(v, 3 - e.fields[k].width);
    hide Leading, At;
    NumberLands(e, k, v, 3 - e.fields[k].width, strokes);
  }

  // What the keys do --------------------------------------------------------------------------

  // When a pass leaves the menu, and when it stores: the time menu never stores and leaves on Left
  // and Enter; the add menu stores on Down and Enter unless the list is full, and leaves on Left,
  // Exit, and on those two when it is; the edit menu stores on Left and Enter and leaves on Exit,
  // each only as the key goes down.
  lemma LeavesAndStores(e: Editor, k: Key)
    ensures e.kind == SetTime ==> Result(e, k) != Store && (Result(e, k) == Leave <==> k == Left || k == Enter)
    ensures e.kind == AddTrend ==>
      && (Result(e, k) == Store <==> (k == Down || k == Enter) && e.inUse < 3)
      && (Result(e, k) == Leave <==> k == Left || k == Exit || ((k == Down || k == Enter) && e.inUse >= 3))
    ensures e.kind == EditTrend ==>
      && (Result(e, k) == Store <==> e.prev != k && (k == Left || k == Enter))
      && (Result(e, k) == Leave <==> e.prev != k && k == Exit)
  {
  }

  // A key held down, a digit of a full list, and the keys that only leave or store change nothing
  // but the remembered key; so do Up and Down outside the edit menu.
  lemma IdleKeys(e: Editor, k: Key, now: seq<nat>)
    requires Shaped(e) && |now| == 6
    requires || k == Left || k == Enter || k == Exit || k == NoKey
             || (k.Digit? && (e.prev == k || (e.kind == AddTrend && e.inUse >= 3)))
             || (k == Right && ((e.kind == EditTrend && e.prev == k) || (e.kind == AddTrend && e.inUse >= 3)))
             || ((k == Up || k == Down) && (e.kind != EditTrend || e.prev == k))
    ensures Pressed(e, k, now) == e.(prev := k)
  {
    hide Typed, ToRight;
  }

  // Right, from a legal state with field i selected: the next column, or the first column of the
  // next field, the first after the last; values and rows stay.
  lemma RightKey(e: Editor, i: nat, now: seq<nat>)
    requires At(e, i) && |now| == 6 && !(e.kind == AddTrend && e.inUse >= 3)
    requires e.kind == EditTrend ==> e.prev != Right
    ensures var e' := Pressed(e, Right, now);
      && e' == e.(fields := e'.fields, pos := e'.pos, prev := Right) && |e'.fields| == 6
      && (forall j :: 0 <= j < 6 ==> e'.fields[j].(selected := false) == e.fields[j].(selected := false))
      && var next := if e.pos < e.fields[i].width then i else if i == 5 then 0 else i + 1;
         && e'.pos == (if e.pos < e.fields[i].width then e.pos + 1 else 1)
         && forall j :: 0 <= j < 6 ==> (e'.fields[j].selected <==> j == next)
  {
    ToRightMoves(e, i);
    hide ToRight, FieldsOk, Within, Bounds;
  }

  // Up and Down in the edit menu, as they go down: the previous or next trend in use, if there is
  // one; its values in the fields, the first field selected, the cursor column where it was.
  lemma UpDownKeys(e: Editor, k: Key, now: seq<nat>)
    requires Shaped(e) && |now| == 6 && e.kind == EditTrend && (k == Up || k == Down) && e.prev != k
    ensures var e' := Pressed(e, k, now);
      && e' == e.(cur := e'.cur, fields := e'.fields, prev := k) && |e'.fields| == 6
      && e'.cur == (if k == Up then (if e.cur > 0 then e.cur - 1 else 0)
                    else if e.cur + 1 < e.inUse then e.cur + 1 else e.cur)
      && forall j :: 0 <= j < 6 ==>
        && e'.fields[j].value == e.rows[e'.cur][j] && (e'.fields[j].selected <==> j == 0)
        && e'.fields[j].min == (if j == 1 then 1 else 0) && e'.fields[j].max == (if j == 1 then 14 else 255)
        && e'.fields[j].width == (if j == 1 then 2 else 3)
  {
    BoundsAre();
    hide Typed, ToRight, Bounds;
  }

  // The fields' limits and widths: a trend's input number runs from 1 to 14, its other five
  // members from 0 to 255; hours, minutes, seconds, day, month and year as a clock has them.
  lemma BoundsAre()
    ensures forall kind :: kind != SetTime ==>
      forall j :: 0 <= j < 6 ==> Bounds(kind)[j] == if j == 1 then (1, 14, 2) else (0, 255, 3)
    ensures Bounds(SetTime) == [(0, 23, 2), (0, 59, 2), (0, 59, 2), (1, 31, 2), (1, 12, 2), (0, 99, 2)]
  {
  }

  // The time menu shows the clock in every field but the selected one, and takes it as the
  // structure to edit; the other menus show nothing of it.
  lemma ShowsClock(e: Editor, shown: seq<nat>)
    requires Shaped(e) && |shown| == 6
    ensures var e' := Refreshed(e, shown);
      if e.kind == SetTime then
        && e' == e.(fields := e'.fields, rows := e'.rows) && |e'.fields| == 6 && |e'.rows| == |e.rows|
        && (forall r :: 0 <= r < |e.rows| ==> e'.rows[r] == if r == e.cur then shown else e.rows[r])
        && forall j :: 0 <= j < 6 ==>
          e'.fields[j] == if e.fields[j].selected then e.fields[j] else e.fields[j].(value := shown[j])
      else e' == e
  {
  }

  // Typing as passes -------------------------------------------------------------------------

  function TypingPasses(v: nat, i: nat, strokes: seq<Stroke>): seq<Pass>
    requires i <= 3 && |strokes| == 3 - i
    decreases 3 - i
  {
    if i == 3 then []
    else
      [Pass(NoKey, strokes[0].before), Pass(Digit(DigitOf(v, i)), strokes[0].at)]
      + TypingPasses(v, i + 1, strokes[1..])
  }

  predicate StrokesOk(strokes: seq<Stroke>) {
    forall c :: 0 <= c < |strokes| ==> StrokeOk(strokes[c])
  }

  lemma {:induction false} PassesType(e: Editor, v: nat, i: nat, strokes: seq<Stroke>)
    requires Shaped(e) && i <= 3 && |strokes| == 3 - i && StrokesOk(strokes)
    ensures PassesOk(TypingPasses(v, i, strokes))
    ensures PassedAll(e, TypingPasses(v, i, strokes)) == NumberTyped(e, v, i, strokes)
    ensures i < 3 ==> NumberTyped(e, v, i, strokes).prev.Digit?
    decreases 3 - i
  {
    hide ReadingOk, Pressed, Refreshed;
    if i == 3 {
    } else {
      var s := strokes[0];
      assert StrokeOk(s);
      var d, more := Digit(DigitOf(v, i)), TypingPasses(v, i + 1, strokes[1..]);
      var e1, e2 := Passed(e, NoKey, s.before), DigitTyped(e, DigitOf(v, i), s);
      PassesType(e2, v, i + 1, strokes[1..]);
      var passes := TypingPasses(v, i, strokes);
      assert passes[0] == Pass(NoKey, s.before) && passes[1..][0] == Pass(d, s.at) && passes[1..][1..] == more;
      forall c | 0 <= c < |passes| ensures ReadingOk(passes[c].reading) {
        assert c >= 2 ==> passes[c] == more[c - 2];
      }
      assert PassedAll(e, passes) == PassedAll(e1, passes[1..]) == PassedAll(e2, more);
      PassRemembers(e1, d, s.at);
    }
  }

  // Typing stays on the row on screen.
  lemma {:induction false} TypingStaysOnRow(e: Editor, v: nat, i: nat, strokes: seq<Stroke>)
    requires Shaped(e) && i <= 3 && |strokes| == 3 - i && StrokesOk(strokes)
    ensures var e' := NumberTyped(e, v, i, strokes);
      e'.cur == e.cur && e'.kind == e.kind && e'.inUse == e.inUse
    decreases 3 - i
  {
    hide StrokeOk, DigitOf;
    if i == 3 {
    } else {
      assert StrokeOk(strokes[0]);
      DigitStaysOnRow(e, DigitOf(v, i), strokes[0]);
      TypingStaysOnRow(DigitTyped(e, DigitOf(v, i), strokes[0]), v, i + 1, strokes[1..]);
    }
  }

  lemma DigitStaysOnRow(e: Editor, d: nat, s: Stroke)
    requires Shaped(e) && StrokeOk(s)
    ensures var e' := DigitTyped(e, d, s);
      e'.cur == e.cur && e'.kind == e.kind && e'.inUse == e.inUse
  {
    hide Within, Replaced, Clamp, DigitIndex, Bounds;
  }

  lemma PassRemembers(e: Editor, k: Key, r: Reading)
    requires Shaped(e) && ReadingOk(r)
    ensures Passed(e, k, r).prev == k
  {
    hide Typed, ToRight, Switched;
  }

  lemma {:induction false} PassesFollow(e: Editor, a: seq<Pass>, b: seq<Pass>)
    requires Shaped(e) && PassesOk(a) && PassesOk(b)
    ensures PassesOk(a + b) && PassedAll(e, a + b) == PassedAll(PassedAll(e, a), b)
    decreases a
  {
    hide ReadingOk, Passed;
    forall i | 0 <= i < |a + b| ensures ReadingOk((a + b)[i].reading) {
      assert (a + b)[i] == if i < |a| then a[i] else b[i - |a|];
    }
    if a == [] {
      assert a + b == b;
    } else {
      assert ReadingOk(a[0].reading) && (a + b)[0] == a[0] && (a + b)[1..] == a[1..] + b;
      PassesFollow(Passed(e, a[0].key, a[0].reading), a[1..], b);
    }
  }

  // Moving about: no digits.
  predicate OnlyMoves(passes: seq<Pass>) {
    forall i :: 0 <= i < |passes| ==> !passes[i].key.Digit?
  }

  // Without digits the trend menus' rows stay as they were.
  lemma {:induction false} MovesKeepRows(e: Editor, passes: seq<Pass>)
    requires Shaped(e) && e.kind != SetTime && PassesOk(passes) && OnlyMoves(passes)
    ensures PassedAll(e, passes).rows == e.rows
    decreases passes
  {
    hide ReadingOk, Passed;
    if passes == [] {
    } else {
      assert ReadingOk(passes[0].reading) && !passes[0].key.Digit?;
      MoveKeepsRows(e, passes[0].key, passes[0].reading);
      MovesKeepRows(Passed(e, passes[0].key, passes[0].reading), passes[1..]);
    }
  }

  lemma MoveKeepsRows(e: Editor, k: Key, r: Reading)
    requires Shaped(e) && e.kind != SetTime && ReadingOk(r) && !k.Digit?
    ensures Passed(e, k, r).rows == e.rows && Passed(e, k, r).kind == e.kind
  {
    hide Typed, Within, CurrentFrom;
  }

  // The menus open legally exactly on values within their bounds; the add menu, on a fresh trend,
  // always does.
  lemma MenusOpenIff(kind: Kind, rows: seq<seq<nat>>, inUse: nat, prev: Key)
    requires 0 < |rows| && (forall r :: 0 <= r < |rows| ==> |rows[r]| == FIELDS) &&
      (kind == EditTrend ==> inUse <= |rows|)
    ensures At(Opened(kind, rows, inUse, prev), 0) <==> forall r :: 0 <= r < |rows| ==> Within(kind, rows[r])
    ensures At(Opened(AddTrend, [[0, 1, 255, 255, 0, 0]], inUse, prev), 0)
  {
    OpensLegally(kind, rows, inUse, prev);
    OpensLegally(AddTrend, [[0, 1, 255, 255, 0, 0]], inUse, prev);
  }

  lemma OpensLegally(kind: Kind, rows: seq<seq<nat>>, inUse: nat, prev: Key)
    requires 0 < |rows| && (forall r :: 0 <= r < |rows| ==> |rows[r]| == FIELDS) &&
      (kind == EditTrend ==> inUse <= |rows|)
    ensures At(Opened(kind, rows, inUse, prev), 0) <==> forall r :: 0 <= r < |rows| ==> Within(kind, rows[r])
  {
    var e := Opened(kind, rows, inUse, prev);
    assert FieldsOk(e) <==> Within(kind, rows[0]);
    assert e.fields[0].width >= 2;
    hide FieldsOk, Within;
  }
}
