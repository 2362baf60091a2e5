// The trend menus over the trend list: sessions of the add, edit and delete menus, samples and
// reboots (user/menu/add_trend_menu.c, edit_trend_menu.c, delete_trend_menu.c, user/trend_data.c).
module TrendMenus {
  import opened Bytes
  import opened TrendRing
  import opened TrendList
  import E = DigitEditor

  // A trend's limits as the menus show them, and back; the trend keeps 8 bits of a field.
  function RowOf(l: Limits): (row: seq<nat>)
    ensures |row| == E.FIELDS
  {
    [l.devAddr, l.inpNum, l.maxAlarm, l.maxWarn, l.minAlarm, l.minWarn]
  }

  function LimitsOf(row: seq<nat>): Limits
    requires |row| == E.FIELDS
  {
    Limits(row[5] % 256, row[4] % 256, row[3] % 256, row[2] % 256, row[1] % 256, row[0] % 256)
  }

  datatype State = State(trends: seq<Trend>, cnt: byte, backup: Backup)

  ghost predicate StateShape(s: State) {
    && |s.trends| == TREND_MAX && s.cnt <= TREND_MAX && BackupShape(s.backup)
    && forall i :: 0 <= i < TREND_MAX ==> TrendRing.Shaped(s.trends[i])
  }

  datatype Event =
    | AddMenu(prev: E.Key, passes: seq<E.Pass>, last: E.Key)
    | EditMenu(prev: E.Key, passes: seq<E.Pass>, last: E.Key)
    | DeleteMenu(num: byte)
    | FromCan(node: byte, input: byte, value: byte, now: u32)
    | Reboot

  predicate EventOk(e: Event) {
    match e
    case AddMenu(_, passes, _) => E.PassesOk(passes)
    case EditMenu(_, passes, _) => E.PassesOk(passes)
    case _ => true
  }

  // save_trends
  function Kept(s: State): State
    requires |s.trends| == TREND_MAX
  {
    s.(backup := Saved(s.backup, s.trends, s.cnt))
  }

  // init_trends over the registers, defaults where the marker is missing.
  function Booted(regs: Backup): (s: State)
    requires |regs.source| == TREND_MAX == |regs.mins| && |regs.maxs| == TREND_MAX
  {
    var b := if regs.marker == MARKER then regs else DefaultBackup();
    State(seq(TREND_MAX, i requires 0 <= i < TREND_MAX => NewTrend().(limits := RestoredLimits(b, i))),
      RestoredCnt(b), b)
  }

  function AddEditor(s: State, prev: E.Key): (e: E.Editor)
    ensures E.Shaped(e)
  {
    E.Opened(E.AddTrend, [RowOf(NewTrend().limits)], s.cnt, prev)
  }

  function EditEditor(s: State, prev: E.Key): (e: E.Editor)
    requires |s.trends| == TREND_MAX && s.cnt <= TREND_MAX
    ensures E.Shaped(e)
  {
    E.Opened(E.EditTrend, seq(TREND_MAX, i requires 0 <= i < TREND_MAX => RowOf(s.trends[i].limits)), s.cnt, prev)
  }

  // The trends as edited.
  function Edited(trends: seq<Trend>, rows: seq<seq<nat>>): (r: seq<Trend>)
    requires |rows| == |trends| && forall i :: 0 <= i < |rows| ==> |rows[i]| == E.FIELDS
    ensures |r| == |trends|
  {
    seq(|trends|, i requires 0 <= i < |trends| => trends[i].(limits := LimitsOf(rows[i])))
  }

  ghost function After(s: State, ev: Event): State
    requires StateShape(s) && EventOk(ev)
  {
    match ev
    case AddMenu(prev, passes, last) =>
      var e := E.PassedAll(AddEditor(s, prev), passes);
      if E.Result(e, last) != E.Store || s.cnt >= TREND_MAX then s
      else Kept(s.(trends := s.trends[s.cnt := NewTrend().(limits := LimitsOf(e.rows[e.cur]))], cnt := s.cnt + 1))
    case EditMenu(prev, passes, last) =>
      var e := E.PassedAll(EditEditor(s, prev), passes);
      if E.Result(e, last) != E.Store || |e.rows| != TREND_MAX then s
      else Kept(s.(trends := Edited(s.trends, e.rows)))
    case DeleteMenu(num) =>
      Kept(if 1 <= num <= s.cnt then s.(trends := Removed(s.trends, num - 1) + [NewTrend()], cnt := s.cnt - 1) else s)
    case FromCan(node, input, value, now) =>
      s.(trends := seq(TREND_MAX, i requires 0 <= i < TREND_MAX =>
        var t := s.trends[i];
        if t.limits.devAddr == node && t.limits.inpNum == input then Sampled(t, Point(value, now)) else t))
    case Reboot => Booted(s.backup)
  }

  // Every slot's input number is 1 to 14, and the registers hold what the trends say.
  ghost predicate Faithful(s: State) {
    && StateShape(s)
    && (forall i :: 0 <= i < TREND_MAX ==> InRange(s.trends[i].limits.inpNum))
    && s.backup.marker == MARKER && RestoredCnt(s.backup) == s.cnt
    && forall i :: 0 <= i < TREND_MAX ==> RestoredLimits(s.backup, i) == s.trends[i].limits
  }

  lemma KeptIsFaithful(s: State)
    requires StateShape(s) && s.backup.marker == MARKER
    requires forall i :: 0 <= i < TREND_MAX ==> InRange(s.trends[i].limits.inpNum)
    ensures Faithful(Kept(s))
  {
    hide RestoredLimits, RestoredCnt, Saved;
    RestoreAfterSaveIff(s.backup, s.trends, s.cnt);
    SavedShape(s.backup, s.trends, s.cnt);
  }

  lemma SavedShape(b: Backup, trends: seq<Trend>, cnt: byte)
    requires |trends| == TREND_MAX && BackupShape(b)
    ensures BackupShape(Saved(b, trends, cnt)) && Saved(b, trends, cnt).marker == b.marker
  {
  }

  // In range in the menus is in range in the trend.
  lemma RowInRange(kind: E.Kind, row: seq<nat>)
    requires kind != E.SetTime && E.Within(kind, row)
    ensures InRange(LimitsOf(row).inpNum)
  {
    assert E.Bounds(kind)[1].0 <= row[1] <= E.Bounds(kind)[1].1;
  }

  lemma LimitsInRange(l: Limits)
    requires InRange(l.inpNum)
    ensures E.Within(E.EditTrend, RowOf(l))
  {
  }

  // Whatever is typed in the add menu, what it stores is in range.
  lemma AddMenuStores(s: State, prev: E.Key, passes: seq<E.Pass>)
    requires E.PassesOk(passes)
    ensures var e := E.PassedAll(AddEditor(s, prev), passes);
      InRange(LimitsOf(e.rows[e.cur]).inpNum)
  {
    hide E.At, E.PassedAll, E.Within, LimitsOf;
    E.MenusOpenIff(E.AddTrend, [RowOf(NewTrend().limits)], s.cnt, prev);
    assert RowOf(NewTrend().limits) == [0, 1, 255, 255, 0, 0];
    var k := E.RunStaysLegal(AddEditor(s, prev), 0, passes);
    var e := E.PassedAll(AddEditor(s, prev), passes);
    LegalRow(e, k, e.cur);
    RowInRange(e.kind, e.rows[e.cur]);
  }

  lemma LegalRow(e: E.Editor, k: nat, r: nat)
    requires E.At(e, k) && r < |e.rows|
    ensures E.Within(e.kind, e.rows[r])
  {
  }

  lemma EditMenuStores(s: State, prev: E.Key, passes: seq<E.Pass>)
    requires Faithful(s) && E.PassesOk(passes)
    ensures var e := E.PassedAll(EditEditor(s, prev), passes);
      |e.rows| == TREND_MAX && forall i :: 0 <= i < TREND_MAX ==> InRange(LimitsOf(e.rows[i]).inpNum)
  {
    hide E.At, E.PassedAll, E.Within, LimitsOf, RestoredLimits, RestoredCnt;
    var e0 := EditEditor(s, prev);
    forall i | 0 <= i < TREND_MAX ensures E.Within(E.EditTrend, e0.rows[i]) {
      LimitsInRange(s.trends[i].limits);
    }
    E.MenusOpenIff(E.EditTrend, e0.rows, s.cnt, prev);
    var k := E.RunStaysLegal(e0, 0, passes);
    var e := E.PassedAll(e0, passes);
    forall i | 0 <= i < TREND_MAX ensures InRange(LimitsOf(e.rows[i]).inpNum) {
      LegalRow(e, k, i);
      RowInRange(e.kind, e.rows[i]);
    }
  }

  lemma EventKeeps(s: State, ev: Event)
    requires Faithful(s) && EventOk(ev)
    ensures Faithful(After(s, ev))
  {
    hide RestoredLimits, RestoredCnt, LimitsOf, E.PassedAll, AddEditor, EditEditor;
    match ev
    case AddMenu(prev, passes, last) =>
      AddMenuStores(s, prev, passes);
      var e := E.PassedAll(AddEditor(s, prev), passes);
      if E.Result(e, last) == E.Store && s.cnt < TREND_MAX {
        var t := NewTrend().(limits := LimitsOf(e.rows[e.cur]));
        KeptIsFaithful(s.(trends := s.trends[s.cnt := t], cnt := s.cnt + 1));
      }
    case EditMenu(prev, passes, last) =>
      EditMenuStores(s, prev, passes);
      KeptIsFaithful(s.(trends := Edited(s.trends, E.PassedAll(EditEditor(s, prev), passes).rows)));
    case DeleteMenu(num) =>
      KeptIsFaithful(if 1 <= num <= s.cnt
        then s.(trends := Removed(s.trends, num - 1) + [NewTrend()], cnt := s.cnt - 1) else s);
    case FromCan(_, _, _, _) =>
    case Reboot => NewTrendShaped();
  }

  ghost predicate Leads(s: State, events: seq<Event>, s': State)
    decreases events
  {
    if events == [] then s' == s
    else StateShape(s) && EventOk(events[0]) && Leads(After(s, events[0]), events[1..], s')
  }

  lemma {:induction false} RunKeeps(s: State, events: seq<Event>, s': State)
    requires Faithful(s) && Leads(s, events, s')
    ensures Faithful(s')
    decreases events
  {
    hide Faithful, After;
    if events == [] {
      assert s' == s;
    } else {
      EventKeeps(s, events[0]);
      RunKeeps(After(s, events[0]), events[1..], s');
    }
  }

  // From the default registers, through every run of add, edit and delete menus, samples and
  // reboots, all input numbers stay in range, so that a reboot at any time brings back the count
  // and every trend's limits.
  lemma TrendsSurviveReboot(events: seq<Event>, s: State)
    requires Leads(Booted(DefaultBackup()), events, s)
    ensures Faithful(s)
    ensures var s' := After(s, Reboot);
      && s'.cnt == s.cnt && |s'.trends| == TREND_MAX
      && forall i :: 0 <= i < TREND_MAX ==> s'.trends[i].limits == s.trends[i].limits
  {
    DefaultIsFaithful();
    hide Faithful, Booted;
    RunKeeps(Booted(DefaultBackup()), events, s);
    FaithfulBoots(s);
  }

  lemma DefaultIsFaithful()
    ensures Faithful(Booted(DefaultBackup()))
  {
    NewTrendShaped();
    var b := DefaultBackup();
    forall i | 0 <= i < TREND_MAX ensures RestoredLimits(b, i).inpNum == 1 {
      assert b.source[i] == 0x0101;
    }
    hide RestoredLimits, NewTrend;
  }

  lemma NewTrendShaped()
    ensures forall l: Limits :: TrendRing.Shaped(NewTrend().(limits := l))
  {
  }

  lemma FaithfulBoots(s: State)
    requires Faithful(s)
    ensures StateShape(s) && var s' := After(s, Reboot);
      && s'.cnt == s.cnt && |s'.trends| == TREND_MAX
      && forall i :: 0 <= i < TREND_MAX ==> s'.trends[i].limits == s.trends[i].limits
  {
    hide RestoredLimits, RestoredCnt;
  }

  // Sessions ------------------------------------------------------------------------------------

  // The limits with the menu's field k set to v.
  function WithField(l: Limits, k: nat, v: byte): Limits
    requires k < 6
  {
    if k == 0 then l.(devAddr := v)
    else if k == 1 then l.(inpNum := v)
    else if k == 2 then l.(maxAlarm := v)
    else if k == 3 then l.(maxWarn := v)
    else if k == 4 then l.(minAlarm := v)
    else l.(minWarn := v)
  }

  lemma RowsAreLimits(l: Limits, k: nat, v: byte)
    requires k < 6
    ensures LimitsOf(RowOf(l)) == l
    ensures LimitsOf(RowOf(l)[k := v]) == WithField(l, k, v)
  {
  }

  // A session: move about without digits to the start of a field, type a number, press a key.
  predicate SessionOk(moves: seq<E.Pass>, strokes: seq<E.Stroke>, width: nat) {
    E.PassesOk(moves) && E.OnlyMoves(moves) && E.StrokesOk(strokes) && |strokes| == width && 2 <= width <= 3
  }

  function SessionPasses(moves: seq<E.Pass>, v: nat, strokes: seq<E.Stroke>): seq<E.Pass>
    requires 2 <= |strokes| <= 3
  {
    moves + E.TypingPasses(v, 3 - |strokes|, strokes)
  }

  // What typing leaves in the rows of a trend menu.
  lemma TypedRows(e: E.Editor, moves: seq<E.Pass>, v: nat, strokes: seq<E.Stroke>)
    requires E.Shaped(e) && E.At(e, 0) && e.kind != E.SetTime && !E.Full(e)
    requires E.PassesOk(moves) && E.OnlyMoves(moves)
    requires var e0 := E.PassedAll(e, moves);
      var f := e0.fields[E.Current(e0)];
      e0.pos == 1 && SessionOk(moves, strokes, f.width) && f.min <= v <= f.max
    ensures E.PassesOk(SessionPasses(moves, v, strokes))
    ensures var e0, e' := E.PassedAll(e, moves), E.PassedAll(e, SessionPasses(moves, v, strokes));
      && e0.cur < |e.rows| && E.Current(e0) < 6
      && var row: seq<nat> := e.rows[e0.cur][E.Current(e0) := v];
      && e0.rows == e.rows && e'.kind == e.kind && e'.inUse == e.inUse && e'.cur == e0.cur && e'.prev.Digit?
      && e'.rows == e.rows[e0.cur := row]
  {
    hide E.At, E.PassedAll, E.Within, E.NumberTyped, E.TypingPasses, E.CurrentFrom;
    var k0 := E.RunStaysLegal(e, 0, moves);
    var e0 := E.PassedAll(e, moves);
    AtCurrent(e0, k0);
    E.MovesKeepRows(e, moves);
    E.TypingEnters(e0, k0, v, strokes);
    E.PassesType(e0, v, 3 - |strokes|, strokes);
    E.PassesFollow(e, moves, E.TypingPasses(v, 3 - |strokes|, strokes));
    var k := E.RunStaysLegal(e0, k0, E.TypingPasses(v, 3 - |strokes|, strokes));
    E.TypingStaysOnRow(e0, v, 3 - |strokes|, strokes);
  }

  lemma AtCurrent(e: E.Editor, k: nat)
    requires E.At(e, k)
    ensures E.Current(e) == k && k < 6
  {
    E.CurrentIs(e, k, 0);
  }

  // An edit session that types v into field k of the trend on screen: ended with Enter or Left, it
  // leaves that trend with exactly v there, every other limit and trend and the count alone, and
  // the registers hold what the trends say; ended with Exit, it changes nothing.
  lemma EditSession(s: State, prev: E.Key, moves: seq<E.Pass>, v: byte, strokes: seq<E.Stroke>, last: E.Key)
    requires Faithful(s) && (last == E.Enter || last == E.Left || last == E.Exit)
    requires E.PassesOk(moves) && E.OnlyMoves(moves)
    requires var e0 := E.PassedAll(EditEditor(s, prev), moves);
      var f := e0.fields[E.Current(e0)];
      e0.pos == 1 && SessionOk(moves, strokes, f.width) && f.min <= v <= f.max
    ensures E.PassesOk(SessionPasses(moves, v, strokes))
    ensures var e0 := E.PassedAll(EditEditor(s, prev), moves);
      var s' := After(s, EditMenu(prev, SessionPasses(moves, v, strokes), last));
      var r, k := e0.cur, E.Current(e0);
      && r < 3 && k < 6 && Faithful(s')
      && if last == E.Exit then s' == s
         else
           && s'.cnt == s.cnt && |s'.trends| == 3
           && forall i :: 0 <= i < 3 ==>
             s'.trends[i] == if i == r then s.trends[i].(limits := WithField(s.trends[i].limits, k, v)) else s.trends[i]
  {
    hide E.At, E.PassedAll, E.Within, SessionPasses, LimitsOf, WithField, RestoredLimits, RestoredCnt, Saved;
    var e := EditEditor(s, prev);
    EditOpens(s, prev);
    TypedRows(e, moves, v, strokes);
    var passes := SessionPasses(moves, v, strokes);
    EventKeeps(s, EditMenu(prev, passes, last));
    var e0, e' := E.PassedAll(e, moves), E.PassedAll(e, passes);
    AtCurrentOf(e, moves);
    E.LeavesAndStores(e', last);
    forall i | 0 <= i < 3
      ensures LimitsOf(e'.rows[i]) ==
        if i == e0.cur then WithField(s.trends[i].limits, E.Current(e0), v) else s.trends[i].limits
    {
      RowsAreLimits(s.trends[i].limits, E.Current(e0), v);
    }
  }

  lemma AtCurrentOf(e: E.Editor, moves: seq<E.Pass>)
    requires E.Shaped(e) && E.At(e, 0) && E.PassesOk(moves)
    ensures E.Current(E.PassedAll(e, moves)) < 6 && |E.PassedAll(e, moves).rows| == |e.rows|
  {
    hide E.At, E.PassedAll;
    var k := E.RunStaysLegal(e, 0, moves);
    AtCurrent(E.PassedAll(e, moves), k);
  }

  lemma EditOpens(s: State, prev: E.Key)
    requires Faithful(s)
    ensures E.At(EditEditor(s, prev), 0)
  {
    hide E.At, E.Within, RestoredLimits, RestoredCnt;
    var e := EditEditor(s, prev);
    forall i | 0 <= i < TREND_MAX ensures E.Within(E.EditTrend, e.rows[i]) {
      LimitsInRange(s.trends[i].limits);
    }
    E.MenusOpenIff(E.EditTrend, e.rows, s.cnt, prev);
  }

  // An add session, with room in the list, that types v into field k: ended with Enter or Down, it
  // appends a fresh trend with v there and the defaults elsewhere; ended with Left or Exit, it
  // changes nothing.
  lemma AddSession(s: State, prev: E.Key, moves: seq<E.Pass>, v: byte, strokes: seq<E.Stroke>, last: E.Key)
    requires Faithful(s) && s.cnt < 3 && (last == E.Enter || last == E.Down || last == E.Left || last == E.Exit)
    requires E.PassesOk(moves) && E.OnlyMoves(moves)
    requires var e0 := E.PassedAll(AddEditor(s, prev), moves);
      var f := e0.fields[E.Current(e0)];
      e0.pos == 1 && SessionOk(moves, strokes, f.width) && f.min <= v <= f.max
    ensures E.PassesOk(SessionPasses(moves, v, strokes))
    ensures var e0 := E.PassedAll(AddEditor(s, prev), moves);
      var s' := After(s, AddMenu(prev, SessionPasses(moves, v, strokes), last));
      var k := E.Current(e0);
      && k < 6 && Faithful(s')
      && if last == E.Left || last == E.Exit then s' == s
         else
           && s'.cnt == s.cnt + 1 && |s'.trends| == 3
           && forall i :: 0 <= i < 3 ==>
             s'.trends[i] ==
               if i == s.cnt then NewTrend().(limits := WithField(Limits(0, 0, 255, 255, 1, 0), k, v)) else s.trends[i]
  {
    hide E.At, E.PassedAll, E.Within, SessionPasses, LimitsOf, WithField, RestoredLimits, RestoredCnt, Saved;
    var e := AddEditor(s, prev);
    assert RowOf(NewTrend().limits) == [0, 1, 255, 255, 0, 0];
    E.MenusOpenIff(E.AddTrend, [RowOf(NewTrend().limits)], s.cnt, prev);
    TypedRows(e, moves, v, strokes);
    var passes := SessionPasses(moves, v, strokes);
    EventKeeps(s, AddMenu(prev, passes, last));
    var e0, e' := E.PassedAll(e, moves), E.PassedAll(e, passes);
    AtCurrentOf(e, moves);
    E.LeavesAndStores(e', last);
    RowsAreLimits(NewTrend().limits, E.Current(e0), v);
    assert e0.cur == 0;
  }

  // The panel -----------------------------------------------------------------------------------

  // The menus as they work on the trend list itself.
  class Panel {
    const store: TrendStore

    ghost predicate Valid()
      reads this, store
    {
      store.Valid()
    }

    function View(): State
      reads this, store
    {
      State(store.trends, store.cnt, store.backup)
    }

    constructor (store: TrendStore)
      requires store.Valid()
      ensures Valid() && this.store == store
    {
      this.store := store;
    }

    // The passes of a menu, one after the other.
    method RunPasses(menu: E.Menu, passes: seq<E.Pass>)
      requires E.Shaped(menu.View()) && E.PassesOk(passes) && menu.kind != E.SetTime
      modifies menu
      ensures menu.View() == E.PassedAll(old(menu.View()), passes)
    {
      var left := passes;
      while left != []
        invariant E.Shaped(menu.View()) && E.PassesOk(left)
        invariant E.PassedAll(menu.View(), left) == E.PassedAll(old(menu.View()), passes)
        decreases |left|
      {
        assert E.ReadingOk(left[0].reading);
        var out := menu.Press(left[0].key, left[0].reading.now);
        left := left[1..];
      }
    }

    method AddSessionOf(prev: E.Key, passes: seq<E.Pass>, last: E.Key)
      requires Valid() && E.PassesOk(passes)
      modifies store
      ensures Valid() && View() == After(old(View()), AddMenu(prev, passes, last))
    {
      hide E.PassedAll, Saved, E.Pressed, E.FieldsOf, LimitsOf, RowOf, NewTrend, TrendRing.Shaped;
      ghost var e := AddEditor(View(), prev);
      var menu := new E.Menu(E.AddTrend, [RowOf(NewTrend().limits)], store.cnt, prev);
      RunPasses(menu, passes);
      E.RunKeepsFrame(e, passes);
      NewTrendShaped();
      var t := NewTrend().(limits := LimitsOf(menu.rows[menu.curTrend]));
      var out := menu.Press(last, [0, 0, 0, 1, 1, 0]);
      if out == E.Store {
        var ok := store.Add(t);
        store.Save();
      }
    }

    method EditSessionOf(prev: E.Key, passes: seq<E.Pass>, last: E.Key)
      requires Valid() && E.PassesOk(passes)
      modifies store
      ensures Valid() && View() == After(old(View()), EditMenu(prev, passes, last))
    {
      hide E.PassedAll, Saved, E.Pressed, E.FieldsOf, LimitsOf, RowOf;
      ghost var e := EditEditor(View(), prev);
      var trends := store.trends;
      var copies := seq(TREND_MAX, i requires 0 <= i < TREND_MAX => RowOf(trends[i].limits));
      var menu := new E.Menu(E.EditTrend, copies, store.cnt, prev);
      assert menu.View() == e;
      RunPasses(menu, passes);
      E.RunKeepsFrame(e, passes);
      var rows := menu.rows;
      var out := menu.Press(last, [0, 0, 0, 1, 1, 0]);
      if out == E.Store {
        store.trends := Edited(trends, rows);
        store.Save();
      }
    }

    method DeleteSessionOf(num: byte)
      requires Valid()
      modifies store
      ensures Valid() && View() == After(old(View()), DeleteMenu(num))
    {
      hide Saved;
      store.Delete(num);
      store.Save();
    }

    method SampleOf(node: byte, input: byte, value: byte, now: u32)
      requires Valid()
      modifies store
      ensures Valid() && View() == After(old(View()), FromCan(node, input, value, now))
    {
      store.AddFromCan(node, input, value, now);
      assert store.trends == After(old(View()), FromCan(node, input, value, now)).trends;
    }

    // A restart: the list is built anew from the registers.
    method Restart() returns (p: Panel)
      requires Valid()
      ensures p.Valid() && fresh(p) && p.View() == After(View(), Reboot)
    {
      hide RestoredLimits, RestoredCnt;
      var fresh' := new TrendStore(store.backup);
      p := new Panel(fresh');
      assert p.View().trends == Booted(store.backup).trends;
    }
  }
}
