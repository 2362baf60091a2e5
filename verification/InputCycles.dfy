// The 20-call cycle of the input reporter (update_di_data in user/can_task.c): when it reports,
// what a report names, and that no run of the system goes without.
module InputCycles {
  import opened Bytes
  import opened PlcImage
  import opened CanRing
  import CanCmd
  import opened DigitalInputs

  // What calls with these readings lead to, and the frames they send.
  function Calls(t: Task, curs: seq<Bits>): (Task, seq<(Bits, Bits)>) {
    if curs == [] then (t, [])
    else
      var n := |curs| - 1;
      var (before, frames) := Calls(t, curs[..n]);
      var (after, frame) := Ticked(before, curs[n]);
      (after, if frame.Some? then frames + [frame.value] else frames)
  }

  // Input i was marked at the start, or two successive readings differ in it.
  ghost predicate Moved(t: Task, curs: seq<Bits>, i: nat)
    requires i < 8
  {
    t.update[i] || exists j :: 0 <= j < |curs| && Before(t, curs, j)[i] != curs[j][i]
  }

  function Before(t: Task, curs: seq<Bits>, j: nat): Bits
    requires j <= |curs|
  {
    if j == 0 then t.prev else curs[j - 1]
  }

  lemma MovedMore(t: Task, curs: seq<Bits>, cur: Bits, i: nat)
    requires i < 8
    ensures Moved(t, curs + [cur], i) <==> Moved(t, curs, i) || Before(t, curs, |curs|)[i] != cur[i]
  {
    var all := curs + [cur];
    assert forall j :: 0 <= j < |curs| ==> all[j] == curs[j] && Before(t, all, j) == Before(t, curs, j);
    assert all[|curs|] == cur && Before(t, all, |curs|) == Before(t, curs, |curs|);
  }

  // k calls into a cycle nothing has been sent, and the marks are the inputs that moved.
  lemma {:induction false} CallsSoFar(t: Task, curs: seq<Bits>)
    requires t.timer == 0 && |curs| < 20
    ensures var (t', frames) := Calls(t, curs);
      && t'.timer == |curs| && frames == [] && t'.prev == Before(t, curs, |curs|)
      && forall i :: 0 <= i < 8 ==> (t'.update[i] <==> Moved(t, curs, i))
  {
    if curs == [] {
    } else {
      var n := |curs| - 1;
      CallsSoFar(t, curs[..n]);
      assert curs == curs[..n] + [curs[n]];
      forall i | 0 <= i < 8
        ensures Moved(t, curs, i) <==> Moved(t, curs[..n], i) || Before(t, curs[..n], n)[i] != curs[n][i]
      {
        MovedMore(t, curs[..n], curs[n], i);
      }
      hide Moved;
    }
  }

  // A cycle of 20 calls: the 20th sends one report if any input moved, and none otherwise. Its
  // mask names exactly the inputs that moved, its state bits are their last readings. Afterwards
  // nothing is marked and the next cycle starts.
  lemma TwentyCalls(t: Task, curs: seq<Bits>)
    requires t.timer == 0 && |curs| == 20
    ensures var (t', frames) := Calls(t, curs);
      && t'.timer == 0 && t'.prev == curs[19] && (forall i :: 0 <= i < 8 ==> !t'.update[i])
      && (if exists i: nat :: i < 8 && Moved(t, curs, i) then
            && |frames| == 1
            && forall i :: 0 <= i < 8 ==>
              && (frames[0].1[i] <==> Moved(t, curs, i))
              && (frames[0].0[i] <==> Moved(t, curs, i) && curs[19][i])
          else frames == [])
  {
    CallsSoFar(t, curs[..19]);
    assert curs == curs[..19] + [curs[19]];
    forall i | 0 <= i < 8
      ensures Moved(t, curs, i) <==> Moved(t, curs[..19], i) || Before(t, curs[..19], 19)[i] != curs[19][i]
    {
      MovedMore(t, curs[..19], curs[19], i);
    }
    hide Moved;
    var t19 := Calls(t, curs[..19]).0;
    var update := Changed(t19, curs[19]);
    assert forall i :: 0 <= i < 8 ==> (update[i] <==> Moved(t, curs, i));
    assert update == NONE <==> forall i :: 0 <= i < 8 ==> !update[i];
  }

  // The calls among the events of a run.
  function Ticks(events: seq<Event>): nat {
    if events == [] then 0 else (if events[0].Tick? then 1 else 0) + Ticks(events[1..])
  }

  // Nothing but calls moves the timer, and each moves it by one, modulo 20.
  lemma {:induction false} TimerCounts(s: System, events: seq<Event>, s': System)
    requires Leads(s, events, s') && s.task.timer < 20
    ensures s'.task.timer == (s.task.timer + Ticks(events)) % 20
    decreases events
  {
    hide ValidRing, Enabled, Decoded, WellFormed, Taken, Added, ReportPacket, Changed, Masked;
    if events == [] {
    } else {
      TimerCounts(After(s, events[0]), events[1..], s');
    }
  }

  // The invariant of a run, and an agreement that does not wait for a mark.
  ghost predicate AllAgree(s: System, cur: Bits)
    requires ImageShape(s.peer)
  {
    forall i :: 0 <= i < 8 ==>
      && ToldAll(s.queue, i, s.peer.din[i].state) == B(cur[i])
      && (s.queue == [] ==> s.peer.din[i].state == B(cur[i]))
  }

  // In every run with 20 calls in it, whatever else happens in between, one of them flushes: right
  // after it every input agrees with what the peer holds or will hold, and with an empty ring the
  // peer shows exactly the inputs. `mid` is the state after that call, number k of the events.
  lemma {:induction false} TwentyTicksFlush(s: System, events: seq<Event>, s': System) returns (k: nat, mid: System)
    requires Inv(s) && Leads(s, events, s') && s.task.timer + Ticks(events) >= 20
    ensures k < |events| && events[k].Tick?
    ensures Leads(s, events[..k + 1], mid) && Leads(mid, events[k + 1..], s')
    ensures Inv(mid) && mid.task.timer == 0 && AllAgree(mid, events[k].cur)
    decreases events
  {
    hide Inv, Enabled, ToldAll, AllAgree;
    InvTimer(s);
    var e := events[0];
    EventKeeps(s, e);
    var next := After(s, e);
    TimerCounts(s, [e], next) by { assert Leads(next, [], next) && [e][1..] == []; }
    assert Ticks([e]) == (if e.Tick? then 1 else 0) by { assert [e][1..] == []; }
    if e.Tick? && s.task.timer == 19 {
      k, mid := 0, next;
      FlushAgrees(s, e.cur);
      assert events[..1] == [e] && Leads(next, [], next) && [e][1..] == [];
    } else {
      k, mid := TwentyTicksFlush(next, events[1..], s');
      assert events[..k + 2][0] == e && events[..k + 2][1..] == events[1..][..k + 1];
      assert events[k + 2..] == events[1..][k + 1..];
      k := k + 1;
    }
  }

  lemma InvTimer(s: System)
    requires Inv(s)
    ensures s.task.timer < 20 && ValidRing(s.ring) && CanCmd.AddrOk(s.link) && ImageShape(s.peer)
  {
    HoldsIsValid(s.ring, s.queue);
  }

  lemma FlushAgrees(s: System, cur: Bits)
    requires Inv(s) && Enabled(s, Tick(cur)) && s.task.timer == 19
    ensures ValidRing(s.ring) && CanCmd.AddrOk(s.link) && ImageShape(After(s, Tick(cur)).peer)
    ensures AllAgree(After(s, Tick(cur)), cur)
  {
    hide Holds, Quiet, Report, Told, Pack;
    TickKeeps(s, cur);
    HoldsIsValid(s.ring, s.queue);
    TickKeepsPrev(s, cur);
    var done := After(s, Tick(cur));
    hide After;
    forall i | 0 <= i < 8 ensures ToldAll(done.queue, i, done.peer.din[i].state) == B(cur[i]) {
      assert Agrees(done, i);
    }
  }
}
