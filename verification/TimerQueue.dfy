/**
 xTimerQueue and xTimer as objects (base/xtimer_queue.cpp, base/include/xtimer.h),
 specified by the functions of `Timers`.
 */
module TimerQueue {
  import opened Timers
  import opened TimerTree

  class Clock {
    const readings: nat -> int
    var tick: nat

    constructor (readings: nat -> int)
      ensures this.readings == readings && tick == 0
    {
      this.readings, tick := readings, 0;
    }

    method Now() returns (t: int)
      modifies this
      ensures t == readings(old(tick)) && tick == old(tick) + 1
    {
      t := readings(tick);
      tick := tick + 1;
    }
  }

  class TimerNode {
    var repeat: int
    const interval: int
    var expiration: int
    const serial: nat

    function Value(): Timer
      reads this
    {
      Timer(repeat, interval, expiration, serial)
    }

    constructor (t: Timer)
      ensures Value() == t
    {
      repeat, interval, expiration, serial := t.repeat, t.interval, t.expiration, t.serial;
    }

    method NextRepeat(clock: Clock)
      requires repeat > 0 || repeat == -1
      requires Steady(clock.readings)
      modifies this, clock
      ensures var k := old(clock.tick);
              && Value() == old(Value()).NextRepeat(clock.readings(k), clock.readings(k + 1))
              && clock.tick == k + Ticks(old(Value()), clock.readings, k)
              && expiration == interval + (if old(expiration) + interval >= clock.readings(k) then old(expiration)
                                           else clock.readings(k + 1))
    {
      if repeat > 0 {
        repeat := repeat - 1;
      }
      expiration := expiration + interval;
      var first := clock.Now();
      if expiration < first {
        var second := clock.Now();
        expiration := second + interval;
      }
    }
  }

  class TimerQueue {
    var timers: seq<TimerNode>
    const clock: Clock
    ghost var fired: seq<nat>

    ghost predicate Valid()
      reads this
    {
      Steady(clock.readings) && forall i, j :: 0 <= i < j < |timers| ==> timers[i] != timers[j]
    }

    ghost function Nodes(): set<object>
      reads this
    {
      set t | t in timers
    }

    function View(): (v: seq<Timer>)
      reads this, timers
      ensures |v| == |timers|
    {
      seq(|timers|, i requires 0 <= i < |timers| reads this, timers => timers[i].Value())
    }

    constructor (clock: Clock)
      requires Steady(clock.readings)
      ensures Valid() && View() == [] && fired == [] && this.clock == clock
    {
      timers, fired := [], [];
      this.clock := clock;
    }

    method AddTimer(node: TimerNode, hint: nat)
      requires Valid() && node !in timers
      modifies this`timers
      ensures Valid() && View() == Insert(old(View()), node.Value(), hint)
      ensures var p := Spot(old(View()), node.Value(), hint);
              timers == old(timers)[..p] + [node] + old(timers)[p..]
    {
      var p := Spot(View(), node.Value(), hint);
      timers := timers[..p] + [node] + timers[p..];
      assert View() == Insert(old(View()), node.Value(), hint);
    }

    /**
     RemoveTime for a live timer: whatever the set finds under its key goes, in
     the shape its tree happens to have. Exactly the timer goes when no other one
     stands on the wrong side of it.
     */
    method RemoveTime(node: TimerNode, tree: Tree)
      requires Valid() && node in timers && tree.Elements() == View()
      modifies this`timers
      ensures Valid() && View() == EraseKey(tree, node.Value())
      ensures forall i :: 0 <= i < |old(timers)| && old(timers)[i] == node && WellPlaced(old(View()), i)
                ==> timers == old(timers)[..i] + old(timers)[i + 1..]
    {
      hide EqualRange, WellPlaced;
      var (lo, hi) := EqualRange(tree, node.Value());
      forall i | 0 <= i < |timers| && timers[i] == node && WellPlaced(View(), i)
        ensures (lo, hi) == (i, i + 1)
      {
        WellPlacedFound(tree, i);
      }
      ghost var v := View();
      if lo < hi {
        timers := timers[..lo] + timers[hi..];
        assert View() == v[..lo] + v[hi..];
      }
    }

    /** The callback of the timer at `it`, which adds timers; the iterator stays with its element. */
    method RunCallback(it: nat, adds: seq<Addition>) returns (next: nat)
      requires Valid() && it < |timers|
      modifies this`timers
      ensures Valid() && next < |timers|
      ensures (View(), next) == InsertAll(old(View()), it, adds)
      ensures timers[next] == old(timers)[it]
      ensures fresh(Nodes() - old(Nodes()))
    {
      hide InsertAll, InsertAt, Spot, View;
      next := it;
      var n := 0;
      assert adds[0..] == adds;
      while n < |adds|
        invariant n <= |adds| && next < |timers| && Valid()
        invariant InsertAll(View(), next, adds[n..]) == InsertAll(old(View()), it, adds)
        invariant timers[next] == old(timers)[it]
        invariant fresh(Nodes() - old(Nodes()))
      {
        InsertAllStep(View(), next, adds, n);
        var node := new TimerNode(adds[n].timer);
        var p := Spot(View(), adds[n].timer, adds[n].hint);
        AddTimer(node, adds[n].hint);
        next := if p <= next then next + 1 else next;
        n := n + 1;
      }
      InsertAllDone(View(), next, adds[n..]);
    }

    /** One due timer: its callback, then its next time or its end. */
    method FireOne(it: nat, adds: seq<Addition>) returns (next: nat)
      requires Valid() && it < |timers|
      modifies this, Nodes(), clock
      ensures Valid() && fresh(Nodes() - old(Nodes()))
      ensures fired == old(fired) + [old(View())[it].serial]
      ensures var f := Fire(old(View()), it, clock.readings, old(clock.tick), adds, false);
              View() == f.queue && next == f.next && clock.tick == f.tick
    {
      hide InsertAll;
      ghost var q, k := View(), clock.tick;
      fired := fired + [timers[it].serial];
      assert View() == q;
      next := RunCallback(it, adds);
      ghost var r, j := View(), next;
      assert InsertAll(q, it, adds) == (r, j);
      var node := timers[next];
      assert node.Value() == r[j];
      if node.repeat > 1 || node.repeat == -1 {
        node.NextRepeat(clock);
        assert node.Value() == r[j].NextRepeat(clock.readings(k), clock.readings(k + 1));
        assert View() == r[j := node.Value()];
        next := next + 1;
      } else {
        timers := timers[..next] + timers[next + 1..];
        assert View() == EraseAt(r, next);
      }
    }

    method TriggerTimer(adds: Additions)
      requires Valid()
      modifies this, Nodes(), clock
      ensures Valid()
      ensures var k := old(clock.tick);
              var p := Pass(old(View()), 0, clock.readings(k), clock.readings, k + 1, adds, 0, false);
              View() == p.queue && fired == old(fired) + p.fired && clock.tick == p.tick
    {
      hide Fire, Pass, Remaining, At;
      var timeNow := clock.Now();
      var it: nat, n: nat := 0, 0;
      ghost var whole := Pass(View(), 0, timeNow, clock.readings, clock.tick, adds, 0, false);
      while it < |timers| && timers[it].expiration <= timeNow
        invariant Valid() && it <= |timers|
        invariant fresh(Nodes() - old(Nodes()))
        invariant var p := Pass(View(), it, timeNow, clock.readings, clock.tick, adds, n, false);
                  whole.queue == p.queue && old(fired) + whole.fired == fired + p.fired && whole.tick == p.tick
        decreases Remaining(View(), it, adds, n)
      {
        PassTurn(View(), it, timeNow, clock.readings, clock.tick, adds, n);
        var batch := At(adds, n);
        it := FireOne(it, batch);
        n := n + 1;
      }
      PassDone(View(), it, timeNow, clock.readings, clock.tick, adds, n);
    }
  }

  lemma InsertAllStep(q: seq<Timer>, i: nat, adds: seq<Addition>, n: nat)
    requires i < |q| && n < |adds|
    ensures var p := Spot(q, adds[n].timer, adds[n].hint);
            var r, j := Insert(q, adds[n].timer, adds[n].hint), if p <= i then i + 1 else i;
            j < |r| && InsertAll(q, i, adds[n..]) == InsertAll(r, j, adds[n + 1..])
  {
    assert adds[n..][1..] == adds[n + 1..];
  }

  lemma InsertAllDone(q: seq<Timer>, i: nat, adds: seq<Addition>)
    requires i < |q| && adds == []
    ensures InsertAll(q, i, adds) == (q, i)
  {
  }

  lemma PassTurn(q: seq<Timer>, i: nat, now: int, clock: nat -> int, k: nat, adds: Additions, n: nat)
    requires i < |q| && q[i].expiration <= now && Steady(clock)
    ensures var f := Fire(q, i, clock, k, At(adds, n), false);
            var p := Pass(f.queue, f.next, now, clock, f.tick, adds, n + 1, false);
            var whole := Pass(q, i, now, clock, k, adds, n, false);
            && whole.queue == p.queue && whole.tick == p.tick && whole.fired == [q[i].serial] + p.fired
            && Remaining(f.queue, f.next, adds, n + 1) < Remaining(q, i, adds, n)
  {
    FireShrinks(q, i, clock, k, adds, n, false);
  }

  lemma PassDone(q: seq<Timer>, i: nat, now: int, clock: nat -> int, k: nat, adds: Additions, n: nat)
    requires i <= |q| && Steady(clock)
    requires i == |q| || q[i].expiration > now
    ensures Pass(q, i, now, clock, k, adds, n, false) == Passed(q, [], k, [])
  {
  }
}
