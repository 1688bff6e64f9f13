/**
 The timer queue (base/xtimer_queue.cpp, base/include/xtimer.h): a std::set of
 timers under (expiration, serial), in iteration order. triggerTimer moves the
 expiration of a repeating timer while the timer stays where it is, so the set
 need not be ordered; an insertion then lands wherever the search tree leads,
 which is any place between two neighbours that compare the right way.
 */
module Timers {

  datatype Timer = Timer(repeat: int, interval: int, expiration: int, serial: nat) {

    predicate HasNextTime() {
      repeat > 1 || repeat == -1
    }

    /** nextRepeat; `first` and `second` are its two readings of the clock. */
    function NextRepeat(first: int, second: int): (t: Timer)
      requires repeat > 0 || repeat == -1
      requires first <= second
      ensures expiration + interval >= first ==> t.expiration == expiration + interval
      ensures expiration + interval < first ==> t.expiration == second + interval
      ensures interval >= 0 ==> t.expiration >= first
      ensures t.serial == serial && t.interval == interval
      ensures t.repeat == if repeat > 0 then repeat - 1 else -1
    {
      var e := expiration + interval;
      Timer(if repeat > 0 then repeat - 1 else repeat, interval, if e < first then second + interval else e, serial)
    }
  }

  /** xTimer::Cmp. */
  predicate Before(a: Timer, b: Timer) {
    if a.expiration != b.expiration then a.expiration < b.expiration else a.serial < b.serial
  }

  predicate Ordered(q: seq<Timer>) {
    forall i, j :: 0 <= i < j < |q| ==> Before(q[i], q[j])
  }

  /** Where the tree search for `t` can end: it went right at the left neighbour and left at the right one. */
  predicate Fits(q: seq<Timer>, t: Timer, p: nat) {
    p <= |q| && (p > 0 ==> !Before(t, q[p - 1])) && (p < |q| ==> Before(t, q[p]))
  }

  function FirstFit(q: seq<Timer>, t: Timer): (p: nat)
    ensures Fits(q, t, p)
  {
    if q == [] || Before(t, q[0]) then 0 else FirstFit(q[1..], t) + 1
  }

  /** Any fitting place, `hint` standing for the shape of the tree. */
  function Spot(q: seq<Timer>, t: Timer, hint: nat): (p: nat)
    ensures Fits(q, t, p)
  {
    if Fits(q, t, hint) then hint else FirstFit(q, t)
  }

  function InsertAt(q: seq<Timer>, t: Timer, p: nat): seq<Timer>
    requires p <= |q|
  {
    q[..p] + [t] + q[p..]
  }

  function Insert(q: seq<Timer>, t: Timer, hint: nat): seq<Timer> {
    InsertAt(q, t, Spot(q, t, hint))
  }

  function EraseAt(q: seq<Timer>, i: nat): seq<Timer>
    requires i < |q|
  {
    q[..i] + q[i + 1..]
  }

  predicate Fresh(q: seq<Timer>, t: Timer) {
    forall u :: u in q ==> u.serial != t.serial
  }

  lemma InsertKeepsOrder(q: seq<Timer>, t: Timer, p: nat)
    requires Ordered(q) && Fresh(q, t) && Fits(q, t, p)
    ensures Ordered(InsertAt(q, t, p))
  {
    assert p > 0 ==> q[p - 1] in q && Before(q[p - 1], t);
    assert forall i :: 0 <= i < p ==> Before(q[i], t);
    assert forall i :: p <= i < |q| ==> Before(t, q[i]);
  }

  lemma EraseKeepsOrder(q: seq<Timer>, i: nat)
    requires Ordered(q) && i < |q|
    ensures Ordered(EraseAt(q, i))
  {
  }

  // ---------- one pass

  /** A timer some callback adds, and where the tree would put it if it fits there. */
  datatype Addition = Addition(timer: Timer, hint: nat)

  /** What the callbacks of a pass add: at the n-th firing, the n-th list. */
  type Additions = seq<seq<Addition>>

  function At(adds: Additions, n: nat): seq<Addition> {
    if n < |adds| then adds[n] else []
  }

  predicate AllLater(adds: seq<Addition>, now: int) {
    forall a :: a in adds ==> a.timer.expiration > now
  }

  predicate Later(adds: Additions, now: int) {
    forall n: nat :: n < |adds| ==> AllLater(adds[n], now)
  }

  /** Additions made while the iterator stands at `i`; it stays with its element. */
  function InsertAll(q: seq<Timer>, i: nat, adds: seq<Addition>): (r: (seq<Timer>, nat))
    requires i < |q|
    ensures r.1 < |r.0| && r.0[r.1] == q[i]
    decreases |adds|
  {
    if adds == [] then (q, i)
    else
      var p := Spot(q, adds[0].timer, adds[0].hint);
      InsertAll(InsertAt(q, adds[0].timer, p), if p <= i then i + 1 else i, adds[1..])
  }

  /** How many due timers follow one another from `i` on. */
  function DueRun(q: seq<Timer>, i: nat, now: int): nat
    decreases |q| - i
  {
    if i < |q| && q[i].expiration <= now then 1 + DueRun(q, i + 1, now) else 0
  }

  function Serials(q: seq<Timer>): seq<nat> {
    seq(|q|, i requires 0 <= i < |q| => q[i].serial)
  }

  lemma {:induction false} DueRunIs(q: seq<Timer>, i: nat, now: int)
    requires i <= |q|
    ensures var n := DueRun(q, i, now);
            && i + n <= |q|
            && (forall j :: i <= j < i + n ==> q[j].expiration <= now)
            && (i + n < |q| ==> q[i + n].expiration > now)
    decreases |q| - i
  {
    if i == |q| || q[i].expiration > now {
    } else {
      DueRunIs(q, i + 1, now);
    }
  }

  lemma {:induction false} DueRunUnique(q: seq<Timer>, i: nat, now: int, n: nat)
    requires i + n <= |q|
    requires forall j :: i <= j < i + n ==> q[j].expiration <= now
    requires i + n < |q| ==> q[i + n].expiration > now
    ensures DueRun(q, i, now) == n
    decreases n
  {
    if n == 0 {
    } else {
      DueRunUnique(q, i + 1, now, n - 1);
    }
  }

  /** Insertion moves the elements behind it by one place. */
  lemma InsertMoves(q: seq<Timer>, t: Timer, p: nat)
    requires p <= |q|
    ensures var r := InsertAt(q, t, p);
            && |r| == |q| + 1 && r[p] == t
            && (forall l :: 0 <= l < p ==> r[l] == q[l])
            && (forall l :: p < l <= |q| ==> r[l] == q[l - 1])
  {
  }

  /** In front of the iterator: everything from it on moves by one place. */
  lemma InsertBefore(q: seq<Timer>, i: nat, t: Timer, p: nat)
    requires p <= i < |q|
    ensures InsertAt(q, t, p)[i + 1..] == q[i..]
  {
  }

  lemma SliceOf(q: seq<Timer>, i: nat, n: nat)
    requires i < |q| && i + n <= |q|
    ensures q[i..][..n] == q[i..i + n] && q[i..][0] == q[i] && |q[i..]| == |q| - i
  {
  }

  lemma DueRunShape(q: seq<Timer>, i: nat, r: seq<Timer>, j: nat, now: int)
    requires i < |q| && j < |r| && q[i..] == r[j..]
    ensures var n := DueRun(q, i, now);
            DueRun(r, j, now) == n && i + n <= |q| && j + n <= |r| && r[j..j + n] == q[i..i + n] && r[j] == q[i]
  {
    hide DueRun;
    DueRunSame(q, i, r, j, now);
    DueRunIs(q, i, now);
    var n := DueRun(q, i, now);
    SliceOf(q, i, n);
    SliceOf(r, j, 0);
    SliceOf(r, j, n);
  }

  /** Behind the iterator: it lands behind the whole run. */
  lemma InsertBehind(q: seq<Timer>, i: nat, t: Timer, p: nat, now: int)
    requires i < p <= |q| && q[i].expiration <= now < t.expiration && Fits(q, t, p)
    ensures var r := InsertAt(q, t, p);
            var n := DueRun(q, i, now);
            DueRun(r, i, now) == n && i + n <= |q| && i + n <= |r| && r[i..i + n] == q[i..i + n] && r[i] == q[i]
  {
    hide DueRun, InsertAt;
    var r := InsertAt(q, t, p);
    InsertMoves(q, t, p);
    DueRunIs(q, i, now);
    var n := DueRun(q, i, now);
    assert !Before(t, q[p - 1]) && p >= i + n;
    forall l | i <= l < i + n ensures r[l] == q[l] && r[l].expiration <= now {
    }
    if i + n < |r| {
      assert r[i + n] == if p == i + n then t else q[i + n];
    }
    assert r[i..i + n] == q[i..i + n];
    DueRunUnique(r, i, now, n);
  }

  /** A later timer never lands in front of a due one, so it cannot cut a run of due timers. */
  lemma InsertKeepsRun(q: seq<Timer>, i: nat, t: Timer, p: nat, now: int)
    requires i < |q| && q[i].expiration <= now < t.expiration && Fits(q, t, p)
    ensures var r, j := InsertAt(q, t, p), if p <= i then i + 1 else i;
            var n := DueRun(q, i, now);
            && DueRun(r, j, now) == n && i + n <= |q| && j + n <= |r| && r[j..j + n] == q[i..i + n]
            && j < |r| && r[j] == q[i]
  {
    hide DueRun, InsertAt;
    InsertMoves(q, t, p);
    if p <= i {
      InsertBefore(q, i, t, p);
      DueRunShape(q, i, InsertAt(q, t, p), i + 1, now);
    } else {
      InsertBehind(q, i, t, p, now);
    }
  }

  lemma {:induction false} InsertAllKeepsRun(q: seq<Timer>, i: nat, adds: seq<Addition>, now: int)
    requires i < |q| && q[i].expiration <= now && AllLater(adds, now)
    ensures var (r, j) := InsertAll(q, i, adds);
            var n := DueRun(q, i, now);
            DueRun(r, j, now) == n && i + n <= |q| && j + n <= |r| && r[j..j + n] == q[i..i + n]
    decreases |adds|
  {
    hide DueRun, InsertAt, Spot;
    DueRunIs(q, i, now);
    if adds == [] {
    } else {
      assert adds[0] in adds;
      var p := Spot(q, adds[0].timer, adds[0].hint);
      InsertKeepsRun(q, i, adds[0].timer, p, now);
      InsertAllKeepsRun(InsertAt(q, adds[0].timer, p), if p <= i then i + 1 else i, adds[1..], now);
    }
  }

  /** The readings of a clock that never goes back. */
  ghost predicate Steady(clock: nat -> int) {
    forall i: nat, j: nat :: i <= j ==> clock(i) <= clock(j)
  }

  lemma {:induction false} DueRunSame(q: seq<Timer>, i: nat, r: seq<Timer>, j: nat, now: int)
    requires i <= |q| && j <= |r| && q[i..] == r[j..]
    ensures DueRun(q, i, now) == DueRun(r, j, now)
    decreases |q| - i
  {
    assert |q| - i == |r| - j;
    if i == |q| {
    } else {
      assert q[i] == q[i..][0] == r[j];
      assert q[i + 1..] == q[i..][1..] && r[j + 1..] == r[j..][1..];
      DueRunSame(q, i + 1, r, j + 1, now);
    }
  }

  function Ticks(t: Timer, clock: nat -> int, k: nat): nat {
    if t.expiration + t.interval < clock(k) then 2 else 1
  }

  /** One turn of the loop: the queue and iterator after it, the clock readings used, and what was set aside. */
  datatype Fired = Fired(queue: seq<Timer>, next: nat, tick: nat, kept: seq<Timer>)

  /**
   The body of the loop of triggerTimer at a due timer. As written a repeating
   timer gets its new expiration in place; the repaired variant takes it out and
   keeps it for after the loop.
   */
  ghost function Fire(q: seq<Timer>, i: nat, clock: nat -> int, k: nat, adds: seq<Addition>, repaired: bool): (f: Fired)
    requires i < |q| && Steady(clock)
    ensures f.next <= |f.queue|
  {
    var (r, j) := InsertAll(q, i, adds);
    var t := r[j];
    if !t.HasNextTime() then Fired(EraseAt(r, j), j, k, [])
    else
      var u := t.NextRepeat(clock(k), clock(k + 1));
      if repaired then Fired(EraseAt(r, j), j, k + Ticks(t, clock, k), [u])
      else Fired(r[j := u], j + 1, k + Ticks(t, clock, k), [])
  }

  /** Firing consumes the first timer of the due run and leaves the others next in line. */
  lemma FireAdvances(q: seq<Timer>, i: nat, clock: nat -> int, k: nat, adds: seq<Addition>, repaired: bool, now: int)
    requires i < |q| && q[i].expiration <= now && Steady(clock) && AllLater(adds, now)
    ensures var f := Fire(q, i, clock, k, adds, repaired);
            var d := DueRun(q, i, now);
            && d > 0 && i + d <= |q|
            && DueRun(f.queue, f.next, now) == d - 1
            && f.next + (d - 1) <= |f.queue|
            && f.queue[f.next..f.next + (d - 1)] == q[i + 1..i + d]
  {
    hide Fire, InsertAll, AllLater, DueRun;
    var f := Fire(q, i, clock, k, adds, repaired);
    var d := DueRun(q, i, now);
    var (r, j) := InsertAll(q, i, adds);
    InsertAllKeepsRun(q, i, adds, now);
    FireTail(q, i, clock, k, adds, repaired);
    DueRunStep(q, i, now);
    DueRunStep(r, j, now);
    DueRunSame(r, j + 1, f.queue, f.next, now);
    SameSlices(f.queue, f.next, r, j, d);
    SameSlices(r, j + 1, r, j, d);
    assert q[i + 1..i + d] == q[i..i + d][1..];
  }

  lemma DueRunStep(q: seq<Timer>, i: nat, now: int)
    requires i < |q| && q[i].expiration <= now
    ensures DueRun(q, i, now) == 1 + DueRun(q, i + 1, now)
  {
  }

  lemma FireTail(q: seq<Timer>, i: nat, clock: nat -> int, k: nat, adds: seq<Addition>, repaired: bool)
    requires i < |q| && Steady(clock)
    ensures var f := Fire(q, i, clock, k, adds, repaired);
            var (r, j) := InsertAll(q, i, adds);
            f.queue[f.next..] == r[j + 1..]
  {
  }

  lemma SameSlices(s: seq<Timer>, l: nat, r: seq<Timer>, j: nat, d: nat)
    requires 0 < d && j + d <= |r| && l <= |s| && s[l..] == r[j + 1..]
    ensures l + (d - 1) <= |s| && s[l..l + (d - 1)] == r[j..j + d][1..]
  {
    assert |s[l..]| == |r[j + 1..]|;
    assert s[l..l + (d - 1)] == s[l..][..d - 1];
    assert r[j..j + d][1..] == r[j + 1..][..d - 1];
  }

  /** `queue` and `fired` are the outcome; `waiting` holds what the repaired variant puts back last. */
  datatype Passed = Passed(queue: seq<Timer>, fired: seq<nat>, tick: nat, waiting: seq<Timer>)

  /** How much the callbacks of the firings from the n-th on will add. */
  function StillAdded(adds: Additions, n: nat): nat
    decreases |adds| - n
  {
    if n >= |adds| then 0 else |adds[n]| + StillAdded(adds, n + 1)
  }

  /** The pass ends because every turn leaves the iterator one timer nearer to the end, additions counted. */
  function Remaining(q: seq<Timer>, i: nat, adds: Additions, n: nat): nat
    requires i <= |q|
  {
    |q| - i + StillAdded(adds, n)
  }

  lemma {:induction false} InsertAllSize(q: seq<Timer>, i: nat, adds: seq<Addition>)
    requires i < |q|
    ensures var (r, j) := InsertAll(q, i, adds); |r| == |q| + |adds| && j >= i
    decreases |adds|
  {
    if adds == [] {
    } else {
      var p := Spot(q, adds[0].timer, adds[0].hint);
      InsertAllSize(InsertAt(q, adds[0].timer, p), if p <= i then i + 1 else i, adds[1..]);
    }
  }

  lemma FireShrinks(q: seq<Timer>, i: nat, clock: nat -> int, k: nat, adds: Additions, n: nat, repaired: bool)
    requires i < |q| && Steady(clock)
    ensures var f := Fire(q, i, clock, k, At(adds, n), repaired);
            Remaining(f.queue, f.next, adds, n + 1) < Remaining(q, i, adds, n)
  {
    hide InsertAll;
    InsertAllSize(q, i, At(adds, n));
  }

  /** The loop of triggerTimer from position `i` on, after `n` firings and `k` readings of the clock. */
  ghost function Pass(q: seq<Timer>, i: nat, now: int, clock: nat -> int, k: nat,
                      adds: Additions, n: nat, repaired: bool): (p: Passed)
    requires i <= |q| && Steady(clock)
    decreases Remaining(q, i, adds, n)
  {
    if i >= |q| || q[i].expiration > now then Passed(q, [], k, [])
    else
      FireShrinks(q, i, clock, k, adds, n, repaired);
      var f := Fire(q, i, clock, k, At(adds, n), repaired);
      var p := Pass(f.queue, f.next, now, clock, f.tick, adds, n + 1, repaired);
      p.(fired := [q[i].serial] + p.fired, waiting := f.kept + p.waiting)
  }

  lemma PassStops(q: seq<Timer>, i: nat, now: int, clock: nat -> int, k: nat, adds: Additions, n: nat, repaired: bool)
    requires i <= |q| && Steady(clock) && (i < |q| ==> q[i].expiration > now)
    ensures Pass(q, i, now, clock, k, adds, n, repaired) == Passed(q, [], k, []) && DueRun(q, i, now) == 0
  {
  }

  lemma PassGoesOn(q: seq<Timer>, i: nat, now: int, clock: nat -> int, k: nat, adds: Additions, n: nat, repaired: bool)
    requires i < |q| && Steady(clock) && q[i].expiration <= now
    ensures var f := Fire(q, i, clock, k, At(adds, n), repaired);
            var p := Pass(f.queue, f.next, now, clock, f.tick, adds, n + 1, repaired);
            Pass(q, i, now, clock, k, adds, n, repaired) ==
              p.(fired := [q[i].serial] + p.fired, waiting := f.kept + p.waiting)
  {
    hide Fire, Remaining;
  }

  lemma SerialsCons(t: Timer, q: seq<Timer>)
    ensures Serials([t] + q) == [t.serial] + Serials(q)
  {
  }

  /** A pass fires the run of due timers at the front, each once, in their order, whatever the callbacks add later. */
  lemma {:induction false} PassFires(q: seq<Timer>, i: nat, now: int, clock: nat -> int, k: nat,
                                     adds: Additions, n: nat, repaired: bool)
    requires i <= |q| && Steady(clock) && Later(adds, now)
    ensures i + DueRun(q, i, now) <= |q|
    ensures Pass(q, i, now, clock, k, adds, n, repaired).fired == Serials(q[i..i + DueRun(q, i, now)])
    decreases DueRun(q, i, now)
  {
    hide Pass, Fire, DueRun, AllLater, Serials, Steady;
    if i < |q| && q[i].expiration <= now {
      var d := DueRun(q, i, now);
      AdditionsLater(adds, n, now);
      FireAdvances(q, i, clock, k, At(adds, n), repaired, now);
      PassGoesOn(q, i, now, clock, k, adds, n, repaired);
      var f := Fire(q, i, clock, k, At(adds, n), repaired);
      PassFires(f.queue, f.next, now, clock, f.tick, adds, n + 1, repaired);
      assert q[i..i + d] == [q[i]] + q[i + 1..i + d];
      SerialsCons(q[i], q[i + 1..i + d]);
    } else {
      PassStops(q, i, now, clock, k, adds, n, repaired);
      assert q[i..i] == [] && Serials([]) == [] by { NoSerials(); }
    }
  }

  lemma NoSerials()
    ensures Serials([]) == []
  {
  }

  lemma AdditionsLater(adds: Additions, n: nat, now: int)
    requires Later(adds, now)
    ensures AllLater(At(adds, n), now)
  {
  }

  function DueOf(q: seq<Timer>, now: int): seq<Timer> {
    if q == [] then []
    else (if q[0].expiration <= now then [q[0]] else []) + DueOf(q[1..], now)
  }

  /** No due timer stands behind one that is not due. */
  predicate DueInFront(q: seq<Timer>, now: int) {
    forall i, j :: 0 <= i < j < |q| && q[j].expiration <= now ==> q[i].expiration <= now
  }

  lemma {:induction false} DueOfSplit(q: seq<Timer>, now: int, n: nat)
    requires n <= |q| && forall j :: 0 <= j < n ==> q[j].expiration <= now
    ensures DueOf(q, now) == q[..n] + DueOf(q[n..], now)
    decreases n
  {
    if n == 0 {
      assert q[0..] == q;
    } else {
      DueOfSplit(q[1..], now, n - 1);
      assert q[1..][n - 1..] == q[n..];
      assert q[..n] == [q[0]] + q[1..][..n - 1];
    }
  }

  lemma {:induction false} DueOfNone(q: seq<Timer>, now: int)
    ensures DueOf(q, now) == [] <==> forall t :: t in q ==> t.expiration > now
  {
    if q == [] {
    } else {
      DueOfNone(q[1..], now);
      assert forall t :: t in q <==> t == q[0] || t in q[1..];
    }
  }

  /**
   One triggerTimer pass at the frozen time `now` fires exactly the due timers,
   once each and in order, if and only if no due timer stands behind one that is
   not due; in particular it does so on every ordered queue.
   */
  lemma PassFiresDueIff(q: seq<Timer>, now: int, clock: nat -> int, k: nat, adds: Additions, repaired: bool)
    requires Steady(clock) && Later(adds, now)
    ensures Pass(q, 0, now, clock, k, adds, 0, repaired).fired == Serials(DueOf(q, now)) <==> DueInFront(q, now)
    ensures Ordered(q) ==> DueInFront(q, now)
  {
    hide Pass;
    PassFires(q, 0, now, clock, k, adds, 0, repaired);
    assert q[0..DueRun(q, 0, now)] == q[..DueRun(q, 0, now)];
    FrontIsAllDueIff(q, now);
  }

  lemma NoneDueBehind(q: seq<Timer>, now: int, n: nat)
    requires n <= |q| && (forall j :: 0 <= j < n ==> q[j].expiration <= now) && (n < |q| ==> q[n].expiration > now)
    ensures (forall t :: t in q[n..] ==> t.expiration > now) <==> DueInFront(q, now)
  {
    if DueInFront(q, now) {
      forall t | t in q[n..] ensures t.expiration > now {
        var j :| n <= j < |q| && q[j] == t;
      }
    } else {
      var i, j :| 0 <= i < j < |q| && q[j].expiration <= now && q[i].expiration > now;
      assert q[n..][j - n] == q[j] && q[j] in q[n..];
    }
  }

  lemma FrontIsAllDueIff(q: seq<Timer>, now: int)
    ensures DueRun(q, 0, now) <= |q|
    ensures Serials(q[..DueRun(q, 0, now)]) == Serials(DueOf(q, now)) <==> DueInFront(q, now)
  {
    hide DueRun, DueOf, DueInFront, Serials;
    DueRunIs(q, 0, now);
    var n := DueRun(q, 0, now);
    DueOfSplit(q, now, n);
    DueOfNone(q[n..], now);
    NoneDueBehind(q, now, n);
    var front, behind := q[..n], DueOf(q[n..], now);
    SerialsSize(front);
    SerialsSize(front + behind);
    assert behind == [] ==> front + behind == front;
  }

  lemma SerialsSize(q: seq<Timer>)
    ensures |Serials(q)| == |q|
  {
  }

  // ---------- what a pass leaves behind

  /** The fired timers that go on, with their next expiration, in order. */
  ghost function Survivors(ts: seq<Timer>, clock: nat -> int, k: nat): seq<Timer>
    requires Steady(clock)
  {
    if ts == [] then []
    else if !ts[0].HasNextTime() then Survivors(ts[1..], clock, k)
    else [ts[0].NextRepeat(clock(k), clock(k + 1))] + Survivors(ts[1..], clock, k + Ticks(ts[0], clock, k))
  }

  function InPlace(left: seq<Timer>, repaired: bool): seq<Timer> {
    if repaired then [] else left
  }

  function Aside(left: seq<Timer>, repaired: bool): seq<Timer> {
    if repaired then left else []
  }

  lemma JoinLeft(a: seq<Timer>, b: seq<Timer>, c: seq<Timer>, repaired: bool)
    ensures a + InPlace(b, repaired) + InPlace(c, repaired) == a + InPlace(b + c, repaired)
    ensures Aside(b, repaired) + Aside(c, repaired) == Aside(b + c, repaired)
  {
  }

  /** Without additions the queue after a pass is the survivors in place, then the timers not reached. */
  lemma {:induction false} PassLeaves(q: seq<Timer>, i: nat, now: int, clock: nat -> int, k: nat,
                                      n: nat, repaired: bool)
    requires i <= |q| && Steady(clock)
    ensures i + DueRun(q, i, now) <= |q|
    ensures var d := DueRun(q, i, now);
            var left := Survivors(q[i..i + d], clock, k);
            var p := Pass(q, i, now, clock, k, [], n, repaired);
            p.queue == q[..i] + InPlace(left, repaired) + q[i + d..] && p.waiting == Aside(left, repaired)
    decreases DueRun(q, i, now)
  {
    hide Pass, Fire, Survivors, DueRun, InPlace, Aside, Steady;
    DueRunIs(q, i, now);
    var d := DueRun(q, i, now);
    if i >= |q| || q[i].expiration > now {
      PassStops(q, i, now, clock, k, [], n, repaired);
      NoSurvivors(clock, k);
      assert q[i..i] == [] && q[..i] + [] + q[i..] == q;
    } else {
      var f := Fire(q, i, clock, k, [], repaired);
      assert At([], n) == [];
      FireAdvances(q, i, clock, k, [], repaired, now);
      PassGoesOn(q, i, now, clock, k, [], n, repaired);
      PassLeaves(f.queue, f.next, now, clock, f.tick, n + 1, repaired);
      FireLeaves(q, i, clock, k, repaired, d);
      var kept, left := Survivors([q[i]], clock, k), Survivors(q[i + 1..i + d], clock, f.tick);
      assert f.queue[f.next..f.next + (d - 1)] == q[i + 1..i + d];
      var p := Pass(f.queue, f.next, now, clock, f.tick, [], n + 1, repaired);
      assert p.queue == q[..i] + InPlace(kept, repaired) + InPlace(left, repaired) + q[i + d..];
      JoinLeft(q[..i], kept, left, repaired);
    }
  }

  lemma NoSurvivors(clock: nat -> int, k: nat)
    requires Steady(clock)
    ensures Survivors([], clock, k) == []
    ensures forall repaired :: InPlace([], repaired) == [] && Aside([], repaired) == []
  {
  }

  /** Firing without additions: what is before, at and behind the iterator afterwards. */
  lemma FireLeaves(q: seq<Timer>, i: nat, clock: nat -> int, k: nat, repaired: bool, d: nat)
    requires 0 < d && i + d <= |q| && Steady(clock)
    ensures var f := Fire(q, i, clock, k, [], repaired);
            var kept := Survivors([q[i]], clock, k);
            && f.next + (d - 1) <= |f.queue|
            && f.queue[..f.next] == q[..i] + InPlace(kept, repaired)
            && f.kept == Aside(kept, repaired)
            && f.queue[f.next + (d - 1)..] == q[i + d..]
            && Survivors(q[i..i + d], clock, k) == kept + Survivors(q[i + 1..i + d], clock, f.tick)
  {
    var f := Fire(q, i, clock, k, [], repaired);
    assert InsertAll(q, i, []) == (q, i);
    assert [q[i]][1..] == [] && Survivors([], clock, f.tick) == [];
    assert q[i..i + d][1..] == q[i + 1..i + d];
    assert f.queue[f.next..] == q[i + 1..];
    assert f.queue[f.next..][d - 1..] == q[i + 1..][d - 1..];
  }
}
