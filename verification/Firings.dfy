/**
 How often a timer fires: an account kept next to the queue, one entry for each
 timer added, removed or fired (base/include/xtimer.h, base/xtimer_queue.cpp).
 */
module Firings {
  import opened Timers
  import opened TimerTree
  import opened TimerRuns

  /** The queue, how often each serial has fired, and the repeat count it was made with. */
  datatype Ledger = Ledger(queue: seq<Timer>, fired: multiset<nat>, made: map<nat, int>)

  datatype Entry = Added(timer: Timer, hint: nat) | Removed(index: nat) | FiredAt(index: nat, first: int, second: int)

  predicate EntryOk(l: Ledger, e: Entry) {
    match e
    case Added(t, _) => t.serial !in l.made && t.serial !in l.fired && (t.repeat > 0 || t.repeat == -1)
    case Removed(i) => i < |l.queue|
    case FiredAt(i, first, second) => i < |l.queue| && first <= second
  }

  predicate Repeatable(q: seq<Timer>) {
    forall t :: t in q ==> t.repeat > 0 || t.repeat == -1
  }

  function Book(l: Ledger, e: Entry): Ledger
    requires EntryOk(l, e)
  {
    match e
    case Added(t, hint) => l.(queue := Insert(l.queue, t, hint), made := l.made[t.serial := t.repeat])
    case Removed(i) => l.(queue := EraseAt(l.queue, i))
    case FiredAt(i, first, second) =>
      var t := l.queue[i];
      var fired := l.fired + multiset{t.serial};
      if t.HasNextTime() then l.(queue := l.queue[i := t.NextRepeat(first, second)], fired := fired)
      else l.(queue := EraseAt(l.queue, i), fired := fired)
  }

  predicate TimerBalanced(t: Timer, l: Ledger) {
    t.serial in l.made &&
    if l.made[t.serial] > 0 then t.repeat >= 1 && t.repeat + l.fired[t.serial] == l.made[t.serial]
    else l.made[t.serial] == -1 && t.repeat == -1
  }

  ghost predicate Balanced(l: Ledger) {
    && DistinctSerials(l.queue)
    && (forall t :: t in l.queue ==> TimerBalanced(t, l))
    && (forall s :: s in l.made && l.made[s] > 0 ==> l.fired[s] <= l.made[s])
    && (forall s :: s in l.fired ==> s in l.made)
  }

  predicate Queued(l: Ledger, serial: nat) {
    exists t :: t in l.queue && t.serial == serial
  }

  lemma DistinctInsert(q: seq<Timer>, t: Timer, p: nat)
    requires DistinctSerials(q) && Fresh(q, t) && p <= |q|
    ensures DistinctSerials(InsertAt(q, t, p))
  {
  }

  lemma BalancedRepeatable(l: Ledger)
    requires Balanced(l)
    ensures Repeatable(l.queue)
  {
    forall t | t in l.queue ensures t.repeat > 0 || t.repeat == -1 {
      assert TimerBalanced(t, l);
    }
  }

  lemma BookBalances(l: Ledger, e: Entry)
    requires Balanced(l) && EntryOk(l, e)
    ensures Repeatable(l.queue) && Balanced(Book(l, e))
  {
    BalancedRepeatable(l);
    match e {
      case Added(t, hint) => AddedBalances(l, t, hint);
      case Removed(i) => assert forall u :: u in Book(l, e).queue ==> u in l.queue;
      case FiredAt(i, first, second) => FiredBalances(l, i, first, second);
    }
  }

  lemma AddedBalances(l: Ledger, t: Timer, hint: nat)
    requires Balanced(l) && Repeatable(l.queue) && EntryOk(l, Added(t, hint))
    ensures Balanced(Book(l, Added(t, hint)))
  {
    var m := Book(l, Added(t, hint));
    assert Fresh(l.queue, t) by {
      forall u | u in l.queue ensures u.serial != t.serial {
        assert TimerBalanced(u, l);
      }
    }
    DistinctInsert(l.queue, t, Spot(l.queue, t, hint));
    forall u | u in m.queue ensures TimerBalanced(u, m) {
      assert u in l.queue || u == t;
      assert u in l.queue ==> TimerBalanced(u, l);
    }
  }

  lemma FiredBalances(l: Ledger, i: nat, first: int, second: int)
    requires Balanced(l) && Repeatable(l.queue) && EntryOk(l, FiredAt(i, first, second))
    ensures Balanced(Book(l, FiredAt(i, first, second)))
  {
    var m := Book(l, FiredAt(i, first, second));
    var t := l.queue[i];
    assert TimerBalanced(t, l);
    forall j | 0 <= j < |m.queue| ensures TimerBalanced(m.queue[j], m) {
      var u := m.queue[j];
      if t.HasNextTime() && j == i {
        assert u == t.NextRepeat(first, second);
      } else {
        var o := if t.HasNextTime() || j < i then j else j + 1;
        assert u == l.queue[o] && u.serial != t.serial;
        assert TimerBalanced(u, l);
      }
    }
    forall j, o | 0 <= j < o < |m.queue| ensures m.queue[j].serial != m.queue[o].serial {
      if !t.HasNextTime() {
        assert m.queue[j] == l.queue[if j < i then j else j + 1];
        assert m.queue[o] == l.queue[if o < i then o else o + 1];
      }
    }
  }

  /** A firing takes its timer out exactly when it was made for that many firings; a forever timer stays. */
  lemma ErasedOnLastFiringIff(l: Ledger, i: nat, first: int, second: int)
    requires Balanced(l) && EntryOk(l, FiredAt(i, first, second))
    ensures Repeatable(l.queue)
    ensures var s := l.queue[i].serial;
            var m := Book(l, FiredAt(i, first, second));
            s in l.made && (!Queued(m, s) <==> l.made[s] > 0 && m.fired[s] == l.made[s])
  {
    BookBalances(l, FiredAt(i, first, second));
    var t := l.queue[i];
    assert TimerBalanced(t, l);
    var m := Book(l, FiredAt(i, first, second));
    if t.HasNextTime() {
      assert m.queue[i] in m.queue;
    } else {
      assert forall u :: u in m.queue ==> u.serial != t.serial;
    }
  }

  ghost predicate EntriesOk(l: Ledger, es: seq<Entry>)
    decreases |es|
  {
    es != [] ==> EntryOk(l, es[0]) && EntriesOk(Book(l, es[0]), es[1..])
  }

  ghost function Books(l: Ledger, es: seq<Entry>): Ledger
    requires EntriesOk(l, es)
    decreases |es|
  {
    if es == [] then l else Books(Book(l, es[0]), es[1..])
  }

  lemma {:induction false} BalancedRun(l: Ledger, es: seq<Entry>)
    requires Balanced(l) && EntriesOk(l, es)
    ensures Balanced(Books(l, es))
    decreases |es|
  {
    if es == [] {
    } else {
      BookBalances(l, es[0]);
      BalancedRun(Book(l, es[0]), es[1..]);
    }
  }

  /**
   From an empty queue, over any run: a timer made with repeat n > 0 has fired at
   most n times, and while it is queued its repeat count plus its firings is n; a
   timer made with repeat -1 keeps it.
   */
  lemma FiredAtMostRepeat(es: seq<Entry>, serial: nat)
    requires EntriesOk(Ledger([], multiset{}, map[]), es)
    ensures var l := Books(Ledger([], multiset{}, map[]), es);
            serial in l.made ==>
              && (l.made[serial] > 0 ==> l.fired[serial] <= l.made[serial])
              && forall t :: t in l.queue && t.serial == serial ==>
                   if l.made[serial] > 0 then t.repeat + l.fired[serial] == l.made[serial] else t.repeat == -1
  {
    BalancedRun(Ledger([], multiset{}, map[]), es);
    var l := Books(Ledger([], multiset{}, map[]), es);
    forall t | t in l.queue && t.serial == serial
      ensures TimerBalanced(t, l)
    {
    }
  }

  // ---------- when a timer fires

  function Count(l: Ledger, serial: nat): int {
    l.fired[serial]
  }

  /** Every firing of this timer reads the clock no later than one interval after it was due. */
  ghost predicate OnTime(l: Ledger, es: seq<Entry>, serial: nat)
    requires EntriesOk(l, es)
    decreases |es|
  {
    es != [] ==>
      && (es[0].FiredAt? && l.queue[es[0].index].serial == serial ==>
            es[0].first <= l.queue[es[0].index].expiration + l.queue[es[0].index].interval)
      && OnTime(Book(l, es[0]), es[1..], serial)
  }

  lemma SameSerial(l: Ledger, t: Timer, u: Timer)
    requires DistinctSerials(l.queue) && t in l.queue && u in l.queue && t.serial == u.serial
    ensures t == u
  {
    var i :| 0 <= i < |l.queue| && l.queue[i] == t;
    var j :| 0 <= j < |l.queue| && l.queue[j] == u;
    assert i == j;
  }

  lemma MadeIfQueued(l: Ledger, t: Timer)
    requires Balanced(l) && t in l.queue
    ensures t.serial in l.made && DistinctSerials(l.queue)
  {
    assert TimerBalanced(t, l);
  }

  lemma InsertedFrom(q: seq<Timer>, t: Timer, hint: nat, j: nat)
    requires j < |Insert(q, t, hint)|
    ensures Insert(q, t, hint)[j] == t || Insert(q, t, hint)[j] in q
  {
  }

  /** What is queued after an entry is new with it, was queued before, or is the timer it fired. */
  lemma QueuedAfter(l: Ledger, e: Entry, u: Timer)
    requires EntryOk(l, e) && Repeatable(l.queue) && u in Book(l, e).queue
    ensures match e
            case Added(v, _) => u == v || u in l.queue
            case Removed(_) => u in l.queue
            case FiredAt(i, first, second) =>
              var v := l.queue[i];
              if DistinctSerials(l.queue) && u.serial == v.serial
              then v.HasNextTime() && u == v.NextRepeat(first, second)
              else u in l.queue || u.serial == v.serial
  {
    hide Insert;
    var m := Book(l, e);
    var j :| 0 <= j < |m.queue| && m.queue[j] == u;
    match e {
      case Added(v, hint) => InsertedFrom(l.queue, v, hint, j);
      case Removed(i) => assert u == l.queue[if j < i then j else j + 1];
      case FiredAt(i, first, second) =>
        var v := l.queue[i];
        if !v.HasNextTime() {
          assert u == l.queue[if j < i then j else j + 1];
        } else if j != i {
          assert u == l.queue[j];
        }
    }
  }

  /** Where one entry leaves a timer that stays queued. */
  lemma BookMoves(l: Ledger, e: Entry, t: Timer, u: Timer)
    requires Balanced(l) && EntryOk(l, e) && t in l.queue && u in Book(l, e).queue && u.serial == t.serial
    ensures u.interval == t.interval && (e.FiredAt? ==> e.index < |l.queue| && e.first <= e.second)
    ensures if e.FiredAt? && l.queue[e.index].serial == t.serial then
              && l.queue[e.index] == t && Book(l, e).fired[t.serial] == l.fired[t.serial] + 1
              && u.expiration == (if t.expiration + t.interval >= e.first then t.expiration else e.second) + t.interval
            else u == t && Book(l, e).fired[t.serial] == l.fired[t.serial]
  {
    BalancedRepeatable(l);
    MadeIfQueued(l, t);
    QueuedAfter(l, e, u);
    hide Balanced, Insert, EraseAt;
    if e.FiredAt? && l.queue[e.index].serial == t.serial {
      SameSerial(l, l.queue[e.index], t);
    } else {
      SameSerial(l, t, u);
    }
  }

  /** A timer that is queued after an entry was queued before it, or is the one the entry added. */
  lemma QueuedBefore(l: Ledger, e: Entry, serial: nat)
    requires Balanced(l) && EntryOk(l, e) && Queued(Book(l, e), serial) && serial in l.made
    ensures Queued(l, serial)
  {
    BalancedRepeatable(l);
    var u := QueuedAs(Book(l, e), serial);
    QueuedAfter(l, e, u);
    if e.FiredAt? {
      assert l.queue[e.index] in l.queue;
    }
  }

  /**
   A timer due at `e` with interval `v` is due at e + n * v after n firings exactly
   when each of them was on time; a late one puts it off for good.
   */
  lemma {:induction false} NoDriftIff(l: Ledger, es: seq<Entry>, t: Timer, u: Timer)
    requires Balanced(l) && EntriesOk(l, es) && t in l.queue && t.interval >= 0
    requires u in Books(l, es).queue && u.serial == t.serial
    ensures var n := Count(Books(l, es), t.serial) - Count(l, t.serial);
            && n >= 0 && u.interval == t.interval
            && u.expiration >= t.expiration + n * t.interval
            && (u.expiration == t.expiration + n * t.interval <==> OnTime(l, es, t.serial))
    decreases |es|
  {
    hide Balanced, Book, EntryOk, Queued;
    MadeIfQueued(l, t);
    if es == [] {
      SameSerial(l, t, u);
    } else {
      var e, m, rest := es[0], Book(l, es[0]), es[1..];
      BookBalances(l, e);
      StillMade(l, e, t.serial);
      StaysAway(m, rest, u);
      var t' := QueuedAs(m, t.serial);
      BookMoves(l, e, t, t');
      NoDriftIff(m, rest, t', u);
      var n := Count(Books(m, rest), t.serial) - Count(m, t.serial);
      OneMore(n, t.interval);
      assert t' == t || t'.expiration == t.expiration + t.interval || t'.expiration > t.expiration + t.interval;
    }
  }

  lemma OneMore(n: int, v: int)
    ensures (n + 1) * v == n * v + v
  {
  }

  lemma StillMade(l: Ledger, e: Entry, serial: nat)
    requires EntryOk(l, e) && serial in l.made
    ensures serial in Book(l, e).made
  {
  }

  lemma QueuedAs(l: Ledger, serial: nat) returns (t: Timer)
    requires Queued(l, serial)
    ensures t in l.queue && t.serial == serial
  {
    t :| t in l.queue && t.serial == serial;
  }

  /** A serial is never given out twice, so a timer found queued at the end was queued all along. */
  lemma {:induction false} StaysAway(l: Ledger, es: seq<Entry>, u: Timer)
    requires Balanced(l) && EntriesOk(l, es) && u in Books(l, es).queue && u.serial in l.made
    ensures Queued(l, u.serial)
    decreases |es|
  {
    if es == [] {
    } else {
      hide Balanced, Book, EntryOk, Queued;
      BookBalances(l, es[0]);
      StillMade(l, es[0], u.serial);
      StaysAway(Book(l, es[0]), es[1..], u);
      QueuedBefore(l, es[0], u.serial);
    }
  }

  /**
   Over any run: a timer added due at `e` with interval `v` stands at e + n * v after
   its n-th firing, for as long as it is queued, exactly when it fired on time.
   */
  lemma DueOnScheduleIff(before: seq<Entry>, t: Timer, hint: nat, later: seq<Entry>, u: Timer)
    requires EntriesOk(Ledger([], multiset{}, map[]), before)
    requires EntryOk(Books(Ledger([], multiset{}, map[]), before), Added(t, hint)) && t.interval >= 0
    requires EntriesOk(Book(Books(Ledger([], multiset{}, map[]), before), Added(t, hint)), later)
    requires var l := Book(Books(Ledger([], multiset{}, map[]), before), Added(t, hint));
             u in Books(l, later).queue && u.serial == t.serial
    ensures var l := Book(Books(Ledger([], multiset{}, map[]), before), Added(t, hint));
            u.expiration == t.expiration + Books(l, later).fired[t.serial] * t.interval <==> OnTime(l, later, t.serial)
  {
    hide Books, EntriesOk, OnTime;
    BalancedRun(Ledger([], multiset{}, map[]), before);
    var l := Books(Ledger([], multiset{}, map[]), before);
    BookBalances(l, Added(t, hint));
    NoDriftIff(Book(l, Added(t, hint)), later, t, u);
  }

  lemma {:induction false} EntriesAppend(l: Ledger, es: seq<Entry>, fs: seq<Entry>)
    requires EntriesOk(l, es) && EntriesOk(Books(l, es), fs)
    ensures EntriesOk(l, es + fs) && Books(l, es + fs) == Books(Books(l, es), fs)
    decreases |es|
  {
    if es == [] {
      assert es + fs == fs;
    } else {
      assert (es + fs)[1..] == es[1..] + fs;
      EntriesAppend(Book(l, es[0]), es[1..], fs);
    }
  }

  /** Whatever a removal by key takes out, it is such a run. */
  lemma EraseKeyIsEntries(l: Ledger, tree: Tree, key: Timer) returns (es: seq<Entry>)
    requires tree.Elements() == l.queue
    ensures EntriesOk(l, es) && Books(l, es) == l.(queue := EraseKey(tree, key))
  {
    var (lo, hi) := EqualRange(tree, key);
    if lo < hi {
      es := RemoveRange(l, lo, hi);
    } else {
      es := [];
    }
  }

  lemma {:induction false} RemoveRange(l: Ledger, lo: nat, hi: nat) returns (es: seq<Entry>)
    requires lo <= hi <= |l.queue|
    ensures EntriesOk(l, es) && Books(l, es) == l.(queue := l.queue[..lo] + l.queue[hi..])
    decreases hi - lo
  {
    if lo == hi {
      es := [];
      assert l.queue[..lo] + l.queue[hi..] == l.queue;
    } else {
      var m := Book(l, Removed(lo));
      var rest := RemoveRange(m, lo, hi - 1);
      assert m.queue[..lo] == l.queue[..lo] && m.queue[hi - 1..] == l.queue[hi..];
      es := [Removed(lo)] + rest;
      assert es[1..] == rest;
    }
  }

  predicate RepeatableAdds(adds: seq<Addition>) {
    forall a :: a in adds ==> a.timer.repeat > 0 || a.timer.repeat == -1
  }

  lemma {:induction false} AdditionEntries(l: Ledger, i: nat, adds: seq<Addition>) returns (es: seq<Entry>)
    requires Balanced(l) && i < |l.queue| && RepeatableAdds(adds) && Novel(adds, l.made.Keys)
    ensures EntriesOk(l, es)
    ensures Books(l, es).queue == InsertAll(l.queue, i, adds).0
    ensures Books(l, es).fired == l.fired && Books(l, es).made.Keys == Used(adds, l.made.Keys)
    ensures NoneFired(es)
    decreases |adds|
  {
    if adds == [] {
      es := [];
    } else {
      assert adds[0] in adds;
      var e := Added(adds[0].timer, adds[0].hint);
      BookBalances(l, e);
      var m := Book(l, e);
      var p := Spot(l.queue, adds[0].timer, adds[0].hint);
      assert m.made.Keys == l.made.Keys + {adds[0].timer.serial};
      var tail := AdditionEntries(m, if p <= i then i + 1 else i, adds[1..]);
      es := [e] + tail;
      assert es[1..] == tail;
    }
  }

  predicate NoneFired(es: seq<Entry>) {
    forall e :: e in es ==> !e.FiredAt?
  }

  /** Two readings in a row, from the k-th on. */
  ghost predicate ReadFrom(clock: nat -> int, k: nat, first: int, second: int) {
    exists j: nat :: j >= k && first == clock(j) && second == clock(j + 1)
  }

  /** Every firing was timed with readings of this clock from the k-th on. */
  ghost predicate Timed(es: seq<Entry>, clock: nat -> int, k: nat) {
    forall e :: e in es && e.FiredAt? ==> ReadFrom(clock, k, e.first, e.second)
  }

  lemma TimedAppend(es: seq<Entry>, fs: seq<Entry>, clock: nat -> int, k: nat, j: nat)
    requires Timed(es, clock, k) && Timed(fs, clock, j) && j >= k
    ensures Timed(es + fs, clock, k)
  {
  }

  lemma TimedFiring(es: seq<Entry>, i: nat, clock: nat -> int, k: nat)
    requires NoneFired(es)
    ensures Timed(es + [FiredAt(i, clock(k), clock(k + 1))], clock, k)
  {
    assert ReadFrom(clock, k, clock(k), clock(k + 1));
  }

  lemma FireReads(q: seq<Timer>, i: nat, clock: nat -> int, k: nat, adds: seq<Addition>)
    requires i < |q| && Steady(clock)
    ensures Fire(q, i, clock, k, adds, false).tick >= k
  {
    hide InsertAll;
  }

  /** The firings and additions of one pass are such a run, so the accounting covers every pass. */
  lemma {:induction false} PassIsEntries(l: Ledger, i: nat, now: int, clock: nat -> int, k: nat,
                                         adds: Additions, n: nat)
    returns (es: seq<Entry>)
    requires Balanced(l) && i <= |l.queue| && Steady(clock)
    requires NovelFrom(adds, n, l.made.Keys) && forall m: nat :: m < |adds| ==> RepeatableAdds(adds[m])
    ensures EntriesOk(l, es)
    ensures var p := Pass(l.queue, i, now, clock, k, adds, n, false);
            Books(l, es).queue == p.queue && Books(l, es).fired == l.fired + multiset(p.fired)
    ensures Timed(es, clock, k)
    decreases Remaining(l.queue, i, adds, n)
  {
    var q := l.queue;
    if i >= |q| || q[i].expiration > now {
      es := [];
    } else {
      hide Fire, InsertAll, NovelFrom, At, EntriesOk, Books, Balanced, Remaining, ReadFrom;
      AdditionsAt(adds, n, l.made.Keys);
      FireShrinks(q, i, clock, k, adds, n, false);
      var f := Fire(q, i, clock, k, At(adds, n), false);
      var firing, m := FiringEntries(l, i, clock, k, adds, n);
      var tail := PassIsEntries(m, f.next, now, clock, f.tick, adds, n + 1);
      EntriesAppend(l, firing, tail);
      FireReads(q, i, clock, k, At(adds, n));
      TimedAppend(firing, tail, clock, k, f.tick);
      es := firing + tail;
      var rest := Pass(f.queue, f.next, now, clock, f.tick, adds, n + 1, false).fired;
      assert multiset([q[i].serial] + rest) == multiset{q[i].serial} + multiset(rest);
    }
  }

  lemma FiringEntries(l: Ledger, i: nat, clock: nat -> int, k: nat, adds: Additions, n: nat)
    returns (es: seq<Entry>, m: Ledger)
    requires Balanced(l) && i < |l.queue| && Steady(clock)
    requires Novel(At(adds, n), l.made.Keys) && forall m: nat :: m < |adds| ==> RepeatableAdds(adds[m])
    ensures EntriesOk(l, es) && m == Books(l, es) && Balanced(m)
    ensures m.queue == Fire(l.queue, i, clock, k, At(adds, n), false).queue
    ensures m.fired == l.fired + multiset{l.queue[i].serial}
    ensures m.made.Keys == Used(At(adds, n), l.made.Keys)
    ensures Timed(es, clock, k)
  {
    hide InsertAll, Balanced, Books, EntriesOk, Timed;
    assert RepeatableAdds(At(adds, n));
    var added := AdditionEntries(l, i, At(adds, n));
    var mid := Books(l, added);
    BalancedRun(l, added);
    var (r, j) := InsertAll(l.queue, i, At(adds, n));
    var e := FiredAt(j, clock(k), clock(k + 1));
    BookBalances(mid, e);
    OneEntry(mid, e);
    EntriesAppend(l, added, [e]);
    TimedFiring(added, j, clock, k);
    es := added + [e];
    m := Book(mid, e);
  }

  lemma OneEntry(l: Ledger, e: Entry)
    requires EntryOk(l, e)
    ensures EntriesOk(l, [e]) && Books(l, [e]) == Book(l, e)
  {
    assert [e][1..] == [] && EntriesOk(Book(l, e), []);
  }
}
