/** The order of the timer queue over runs of its operations (base/xtimer_queue.cpp). */
module TimerRuns {
  import opened Timers
  import opened TimerTree

  predicate DistinctSerials(q: seq<Timer>) {
    forall i, j :: 0 <= i < j < |q| ==> q[i].serial != q[j].serial
  }

  predicate Within(q: seq<Timer>, used: set<nat>) {
    forall t :: t in q ==> t.serial in used
  }

  /** Every addition gets a serial no timer had before. */
  predicate Novel(adds: seq<Addition>, used: set<nat>) {
    adds == [] || (adds[0].timer.serial !in used && Novel(adds[1..], used + {adds[0].timer.serial}))
  }

  function Used(adds: seq<Addition>, used: set<nat>): set<nat> {
    if adds == [] then used else Used(adds[1..], used + {adds[0].timer.serial})
  }

  predicate NovelFrom(adds: Additions, n: nat, used: set<nat>)
    decreases |adds| - n
  {
    n < |adds| ==> Novel(adds[n], used) && NovelFrom(adds, n + 1, Used(adds[n], used))
  }

  predicate AllOneShot(q: seq<Timer>) {
    forall t :: t in q ==> !t.HasNextTime()
  }

  predicate OneShotAdds(adds: Additions) {
    forall n: nat :: n < |adds| ==> forall a :: a in adds[n] ==> !a.timer.HasNextTime()
  }

  /** A queue in order, with the timers set aside distinct from those in it. */
  predicate Tidy(q: seq<Timer>, waiting: seq<Timer>, used: set<nat>) {
    && Ordered(q) && DistinctSerials(q) && DistinctSerials(waiting)
    && (forall t, u :: t in q && u in waiting ==> t.serial != u.serial)
    && Within(q, used) && Within(waiting, used)
  }

  lemma TidyInsert(q: seq<Timer>, waiting: seq<Timer>, used: set<nat>, t: Timer, p: nat)
    requires Tidy(q, waiting, used) && t.serial !in used && Fits(q, t, p)
    ensures Tidy(InsertAt(q, t, p), waiting, used + {t.serial})
  {
    assert Fresh(q, t);
    InsertKeepsOrder(q, t, p);
  }

  lemma {:induction false} TidyInsertAll(q: seq<Timer>, i: nat, waiting: seq<Timer>, used: set<nat>,
                                         adds: seq<Addition>)
    requires i < |q| && Tidy(q, waiting, used) && Novel(adds, used)
    ensures Tidy(InsertAll(q, i, adds).0, waiting, Used(adds, used))
    decreases |adds|
  {
    if adds == [] {
    } else {
      var p := Spot(q, adds[0].timer, adds[0].hint);
      TidyInsert(q, waiting, used, adds[0].timer, p);
      TidyInsertAll(InsertAt(q, adds[0].timer, p), if p <= i then i + 1 else i, waiting,
                    used + {adds[0].timer.serial}, adds[1..]);
    }
  }

  lemma TidyErase(q: seq<Timer>, i: nat, waiting: seq<Timer>, used: set<nat>)
    requires i < |q| && Tidy(q, waiting, used)
    ensures Tidy(EraseAt(q, i), waiting, used)
    ensures forall u: Timer :: u.serial == q[i].serial ==> Tidy(EraseAt(q, i), waiting + [u], used)
  {
    EraseKeepsOrder(q, i);
    assert forall t :: t in EraseAt(q, i) ==> t in q && t.serial != q[i].serial;
    assert q[i] in q;
  }

  lemma {:induction false} OneShotInsertAll(q: seq<Timer>, i: nat, adds: seq<Addition>)
    requires i < |q| && AllOneShot(q) && forall a :: a in adds ==> !a.timer.HasNextTime()
    ensures AllOneShot(InsertAll(q, i, adds).0)
    decreases |adds|
  {
    if adds == [] {
    } else {
      assert adds[0] in adds;
      var p := Spot(q, adds[0].timer, adds[0].hint);
      var r := InsertAt(q, adds[0].timer, p);
      assert forall t :: t in r ==> t in q || t == adds[0].timer;
      OneShotInsertAll(r, if p <= i then i + 1 else i, adds[1..]);
    }
  }

  /** A pass of the repaired variant, or of the written one over one-shot timers, keeps the queue tidy. */
  lemma {:induction false} PassKeepsTidy(q: seq<Timer>, i: nat, now: int, clock: nat -> int, k: nat,
                                         adds: Additions, n: nat, repaired: bool, before: seq<Timer>, used: set<nat>)
    returns (used': set<nat>)
    requires i <= |q| && Steady(clock)
    requires Tidy(q, before, used) && NovelFrom(adds, n, used)
    requires repaired || (AllOneShot(q) && OneShotAdds(adds))
    ensures var p := Pass(q, i, now, clock, k, adds, n, repaired);
            && Tidy(p.queue, before + p.waiting, used') && used <= used'
            && (!repaired ==> p.waiting == [] && AllOneShot(p.queue))
    decreases Remaining(q, i, adds, n)
  {
    hide Fire, Tidy, NovelFrom, OneShotAdds, AllOneShot, At, Used;
    used' := used;
    if i >= |q| || q[i].expiration > now {
      assert before + [] == before;
    } else {
      AdditionsAt(adds, n, used);
      FireShrinks(q, i, clock, k, adds, n, repaired);
      FireKeepsTidy(q, i, clock, k, At(adds, n), repaired, before, used);
      UsedGrows(At(adds, n), used);
      var f := Fire(q, i, clock, k, At(adds, n), repaired);
      used' := PassKeepsTidy(f.queue, f.next, now, clock, f.tick, adds, n + 1, repaired,
                             before + f.kept, Used(At(adds, n), used));
      var p := Pass(f.queue, f.next, now, clock, f.tick, adds, n + 1, repaired);
      assert before + (f.kept + p.waiting) == (before + f.kept) + p.waiting;
    }
  }

  lemma AdditionsAt(adds: Additions, n: nat, used: set<nat>)
    requires NovelFrom(adds, n, used)
    ensures Novel(At(adds, n), used) && NovelFrom(adds, n + 1, Used(At(adds, n), used))
    ensures OneShotAdds(adds) ==> forall a :: a in At(adds, n) ==> !a.timer.HasNextTime()
  {
  }

  lemma FireKeepsTidy(q: seq<Timer>, i: nat, clock: nat -> int, k: nat, adds: seq<Addition>, repaired: bool,
                      before: seq<Timer>, used: set<nat>)
    requires i < |q| && Steady(clock)
    requires Tidy(q, before, used) && Novel(adds, used)
    requires repaired || (AllOneShot(q) && forall a :: a in adds ==> !a.timer.HasNextTime())
    ensures var f := Fire(q, i, clock, k, adds, repaired);
            && Tidy(f.queue, before + f.kept, Used(adds, used))
            && (!repaired ==> f.kept == [] && AllOneShot(f.queue))
  {
    var f := Fire(q, i, clock, k, adds, repaired);
    var (r, j) := InsertAll(q, i, adds);
    TidyInsertAll(q, i, before, used, adds);
    TidyErase(r, j, before, Used(adds, used));
    if !repaired {
      OneShotInsertAll(q, i, adds);
      assert r[j] in r;
      assert forall t :: t in EraseAt(r, j) ==> t in r;
    }
    assert before + [] == before;
  }

  lemma {:induction false} UsedGrows(adds: seq<Addition>, used: set<nat>)
    ensures used <= Used(adds, used)
  {
    if adds == [] {
    } else {
      UsedGrows(adds[1..], used + {adds[0].timer.serial});
    }
  }

  function PutBack(q: seq<Timer>, waiting: seq<Timer>): seq<Timer>
    decreases |waiting|
  {
    if waiting == [] then q else PutBack(Insert(q, waiting[0], 0), waiting[1..])
  }

  /** Moving the first of the timers set aside into the queue. */
  lemma TidyPutBack(q: seq<Timer>, waiting: seq<Timer>, used: set<nat>, p: nat)
    requires Tidy(q, waiting, used) && waiting != [] && Fits(q, waiting[0], p)
    ensures Tidy(InsertAt(q, waiting[0], p), waiting[1..], used)
  {
    var t := waiting[0];
    assert t in waiting && Fresh(q, t);
    InsertKeepsOrder(q, t, p);
    assert forall u :: u in InsertAt(q, t, p) ==> u in q || u == t;
    assert forall u :: u in waiting[1..] ==> u in waiting && u.serial != t.serial;
  }

  lemma {:induction false} PutBackTidy(q: seq<Timer>, waiting: seq<Timer>, used: set<nat>)
    requires Tidy(q, waiting, used)
    ensures Tidy(PutBack(q, waiting), [], used)
    decreases |waiting|
  {
    hide Tidy, InsertAt;
    if waiting == [] {
    } else {
      TidyPutBack(q, waiting, used, Spot(q, waiting[0], 0));
      PutBackTidy(Insert(q, waiting[0], 0), waiting[1..], used);
    }
  }

  datatype Op =
    | AddTimer(timer: Timer, hint: nat)
    | RemoveTime(index: nat, tree: Tree)
    | TriggerTimer(clock: nat -> int, adds: Additions)

  datatype Queue = Queue(timers: seq<Timer>, used: set<nat>)

  /** New serials for new timers, and live ids for removal; the set may have any shape. */
  ghost predicate Legal(s: Queue, op: Op) {
    match op
    case AddTimer(t, _) => t.serial !in s.used
    case RemoveTime(i, tree) => i < |s.timers| && tree.Elements() == s.timers
    case TriggerTimer(clock, adds) => Steady(clock) && NovelFrom(adds, 0, s.used)
  }

  /** Some set of serials given out so far is always known; the pass only says it grew. */
  ghost predicate Moves(s: Queue, op: Op, repaired: bool, t: Queue)
    requires Legal(s, op)
  {
    match op
    case AddTimer(timer, hint) => t == Queue(Insert(s.timers, timer, hint), s.used + {timer.serial})
    case RemoveTime(i, tree) => t == Queue(EraseKey(tree, s.timers[i]), s.used)
    case TriggerTimer(clock, adds) =>
      var p := Pass(s.timers, 0, clock(0), clock, 1, adds, 0, repaired);
      t.timers == PutBack(p.queue, p.waiting) && s.used <= t.used && Within(t.timers, t.used)
  }

  predicate OneShotOp(op: Op) {
    match op
    case AddTimer(timer, _) => !timer.HasNextTime()
    case RemoveTime(_, _) => true
    case TriggerTimer(_, adds) => OneShotAdds(adds)
  }

  ghost predicate InOrder(s: Queue) {
    Tidy(s.timers, [], s.used)
  }

  /** Ordered in every state reachable with one-shot timers, or with any timers in the repaired variant. */
  lemma OrderStep(s: Queue, op: Op, repaired: bool, t: Queue)
    requires InOrder(s) && Legal(s, op) && Moves(s, op, repaired, t)
    requires repaired || (AllOneShot(s.timers) && OneShotOp(op))
    ensures InOrder(t) && (!repaired ==> AllOneShot(t.timers))
  {
    match op {
      case AddTimer(timer, hint) =>
        TidyInsert(s.timers, [], s.used, timer, Spot(s.timers, timer, hint));
        assert forall u :: u in t.timers ==> u in s.timers || u == timer;
      case RemoveTime(i, tree) =>
        OrderedErasesExactly(tree, i);
        TidyErase(s.timers, i, [], s.used);
        assert forall u :: u in t.timers ==> u in s.timers;
      case TriggerTimer(clock, adds) =>
        var p := Pass(s.timers, 0, clock(0), clock, 1, adds, 0, repaired);
        var used' := PassKeepsTidy(s.timers, 0, clock(0), clock, 1, adds, 0, repaired, [], s.used);
        assert [] + p.waiting == p.waiting;
        PutBackTidy(p.queue, p.waiting, used');
    }
  }

  ghost predicate History(states: seq<Queue>, ops: seq<Op>, repaired: bool) {
    && |states| == |ops| + 1
    && states[0].timers == []
    && forall i :: 0 <= i < |ops| ==> Legal(states[i], ops[i]) && Moves(states[i], ops[i], repaired, states[i + 1])
  }

  lemma {:induction false} OrderedInEveryState(states: seq<Queue>, ops: seq<Op>, repaired: bool, n: nat)
    requires History(states, ops, repaired) && n < |states|
    requires repaired || forall i :: 0 <= i < |ops| ==> OneShotOp(ops[i])
    ensures Ordered(states[n].timers) && InOrder(states[n]) && (!repaired ==> AllOneShot(states[n].timers))
  {
    if n == 0 {
    } else {
      OrderedInEveryState(states, ops, repaired, n - 1);
      OrderStep(states[n - 1], ops[n - 1], repaired, states[n]);
    }
  }

  /** As written, one repeating timer hides a due timer behind it from the next pass. */
  lemma HiddenTimerWitness(clock: nat -> int, later: nat -> int)
    requires Steady(clock) && clock(0) == 15 && clock(1) == 15 && Steady(later) && later(0) == 50
    ensures var q := [Timer(-1, 100, 10, 1), Timer(1, 0, 20, 2)];
            var first := Pass(q, 0, 15, clock, 1, [], 0, false);
            var second := Pass(first.queue, 0, 50, later, 1, [], 0, false);
            && Ordered(q) && first.fired == [1] && !Ordered(first.queue)
            && DueOf(first.queue, 50) != [] && second.fired == []
  {
    var q := [Timer(-1, 100, 10, 1), Timer(1, 0, 20, 2)];
    var first := Pass(q, 0, 15, clock, 1, [], 0, false);
    assert InsertAll(q, 0, At([], 0)) == (q, 0);
    assert first.queue == [Timer(-1, 100, 110, 1), Timer(1, 0, 20, 2)];
    assert first.queue[1..] == [Timer(1, 0, 20, 2)];
    assert !Before(first.queue[0], first.queue[1]);
  }

  /**
   In the state the first pass of that run leaves, cancelling the timer due at 20
   searches to the left of the timer now due at 110 and removes nothing; when that
   one is due as well, the cancelled timer fires.
   */
  lemma CancelledTimerFires(later: nat -> int)
    requires Steady(later) && later(0) == 200 && later(1) == 200
    ensures var q := [Timer(-1, 100, 110, 1), Timer(1, 0, 20, 2)];
            var tree := Node(Leaf, q[0], Node(Leaf, q[1], Leaf));
            && tree.Elements() == q && EraseKey(tree, q[1]) == q
            && Pass(q, 0, 200, later, 1, [], 0, false).fired == [1, 2]
  {
    var q := [Timer(-1, 100, 110, 1), Timer(1, 0, 20, 2)];
    var tree := Node(Leaf, q[0], Node(Leaf, q[1], Leaf));
    assert tree.right.Elements() == [q[1]];
    assert tree.Elements() == [] + [q[0]] + [q[1]] == q;
    PassFires(q, 0, 200, later, 1, [], 0, false);
    assert DueRun(q, 2, 200) == 0 && DueRun(q, 1, 200) == 1 && DueRun(q, 0, 200) == 2;
    assert q[0..2] == q;
  }
}
