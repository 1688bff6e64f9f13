/**
 Work handed to the loop thread (base/xloop.cpp): other threads append to
 `extraEvents_` under a mutex, while process() walks and clears the list without
 it. A functor is named by its place in the order of scheduling: 0, 1, 2, ...
 */
module Schedule {

  /** Where process() is with respect to the list; `next` is the list iterator. */
  datatype Phase = Elsewhere | Walking(next: nat) | AtEnd(next: nat)

  datatype State = State(
    scheduled: nat,          // functors scheduled so far
    list: seq<nat>,          // extraEvents_
    phase: Phase,
    ran: seq<nat>,           // functors run, in order
    inWindow: seq<nat>,      // functors scheduled between the end of the walk and the clear
    dropped: seq<nat>        // functors cleared without having been run
  )

  datatype Action = Push | Begin | RunNext | Finish | Clear

  function Initial(): State {
    State(0, [], Elsewhere, [], [], [])
  }

  predicate Enabled(s: State, a: Action) {
    match a
    case Push => true
    case Begin => s.phase == Elsewhere
    case RunNext => s.phase.Walking? && s.phase.next < |s.list|
    case Finish => s.phase.Walking? && s.phase.next == |s.list|
    case Clear => s.phase.AtEnd? && s.phase.next <= |s.list|
  }

  function Next(s: State, a: Action): State
    requires Enabled(s, a)
  {
    match a
    case Push =>
      s.(scheduled := s.scheduled + 1, list := s.list + [s.scheduled],
         inWindow := s.inWindow + if s.phase.AtEnd? then [s.scheduled] else [])
    case Begin => s.(phase := Walking(0))
    case RunNext => s.(phase := Walking(s.phase.next + 1), ran := s.ran + [s.list[s.phase.next]])
    case Finish => s.(phase := AtEnd(s.phase.next))
    case Clear => s.(phase := Elsewhere, list := [], dropped := s.dropped + s.list[s.phase.next..])
  }

  /** Scheduled, not yet run, and not yet out of reach of the iterator. */
  function Pending(s: State): seq<nat> {
    match s.phase
    case Elsewhere => s.list
    case Walking(next) => if next <= |s.list| then s.list[next..] else []
    case AtEnd(_) => []
  }

  /** In the window and not yet cleared. */
  function Doomed(s: State): seq<nat> {
    if s.phase.AtEnd? && s.phase.next <= |s.list| then s.list[s.phase.next..] else []
  }

  predicate Increasing(s: seq<nat>) {
    forall i, j :: 0 <= i < j < |s| ==> s[i] < s[j]
  }

  /** Every functor scheduled so far is exactly one of: run, dropped, doomed, pending. */
  ghost predicate Accounted(s: State) {
    forall n: nat :: n < s.scheduled <==> n in s.ran || n in s.inWindow || n in Pending(s)
  }

  ghost predicate Inv(s: State) {
    && (s.phase != Elsewhere ==> s.phase.next <= |s.list|)
    && Increasing(s.ran + Pending(s))
    && s.inWindow == s.dropped + Doomed(s)
    && Increasing(s.inWindow)
    && Accounted(s)
    && (forall n :: n in s.inWindow ==> n !in s.ran && n !in Pending(s))
  }

  lemma IncreasingSnoc(s: seq<nat>, n: nat)
    requires Increasing(s) && forall m :: m in s ==> m < n
    ensures Increasing(s + [n])
  {
    forall i, j | 0 <= i < j < |s + [n]|
      ensures (s + [n])[i] < (s + [n])[j]
    {
      assert s[i] in s;
      assert j < |s| ==> s[i] < s[j];
    }
  }

  lemma IncreasingPrefix(a: seq<nat>, b: seq<nat>)
    requires Increasing(a + b)
    ensures Increasing(a)
  {
    forall i, j | 0 <= i < j < |a|
      ensures a[i] < a[j]
    {
      assert (a + b)[i] < (a + b)[j];
    }
  }

  lemma InvStep(s: State, a: Action)
    requires Inv(s) && Enabled(s, a)
    ensures Inv(Next(s, a))
  {
    var t := Next(s, a);
    match a {
      case Push => PushStep(s);
      case Begin => assert Pending(t) == Pending(s);
      case RunNext =>
        assert Pending(s) == [s.list[s.phase.next]] + Pending(t);
        assert t.ran + Pending(t) == s.ran + Pending(s);
      case Finish => assert Pending(s) == [] && Doomed(t) == [];
      case Clear => assert t.dropped + [] == t.dropped;
    }
  }

  lemma PushStep(s: State)
    requires Inv(s)
    ensures Inv(Next(s, Push))
  {
    var t := Next(s, Push);
    var n := s.scheduled;
    if s.phase.AtEnd? {
      IncreasingSnoc(s.inWindow, n);
      assert Doomed(t) == Doomed(s) + [n];
      assert t.dropped + Doomed(t) == (s.dropped + Doomed(s)) + [n];
    } else {
      assert forall m :: m in s.ran + Pending(s) ==> m < n;
      IncreasingSnoc(s.ran + Pending(s), n);
      assert Pending(t) == Pending(s) + [n];
      assert t.ran + Pending(t) == (s.ran + Pending(s)) + [n];
    }
  }

  ghost predicate Possible(s: State, run: seq<Action>)
    decreases |run|
  {
    run != [] ==> Enabled(s, run[0]) && Possible(Next(s, run[0]), run[1..])
  }

  ghost function Run(s: State, run: seq<Action>): State
    requires Possible(s, run)
    decreases |run|
  {
    if run == [] then s else Run(Next(s, run[0]), run[1..])
  }

  lemma {:induction false} InvRun(s: State, run: seq<Action>)
    requires Inv(s) && Possible(s, run)
    ensures Inv(Run(s, run))
    decreases |run|
  {
    if run == [] {
    } else {
      InvStep(s, run[0]);
      InvRun(Next(s, run[0]), run[1..]);
    }
  }

  /** In every run each functor runs at most once and in the order of scheduling. */
  lemma RunInOrderAtMostOnce(run: seq<Action>)
    requires Possible(Initial(), run)
    ensures var s := Run(Initial(), run);
            forall i, j :: 0 <= i < j < |s.ran| ==> s.ran[i] < s.ran[j] < s.scheduled
  {
    InvRun(Initial(), run);
    var s := Run(Initial(), run);
    IncreasingPrefix(s.ran, Pending(s));
    assert forall j :: 0 <= j < |s.ran| ==> s.ran[j] in s.ran;
  }

  /**
   Between two calls of process() the functors lost are exactly those scheduled
   in some window between the end of the walk and the clear; every other one has
   run or is still in the list.
   */
  lemma LostExactlyInWindow(run: seq<Action>, n: nat)
    requires Possible(Initial(), run) && Run(Initial(), run).phase == Elsewhere
    ensures var s := Run(Initial(), run);
            && s.dropped == s.inWindow
            && (n < s.scheduled && n !in s.ran && n !in s.list <==> n in s.inWindow)
  {
    InvRun(Initial(), run);
    var s := Run(Initial(), run);
    assert s.dropped + [] == s.dropped;
  }

  ghost predicate WindowFree(s: State, run: seq<Action>)
    requires Possible(s, run)
    decreases |run|
  {
    run != [] ==> !(run[0] == Push && s.phase.AtEnd?) && WindowFree(Next(s, run[0]), run[1..])
  }

  lemma {:induction false} WindowStaysEmpty(s: State, run: seq<Action>)
    requires Possible(s, run)
    ensures |Run(s, run).inWindow| >= |s.inWindow|
    ensures Run(s, run).inWindow == s.inWindow <==> WindowFree(s, run)
    decreases |run|
  {
    if run == [] {
    } else {
      WindowStaysEmpty(Next(s, run[0]), run[1..]);
    }
  }

  /** Nothing is lost in a run that ends between two passes exactly when no push landed in a window. */
  lemma NothingLostIff(run: seq<Action>)
    requires Possible(Initial(), run) && Run(Initial(), run).phase == Elsewhere
    ensures var s := Run(Initial(), run);
            (forall n: nat :: n < s.scheduled ==> n in s.ran || n in s.list) <==> WindowFree(Initial(), run)
  {
    InvRun(Initial(), run);
    WindowStaysEmpty(Initial(), run);
    var s := Run(Initial(), run);
    if s.inWindow != [] {
      assert s.inWindow[0] in s.inWindow;
    }
  }

  /** A functor pushed between the end of the walk and the clear never runs. */
  lemma LostWitness()
    ensures Possible(Initial(), [Begin, Finish, Push, Clear])
    ensures var s := Run(Initial(), [Begin, Finish, Push, Clear]);
            s.dropped == [0] && s.ran == [] && s.list == [] && s.phase == Elsewhere
  {
    var run := [Begin, Finish, Push, Clear];
    assert run[1..] == [Finish, Push, Clear] && run[1..][1..] == [Push, Clear] && run[1..][1..][1..] == [Clear];
    var s1 := Next(Initial(), Begin);
    var s2 := Next(s1, Finish);
    var s3 := Next(s2, Push);
    var s4 := Next(s3, Clear);
    assert s4.dropped == [0];
    assert Possible(s4, []) && Possible(s3, [Clear]) && Possible(s2, [Push, Clear]);
    assert Possible(s1, [Finish, Push, Clear]);
    assert Run(s3, [Clear]) == s4 && Run(s2, [Push, Clear]) == s4 && Run(s1, [Finish, Push, Clear]) == s4;
  }

  // ---------- the loop of process()

  function Ids(from: nat, count: nat): (ids: seq<nat>)
    ensures |ids| == count
  {
    seq(count, i requires 0 <= i < count => from + i)
  }

  function Pushes(count: nat): seq<Action> {
    seq(count, _ => Push)
  }

  lemma {:induction false} RunAppend(s: State, run: seq<Action>, more: seq<Action>)
    requires Possible(s, run) && Possible(Run(s, run), more)
    ensures Possible(s, run + more) && Run(s, run + more) == Run(Run(s, run), more)
    decreases |run|
  {
    if run == [] {
      assert run + more == more;
    } else {
      assert (run + more)[1..] == run[1..] + more;
      RunAppend(Next(s, run[0]), run[1..], more);
    }
  }

  lemma RunSnoc(s: State, run: seq<Action>, a: Action)
    requires Possible(s, run) && Enabled(Run(s, run), a)
    ensures Possible(s, run + [a]) && Run(s, run + [a]) == Next(Run(s, run), a)
  {
    var t := Run(s, run);
    assert [a][1..] == [] && Possible(Next(t, a), []);
    RunAppend(s, run, [a]);
  }

  function Windowed(phase: Phase, ids: seq<nat>): seq<nat> {
    if phase.AtEnd? then ids else []
  }

  lemma {:induction false} RunPushes(s: State, count: nat)
    ensures var ids := Ids(s.scheduled, count);
            && Possible(s, Pushes(count))
            && Run(s, Pushes(count)) == s.(scheduled := s.scheduled + count, list := s.list + ids,
                                           inWindow := s.inWindow + Windowed(s.phase, ids))
    decreases count
  {
    var ids := Ids(s.scheduled, count);
    if count == 0 {
      assert s.list + ids == s.list && s.inWindow + Windowed(s.phase, ids) == s.inWindow;
    } else {
      var t := Next(s, Push);
      assert Pushes(count)[1..] == Pushes(count - 1);
      assert ids == [s.scheduled] + Ids(t.scheduled, count - 1);
      RunPushes(t, count - 1);
      assert t.list + Ids(t.scheduled, count - 1) == s.list + ids;
      assert t.inWindow + Windowed(t.phase, Ids(t.scheduled, count - 1)) == s.inWindow + Windowed(s.phase, ids);
    }
  }

  class Scheduler {
    var extraEvents: seq<nat>
    var scheduled: nat
    ghost var phase: Phase
    ghost var ran: seq<nat>
    ghost var inWindow: seq<nat>
    ghost var dropped: seq<nat>

    ghost function Snapshot(): State
      reads this
    {
      State(scheduled, extraEvents, phase, ran, inWindow, dropped)
    }

    constructor ()
      ensures Snapshot() == Initial()
    {
      extraEvents, scheduled := [], 0;
      phase, ran, inWindow, dropped := Elsewhere, [], [], [];
    }

    /** `count` pushes by other threads. */
    method Pushed(count: nat)
      modifies this`extraEvents, this`scheduled, this`inWindow
      ensures extraEvents == old(extraEvents) + Ids(old(scheduled), count)
      ensures scheduled == old(scheduled) + count
      ensures Possible(old(Snapshot()), Pushes(count)) && Snapshot() == Run(old(Snapshot()), Pushes(count))
    {
      RunPushes(Snapshot(), count);
      inWindow := inWindow + Windowed(phase, Ids(scheduled, count));
      extraEvents := extraEvents + Ids(scheduled, count);
      scheduled := scheduled + count;
    }

    /** Pushes by other threads, and the longer run. */
    method Interrupted(count: nat, ghost s: State, ghost run: seq<Action>) returns (ghost longer: seq<Action>)
      requires Possible(s, run) && Snapshot() == Run(s, run)
      modifies this`extraEvents, this`scheduled, this`inWindow
      ensures Possible(s, longer) && Snapshot() == Run(s, longer)
      ensures extraEvents == old(extraEvents) + Ids(old(scheduled), count) && scheduled == old(scheduled) + count
    {
      hide Possible, Run, Ids, Pushes;
      Pushed(count);
      RunAppend(s, run, Pushes(count));
      longer := run + Pushes(count);
    }

    /** The body of the walk, when a functor is left. */
    method RunOne(i: nat, ghost s: State, ghost run: seq<Action>) returns (ghost longer: seq<Action>)
      requires phase == Walking(i) && i < |extraEvents| && Possible(s, run) && Snapshot() == Run(s, run)
      modifies this`ran, this`phase
      ensures Possible(s, longer) && Snapshot() == Run(s, longer)
      ensures ran == old(ran) + [extraEvents[i]] && phase == Walking(i + 1)
    {
      hide Possible, Run;
      RunSnoc(s, run, RunNext);
      ran := ran + [extraEvents[i]];
      phase := Walking(i + 1);
      longer := run + [RunNext];
    }

    /**
     The walk of process(), with pushes by other threads landing before each test of
     its loop: `during[k]` before the k-th.
     */
    method Walk(during: seq<nat>) returns (walked: nat, ghost run: seq<Action>)
      requires phase == Elsewhere
      modifies this
      ensures Possible(old(Snapshot()), run) && Snapshot() == Run(old(Snapshot()), run)
      ensures scheduled == old(scheduled) + walked && dropped == old(dropped)
      ensures extraEvents == old(extraEvents) + Ids(old(scheduled), walked)
      ensures ran == old(ran) + extraEvents && phase == Walking(|extraEvents|)
    {
      hide Possible, Run, Ids, Pushes;
      ghost var s := Snapshot();
      RunBegin(s);
      phase := Walking(0);
      run := [Begin];
      NoIds(scheduled);
      var i := 0;
      walked := 0;
      var all := Total(during, 0);
      while true
        modifies this`extraEvents, this`scheduled, this`inWindow, this`ran, this`phase
        invariant i <= |extraEvents| && phase == Walking(i)
        invariant Possible(s, run) && Snapshot() == Run(s, run)
        invariant scheduled == old(scheduled) + walked
        invariant extraEvents == old(extraEvents) + Ids(old(scheduled), walked)
        invariant ran == old(ran) + extraEvents[..i]
        invariant walked + Total(during, i) <= all
        decreases |old(extraEvents)| + all - i
      {
        var n := if i < |during| then during[i] else 0;
        GrownList(old(extraEvents), old(scheduled), walked, n, i);
        run := Interrupted(n, s, run);
        walked := walked + n;
        if i == |extraEvents| {
          break;
        }
        run := RunOne(i, s, run);
        TakeNext(extraEvents, i);
        i := i + 1;
      }
      assert extraEvents[..i] == extraEvents;
    }

    /**
     The walk and the clear of process(), with `late` pushes between the two.
     `walked` of the pushes are seen by the walk; the late ones are gone.
     */
    method Process(during: seq<nat>, late: nat) returns (walked: nat, ghost run: seq<Action>)
      requires phase == Elsewhere
      modifies this
      ensures Possible(old(Snapshot()), run) && Snapshot() == Run(old(Snapshot()), run)
      ensures scheduled == old(scheduled) + walked + late
      ensures ran == old(ran) + (old(extraEvents) + Ids(old(scheduled), walked))
      ensures extraEvents == [] && phase == Elsewhere
      ensures dropped == old(dropped) + Ids(old(scheduled) + walked, late)
    {
      hide Possible, Run;
      ghost var s := Snapshot();
      walked, run := Walk(during);
      RunSnoc(s, run, Finish);
      ghost var next := |extraEvents|;
      phase := AtEnd(next);
      run := run + [Finish];
      ghost var ids := Ids(scheduled, late);
      Pushed(late);
      RunAppend(s, run, Pushes(late));
      run := run + Pushes(late);
      assert extraEvents[next..] == ids;
      RunSnoc(s, run, Clear);
      dropped := dropped + extraEvents[next..];
      extraEvents, phase := [], Elsewhere;
      run := run + [Clear];
    }
  }

  lemma RunBegin(s: State)
    requires s.phase == Elsewhere
    ensures Possible(s, [Begin]) && Run(s, [Begin]) == s.(phase := Walking(0))
  {
    assert [Begin][1..] == [];
    assert Possible(Next(s, Begin), []);
  }

  lemma NoIds(from: nat)
    ensures Ids(from, 0) == []
  {
  }

  lemma GrownList(a: seq<nat>, from: nat, walked: nat, n: nat, i: nat)
    requires i <= |a + Ids(from, walked)|
    ensures var l := a + Ids(from, walked);
            l + Ids(from + walked, n) == a + Ids(from, walked + n) && (l + Ids(from + walked, n))[..i] == l[..i]
  {
    IdsAppend(from, walked, n);
  }

  lemma TakeNext(list: seq<nat>, i: nat)
    requires i < |list|
    ensures list[..i] + [list[i]] == list[..i + 1]
  {
  }

  lemma IdsAppend(from: nat, a: nat, b: nat)
    ensures Ids(from, a) + Ids(from + a, b) == Ids(from, a + b)
  {
  }

  function Total(counts: seq<nat>, from: nat): nat
    decreases |counts| - from
  {
    if from >= |counts| then 0 else counts[from] + Total(counts, from + 1)
  }
}
