/**
 xChan (base/include/channel.h) under interleaving. A push first bumps the
 atomic counter and only then takes the lock; every step below is one access to
 shared state, or one critical section whose accesses no other thread can see.
 */
module Channel {

  type Tid = nat

  /** The outcome of a pop. */
  datatype Popped<T> = Nothing | Got(value: T)

  /** Where a thread is inside push_back, push_front or pop_front. */
  datatype Place<T> =
    | Outside
    | Counted(value: T, front: bool)  // pushing: counter bumped, lock not yet taken
    | Locked(block: bool)             // popping: lock taken
    | Waiting                         // popping: in the condition wait, lock released
    | Past                            // popping: past the size test, lock held
    | Taking                          // popping: the queue was seen non-empty
    | Decremented                     // popping: counter lowered, element not yet removed

  datatype State<T> = State(
    size: int,
    queue: seq<T>,
    owner: set<Tid>,             // the thread holding the mutex, if any
    places: map<Tid, Place<T>>,
    pushed: seq<T>,              // values in the order their pushers held the lock
    popped: seq<(Tid, T)>,       // values in the order they were removed, and by whom
    frontUsed: bool
  )

  datatype Action<T> =
    | Count(t: Tid, value: T, front: bool)
    | Enqueue(t: Tid)
    | Lock(t: Tid, block: bool)
    | TestSize(t: Tid)
    | Wake(t: Tid)
    | TestEmpty(t: Tid)
    | Decrement(t: Tid)
    | Remove(t: Tid)

  function Initial<T>(): State<T> {
    State(0, [], {}, map[], [], [], false)
  }

  function At<T>(s: State<T>, t: Tid): Place<T> {
    if t in s.places then s.places[t] else Outside
  }

  predicate Enabled<T>(s: State<T>, a: Action<T>) {
    match a
    case Count(t, _, _) => At(s, t) == Outside
    case Enqueue(t) => At(s, t).Counted? && s.owner == {}
    case Lock(t, _) => At(s, t) == Outside && s.owner == {}
    case TestSize(t) => At(s, t).Locked?
    case Wake(t) => At(s, t) == Waiting && s.owner == {}
    case TestEmpty(t) => At(s, t) == Past
    case Decrement(t) => At(s, t) == Taking
    case Remove(t) => At(s, t) == Decremented && s.queue != []
  }

  function Goto<T>(s: State<T>, t: Tid, p: Place<T>): State<T> {
    s.(places := s.places[t := p])
  }

  function Next<T>(s: State<T>, a: Action<T>): State<T>
    requires Enabled(s, a)
  {
    match a
    case Count(t, value, front) => Goto(s.(size := s.size + 1), t, Counted(value, front))
    case Enqueue(t) =>
      var p := At(s, t);
      Goto(s.(queue := if p.front then [p.value] + s.queue else s.queue + [p.value],
              pushed := s.pushed + [p.value], frontUsed := s.frontUsed || p.front), t, Outside)
    case Lock(t, block) => Goto(s.(owner := {t}), t, Locked(block))
    case TestSize(t) =>
      if s.size != 0 then Goto(s, t, Past)
      else Goto(s.(owner := {}), t, if At(s, t).block then Waiting else Outside)
    case Wake(t) => Goto(s.(owner := {t}), t, Past)
    case TestEmpty(t) => if s.queue == [] then Goto(s.(owner := {}), t, Outside) else Goto(s, t, Taking)
    case Decrement(t) => Goto(s.(size := s.size - 1), t, Decremented)
    case Remove(t) =>
      Goto(s.(queue := s.queue[1..], popped := s.popped + [(t, s.queue[0])], owner := {}), t, Outside)
  }

  /** Threads that have counted their value but not yet queued it. */
  ghost function Pushers<T>(s: State<T>): set<Tid> {
    set t | t in s.places && s.places[t].Counted?
  }

  /** Threads that have lowered the counter but not yet removed their element. */
  ghost function Removers<T>(s: State<T>): set<Tid> {
    set t | t in s.places && s.places[t] == Decremented
  }

  predicate InSection<T>(p: Place<T>) {
    p.Locked? || p == Past || p == Taking || p == Decremented
  }

  function Values<T>(popped: seq<(Tid, T)>): seq<T> {
    seq(|popped|, i requires 0 <= i < |popped| => popped[i].1)
  }

  ghost predicate CounterInv<T>(s: State<T>) {
    s.size == |s.queue| + |Pushers(s)| - |Removers(s)|
  }

  /** One thread at a time is inside the critical section, and it found the queue as it is. */
  ghost predicate SectionInv<T>(s: State<T>) {
    && (forall t :: t in s.owner <==> t in s.places && InSection(s.places[t]))
    && (forall t, u :: t in s.owner && u in s.owner ==> t == u)
    && (forall t :: t in s.places && (s.places[t] == Taking || s.places[t] == Decremented) ==> s.queue != [])
  }

  ghost predicate LogInv<T>(s: State<T>) {
    && multiset(s.pushed) == multiset(Values(s.popped)) + multiset(s.queue)
    && (!s.frontUsed ==> s.pushed == Values(s.popped) + s.queue)
  }

  ghost predicate Inv<T>(s: State<T>) {
    CounterInv(s) && SectionInv(s) && LogInv(s)
  }

  lemma MovesBetween<T>(s: State<T>, t: Tid, p: Place<T>)
    ensures var r := Goto(s, t, p);
            && Pushers(r) == (if p.Counted? then Pushers(s) + {t} else Pushers(s) - {t})
            && Removers(r) == (if p == Decremented then Removers(s) + {t} else Removers(s) - {t})
  {
  }

  lemma AtMostOne(s: set<Tid>, t: Tid)
    requires t in s && forall u :: u in s ==> u == t
    ensures |s| == 1
  {
    assert s == {t};
  }

  lemma ValuesAppend<T>(popped: seq<(Tid, T)>, e: (Tid, T))
    ensures Values(popped + [e]) == Values(popped) + [e.1]
  {
  }

  lemma InvStep<T>(s: State<T>, a: Action<T>)
    requires Inv(s) && Enabled(s, a)
    ensures Inv(Next(s, a))
  {
    hide CounterInv, SectionInv, LogInv;
    CounterStep(s, a);
    SectionStep(s, a);
    LogStep(s, a);
  }

  lemma SetSizes(s: set<Tid>, t: Tid)
    ensures |s + {t}| == |s| + if t in s then 0 else 1
    ensures |s - {t}| == |s| - if t in s then 1 else 0
  {
  }

  lemma PlacesDecide<T>(s: State<T>, r: State<T>)
    requires s.places == r.places
    ensures Pushers(s) == Pushers(r) && Removers(s) == Removers(r)
  {
  }

  function One(b: bool): int {
    if b then 1 else 0
  }

  lemma MoveCounts<T>(s: State<T>, t: Tid, p: Place<T>)
    ensures var r := Goto(s, t, p);
            && |Pushers(r)| == |Pushers(s)| + One(p.Counted?) - One(At(s, t).Counted?)
            && |Removers(r)| == |Removers(s)| + One(p == Decremented) - One(At(s, t) == Decremented)
  {
    MovesBetween(s, t, p);
    SetSizes(Pushers(s), t);
    SetSizes(Removers(s), t);
  }

  lemma CounterStep<T>(s: State<T>, a: Action<T>)
    requires CounterInv(s) && Enabled(s, a)
    ensures CounterInv(Next(s, a))
  {
    hide Pushers, Removers;
    var r := Next(s, a);
    var p := At(r, a.t);
    MoveCounts(s, a.t, p);
    assert r.places == Goto(s, a.t, p).places;
    PlacesDecide(r, Goto(s, a.t, p));
  }

  lemma SectionStep<T>(s: State<T>, a: Action<T>)
    requires SectionInv(s) && Enabled(s, a)
    ensures SectionInv(Next(s, a))
  {
  }

  lemma LogStep<T>(s: State<T>, a: Action<T>)
    requires LogInv(s) && Enabled(s, a)
    ensures LogInv(Next(s, a))
  {
    match a {
      case Enqueue(t) => EnqueueLog(Values(s.popped), s.queue, s.pushed, At(s, t).value);
      case Remove(t) =>
        ValuesAppend(s.popped, (t, s.queue[0]));
        RemoveLog(Values(s.popped), s.queue);
      case _ =>
    }
  }

  lemma EnqueueLog<T>(popped: seq<T>, queue: seq<T>, pushed: seq<T>, v: T)
    ensures multiset(pushed) == multiset(popped) + multiset(queue) ==>
              && multiset(pushed + [v]) == multiset(popped) + multiset(queue + [v])
              && multiset(pushed + [v]) == multiset(popped) + multiset([v] + queue)
    ensures pushed == popped + queue ==> pushed + [v] == popped + (queue + [v])
  {
  }

  lemma RemoveLog<T>(popped: seq<T>, queue: seq<T>)
    requires queue != []
    ensures popped + queue == (popped + [queue[0]]) + queue[1..]
    ensures multiset(popped) + multiset(queue) == multiset(popped + [queue[0]]) + multiset(queue[1..])
  {
    assert queue == [queue[0]] + queue[1..];
  }

  // ---------- every run

  ghost predicate Possible<T>(s: State<T>, run: seq<Action<T>>)
    decreases |run|
  {
    run != [] ==> Enabled(s, run[0]) && Possible(Next(s, run[0]), run[1..])
  }

  ghost function Run<T>(s: State<T>, run: seq<Action<T>>): State<T>
    requires Possible(s, run)
    decreases |run|
  {
    if run == [] then s else Run(Next(s, run[0]), run[1..])
  }

  lemma {:induction false} InvRun<T>(s: State<T>, run: seq<Action<T>>)
    requires Inv(s) && Possible(s, run)
    ensures Inv(Run(s, run))
    decreases |run|
  {
    if run == [] {
    } else {
      InvStep(s, run[0]);
      InvRun(Next(s, run[0]), run[1..]);
    }
  }

  /**
   In every state of every run the counter is the queue length plus the pushers
   between counter and lock, less the one popper between counter and removal.
   */
  lemma CounterOverRuns<T>(run: seq<Action<T>>)
    requires Possible(Initial<T>(), run)
    ensures var s := Run(Initial<T>(), run);
            && s.size == |s.queue| + |Pushers(s)| - |Removers(s)|
            && |Removers(s)| <= 1 && (s.owner == {} ==> Removers(s) == {})
  {
    InvRun(Initial<T>(), run);
    var s := Run(Initial<T>(), run);
    if Removers(s) != {} {
      var t :| t in Removers(s);
      AtMostOne(Removers(s), t);
    }
  }

  /** The assertion before the decrement never fails, and the element to remove is there. */
  lemma AssertionHolds<T>(run: seq<Action<T>>, t: Tid)
    requires Possible(Initial<T>(), run)
    ensures var s := Run(Initial<T>(), run);
            && (At(s, t) == Taking ==> s.size > 0)
            && (At(s, t) == Decremented ==> s.queue != [])
  {
    InvRun(Initial<T>(), run);
    var s := Run(Initial<T>(), run);
    if At(s, t) == Taking {
      assert forall u :: u in Removers(s) ==> u in s.owner;
      assert Removers(s) == {};
    }
  }

  /** A pop that gives up does so at a moment when the queue is empty. */
  lemma EmptyWhenGivingUp<T>(run: seq<Action<T>>, a: Action<T>)
    requires Possible(Initial<T>(), run) && Enabled(Run(Initial<T>(), run), a)
    requires a.TestSize? || a.TestEmpty?
    requires At(Next(Run(Initial<T>(), run), a), a.t) == Outside
    ensures Run(Initial<T>(), run).queue == []
  {
    InvRun(Initial<T>(), run);
    var s := Run(Initial<T>(), run);
    assert forall u :: u in Removers(s) ==> u in s.owner;
    assert Removers(s) == {};
  }

  predicate BackOnly<T>(run: seq<Action<T>>) {
    forall i :: 0 <= i < |run| && run[i].Count? ==> !run[i].front
  }

  ghost predicate NoFrontPending<T>(s: State<T>) {
    !s.frontUsed && forall t :: t in s.places && s.places[t].Counted? ==> !s.places[t].front
  }

  lemma {:induction false} FrontNeverUsed<T>(s: State<T>, run: seq<Action<T>>)
    requires Possible(s, run) && BackOnly(run) && NoFrontPending(s)
    ensures NoFrontPending(Run(s, run))
    decreases |run|
  {
    if run == [] {
    } else {
      assert !(run[0].Count? && run[0].front);
      assert forall i :: 0 <= i < |run[1..]| ==> run[1..][i] == run[i + 1];
      FrontNeverUsed(Next(s, run[0]), run[1..]);
    }
  }

  /**
   First in, first out: with push_back alone the i-th removal, by whichever
   thread, yields the i-th value pushed in lock order, and the queue is the rest.
   */
  lemma FirstInFirstOut<T>(run: seq<Action<T>>)
    requires Possible(Initial<T>(), run) && BackOnly(run)
    ensures var s := Run(Initial<T>(), run);
            && |s.popped| <= |s.pushed|
            && (forall i :: 0 <= i < |s.popped| ==> s.popped[i].1 == s.pushed[i])
            && s.queue == s.pushed[|s.popped|..]
  {
    InvRun(Initial<T>(), run);
    FrontNeverUsed(Initial<T>(), run);
    var s := Run(Initial<T>(), run);
    assert s.pushed == Values(s.popped) + s.queue;
    assert forall i :: 0 <= i < |s.popped| ==> Values(s.popped)[i] == s.popped[i].1;
  }

  /** With push_front as well nothing is lost, duplicated or made up. */
  lemma NothingLost<T>(run: seq<Action<T>>)
    requires Possible(Initial<T>(), run)
    ensures var s := Run(Initial<T>(), run);
            multiset(s.pushed) == multiset(Values(s.popped)) + multiset(s.queue)
  {
    InvRun(Initial<T>(), run);
  }

  // ---------- clear

  /** clear: counter to zero and queue emptied inside the lock. */
  function Clear<T>(s: State<T>): State<T>
    requires s.owner == {}
  {
    s.(size := 0, queue := [])
  }

  /** The counter still matches the queue and the pending pushers exactly when nobody was pending. */
  lemma ClearIff<T>(s: State<T>)
    requires Inv(s) && s.owner == {}
    ensures var r := Clear(s);
            r.size == |r.queue| + |Pushers(r)| - |Removers(r)| <==> Pushers(s) == {}
  {
    var r := Clear(s);
    assert Pushers(r) == Pushers(s);
    assert forall u :: u in Removers(r) ==> u in s.owner;
    assert Removers(r) == {};
  }

  lemma RunOfThree<T>(s: State<T>, a: Action<T>, b: Action<T>, c: Action<T>)
    requires Enabled(s, a) && Enabled(Next(s, a), b) && Enabled(Next(Next(s, a), b), c)
    ensures Possible(s, [a, b, c]) && Run(s, [a, b, c]) == Next(Next(Next(s, a), b), c)
  {
    var s1 := Next(s, a);
    var s2 := Next(s1, b);
    var s3 := Next(s2, c);
    assert [a, b, c][1..] == [b, c] && [b, c][1..] == [c] && [c][1..] == [];
    assert Possible(s3, []) && Possible(s2, [c]) && Possible(s1, [b, c]);
    assert Run(s2, [c]) == s3 && Run(s1, [b, c]) == s3;
  }

  /** Clearing while a push is pending lets a woken popper reach the assertion with the counter at zero. */
  lemma ClearWitness<T>(v: T) returns (before: seq<Action<T>>, after: seq<Action<T>>)
    ensures Possible(Initial<T>(), before) && Run(Initial<T>(), before).owner == {}
    ensures Possible(Clear(Run(Initial<T>(), before)), after)
    ensures var s := Run(Clear(Run(Initial<T>(), before)), after); At(s, 0) == Taking && s.size == 0
  {
    before := [Lock(0, true), TestSize(0), Count(1, v, false)];
    after := [Enqueue(1), Wake(0), TestEmpty(0)];
    var s := Initial<T>();
    RunOfThree(s, before[0], before[1], before[2]);
    var r := Clear(Run(s, before));
    assert At(r, 0) == Waiting && At(r, 1) == Counted(v, false) && r.size == 0;
    RunOfThree(r, after[0], after[1], after[2]);
  }

  // ---------- the class

  class Chan<T> {
    var size: int
    var queue: seq<T>
    ghost var owner: set<Tid>
    ghost var places: map<Tid, Place<T>>
    ghost var pushed: seq<T>
    ghost var popped: seq<(Tid, T)>
    ghost var frontUsed: bool

    ghost function Snapshot(): State<T>
      reads this
    {
      State(size, queue, owner, places, pushed, popped, frontUsed)
    }

    constructor ()
      ensures Snapshot() == Initial()
    {
      size, queue := 0, [];
      owner, places, pushed, popped, frontUsed := {}, map[], [], [], false;
    }

    /** First line of a push. */
    method PushCount(t: Tid, value: T, front: bool)
      requires Enabled(Snapshot(), Count(t, value, front))
      modifies this
      ensures Snapshot() == Next(old(Snapshot()), Count(t, value, front))
    {
      size := size + 1;
      places := places[t := Counted(value, front)];
    }

    /** The locked part of push_back and push_front. */
    method PushLocked(t: Tid, value: T, front: bool)
      requires Enabled(Snapshot(), Enqueue(t)) && At(Snapshot(), t) == Counted(value, front)
      modifies this
      ensures Snapshot() == Next(old(Snapshot()), Enqueue(t))
    {
      queue := if front then [value] + queue else queue + [value];
      pushed, frontUsed, places := pushed + [value], frontUsed || front, places[t := Outside];
    }

    method PopLock(t: Tid, block: bool)
      requires Enabled(Snapshot(), Lock(t, block))
      modifies this`owner, this`places
      ensures Snapshot() == Next(old(Snapshot()), Lock(t, block))
    {
      owner, places := {t}, places[t := Locked(block)];
    }

    method PopTestSize(t: Tid, block: bool) returns (none: bool)
      requires Enabled(Snapshot(), TestSize(t)) && At(Snapshot(), t) == Locked(block)
      modifies this`owner, this`places
      ensures Snapshot() == Next(old(Snapshot()), TestSize(t))
      ensures none <==> At(Snapshot(), t) == Outside
    {
      none := false;
      if size == 0 {
        owner := {};
        if block {
          places := places[t := Waiting];
        } else {
          none := true;
          places := places[t := Outside];
        }
      } else {
        places := places[t := Past];
      }
    }

    method PopWake(t: Tid)
      requires Enabled(Snapshot(), Wake(t))
      modifies this`owner, this`places
      ensures Snapshot() == Next(old(Snapshot()), Wake(t))
    {
      owner, places := {t}, places[t := Past];
    }

    method PopTestEmpty(t: Tid) returns (none: bool)
      requires Enabled(Snapshot(), TestEmpty(t))
      modifies this`owner, this`places
      ensures Snapshot() == Next(old(Snapshot()), TestEmpty(t))
      ensures none <==> At(Snapshot(), t) == Outside
    {
      none := queue == [];
      if none {
        owner, places := {}, places[t := Outside];
      } else {
        places := places[t := Taking];
      }
    }

    method PopDecrement(t: Tid)
      requires Enabled(Snapshot(), Decrement(t)) && Inv(Snapshot())
      modifies this
      ensures Snapshot() == Next(old(Snapshot()), Decrement(t))
    {
      ghost var s := Snapshot();
      assert Removers(s) == {} by {
        assert forall u :: u in Removers(s) ==> u in s.owner;
      }
      assert size > 0;
      size := size - 1;
      places := places[t := Decremented];
    }

    method PopRemove(t: Tid) returns (value: T)
      requires Enabled(Snapshot(), Remove(t))
      modifies this
      ensures Snapshot() == Next(old(Snapshot()), Remove(t))
      ensures value == old(queue)[0] && popped == old(popped) + [(t, value)]
    {
      value := queue[0];
      queue := queue[1..];
      popped, owner, places := popped + [(t, value)], {}, places[t := Outside];
    }

    /** push_back as one thread runs it when no other one moves in between. */
    method PushBack(t: Tid, value: T)
      requires Inv(Snapshot()) && At(Snapshot(), t) == Outside && owner == {}
      modifies this
      ensures Inv(Snapshot()) && At(Snapshot(), t) == Outside && owner == {}
      ensures size == old(size) + 1 && queue == old(queue) + [value]
      ensures pushed == old(pushed) + [value] && popped == old(popped)
    {
      hide Inv;
      InvStep(Snapshot(), Count(t, value, false));
      PushCount(t, value, false);
      InvStep(Snapshot(), Enqueue(t));
      PushLocked(t, value, false);
    }

    /** push_front likewise: the value is the next one a pop takes. */
    method PushFront(t: Tid, value: T)
      requires Inv(Snapshot()) && At(Snapshot(), t) == Outside && owner == {}
      modifies this
      ensures Inv(Snapshot()) && At(Snapshot(), t) == Outside && owner == {}
      ensures size == old(size) + 1 && queue == [value] + old(queue)
      ensures pushed == old(pushed) + [value] && popped == old(popped)
    {
      hide Inv;
      InvStep(Snapshot(), Count(t, value, true));
      PushCount(t, value, true);
      InvStep(Snapshot(), Enqueue(t));
      PushLocked(t, value, true);
    }

    /** The first half of pop_front: the size test and, when it asks for one, a wait. */
    method PopAwait(t: Tid, block: bool) returns (none: bool)
      requires Inv(Snapshot()) && At(Snapshot(), t) == Outside && owner == {}
      modifies this`owner, this`places
      ensures Inv(Snapshot()) && (none <==> old(size) == 0 && !block)
      ensures if none then owner == {} && At(Snapshot(), t) == Outside else At(Snapshot(), t) == Past
    {
      hide Inv;
      var waits := size == 0 && block;
      InvStep(Snapshot(), Lock(t, block));
      PopLock(t, block);
      InvStep(Snapshot(), TestSize(t));
      none := PopTestSize(t, block);
      if waits {
        InvStep(Snapshot(), Wake(t));
        PopWake(t);
      }
    }

    /** The second half: the front element, if there is one. */
    method PopTake(t: Tid) returns (value: Popped<T>)
      requires Inv(Snapshot()) && At(Snapshot(), t) == Past
      modifies this
      ensures Inv(Snapshot()) && At(Snapshot(), t) == Outside && owner == {} && pushed == old(pushed)
      ensures value == if old(queue) == [] then Nothing else Got(old(queue)[0])
      ensures if old(queue) == [] then size == old(size) && queue == [] && popped == old(popped)
              else size == old(size) - 1 && queue == old(queue)[1..] && popped == old(popped) + [(t, old(queue)[0])]
    {
      hide Inv;
      InvStep(Snapshot(), TestEmpty(t));
      var none := PopTestEmpty(t);
      if none {
        return Nothing;
      }
      InvStep(Snapshot(), Decrement(t));
      PopDecrement(t);
      InvStep(Snapshot(), Remove(t));
      var front := PopRemove(t);
      value := Got(front);
    }

    /**
     pop_front as one thread runs it when no other one moves in between; a wait
     then ends by its time-out. It takes the front element exactly when there is
     one, also while a push is pending.
     */
    method PopFront(t: Tid, block: bool) returns (value: Popped<T>)
      requires Inv(Snapshot()) && At(Snapshot(), t) == Outside && owner == {}
      modifies this
      ensures Inv(Snapshot()) && At(Snapshot(), t) == Outside && owner == {} && pushed == old(pushed)
      ensures value == if old(queue) == [] then Nothing else Got(old(queue)[0])
      ensures if old(queue) == [] then size == old(size) && queue == [] && popped == old(popped)
              else size == old(size) - 1 && queue == old(queue)[1..] && popped == old(popped) + [(t, old(queue)[0])]
    {
      hide Inv;
      if size == 0 {
        EmptyWhenZero(Snapshot());
      }
      var none := PopAwait(t, block);
      value := Nothing;
      if !none {
        value := PopTake(t);
      }
    }

    lemma EmptyWhenZero(s: State<T>)
      requires Inv(s) && s.owner == {} && s.size == 0
      ensures s.queue == []
    {
      assert forall u :: u in Removers(s) ==> u in s.owner;
      assert Removers(s) == {};
    }
  }
}
