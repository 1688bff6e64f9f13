/**
 From a connection's commit callback to a handler's `dispatch`: the commit
 buffer (net/connection.cpp), the uid in front of it (net/xserver.cpp), the
 queue shared by the handler threads, and the uid taken off again
 (net/handler.cpp).
 */
module Dispatch {
  import opened Bytes
  import opened ByteBuffer
  import opened Channel

  /** A message as committed: the connection's descriptor and the octets its decoder measured. */
  datatype Message = Message(fd: int, octets: Bytes)

  /** What the queue carries. */
  function Tagged(m: Message): Bytes
    requires Fits(m.fd, 4)
  {
    Encode(m.fd, 4) + m.octets
  }

  /** What a handler makes of a queued value: readInt32, then the rest. */
  function Untagged(value: Bytes): Message
    requires |value| >= 4
  {
    Message(Decode(value[..4]), value[4..])
  }

  lemma UntagTag(m: Message)
    requires Fits(m.fd, 4)
    ensures Untagged(Tagged(m)) == m
  {
    assert Tagged(m)[..4] == Encode(m.fd, 4) && Tagged(m)[4..] == m.octets;
    DecodeEncode(m.fd, 4);
  }

  // ---------- the buffers

  /** messageComing: the prepend fits because the reserved octets of a commit buffer are still free. */
  method MessageComing(fd: int, buffer: Buffer, activeHandlers: nat) returns (copy: Buffer?)
    requires buffer.Valid() && Fits(fd, 4) && buffer.readerIndex == DISCARDABLE_SIZE
    modifies buffer, buffer.buffer
    ensures buffer.Valid()
    ensures copy == null <==> activeHandlers == 0
    ensures copy != null ==>
              && fresh(copy) && fresh(copy.buffer) && copy.Valid()
              && copy.Contents() == Tagged(Message(fd, old(buffer.Contents())))
  {
    copy := null;
    if activeHandlers != 0 {
      buffer.PrependInt(fd, 4);
      copy := new Buffer.Copy(buffer);  // what push_back stores
    }
  }

  /** One turn of the handler's loop, up to the call of `dispatch`. */
  method TakeUid(buffer: Buffer) returns (uid: int)
    requires buffer.Valid() && |buffer.Contents()| >= 4
    modifies buffer
    ensures buffer.Valid()
    ensures Message(uid, buffer.Contents()) == Untagged(old(buffer.Contents()))
  {
    ghost var before := buffer.Contents();
    uid := buffer.ReadInt(4);
    assert before[..4] == Encode(uid, 4) && before[4..] == buffer.Contents();
    DecodeEncode(uid, 4);
  }

  // ---------- the threads

  /** The loop thread is the only one that pushes. */
  const LOOP_THREAD: Tid := 0

  datatype State = State(
    chan: Channel.State<Bytes>,
    committed: seq<Message>,  // committed while a handler was active, in order
    dropped: seq<Message>     // committed while none was
  )

  datatype Action =
    | Commit(m: Message, activeHandlers: nat)   // the loop thread enters messageComing
    | Pushes                                    // the loop thread's turn inside push_back
    | Pops(a: Channel.Action<Bytes>)            // a handler thread's turn inside pop_front

  predicate Enabled(s: State, a: Action) {
    match a
    case Commit(m, _) => At(s.chan, LOOP_THREAD) == Outside && Fits(m.fd, 4)
    case Pushes => Channel.Enabled(s.chan, Enqueue(LOOP_THREAD))
    case Pops(a) => !a.Count? && !a.Enqueue? && a.t != LOOP_THREAD && Channel.Enabled(s.chan, a)
  }

  function Next(s: State, a: Action): State
    requires Enabled(s, a)
  {
    match a
    case Commit(m, active) =>
      if active == 0 then s.(dropped := s.dropped + [m])
      else s.(chan := Channel.Next(s.chan, Count(LOOP_THREAD, Tagged(m), false)), committed := s.committed + [m])
    case Pushes => s.(chan := Channel.Next(s.chan, Enqueue(LOOP_THREAD)))
    case Pops(a) => s.(chan := Channel.Next(s.chan, a))
  }

  function Initial(): State {
    State.State(Channel.Initial(), [], [])
  }

  predicate Possible(s: State, run: seq<Action>)
    decreases |run|
  {
    run != [] ==> Enabled(s, run[0]) && Possible(Next(s, run[0]), run[1..])
  }

  function Run(s: State, run: seq<Action>): State
    requires Possible(s, run)
    decreases |run|
  {
    if run == [] then s else Run(Next(s, run[0]), run[1..])
  }

  /** The value the loop thread has counted but not yet queued. */
  function Pending(s: Channel.State<Bytes>): seq<Bytes> {
    match At(s, LOOP_THREAD)
    case Counted(value, _) => [value]
    case _ => []
  }

  predicate AllFit(ms: seq<Message>) {
    forall m :: m in ms ==> Fits(m.fd, 4)
  }

  function Tags(ms: seq<Message>): seq<Bytes>
    requires AllFit(ms)
  {
    seq(|ms|, i requires 0 <= i < |ms| => Tagged(ms[i]))
  }

  lemma TagsSnoc(ms: seq<Message>, m: Message)
    requires AllFit(ms) && Fits(m.fd, 4)
    ensures AllFit(ms + [m]) && Tags(ms + [m]) == Tags(ms) + [Tagged(m)]
  {
  }

  ghost predicate Inv(s: State) {
    && Channel.Inv(s.chan) && NoFrontPending(s.chan)
    && AllFit(s.committed)
    && s.chan.pushed + Pending(s.chan) == Tags(s.committed)
  }

  lemma InvStep(s: State, a: Action)
    requires Inv(s) && Enabled(s, a)
    ensures Inv(Next(s, a))
  {
    hide Channel.Inv, Tags, Tagged, AllFit;
    var chan, t := s.chan, Next(s, a);
    match a {
      case Commit(m, active) =>
        if active != 0 {
          Channel.InvStep(chan, Count(LOOP_THREAD, Tagged(m), false));
          TagsSnoc(s.committed, m);
        }
      case Pushes => Channel.InvStep(chan, Enqueue(LOOP_THREAD));
      case Pops(a) => Channel.InvStep(chan, a);
    }
  }

  lemma {:induction false} InvRun(s: State, run: seq<Action>)
    requires Inv(s) && Possible(s, run)
    ensures Inv(Run(s, run))
    decreases |run|
  {
    if run == [] {
    } else {
      InvStep(s, run[0]);
      InvRun(Next(s, run[0]), run[1..]);
    }
  }

  /** The messages for which messageComing was entered while handlers were active, or while none was. */
  function Committing(run: seq<Action>, active: bool): seq<Message> {
    if run == [] then []
    else
      var a := run[|run| - 1];
      Committing(run[..|run| - 1], active) + if a.Commit? && (a.activeHandlers != 0) == active then [a.m] else []
  }

  lemma {:induction false} PossiblePrefix(s: State, run: seq<Action>, n: nat)
    requires Possible(s, run) && n < |run|
    ensures Possible(s, run[..n]) && Enabled(Run(s, run[..n]), run[n])
    ensures Possible(s, run[..n + 1]) && Run(s, run[..n + 1]) == Next(Run(s, run[..n]), run[n])
    decreases n
  {
    hide Enabled, Next;
    var t := Next(s, run[0]);
    if n == 0 {
      assert run[..1][1..] == [];
      assert Possible(t, []);
    } else {
      PossiblePrefix(t, run[1..], n - 1);
      assert run[..n][1..] == run[1..][..n - 1] && run[..n + 1][1..] == run[1..][..n];
    }
  }

  /** A message is queued exactly when a handler was active as it came, and dropped exactly when none was. */
  lemma {:induction false} DroppedExactlyIdle(run: seq<Action>)
    requires Possible(Initial(), run)
    ensures var s := Run(Initial(), run);
            s.committed == Committing(run, true) && s.dropped == Committing(run, false)
    decreases |run|
  {
    if run == [] {
    } else {
      hide Enabled, Channel.Next;
      var n := |run| - 1;
      PossiblePrefix(Initial(), run, n);
      DroppedExactlyIdle(run[..n]);
      assert run[..n + 1] == run;
      assert Committing(run[..n], true) + [] == Committing(run[..n], true);
      assert Committing(run[..n], false) + [] == Committing(run[..n], false);
    }
  }

  lemma QueueIsTail(s: State, i: nat)
    requires Inv(s) && i < |s.chan.popped| + |s.chan.queue| <= |s.committed|
    ensures Tagged(s.committed[i]) ==
            if i < |s.chan.popped| then s.chan.popped[i].1 else s.chan.queue[i - |s.chan.popped|]
  {
    var taken := Channel.Values(s.chan.popped);
    assert s.chan.pushed == taken + s.chan.queue;
    assert Tags(s.committed)[i] == s.chan.pushed[i];
  }

  lemma AllAccounted(s: State)
    requires Inv(s)
    ensures |s.chan.popped| + |s.chan.queue| <= |s.committed| <= |s.chan.popped| + |s.chan.queue| + 1
  {
    assert s.chan.pushed == Channel.Values(s.chan.popped) + s.chan.queue;
    assert |Tags(s.committed)| == |s.committed|;
  }

  lemma Untags(s: State, i: nat, value: Bytes)
    requires Inv(s) && i < |s.committed| && value == Tagged(s.committed[i])
    ensures |value| >= 4 && Untagged(value) == s.committed[i]
  {
    UntagTag(s.committed[i]);
  }

  lemma InvInitially()
    ensures Inv(Initial())
  {
    assert Tags([]) == [];
  }

  /**
   End to end: in every run the i-th value any handler takes from the queue
   carries the descriptor and the octets of the i-th committed message, so each
   message is dispatched at most once, by one thread, unchanged, in order; those
   not dispatched yet are in the queue or, one at most, on their way into it.
   */
  lemma EndToEnd(run: seq<Action>)
    requires Possible(Initial(), run)
    ensures var s := Run(Initial(), run);
            var n := |s.chan.popped|;
            && n + |s.chan.queue| <= |s.committed| <= n + |s.chan.queue| + 1
            && (forall i :: 0 <= i < n ==>
                  |s.chan.popped[i].1| >= 4 && Untagged(s.chan.popped[i].1) == s.committed[i])
            && (forall i :: 0 <= i < |s.chan.queue| ==>
                  |s.chan.queue[i]| >= 4 && Untagged(s.chan.queue[i]) == s.committed[n + i])
  {
    hide Inv, Run, Tagged, Untagged;
    InvInitially();
    InvRun(Initial(), run);
    var s := Run(Initial(), run);
    AllAccounted(s);
    forall i | 0 <= i < |s.chan.popped|
      ensures |s.chan.popped[i].1| >= 4 && Untagged(s.chan.popped[i].1) == s.committed[i]
    {
      QueueIsTail(s, i);
      Untags(s, i, s.chan.popped[i].1);
    }
    forall i | 0 <= i < |s.chan.queue|
      ensures |s.chan.queue[i]| >= 4 && Untagged(s.chan.queue[i]) == s.committed[|s.chan.popped| + i]
    {
      QueueIsTail(s, |s.chan.popped| + i);
      Untags(s, |s.chan.popped| + i, s.chan.queue[i]);
    }
  }
}
