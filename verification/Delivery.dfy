/**
 A whole server from the octets its clients send to the calls of `dispatch`: any
 number of connections in the loop thread (`Session`), the messages they commit
 on their way through messageComing, and the queue to the handlers (`Dispatch`).
 */
module Delivery {
  import opened Bytes
  import opened Kernel
  import opened Framing
  import opened EventLoop
  import opened Statuses
  import opened Channel
  import opened Dispatch
  import Session
  import Events
  import Reading

  datatype Server = Server(
    sessions: map<int, Session.State>,   // the connection now under each descriptor
    starts: map<int, Session.State>,     // the same connection when it was accepted
    earlier: map<int, seq<Bytes>>,       // what closed connections under the descriptor had committed
    waiting: seq<Message>,               // committed by the event at hand, still to be passed to messageComing
    handed: seq<Message>,                // passed to messageComing so far
    queue: Dispatch.State
  )

  datatype Event =
    | Accepts(fd: int, arrivals: seq<Arrival>, departures: seq<Departure>)
    | Handles(fd: int, mask: Mask, reaction: Session.Reaction)
    | Responds(fd: int, msg: Bytes, reaction: Session.Reaction)
    | Closes(fd: int)
    | HandsOver(activeHandlers: nat)           // the next waiting message enters messageComing
    | Queues(a: Dispatch.Action)               // a turn inside push_back or pop_front

  /** The loop thread is not in the middle of an event. */
  predicate Idle(s: Server) {
    s.waiting == [] && At(s.queue.chan, LOOP_THREAD) == Outside
  }

  predicate Live(s: Server, fd: int) {
    fd in s.sessions && s.sessions[fd].status == Connected
  }

  /** A descriptor is handed out when no live connection has it; events come for live connections only. */
  predicate CanHappen(s: Server, e: Event) {
    match e
    case Accepts(fd, _, _) => Idle(s) && !Live(s, fd) && Fits(fd, 4)
    case Handles(fd, _, _) => Idle(s) && Live(s, fd)
    case Responds(fd, _, _) => Idle(s) && fd in s.sessions
    case Closes(fd) => Idle(s) && fd in s.sessions
    case HandsOver(active) => s.waiting != [] && Dispatch.Enabled(s.queue, Commit(s.waiting[0], active))
    case Queues(a) => !a.Commit? && Dispatch.Enabled(s.queue, a)
  }

  function Under(fd: int, octets: seq<Bytes>): seq<Message> {
    seq(|octets|, i requires 0 <= i < |octets| => Message(fd, octets[i]))
  }

  function Earlier(s: Server, fd: int): seq<Bytes> {
    if fd in s.earlier then s.earlier[fd] else []
  }

  /** Everything connections under this descriptor have committed. */
  function CommittedUnder(s: Server, fd: int): seq<Bytes> {
    Earlier(s, fd) + if fd in s.sessions then s.sessions[fd].committed else []
  }

  ghost function After(app: Callbacks, s: Server, e: Event): Server
    requires Progressing(app) && CanHappen(s, e)
  {
    match e
    case Accepts(fd, arrivals, departures) =>
      s.(sessions := s.sessions[fd := Session.Opened(arrivals, departures)],
         starts := s.starts[fd := Session.Opened(arrivals, departures)],
         earlier := s.earlier[fd := CommittedUnder(s, fd)])
    case Handles(fd, mask, reaction) =>
      var c := s.sessions[fd];
      var d := Session.HandleEvent(app, c, mask, reaction, false);
      EventExtends(app, c, mask, reaction);
      s.(sessions := s.sessions[fd := d], waiting := Under(fd, d.committed[|c.committed|..]))
    case Responds(fd, msg, reaction) =>
      s.(sessions := s.sessions[fd := Session.Send(s.sessions[fd], msg, reaction, false)])
    case Closes(fd) => s.(sessions := s.sessions[fd := Session.CloseConn(s.sessions[fd])])
    case HandsOver(active) =>
      s.(waiting := s.waiting[1..], handed := s.handed + [s.waiting[0]],
         queue := Dispatch.Next(s.queue, Commit(s.waiting[0], active)))
    case Queues(a) => s.(queue := Dispatch.Next(s.queue, a))
  }

  lemma EventExtends(app: Callbacks, c: Session.State, mask: Mask, reaction: Session.Reaction)
    requires Progressing(app)
    ensures c.committed <= Session.HandleEvent(app, c, mask, reaction, false).committed
  {
    hide Parse, Drain, Session.SendMsg;
    var c1 := if mask * XE_READABLE != {} then Session.ReadMsg(app, c).1 else c;
    Session.FlushIsStable(c1, reaction);
  }

  function Started(): Server {
    Server(map[], map[], map[], [], [], Dispatch.Initial())
  }

  ghost predicate Possible(app: Callbacks, s: Server, run: seq<Event>)
    requires Progressing(app)
    decreases |run|
  {
    run != [] ==> CanHappen(s, run[0]) && Possible(app, After(app, s, run[0]), run[1..])
  }

  ghost function Run(app: Callbacks, s: Server, run: seq<Event>): Server
    requires Progressing(app) && Possible(app, s, run)
    decreases |run|
  {
    if run == [] then s else Run(app, After(app, s, run[0]), run[1..])
  }

  // ---------- the messages of one descriptor

  function OctetsOf(ms: seq<Message>, fd: int): seq<Bytes> {
    if ms == [] then []
    else (if ms[0].fd == fd then [ms[0].octets] else []) + OctetsOf(ms[1..], fd)
  }

  lemma {:induction false} OctetsOfAppend(a: seq<Message>, b: seq<Message>, fd: int)
    ensures OctetsOf(a + b, fd) == OctetsOf(a, fd) + OctetsOf(b, fd)
  {
    if a == [] {
      assert a + b == b;
    } else {
      assert (a + b)[1..] == a[1..] + b;
      OctetsOfAppend(a[1..], b, fd);
      Associate(if a[0].fd == fd then [a[0].octets] else [], OctetsOf(a[1..], fd), OctetsOf(b, fd));
    }
  }

  lemma OctetsOfOne(m: Message, fd: int)
    ensures OctetsOf([m], fd) == if m.fd == fd then [m.octets] else []
  {
    assert [m][1..] == [];
  }

  lemma {:induction false} OctetsOfUnder(octets: seq<Bytes>, at: int, fd: int)
    ensures OctetsOf(Under(at, octets), fd) == if at == fd then octets else []
    decreases |octets|
  {
    if octets == [] {
    } else {
      assert Under(at, octets)[1..] == Under(at, octets[1..]);
      OctetsOfUnder(octets[1..], at, fd);
    }
  }

  // ---------- some of a sequence, in order

  /** `a` is what is left of `b` when some elements are taken out. */
  predicate Within<T(==)>(a: seq<T>, b: seq<T>)
    decreases |b|
  {
    a == [] ||
    (b != [] && var c := b[..|b| - 1];
                (a[|a| - 1] == b[|b| - 1] && Within(a[..|a| - 1], c)) || Within(a, c))
  }

  lemma WithinSnoc<T>(a: seq<T>, b: seq<T>, x: T)
    requires Within(a, b)
    ensures Within(a + [x], b + [x]) && Within(a, b + [x])
  {
    assert (b + [x])[..|b|] == b && (a + [x])[..|a|] == a;
  }

  lemma {:induction false} WithinShorter<T>(a: seq<T>, b: seq<T>)
    requires Within(a, b) && a != []
    ensures Within(a[..|a| - 1], b)
    decreases |b|
  {
    var c := b[..|b| - 1];
    if a[|a| - 1] == b[|b| - 1] && Within(a[..|a| - 1], c) {
    } else {
      WithinShorter(a, c);
    }
  }

  lemma {:induction false} WithinPrefix<T>(a: seq<T>, b: seq<T>, c: seq<T>)
    requires a <= b && Within(b, c)
    ensures Within(a, c)
    decreases |b|
  {
    if a == b {
    } else {
      WithinShorter(b, c);
      WithinPrefix(a, b[..|b| - 1], c);
    }
  }

  lemma {:induction false} WithinLonger<T>(a: seq<T>, b: seq<T>, c: seq<T>)
    requires Within(a, b) && b <= c
    ensures Within(a, c)
    decreases |c|
  {
    if b == c {
    } else {
      WithinLonger(a, b, c[..|c| - 1]);
    }
  }

  lemma {:induction false} WithinUnder(a: seq<Message>, b: seq<Message>, fd: int)
    requires Within(a, b)
    ensures Within(OctetsOf(a, fd), OctetsOf(b, fd))
    decreases |b|
  {
    if a == [] {
    } else {
      var c, x := b[..|b| - 1], b[|b| - 1];
      assert b == c + [x];
      OctetsOfAppend(c, [x], fd);
      OctetsOfOne(x, fd);
      if a[|a| - 1] == x && Within(a[..|a| - 1], c) {
        var d := a[..|a| - 1];
        assert a == d + [x];
        OctetsOfAppend(d, [x], fd);
        WithinUnder(d, c, fd);
        if x.fd == fd {
          WithinSnoc(OctetsOf(d, fd), OctetsOf(c, fd), x.octets);
        } else {
          NothingAdded(OctetsOf(d, fd));
          NothingAdded(OctetsOf(c, fd));
        }
      } else {
        WithinUnder(a, c, fd);
        WithinLonger(OctetsOf(a, fd), OctetsOf(c, fd), OctetsOf(b, fd));
      }
    }
  }

  lemma NothingAdded<T>(a: seq<T>)
    ensures a + [] == a
  {
  }

  // ---------- what every step keeps

  /** What was committed under a descriptor is what was handed over for it and what is about to be. */
  ghost predicate Joined(s: Server) {
    forall fd :: OctetsOf(s.handed, fd) + OctetsOf(s.waiting, fd) == CommittedUnder(s, fd)
  }

  /** The queue took what was handed over, except what no handler was active for. */
  ghost predicate Taken(s: Server) {
    && Dispatch.Inv(s.queue)
    && Within(s.queue.committed, s.handed)
    && forall fd :: OctetsOf(s.queue.dropped, fd) == [] ==> OctetsOf(s.queue.committed, fd) == OctetsOf(s.handed, fd)
  }

  /** Every connection has committed what its stream so far makes up. */
  ghost predicate AllInStep(app: Callbacks, s: Server)
    requires Progressing(app)
  {
    && s.sessions.Keys == s.starts.Keys
    && (forall fd :: fd in s.starts ==> s.starts[fd] == Session.Opened(s.starts[fd].arrivals, s.starts[fd].departures))
    && (forall fd :: fd in s.sessions ==> Reading.InStep(app, s.starts[fd], s.sessions[fd]))
  }

  lemma SendKeepsCommitted(c: Session.State, msg: Bytes, reaction: Session.Reaction)
    ensures Session.SameReadSide(c, Session.Send(c, msg, reaction, false))
  {
    hide Session.SendMsg;
    Session.FlushIsStable(Session.Put(c, msg), reaction);
  }

  lemma JoinedStep(app: Callbacks, s: Server, e: Event)
    requires Progressing(app) && Joined(s) && CanHappen(s, e)
    ensures Joined(After(app, s, e))
  {
    hide Session.HandleEvent, Session.Send, OctetsOf, Under, Dispatch.Enabled, Dispatch.Next;
    var t := After(app, s, e);
    forall fd ensures OctetsOf(t.handed, fd) + OctetsOf(t.waiting, fd) == CommittedUnder(t, fd) {
      assert OctetsOf(s.handed, fd) + OctetsOf(s.waiting, fd) == CommittedUnder(s, fd);
      match e {
        case Accepts(at, _, _) => NothingAdded(CommittedUnder(s, at));
        case Handles(at, mask, reaction) => HandlesJoins(app, s, at, mask, reaction, fd);
        case Responds(at, msg, reaction) => SendKeepsCommitted(s.sessions[at], msg, reaction);
        case Closes(at) =>
        case HandsOver(_) => HandsOverJoins(s.handed, s.waiting, fd);
        case Queues(_) =>
      }
    }
  }

  lemma HandsOverJoins(handed: seq<Message>, waiting: seq<Message>, fd: int)
    requires waiting != []
    ensures OctetsOf(handed + [waiting[0]], fd) + OctetsOf(waiting[1..], fd) ==
            OctetsOf(handed, fd) + OctetsOf(waiting, fd)
  {
    hide OctetsOf;
    OctetsOfAppend(handed, [waiting[0]], fd);
    OctetsOfAppend([waiting[0]], waiting[1..], fd);
    assert waiting == [waiting[0]] + waiting[1..];
    Associate(OctetsOf(handed, fd), OctetsOf([waiting[0]], fd), OctetsOf(waiting[1..], fd));
  }

  lemma HandlesJoins(app: Callbacks, s: Server, at: int, mask: Mask, reaction: Session.Reaction, fd: int)
    requires Progressing(app) && CanHappen(s, Handles(at, mask, reaction))
    requires OctetsOf(s.handed, fd) + OctetsOf(s.waiting, fd) == CommittedUnder(s, fd)
    ensures var t := After(app, s, Handles(at, mask, reaction));
            OctetsOf(t.handed, fd) + OctetsOf(t.waiting, fd) == CommittedUnder(t, fd)
  {
    hide Session.HandleEvent, Under;
    var c := s.sessions[at];
    var d := Session.HandleEvent(app, c, mask, reaction, false);
    EventExtends(app, c, mask, reaction);
    var news := d.committed[|c.committed|..];
    OctetsOfUnder(news, at, fd);
    assert d.committed == c.committed + news;
    NothingAdded(OctetsOf(s.handed, fd));
    Associate(Earlier(s, fd), c.committed, news);
  }

  lemma CommitOutcome(q: Dispatch.State, m: Message, active: nat)
    requires Dispatch.Enabled(q, Commit(m, active))
    ensures var t := Dispatch.Next(q, Commit(m, active));
            if active == 0 then t.committed == q.committed && t.dropped == q.dropped + [m]
            else t.committed == q.committed + [m] && t.dropped == q.dropped
  {
  }

  lemma HandsOverTaken(s: Server, active: nat)
    requires Taken(s) && s.waiting != [] && Dispatch.Enabled(s.queue, Commit(s.waiting[0], active))
    ensures var t := Dispatch.Next(s.queue, Commit(s.waiting[0], active));
            var handed := s.handed + [s.waiting[0]];
            && Dispatch.Inv(t) && Within(t.committed, handed)
            && forall fd :: OctetsOf(t.dropped, fd) == [] ==> OctetsOf(t.committed, fd) == OctetsOf(handed, fd)
  {
    hide OctetsOf, Dispatch.Inv, Dispatch.Enabled, Dispatch.Next, Within;
    var m := s.waiting[0];
    CommitOutcome(s.queue, m, active);
    Dispatch.InvStep(s.queue, Commit(m, active));
    WithinSnoc(s.queue.committed, s.handed, m);
    var t := Dispatch.Next(s.queue, Commit(m, active));
    forall fd | OctetsOf(t.dropped, fd) == []
      ensures OctetsOf(t.committed, fd) == OctetsOf(s.handed + [m], fd)
    {
      OctetsOfAppend(s.handed, [m], fd);
      OctetsOfAppend(s.queue.committed, [m], fd);
      OctetsOfAppend(s.queue.dropped, [m], fd);
      OctetsOfOne(m, fd);
      NothingAdded(OctetsOf(s.handed, fd));
    }
  }

  lemma TakenStep(app: Callbacks, s: Server, e: Event)
    requires Progressing(app) && Taken(s) && CanHappen(s, e)
    ensures Taken(After(app, s, e))
  {
    hide Session.HandleEvent, Session.Send, OctetsOf, Dispatch.Inv, Within;
    match e {
      case HandsOver(active) => HandsOverTaken(s, active);
      case Queues(a) => Dispatch.InvStep(s.queue, a);
      case _ =>
    }
  }

  lemma AllInStepStep(app: Callbacks, s: Server, e: Event)
    requires Framed(app) && AllInStep(app, s) && CanHappen(s, e)
    ensures AllInStep(app, After(app, s, e))
  {
    hide Progressing, Framed, Session.HandleEvent, Session.Send, Session.CloseConn, Reading.InStep, Parse;
    match e {
      case Accepts(fd, arrivals, departures) => OpenedInStep(app, arrivals, departures);
      case Handles(fd, mask, reaction) => Reading.EventKeepsStep(app, s.starts[fd], s.sessions[fd], mask, reaction);
      case Responds(fd, msg, reaction) =>
        SendKeepsCommitted(s.sessions[fd], msg, reaction);
        Reading.StepIsStable(app, s.starts[fd], s.sessions[fd], Session.Send(s.sessions[fd], msg, reaction, false));
      case Closes(fd) =>
        CloseKeepsCommitted(s.sessions[fd]);
        Reading.StepIsStable(app, s.starts[fd], s.sessions[fd], Session.CloseConn(s.sessions[fd]));
      case _ =>
    }
  }

  lemma CloseKeepsCommitted(c: Session.State)
    ensures Session.SameReadSide(c, Session.CloseConn(c))
  {
  }

  lemma OpenedInStep(app: Callbacks, arrivals: seq<Arrival>, departures: seq<Departure>)
    requires Progressing(app)
    ensures Reading.InStep(app, Session.Opened(arrivals, departures), Session.Opened(arrivals, departures))
  {
  }

  lemma {:induction false} AccountsHold(app: Callbacks, s: Server, run: seq<Event>)
    requires Progressing(app) && Joined(s) && Taken(s) && Possible(app, s, run)
    ensures var t := Run(app, s, run); Joined(t) && Taken(t)
    decreases |run|
  {
    hide Progressing, Joined, Taken, After, CanHappen;
    if run == [] {
    } else {
      JoinedStep(app, s, run[0]);
      TakenStep(app, s, run[0]);
      AccountsHold(app, After(app, s, run[0]), run[1..]);
    }
  }

  lemma {:induction false} StepsHold(app: Callbacks, s: Server, run: seq<Event>)
    requires Framed(app) && AllInStep(app, s) && Possible(app, s, run)
    ensures AllInStep(app, Run(app, s, run))
    decreases |run|
  {
    hide Progressing, Framed, AllInStep, After, CanHappen;
    if run == [] {
    } else {
      AllInStepStep(app, s, run[0]);
      StepsHold(app, After(app, s, run[0]), run[1..]);
    }
  }

  /** Every state of every run: the two accounts for any decoder, the progress along the streams for a framed one. */
  lemma EveryState(app: Callbacks, run: seq<Event>)
    requires Progressing(app) && Possible(app, Started(), run)
    ensures var t := Run(app, Started(), run);
            Joined(t) && Taken(t) && (Framed(app) ==> AllInStep(app, t)) && (ErrorFree(app) ==> AllConserve(t))
  {
    hide Progressing, Framed, ErrorFree, Run, Possible, Joined, Taken, AllInStep, AllConserve;
    StartedWell(app);
    AccountsHold(app, Started(), run);
    if Framed(app) {
      StepsHold(app, Started(), run);
    }
    if ErrorFree(app) {
      ConservationHolds(app, Started(), run);
    }
  }

  // ---------- the octets, for any decoder that never clears the buffer

  /** Every connection has committed, holds and expects the octets of its stream. */
  ghost predicate AllConserve(s: Server) {
    && s.sessions.Keys == s.starts.Keys
    && (forall fd :: fd in s.sessions ==> Reading.Conserves(Events.Stream(s.starts[fd].arrivals), s.sessions[fd]))
  }

  lemma AllConserveStep(app: Callbacks, s: Server, e: Event)
    requires ErrorFree(app) && AllConserve(s) && CanHappen(s, e)
    ensures AllConserve(After(app, s, e))
  {
    hide Progressing, ErrorFree, Session.HandleEvent, Session.Send, Session.CloseConn, Parse, Events.Stream, Join;
    match e {
      case Accepts(fd, arrivals, departures) => OpenedConserves(arrivals, departures);
      case Handles(fd, mask, reaction) =>
        Reading.EventConserves(app, Events.Stream(s.starts[fd].arrivals), s.sessions[fd], mask, reaction);
      case Responds(fd, msg, reaction) => SendKeepsCommitted(s.sessions[fd], msg, reaction);
      case Closes(fd) => CloseKeepsCommitted(s.sessions[fd]);
      case _ =>
    }
  }

  lemma OpenedConserves(arrivals: seq<Arrival>, departures: seq<Departure>)
    ensures Reading.Conserves(Events.Stream(arrivals), Session.Opened(arrivals, departures))
  {
  }

  lemma {:induction false} ConservationHolds(app: Callbacks, s: Server, run: seq<Event>)
    requires ErrorFree(app) && AllConserve(s) && Possible(app, s, run)
    ensures AllConserve(Run(app, s, run))
    decreases |run|
  {
    hide Progressing, ErrorFree, AllConserve, After, CanHappen;
    if run == [] {
    } else {
      AllConserveStep(app, s, run[0]);
      ConservationHolds(app, After(app, s, run[0]), run[1..]);
    }
  }

  // ---------- the handlers

  /** Every value taken from the queue so far is long enough to hold a uid. */
  predicate Readable(s: Dispatch.State) {
    forall i :: 0 <= i < |s.chan.popped| ==> |s.chan.popped[i].1| >= 4
  }

  /** What the handlers have been called with, in the order of the removals. */
  function Dispatched(s: Dispatch.State): seq<Message>
    requires Readable(s)
  {
    seq(|s.chan.popped|, i requires 0 <= i < |s.chan.popped| => Untagged(s.chan.popped[i].1))
  }

  lemma DispatchedIsPrefix(s: Dispatch.State)
    requires Dispatch.Inv(s)
    ensures Readable(s) && Dispatched(s) <= s.committed
    ensures |s.chan.popped| == |s.committed| ==> Dispatched(s) == s.committed
  {
    hide Dispatch.Inv, Tagged, Untagged;
    AllAccounted(s);
    forall i | 0 <= i < |s.chan.popped|
      ensures |s.chan.popped[i].1| >= 4 && Untagged(s.chan.popped[i].1) == s.committed[i]
    {
      QueueIsTail(s, i);
      Untags(s, i, s.chan.popped[i].1);
    }
  }

  /**
   The messages the clients under a descriptor have a right to: those of closed
   connections as far as they were committed, then those one parse of the whole
   stream of the present connection yields.
   */
  ghost function Due(app: Callbacks, s: Server, fd: int): seq<Bytes>
    requires Progressing(app)
  {
    Earlier(s, fd) + if fd in s.starts then Reading.Whole(app, s.starts[fd]).messages else []
  }

  lemma CommittedIsDue(app: Callbacks, s: Server, fd: int)
    requires Progressing(app) && AllInStep(app, s)
    ensures CommittedUnder(s, fd) <= Due(app, s, fd)
    ensures Live(s, fd) && Events.Stream(s.sessions[fd].arrivals) == [] ==> CommittedUnder(s, fd) == Due(app, s, fd)
  {
    hide Parse, Events.Stream;
    if fd in s.sessions {
      var c, d := s.starts[fd], s.sessions[fd];
      Reading.InStepPrefix(app, c, d);
      assert [] + Reading.Whole(app, c).messages == Reading.Whole(app, c).messages;
      if d.status == Connected && Events.Stream(d.arrivals) == [] {
        assert d.inbound + [] == d.inbound;
        NothingAdded(d.committed);
      }
    }
  }

  /** The connection has received its stream, the loop thread is idle, and the handlers have emptied the queue. */
  predicate AllTaken(s: Server, fd: int) {
    && Live(s, fd) && Events.Stream(s.sessions[fd].arrivals) == []
    && Idle(s) && |s.queue.chan.popped| == |s.queue.committed|
  }

  /**
   In every state of every run, for every descriptor: what the handlers were
   called with under it is made of messages its clients are due, each at most
   once, in order and octet for octet. It is a prefix of those messages unless one
   was committed while no handler was active, and it is all of them once the
   connection has received its stream, the loop thread is idle and the queue has
   been emptied. The cuts and pauses of the streams, their ends and failures, the
   events and callbacks of all connections and the order of the threads are
   arbitrary.
   */
  lemma StreamsReachHandlers(app: Callbacks, run: seq<Event>, fd: int)
    requires Framed(app) && Possible(app, Started(), run)
    ensures var s := Run(app, Started(), run);
            && Readable(s.queue)
            && var got := OctetsOf(Dispatched(s.queue), fd);
               && Within(got, Due(app, s, fd))
               && (OctetsOf(s.queue.dropped, fd) == [] ==> got <= Due(app, s, fd))
               && (OctetsOf(s.queue.dropped, fd) == [] && AllTaken(s, fd) ==> got == Due(app, s, fd))
  {
    hide Progressing, Framed, Run, Possible, OctetsOf, Within, Due, AllInStep, Joined, Taken, Readable, Events.Stream;
    EveryState(app, run);
    var s := Run(app, Started(), run);
    CommittedIsDue(app, s, fd);
    DispatchedAndCommitted(s, fd);
    var got := OctetsOf(Dispatched(s.queue), fd);
    WithinLonger(got, CommittedUnder(s, fd), Due(app, s, fd));
  }

  /** Every message reaches messageComing while some handler is active. */
  predicate AlwaysActive(run: seq<Event>) {
    forall e :: e in run && e.HandsOver? ==> e.activeHandlers != 0
  }

  lemma {:induction false} NothingDropped(app: Callbacks, s: Server, run: seq<Event>)
    requires Progressing(app) && Possible(app, s, run) && AlwaysActive(run)
    ensures Run(app, s, run).queue.dropped == s.queue.dropped
    decreases |run|
  {
    hide Progressing, Session.HandleEvent, Session.Send, Channel.Next, Channel.Enabled;
    if run == [] {
    } else {
      assert run[0] in run && forall e :: e in run[1..] ==> e in run;
      NothingDropped(app, After(app, s, run[0]), run[1..]);
    }
  }

  /** With a handler always active: the handlers get the first of the messages due, in order, and in the end all. */
  lemma ServedInFull(app: Callbacks, run: seq<Event>, fd: int)
    requires Framed(app) && Possible(app, Started(), run) && AlwaysActive(run)
    ensures var s := Run(app, Started(), run);
            && Readable(s.queue)
            && var got := OctetsOf(Dispatched(s.queue), fd);
               got <= Due(app, s, fd) && (AllTaken(s, fd) ==> got == Due(app, s, fd))
  {
    hide Progressing, Framed, Run, Possible, Within, Due, Readable, AlwaysActive, AllTaken;
    StreamsReachHandlers(app, run, fd);
    NothingDropped(app, Started(), run);
    NothingUnder(fd);
  }

  /** What was dispatched under a descriptor, against what was committed under it. */
  lemma DispatchedAndCommitted(s: Server, fd: int)
    requires Joined(s) && Taken(s)
    ensures Readable(s.queue)
    ensures var got := OctetsOf(Dispatched(s.queue), fd);
            && Within(got, CommittedUnder(s, fd))
            && (OctetsOf(s.queue.dropped, fd) == [] ==> got <= CommittedUnder(s, fd))
            && (OctetsOf(s.queue.dropped, fd) == [] && AllTaken(s, fd) ==> got == CommittedUnder(s, fd))
  {
    hide OctetsOf, Within, Dispatch.Inv, Events.Stream;
    DispatchedIsPrefix(s.queue);
    var taken, all := Dispatched(s.queue), s.queue.committed;
    assert all == taken + all[|taken|..];
    OctetsOfAppend(taken, all[|taken|..], fd);
    var got := OctetsOf(taken, fd);
    assert OctetsOf(s.handed, fd) + OctetsOf(s.waiting, fd) == CommittedUnder(s, fd);
    WithinUnder(all, s.handed, fd);
    WithinPrefix(got, OctetsOf(all, fd), OctetsOf(s.handed, fd));
    WithinLonger(got, OctetsOf(s.handed, fd), CommittedUnder(s, fd));
    if Idle(s) {
      NothingUnder(fd);
      NothingAdded(OctetsOf(s.handed, fd));
    }
  }

  /**
   For every decoder that never clears the buffer, the one that takes the whole
   buffer for a message included: the octets the handlers were called with under a
   descriptor are, joined, what closed connections under it committed followed by a
   prefix of the stream of the present one, or a prefix of that, unless one of their
   messages was committed while no handler was active.
   */
  lemma OctetsReachHandlers(app: Callbacks, run: seq<Event>, fd: int)
    requires ErrorFree(app) && Possible(app, Started(), run)
    ensures var s := Run(app, Started(), run);
            && Readable(s.queue)
            && (OctetsOf(s.queue.dropped, fd) == [] ==>
                  Join(OctetsOf(Dispatched(s.queue), fd)) <=
                  Join(Earlier(s, fd)) + if fd in s.starts then Events.Stream(s.starts[fd].arrivals) else [])
  {
    hide Progressing, ErrorFree, Run, Possible, OctetsOf, Within, Joined, Taken, Readable, Events.Stream, Join;
    EveryState(app, run);
    var s := Run(app, Started(), run);
    DispatchedAndCommitted(s, fd);
    if OctetsOf(s.queue.dropped, fd) == [] {
      JoinPrefix(OctetsOf(Dispatched(s.queue), fd), CommittedUnder(s, fd));
      JoinedUnder(s, fd);
    }
  }

  lemma JoinedUnder(s: Server, fd: int)
    requires AllConserve(s)
    ensures Join(CommittedUnder(s, fd)) <=
            Join(Earlier(s, fd)) + if fd in s.starts then Events.Stream(s.starts[fd].arrivals) else []
  {
    hide Join, Events.Stream;
    if fd in s.sessions {
      Reading.ConservesPrefix(Events.Stream(s.starts[fd].arrivals), s.sessions[fd]);
      JoinAppend(Earlier(s, fd), s.sessions[fd].committed);
    } else {
      NothingAdded(Earlier(s, fd));
      NothingAdded(Join(Earlier(s, fd)));
    }
  }

  lemma NothingUnder(fd: int)
    ensures OctetsOf([], fd) == []
  {
  }

  lemma StartedWell(app: Callbacks)
    requires Progressing(app)
    ensures Joined(Started()) && Taken(Started()) && AllInStep(app, Started()) && AllConserve(Started())
  {
    InvInitially();
  }
}
