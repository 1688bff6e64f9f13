/**
 One TCP connection as a state machine (net/connection.cpp): what each function
 of xConnection does to everything the connection owns, and what holds over
 whole runs. `Connection.Connection` is the class these functions specify.
 */
module Session {
  import opened Bytes
  import opened Kernel
  import opened Framing
  import opened EventLoop
  import opened Statuses

  /**
   What the user's sent-bytes callback does, call by call, until it returns or
   throws. A send on the same connection may flush, and then the callback is
   entered again; `inner` is what it does that time.
   */
  datatype Reaction =
    | Quiet
    | Throws
    | Closes(next: Reaction)
    | Sends(msg: Bytes, inner: Reaction, next: Reaction)

  datatype State = State(
    status: Status,
    writeEnabled: bool,
    watched: Option<Mask>,         // the mask stored in the loop for this descriptor
    inbound: Bytes,                // readBuff_
    outbound: Bytes,               // writeBuff_
    arrivals: seq<Arrival>,        // what the kernel will answer to reads
    departures: seq<Departure>,    // and to writes
    accepted: Bytes,               // octets the kernel has taken
    appended: Bytes,               // octets ever put into writeBuff_
    torn: nat,                     // write calls that failed after the kernel had taken something
    calls: nat,                    // decoder calls made
    committed: seq<Bytes>,         // messages handed to the commit callback
    reports: seq<int>,             // sizes handed to the sent-bytes callback
    closeNotices: nat              // calls of the close callback
  )

  /** A connection just made, with what its socket has in store. */
  function Opened(arrivals: seq<Arrival>, departures: seq<Departure>): State {
    State(Connected, false, Some(XE_READABLE), [], [], arrivals, departures, [], [], 0, 0, [], [], 0)
  }

  predicate Watches(s: State, m: Mask) {
    s.watched.Some? && s.watched.value * m != {}
  }

  function CloseConn(s: State): State {
    if s.status == Disconnected || s.status == Disconnecting then s
    else s.(status := Disconnecting, watched := None, closeNotices := s.closeNotices + 1)
  }

  /** addEvent and removeEvent for WRITABLE on this descriptor's entry. */
  function Arm(w: Option<Mask>): Option<Mask> {
    if w.None? || w.value * XE_WRITABLE != {} then w else Some(w.value + XE_WRITABLE)
  }

  function Disarm(w: Option<Mask>, repaired: bool): Option<Mask> {
    if w.None? || w.value * XE_WRITABLE == {} then w
    else
      var mask := Cleared(w.value, XE_WRITABLE, repaired);
      if mask == XE_NONE then None else Some(mask)
  }

  function Put(s: State, data: Bytes): State {
    s.(outbound := s.outbound + data, appended := s.appended + data)
  }

  /** The call of writeFd, and moveOver when it succeeds. */
  function Write(s: State): State {
    var w := WriteAll(s.departures, |s.outbound|);
    s.(departures := w.rest, accepted := s.accepted + s.outbound[..w.taken],
       outbound := if w.ret < 0 then s.outbound else s.outbound[w.ret..],
       torn := s.torn + if w.ret < 0 < w.taken then 1 else 0)
  }

  /** The last lines of sendMsg. */
  function Settle(s: State, repaired: bool): State {
    if s.outbound != [] && !s.writeEnabled then s.(watched := Arm(s.watched), writeEnabled := true)
    else if s.outbound == [] && s.writeEnabled then s.(watched := Disarm(s.watched, repaired), writeEnabled := false)
    else s
  }

  function SendMsg(s: State, reaction: Reaction, repaired: bool): (int, State)
    decreases reaction, 2
  {
    if s.status != Connected then (-1, s)
    else if s.outbound == [] then (0, Settle(s, repaired))
    else
      var w := WriteAll(s.departures, |s.outbound|);
      if w.ret < 0 then (if w.errno == WouldBlock then 0 else -1, Write(s))
      else (w.ret, Settle(React(Write(s), w.ret, reaction, repaired), repaired))
  }

  /** The sent-bytes callback is told the count; what it throws is swallowed. */
  function React(s: State, n: int, reaction: Reaction, repaired: bool): State
    decreases reaction, 1
  {
    Perform(s.(reports := s.reports + [n]), reaction, repaired)
  }

  function Perform(s: State, reaction: Reaction, repaired: bool): State
    decreases reaction, 0
  {
    match reaction
    case Quiet => s
    case Throws => s
    case Closes(next) => Perform(CloseConn(s), next, repaired)
    case Sends(msg, inner, next) => Perform(Send(s, msg, inner, repaired), next, repaired)
  }

  /** sendMsg for a string on the loop thread: dropped unless connected, else appended and flushed. */
  function Send(s: State, msg: Bytes, reaction: Reaction, repaired: bool): State
    decreases reaction, 3
  {
    if s.status != Connected then s else SendMsg(Put(s, msg), reaction, repaired).1
  }

  ghost function ReadMsg(app: Callbacks, s: State): (int, State)
    requires Progressing(app)
  {
    var d := Drain(s.arrivals);
    var (ret, p) := Framing.ReadMsg(app, s.calls, s.inbound, d);
    (ret, s.(arrivals := d.rest, inbound := p.rest, calls := p.calls, committed := s.committed + p.messages))
  }

  ghost function HandleEvent(app: Callbacks, s: State, mask: Mask, reaction: Reaction, repaired: bool): State
    requires Progressing(app)
  {
    if mask * XE_ERROR != {} || mask * XE_HUP != {} then CloseConn(s)
    else
      var (read, s1) := if mask * XE_READABLE != {} then ReadMsg(app, s) else (0, s);
      if read < 0 then CloseConn(s1)
      else
        var (sent, s2) := if mask * XE_WRITABLE != {} then SendMsg(s1, reaction, repaired) else (0, s1);
        if sent < 0 then CloseConn(s2) else s2
  }

  // ---------- the primitive effects of the write side

  datatype Effect = Appends(data: Bytes) | Writes | Reports(n: int) | Settles | Drops

  function Do(s: State, e: Effect, repaired: bool): State {
    match e
    case Appends(data) => Put(s, data)
    case Writes => if s.status == Connected then Write(s) else s
    case Reports(n) => s.(reports := s.reports + [n])
    case Settles => Settle(s, repaired)
    case Drops => CloseConn(s)
  }

  ghost predicate Kept(p: State -> bool, repaired: bool) {
    forall s: State, e: Effect :: p(s) ==> p(Do(s, e, repaired))
  }

  /** A flush, with everything its callbacks do, keeps whatever every primitive effect keeps. */
  lemma {:induction false} FlushKeeps(p: State -> bool, s: State, reaction: Reaction, repaired: bool)
    requires Kept(p, repaired) && p(s)
    ensures p(SendMsg(s, reaction, repaired).1)
    decreases reaction, 1
  {
    hide Write, Settle, Perform;
    if s.status == Connected {
      if s.outbound == [] {
        assert p(Do(s, Settles, repaired));
      } else {
        var w := Do(s, Writes, repaired);
        assert p(w);
        var n := WriteAll(s.departures, |s.outbound|).ret;
        if n >= 0 {
          var t := Do(w, Reports(n), repaired);
          assert p(t);
          PerformKeeps(p, t, reaction, repaired);
          assert p(Do(Perform(t, reaction, repaired), Settles, repaired));
        }
      }
    }
  }

  lemma {:induction false} PerformKeeps(p: State -> bool, s: State, reaction: Reaction, repaired: bool)
    requires Kept(p, repaired) && p(s)
    ensures p(Perform(s, reaction, repaired))
    decreases reaction, 0
  {
    hide SendMsg;
    match reaction {
      case Quiet =>
      case Throws =>
      case Closes(next) =>
        assert p(Do(s, Drops, repaired));
        PerformKeeps(p, CloseConn(s), next, repaired);
      case Sends(msg, inner, next) =>
        if s.status == Connected {
          assert p(Do(s, Appends(msg), repaired));
          FlushKeeps(p, Put(s, msg), inner, repaired);
        }
        PerformKeeps(p, Send(s, msg, inner, repaired), next, repaired);
    }
  }

  // ---------- the outcome of an event

  /** Live and registered with `notices` calls of the close callback so far, or closed with one more. */
  predicate LiveOrClosed(s: State, notices: nat) {
    || (s.status == Connected && s.watched.Some? && s.closeNotices == notices)
    || (s.status == Disconnecting && s.watched == None && s.closeNotices == notices + 1)
  }

  lemma LiveOrClosedKept(notices: nat)
    ensures Kept(s => LiveOrClosed(s, notices), false)
  {
    forall s: State, e: Effect | LiveOrClosed(s, notices)
      ensures LiveOrClosed(Do(s, e, false), notices)
    {
      hide Write;
      if s.watched.Some? && s.watched.value * XE_WRITABLE != {} {
        assert 1 in Cleared(s.watched.value, XE_WRITABLE, false);
      }
    }
  }

  /** An event leaves a live connection live and registered, or closes it, once, whatever the callback does. */
  lemma EventOutcome(app: Callbacks, s: State, mask: Mask, reaction: Reaction)
    requires Progressing(app) && s.status == Connected && s.watched.Some?
    ensures LiveOrClosed(HandleEvent(app, s, mask, reaction, false), s.closeNotices)
  {
    hide ReadMsg, SendMsg;
    var s1 := if mask * XE_READABLE != {} then ReadMsg(app, s).1 else s;
    if mask * XE_READABLE != {} {
      ReadOutcome(app, s);
    }
    SendOutcome(s1, reaction);
  }

  lemma ReadOutcome(app: Callbacks, s: State)
    requires Progressing(app)
    ensures var t := ReadMsg(app, s).1;
            t == s.(arrivals := t.arrivals, inbound := t.inbound, calls := t.calls, committed := t.committed)
  {
    hide Framing.ReadMsg, Drain;
  }

  lemma SendOutcome(s: State, reaction: Reaction)
    requires s.status == Connected && s.watched.Some?
    ensures LiveOrClosed(SendMsg(s, reaction, false).1, s.closeNotices)
  {
    var p := (t: State) => LiveOrClosed(t, s.closeNotices);
    LiveOrClosedKept(s.closeNotices);
    FlushKeeps(p, s, reaction, false);
  }

  /** The write side leaves the read side alone, and never brings a connection back. */
  predicate SameReadSide(t: State, u: State) {
    && u.inbound == t.inbound && u.arrivals == t.arrivals && u.calls == t.calls && u.committed == t.committed
    && (u.status == Connected ==> t.status == Connected)
  }

  lemma FlushIsStable(t: State, reaction: Reaction)
    ensures SameReadSide(t, SendMsg(t, reaction, false).1)
  {
    var p := (u: State) => SameReadSide(t, u);
    forall u: State, e: Effect | p(u) ensures p(Do(u, e, false)) {
    }
    FlushKeeps(p, t, reaction, false);
  }

  // ---------- runs

  datatype Step = Append(data: Bytes) | Flush(reaction: Reaction) | Read | Close

  ghost function Next(app: Callbacks, s: State, step: Step, repaired: bool): State
    requires Progressing(app)
  {
    match step
    case Append(data) => Put(s, data)
    case Flush(reaction) => SendMsg(s, reaction, repaired).1
    case Read => ReadMsg(app, s).1
    case Close => CloseConn(s)
  }

  ghost function Run(app: Callbacks, s: State, steps: seq<Step>, repaired: bool): State
    requires Progressing(app)
    decreases |steps|
  {
    if steps == [] then s else Run(app, Next(app, s, steps[0], repaired), steps[1..], repaired)
  }

  /** Handling an event is one of these short runs, so what holds over runs holds over events. */
  lemma EventIsARun(app: Callbacks, s: State, mask: Mask, reaction: Reaction, repaired: bool)
    requires Progressing(app)
    ensures HandleEvent(app, s, mask, reaction, repaired) in
              {s, Run(app, s, [Close], repaired),
               Run(app, s, [Read], repaired), Run(app, s, [Read, Close], repaired),
               Run(app, s, [Flush(reaction)], repaired), Run(app, s, [Flush(reaction), Close], repaired),
               Run(app, s, [Read, Flush(reaction)], repaired), Run(app, s, [Read, Flush(reaction), Close], repaired)}
  {
    hide SendMsg, ReadMsg, CloseConn;
    Run1(app, s, Close, repaired);
    Run2(app, s, Read, Close, repaired);
    Run2(app, s, Flush(reaction), Close, repaired);
    Run2(app, s, Read, Flush(reaction), repaired);
    var three := [Read, Flush(reaction), Close];
    assert three[1..] == [Flush(reaction), Close];
    Run2(app, Next(app, s, Read, repaired), Flush(reaction), Close, repaired);
  }

  lemma Run1(app: Callbacks, s: State, a: Step, repaired: bool)
    requires Progressing(app)
    ensures Run(app, s, [a], repaired) == Next(app, s, a, repaired)
  {
    assert [a][1..] == [];
  }

  lemma Run2(app: Callbacks, s: State, a: Step, b: Step, repaired: bool)
    requires Progressing(app)
    ensures Run(app, s, [a], repaired) == Next(app, s, a, repaired)
    ensures Run(app, s, [a, b], repaired) == Next(app, Next(app, s, a, repaired), b, repaired)
  {
    hide Next;
    Run1(app, s, a, repaired);
    Run1(app, Next(app, s, a, repaired), b, repaired);
    assert [a, b][1..] == [b];
  }

  /** What every primitive effect keeps and reading does not touch is kept by every run. */
  lemma {:induction false} RunKeeps(p: State -> bool, app: Callbacks, s: State, steps: seq<Step>, repaired: bool)
    requires Progressing(app) && Kept(p, repaired) && p(s)
    requires forall t: State :: p(t) ==> p(ReadMsg(app, t).1)
    ensures p(Run(app, s, steps, repaired))
    decreases |steps|
  {
    hide SendMsg, ReadMsg;
    if steps == [] {
    } else {
      match steps[0] {
        case Append(data) => assert p(Do(s, Appends(data), repaired));
        case Flush(reaction) => FlushKeeps(p, s, reaction, repaired);
        case Read =>
        case Close => assert p(Do(s, Drops, repaired));
      }
      RunKeeps(p, app, Next(app, s, steps[0], repaired), steps[1..], repaired);
    }
  }
}
