/**
 What one event does to a connection, bit by bit of its mask (net/connection.cpp),
 and what follows for any series of events.
 */
module Events {
  import opened Bytes
  import opened Kernel
  import opened Framing
  import opened EventLoop
  import opened Statuses
  import opened Session
  import opened Writing

  predicate Delivers(a: Arrival) {
    a.Data? && a.bytes != []
  }

  predicate Pauses(a: Arrival) {
    a == ReadFailed(WouldBlock)
  }

  /** The octets that arrive before the peer closes or the socket fails. */
  function Stream(arrivals: seq<Arrival>): Bytes {
    if arrivals == [] then []
    else if Delivers(arrivals[0]) then arrivals[0].bytes + Stream(arrivals[1..])
    else if Pauses(arrivals[0]) then Stream(arrivals[1..])
    else []
  }

  /** Data and pauses, without an end. */
  predicate Ongoing(arrivals: seq<Arrival>) {
    forall a :: a in arrivals ==> Delivers(a) || Pauses(a)
  }

  lemma {:induction false} DrainStream(arrivals: seq<Arrival>)
    ensures var d := Drain(arrivals);
            && Stream(arrivals) == (if Pauses(d.ending) then d.bytes + Stream(d.rest) else d.bytes)
            && (Ongoing(arrivals) ==> Pauses(d.ending) && Ongoing(d.rest))
            && (arrivals != [] ==> |d.rest| < |arrivals|)
            && (arrivals == [] ==> d.rest == [])
  {
    if arrivals == [] {
    } else {
      assert arrivals[0] in arrivals;
      assert forall a :: a in arrivals[1..] ==> a in arrivals;
      DrainStream(arrivals[1..]);
      if Delivers(arrivals[0]) {
        var d := Drain(arrivals[1..]);
        Associate(arrivals[0].bytes, d.bytes, Stream(d.rest));
      }
    }
  }

  /** An error or a hang-up closes the connection, with one notice, and nothing is read or written. */
  lemma ErrorCloses(app: Callbacks, s: State, mask: Mask, reaction: Reaction)
    requires Progressing(app) && s.status == Connected && (3 in mask || 4 in mask)
    ensures HandleEvent(app, s, mask, reaction, false) ==
            s.(status := Disconnecting, watched := None, closeNotices := s.closeNotices + 1)
  {
    Bits(mask);
  }

  // ---------- the read part

  /**
   Readable, whatever the other bits and the callback: when the octets that have
   arrived stop short of the end of the stream, all of them are taken, and one parse
   of the buffer with them decides what is committed and what stays.
   */
  lemma ReadableReads(app: Callbacks, s: State, mask: Mask, reaction: Reaction)
    requires Progressing(app) && s.status == Connected && 0 in mask && 3 !in mask && 4 !in mask
    requires Pauses(Drain(s.arrivals).ending)
    ensures var d := Drain(s.arrivals);
            var t := HandleEvent(app, s, mask, reaction, false);
            && t.arrivals == d.rest
            && if d.bytes == [] then t.inbound == s.inbound && t.committed == s.committed && t.calls == s.calls
               else
                 var p := Parse(app, s.calls, s.inbound + d.bytes);
                 t.inbound == p.rest && t.committed == s.committed + p.messages && t.calls == p.calls
  {
    hide Drain, Parse, SendMsg;
    Bits(mask);
    FlushIsStable(Session.ReadMsg(app, s).1, reaction);
    assert s.committed + [] == s.committed;
  }

  /** Readable, and the stream has ended or failed: what came with the end is kept unparsed, and nothing is written. */
  lemma EndCloses(app: Callbacks, s: State, mask: Mask, reaction: Reaction)
    requires Progressing(app) && s.status == Connected && 0 in mask && 3 !in mask && 4 !in mask
    requires !Pauses(Drain(s.arrivals).ending)
    ensures var d := Drain(s.arrivals);
            HandleEvent(app, s, mask, reaction, false) ==
            s.(arrivals := d.rest, inbound := s.inbound + d.bytes,
               status := Disconnecting, watched := None, closeNotices := s.closeNotices + 1)
  {
    hide Drain, Parse, SendMsg;
    Bits(mask);
    assert s.committed + [] == s.committed;
  }

  /** Not readable: nothing is read or committed. */
  lemma OthersDoNotRead(app: Callbacks, s: State, mask: Mask, reaction: Reaction)
    requires Progressing(app) && 0 !in mask
    ensures SameReadSide(s, HandleEvent(app, s, mask, reaction, false))
  {
    hide Session.ReadMsg, SendMsg;
    Bits(mask);
    FlushIsStable(s, reaction);
  }

  // ---------- the write part

  /** What was accepted and reported so far stays. */
  predicate GoesOn(s: State, t: State) {
    s.accepted <= t.accepted && s.reports <= t.reports
  }

  lemma PerformGoesOn(s: State, reaction: Reaction)
    ensures GoesOn(s, Perform(s, reaction, false))
  {
    var p := (t: State) => GoesOn(s, t);
    PerformKeeps(p, s, reaction, false);
  }

  /** The write side of `t` after one call of writeFd on the buffer of `s` that came to `w`. */
  predicate WroteOnce(s: State, t: State, w: Written) {
    && t.departures == w.rest
    && t.accepted == s.accepted + s.outbound[..Min(w.taken, |s.outbound|)]
    && t.outbound == (if w.ret < 0 then s.outbound else s.outbound[Min(w.taken, |s.outbound|)..])
    && t.reports == (if w.ret < 0 then s.reports else s.reports + [w.ret])
    && t.appended == s.appended
  }

  /** A flush of a non-empty buffer. */
  lemma FlushWrites(s: State, reaction: Reaction)
    requires s.status == Connected && s.outbound != []
    ensures var w := WriteAll(s.departures, |s.outbound|);
            var (ret, t) := SendMsg(s, reaction, false);
            if w.ret < 0 then
              && ret == (if w.errno == WouldBlock then 0 else -1)
              && WroteOnce(s, t, w) && t.status == Connected
              && t.watched == s.watched && t.closeNotices == s.closeNotices
            else
              && ret >= 0
              && s.accepted + s.outbound[..w.taken] <= t.accepted && s.reports + [w.ret] <= t.reports
              && (Silent(reaction) ==> WroteOnce(s, t, w))
              && (KeepsOpen(reaction) ==> t.status == Connected && t.closeNotices == s.closeNotices)
              && (t.writeEnabled <==> t.outbound != [])
  {
    hide WriteAll, Perform;
    var w := WriteAll(s.departures, |s.outbound|);
    if w.ret >= 0 {
      var u := Write(s).(reports := s.reports + [w.ret]);
      PerformGoesOn(u, reaction);
      if Silent(reaction) {
        SilentPerform(u, reaction, false);
      }
      if KeepsOpen(reaction) {
        Undisturbed(u, reaction);
      }
    }
  }

  lemma Undisturbed(s: State, reaction: Reaction)
    requires KeepsOpen(reaction)
    ensures Perform(s, reaction, false) == s && Silent(reaction)
  {
  }

  /**
   Writable, whatever the other bits, unless the read part met the end: one call of
   writeFd on the whole buffer. If the kernel asks to wait the connection stays as
   it is; if the call fails for another reason the connection closes, with one
   notice; if it succeeds the callback is told how much was written.
   */
  lemma WritableWrites(app: Callbacks, s: State, mask: Mask, reaction: Reaction)
    requires Progressing(app) && s.status == Connected && 1 in mask && 3 !in mask && 4 !in mask
    requires 0 in mask ==> Pauses(Drain(s.arrivals).ending)
    requires s.outbound != []
    ensures var w := WriteAll(s.departures, |s.outbound|);
            var t := HandleEvent(app, s, mask, reaction, false);
            if w.ret < 0 then
              && WroteOnce(s, t, w)
              && if w.errno == WouldBlock
                 then t.status == Connected && t.watched == s.watched && t.closeNotices == s.closeNotices
                 else t.status == Disconnecting && t.watched == None && t.closeNotices == s.closeNotices + 1
            else
              && s.accepted + s.outbound[..w.taken] <= t.accepted && s.reports + [w.ret] <= t.reports
              && (Silent(reaction) ==> WroteOnce(s, t, w))
              && (KeepsOpen(reaction) ==> t.status == Connected && t.closeNotices == s.closeNotices)
              && (t.writeEnabled <==> t.outbound != [])
  {
    hide WriteAll, Drain, SendMsg, Session.ReadMsg, Silent;
    Bits(mask);
    var s1 := s;
    if 0 in mask {
      ReadOutcome(app, s);
      ReadSucceeds(app, s);
      s1 := Session.ReadMsg(app, s).1;
    }
    FlushWrites(s1, reaction);
  }

  lemma ReadSucceeds(app: Callbacks, s: State)
    requires Progressing(app) && Pauses(Drain(s.arrivals).ending)
    ensures Session.ReadMsg(app, s).0 >= 0
  {
    hide Drain, Parse;
  }

  /** Writable with nothing to write: at most the interest in writing goes. */
  lemma WritableIdles(app: Callbacks, s: State, mask: Mask, reaction: Reaction)
    requires Progressing(app) && s.status == Connected && 1 in mask && 3 !in mask && 4 !in mask
    requires 0 in mask ==> Pauses(Drain(s.arrivals).ending)
    requires s.outbound == []
    ensures var t := HandleEvent(app, s, mask, reaction, false);
            SameWriteSide(s, t) && t.status == Connected && t.closeNotices == s.closeNotices && !t.writeEnabled
  {
    hide Drain, Session.ReadMsg;
    Bits(mask);
    if 0 in mask {
      ReadOutcome(app, s);
      ReadSucceeds(app, s);
    }
  }

  predicate SameWriteSide(s: State, t: State) {
    && t.departures == s.departures && t.accepted == s.accepted && t.outbound == s.outbound
    && t.appended == s.appended && t.torn == s.torn && t.reports == s.reports
  }

  /** Not writable: nothing is written, and without an error or the end of the stream the connection lives. */
  lemma OthersDoNotWrite(app: Callbacks, s: State, mask: Mask, reaction: Reaction)
    requires Progressing(app) && s.status == Connected && 1 !in mask
    ensures var t := HandleEvent(app, s, mask, reaction, false);
            && SameWriteSide(s, t) && t.writeEnabled == s.writeEnabled
            && (3 !in mask && 4 !in mask && (0 in mask ==> Pauses(Drain(s.arrivals).ending)) ==>
                  t.status == Connected && t.watched == s.watched && t.closeNotices == s.closeNotices)
  {
    hide Drain, Session.ReadMsg;
    Bits(mask);
    ReadOutcome(app, s);
    if 0 in mask && Pauses(Drain(s.arrivals).ending) {
      ReadSucceeds(app, s);
    }
  }

  // ---------- both parts together

  /** Closed by this event, with one notice. */
  predicate ClosedNow(s: State, t: State) {
    t.status != Connected && t.watched == None && t.closeNotices == s.closeNotices + 1
  }

  predicate StillOpen(s: State, t: State) {
    t.status == Connected && t.closeNotices == s.closeNotices
  }

  /** What the read part leaves behind: everything there is is taken, and parsed unless it came with the end. */
  ghost predicate ReadAll(app: Callbacks, s: State, t: State)
    requires Progressing(app)
  {
    var d := Drain(s.arrivals);
    && t.arrivals == d.rest
    && if d.bytes == [] || !Pauses(d.ending) then
         t.inbound == s.inbound + d.bytes && t.committed == s.committed && t.calls == s.calls
       else
         var p := Parse(app, s.calls, s.inbound + d.bytes);
         t.inbound == p.rest && t.committed == s.committed + p.messages && t.calls == p.calls
  }

  predicate SameReads(s: State, t: State) {
    t.inbound == s.inbound && t.arrivals == s.arrivals && t.calls == s.calls && t.committed == s.committed
  }

  /** What one call of writeFd for the whole buffer and the callback after it leave behind. */
  predicate Wrote(s: State, t: State, reaction: Reaction) {
    if s.outbound == [] then SameWriteSide(s, t) && StillOpen(s, t) && !t.writeEnabled
    else
      var w := WriteAll(s.departures, |s.outbound|);
      if w.ret < 0 then
        && WroteOnce(s, t, w)
        && if w.errno == WouldBlock then StillOpen(s, t) && t.watched == s.watched else ClosedNow(s, t)
      else
        && s.accepted + s.outbound[..w.taken] <= t.accepted && s.reports + [w.ret] <= t.reports
        && (Silent(reaction) ==> WroteOnce(s, t, w))
        && (KeepsOpen(reaction) ==> StillOpen(s, t))
        && (t.writeEnabled <==> t.outbound != [])
  }

  /** The handler of an event, by the bits of its mask. */
  ghost predicate Lawful(app: Callbacks, s: State, t: State, mask: Mask, reaction: Reaction)
    requires Progressing(app)
  {
    if 3 in mask || 4 in mask then SameReads(s, t) && SameWriteSide(s, t) && ClosedNow(s, t)
    else
      var ends := 0 in mask && !Pauses(Drain(s.arrivals).ending);
      && (if 0 in mask then ReadAll(app, s, t) else SameReads(s, t))
      && (if 1 in mask && !ends then Wrote(s, t, reaction) else SameWriteSide(s, t))
      && (ends ==> ClosedNow(s, t))
      && (1 !in mask && !ends ==> StillOpen(s, t) && t.watched == s.watched && t.writeEnabled == s.writeEnabled)
  }

  lemma EventIsLawful(app: Callbacks, s: State, mask: Mask, reaction: Reaction)
    requires Progressing(app) && s.status == Connected
    ensures Lawful(app, s, HandleEvent(app, s, mask, reaction, false), mask, reaction)
  {
    hide HandleEvent, Drain, Parse, WriteAll, Silent, KeepsOpen;
    if 3 in mask || 4 in mask {
      ErrorCloses(app, s, mask, reaction);
    } else if 0 in mask && !Pauses(Drain(s.arrivals).ending) {
      EndCloses(app, s, mask, reaction);
    } else {
      ReadsLawfully(app, s, mask, reaction);
      WritesLawfully(app, s, mask, reaction);
    }
  }

  lemma ReadsLawfully(app: Callbacks, s: State, mask: Mask, reaction: Reaction)
    requires Progressing(app) && s.status == Connected && 3 !in mask && 4 !in mask
    requires 0 in mask ==> Pauses(Drain(s.arrivals).ending)
    ensures var t := HandleEvent(app, s, mask, reaction, false);
            if 0 in mask then ReadAll(app, s, t) else SameReads(s, t)
  {
    hide HandleEvent, Drain, Parse;
    if 0 in mask {
      ReadableReads(app, s, mask, reaction);
      assert s.inbound + [] == s.inbound;
    } else {
      OthersDoNotRead(app, s, mask, reaction);
    }
  }

  lemma WritesLawfully(app: Callbacks, s: State, mask: Mask, reaction: Reaction)
    requires Progressing(app) && s.status == Connected && 3 !in mask && 4 !in mask
    requires 0 in mask ==> Pauses(Drain(s.arrivals).ending)
    ensures var t := HandleEvent(app, s, mask, reaction, false);
            if 1 in mask then Wrote(s, t, reaction)
            else SameWriteSide(s, t) && StillOpen(s, t) && t.watched == s.watched && t.writeEnabled == s.writeEnabled
  {
    hide HandleEvent, Drain, WriteAll, Silent, KeepsOpen;
    if 1 !in mask {
      OthersDoNotWrite(app, s, mask, reaction);
    } else if s.outbound == [] {
      WritableIdles(app, s, mask, reaction);
    } else {
      WritableWrites(app, s, mask, reaction);
    }
  }

  /** Whether a closed connection has been marked closed makes no difference. */
  lemma MarkedClosed(app: Callbacks, s: State, t: State, mask: Mask, reaction: Reaction)
    requires Progressing(app) && Lawful(app, s, t, mask, reaction) && t.status != Connected
    ensures Lawful(app, s, t.(status := Disconnected), mask, reaction)
  {
    hide Parse, Drain, WriteAll, Silent, KeepsOpen;
  }

  lemma MarkedClosedToo(s: State, t: State, msg: Bytes, reaction: Reaction)
    requires Answered(s, t, msg, reaction) && t.status != Connected
    ensures Answered(s, t.(status := Disconnected), msg, reaction)
  {
    hide WriteAll, Silent, KeepsOpen;
  }

  /** A response for a live connection: all of it goes behind what is waiting, and one write call is made. */
  predicate Answered(s: State, t: State, msg: Bytes, reaction: Reaction) {
    && s.appended + msg <= t.appended
    && (Silent(reaction) ==> t.appended == s.appended + msg)
    && SameReads(s, t)
    && var u := s.(outbound := s.outbound + msg, appended := s.appended + msg);
       if u.outbound == [] then SameWriteSide(u, t) && StillOpen(u, t) && !t.writeEnabled
       else
         var w := WriteAll(u.departures, |u.outbound|);
         if w.ret < 0 then WroteOnce(u, t, w) && StillOpen(u, t) && t.watched == s.watched
         else
           && u.accepted + u.outbound[..w.taken] <= t.accepted && u.reports + [w.ret] <= t.reports
           && (Silent(reaction) ==> WroteOnce(u, t, w))
           && (KeepsOpen(reaction) ==> StillOpen(u, t))
           && (t.writeEnabled <==> t.outbound != [])
  }

  lemma AppendedGrows(s: State, reaction: Reaction)
    ensures s.appended <= SendMsg(s, reaction, false).1.appended
  {
    var p := (t: State) => s.appended <= t.appended;
    FlushKeeps(p, s, reaction, false);
  }

  lemma ResponseIsAnswered(s: State, msg: Bytes, reaction: Reaction)
    requires s.status == Connected
    ensures Answered(s, Session.Send(s, msg, reaction, false), msg, reaction)
  {
    hide SendMsg, WriteAll, Silent, KeepsOpen;
    var u := Put(s, msg);
    AppendedGrows(u, reaction);
    FlushIsStable(u, reaction);
    if Silent(reaction) {
      SilentFlush(u, reaction, false);
    }
    if u.outbound == [] {
      NothingToFlush(u, reaction);
    } else {
      FlushWrites(u, reaction);
    }
  }

  // ---------- interest in events

  /** An event leaves a connection that lives watched for reading, and for writing where it says so. */
  lemma EventKeepsInterest(app: Callbacks, s: State, mask: Mask, reaction: Reaction)
    requires Progressing(app) && Interest(s)
    ensures Interest(HandleEvent(app, s, mask, reaction, false))
  {
    hide HandleEvent, Session.Run, Interest;
    EventIsARun(app, s, mask, reaction, false);
    var flush := Flush(reaction);
    InterestRun(app, s, [Close], false);
    InterestRun(app, s, [Read], false);
    InterestRun(app, s, [Read, Close], false);
    InterestRun(app, s, [flush], false);
    InterestRun(app, s, [flush, Close], false);
    InterestRun(app, s, [Read, flush], false);
    InterestRun(app, s, [Read, flush, Close], false);
  }

  lemma SendKeepsInterest(s: State, msg: Bytes, reaction: Reaction)
    requires Interest(s)
    ensures Interest(Session.Send(s, msg, reaction, false))
  {
    hide SendMsg, Interest;
    var p := (t: State) => InterestFor(t, false);
    InterestKept(false);
    assert Do(s, Appends(msg), false) == Put(s, msg);
    assert p(Put(s, msg));
    FlushKeeps(p, Put(s, msg), reaction, false);
  }

  /** A connection that lives through an event was not reported closed. */
  lemma LiveUnnoticed(app: Callbacks, s: State, mask: Mask, reaction: Reaction)
    requires Progressing(app) && s.status == Connected
    ensures var t := HandleEvent(app, s, mask, reaction, false);
            t.status == Connected ==> t.closeNotices == s.closeNotices
  {
    hide Session.ReadMsg, SendMsg;
    var p := (t: State) => t.status == Connected ==> t.closeNotices == s.closeNotices;
    ReadOutcome(app, s);
    var s1 := Session.ReadMsg(app, s).1;
    FlushKeeps(p, s, reaction, false);
    FlushKeeps(p, s1, reaction, false);
  }

  /**
   The interest in writing after a flush whose write call did not fail, with a
   callback that does nothing: what is left arms the write event once; when nothing
   is left of an armed one every bit of the mask is set; otherwise the mask stays.
   */
  lemma InterestAfterFlush(s: State, reaction: Reaction)
    requires s.status == Connected && s.watched.Some? && KeepsOpen(reaction)
    requires s.outbound != [] ==> WriteAll(s.departures, |s.outbound|).ret >= 0
    ensures var t := SendMsg(s, reaction, false).1;
            && t.watched.Some?
            && if t.outbound != [] && !s.writeEnabled then
                 forall b :: b in t.watched.value <==> b in s.watched.value || b == 1
               else if t.outbound == [] && s.writeEnabled && 1 in s.watched.value then
                 forall b: nat :: b in t.watched.value <==> b < 32
               else t.watched == s.watched
  {
    hide WriteAll;
    Undisturbed(s, reaction);
    Bits(s.watched.value);
    if 1 in s.watched.value {
      forall b: nat ensures b in Cleared(s.watched.value, XE_WRITABLE, false) <==> b < 32 {
        assert b < 32 ==> IsBit(b);
      }
    }
  }

  // ---------- what a callback sends

  /** Callbacks that do nothing of their own when one of these sends is flushed. */
  predicate Flat(reaction: Reaction) {
    match reaction
    case Sends(_, inner, next) => KeepsOpen(inner) && Flat(next)
    case Closes(next) => Flat(next)
    case _ => true
  }

  /** What it sends before it closes the connection. */
  function SentBeforeClose(reaction: Reaction): Bytes {
    match reaction
    case Sends(msg, _, next) => msg + SentBeforeClose(next)
    case _ => []
  }

  predicate NeverCloses(reaction: Reaction) {
    match reaction
    case Sends(_, _, next) => NeverCloses(next)
    case Closes(_) => false
    case _ => true
  }

  /** Everything the callback sends is appended, in order, until it closes the connection, and nothing after that. */
  lemma {:induction false} CallbackSends(s: State, reaction: Reaction)
    requires Flat(reaction)
    ensures var t := Perform(s, reaction, false);
            && t.appended == s.appended + (if s.status == Connected then SentBeforeClose(reaction) else [])
            && (t.status == Connected <==> s.status == Connected && NeverCloses(reaction))
    decreases reaction
  {
    hide Session.Send;
    match reaction {
      case Quiet => assert s.appended + [] == s.appended;
      case Throws => assert s.appended + [] == s.appended;
      case Closes(next) =>
        assert s.appended + [] == s.appended;
        CallbackSends(CloseConn(s), next);
      case Sends(msg, inner, next) =>
        QuietSend(s, msg, inner);
        CallbackSends(Session.Send(s, msg, inner, false), next);
        if s.status == Connected {
          Associate(s.appended, msg, SentBeforeClose(next));
        }
    }
  }

  lemma QuietSend(s: State, msg: Bytes, reaction: Reaction)
    requires KeepsOpen(reaction)
    ensures var t := Session.Send(s, msg, reaction, false);
            t.status == s.status && t.appended == s.appended + if s.status == Connected then msg else []
  {
    hide WriteAll, SendMsg;
    if s.status == Connected {
      var u := Put(s, msg);
      Undisturbed(u, reaction);
      if u.outbound == [] {
        NothingToFlush(u, reaction);
      } else {
        FlushWrites(u, reaction);
      }
    } else {
      assert s.appended + [] == s.appended;
    }
  }

  lemma NothingToFlush(s: State, reaction: Reaction)
    requires s.status == Connected && s.outbound == []
    ensures var t := SendMsg(s, reaction, false).1;
            t == s.(watched := t.watched, writeEnabled := false)
  {
  }

  // ---------- series of events

  datatype Event = Event(mask: Mask, reaction: Reaction)

  /** Events in a row; the loop has none for a connection that is not registered. */
  ghost function Handled(app: Callbacks, s: State, events: seq<Event>): State
    requires Progressing(app)
    decreases |events|
  {
    if events == [] || s.status != Connected then s
    else Handled(app, HandleEvent(app, s, events[0].mask, events[0].reaction, false), events[1..])
  }

  lemma ClosedStays(app: Callbacks, s: State, events: seq<Event>)
    requires Progressing(app)
    ensures s.status != Connected ==> Handled(app, s, events) == s
  {
  }

  /** How many of the events have this bit set. */
  function Having(events: seq<Event>, bit: nat): nat {
    if events == [] then 0 else (if bit in events[0].mask then 1 else 0) + Having(events[1..], bit)
  }

  /** No event has this bit set. */
  predicate Lacks(events: seq<Event>, bit: nat) {
    forall e :: e in events ==> bit !in e.mask
  }

  predicate AllSilent(events: seq<Event>) {
    forall e :: e in events ==> Silent(e.reaction)
  }

  /** No error, no hang-up, and no reading of the end of the stream. */
  predicate Orderly(events: seq<Event>, arrivals: seq<Arrival>) {
    Lacks(events, 3) && Lacks(events, 4) && (Lacks(events, 0) || Ongoing(arrivals))
  }

  lemma OrderlyRest(app: Callbacks, s: State, events: seq<Event>)
    requires Progressing(app) && events != [] && s.status == Connected && Orderly(events, s.arrivals)
    ensures 3 !in events[0].mask && 4 !in events[0].mask
    ensures 0 in events[0].mask ==> Pauses(Drain(s.arrivals).ending)
    ensures Orderly(events[1..], HandleEvent(app, s, events[0].mask, events[0].reaction, false).arrivals)
  {
    hide HandleEvent, Drain;
    var e, rest := events[0], events[1..];
    assert e in events && forall x :: x in rest ==> x in events;
    if 0 in e.mask {
      DrainStream(s.arrivals);
      ReadableReads(app, s, e.mask, e.reaction);
    } else {
      OthersDoNotRead(app, s, e.mask, e.reaction);
    }
  }

  /** A connection that lives through an event met no error and no end of the stream. */
  lemma LivesOn(app: Callbacks, s: State, mask: Mask, reaction: Reaction)
    requires Progressing(app) && s.status == Connected
    requires HandleEvent(app, s, mask, reaction, false).status == Connected
    ensures 3 !in mask && 4 !in mask && (0 in mask ==> Pauses(Drain(s.arrivals).ending))
  {
    hide HandleEvent, Drain;
    if 3 in mask || 4 in mask {
      ErrorCloses(app, s, mask, reaction);
    } else if 0 in mask && !Pauses(Drain(s.arrivals).ending) {
      EndCloses(app, s, mask, reaction);
    }
  }

  /** With an empty buffer and callbacks that send nothing, nothing more is written. */
  lemma {:induction false} StaysEmpty(app: Callbacks, s: State, events: seq<Event>)
    requires Progressing(app) && AllSilent(events) && s.outbound == []
    ensures Handled(app, s, events).outbound == [] && Handled(app, s, events).accepted == s.accepted
    decreases |events|
  {
    hide HandleEvent, Silent;
    if events == [] || s.status != Connected {
    } else {
      var e, rest := events[0], events[1..];
      assert forall x :: x in rest ==> x in events;
      IdleEvent(app, s, e.mask, e.reaction);
      StaysEmpty(app, HandleEvent(app, s, e.mask, e.reaction, false), rest);
    }
  }

  lemma IdleEvent(app: Callbacks, s: State, mask: Mask, reaction: Reaction)
    requires Progressing(app) && s.status == Connected && s.outbound == []
    ensures SameWriteSide(s, HandleEvent(app, s, mask, reaction, false))
  {
    hide HandleEvent, Drain;
    if 1 !in mask {
      OthersDoNotWrite(app, s, mask, reaction);
    } else if 3 in mask || 4 in mask {
      ErrorCloses(app, s, mask, reaction);
    } else if 0 in mask && !Pauses(Drain(s.arrivals).ending) {
      EndCloses(app, s, mask, reaction);
    } else {
      WritableIdles(app, s, mask, reaction);
    }
  }

  /** What the kernel has from `t` on top of what it had from `s`: all of the buffer, and exactly once if so. */
  predicate Delivered(s: State, t: State) {
    && t.outbound == []
    && |t.accepted| >= |s.accepted| + |s.outbound|
    && (t.accepted == s.accepted + s.outbound <==> AllOrNothing(s.departures, |s.outbound|))
  }

  /** One writable event with a kernel that only ever asks to wait. */
  lemma WillingWrite(app: Callbacks, s: State, mask: Mask, reaction: Reaction)
    requires Progressing(app) && s.status == Connected && 1 in mask && 3 !in mask && 4 !in mask
    requires 0 in mask ==> Pauses(Drain(s.arrivals).ending)
    requires Willing(s.departures) && s.outbound != [] && Silent(reaction)
    ensures var n := Offer(s.departures);
            var t := HandleEvent(app, s, mask, reaction, false);
            if n >= |s.outbound| then t.outbound == [] && t.accepted == s.accepted + s.outbound
            else
              && t.status == Connected && t.outbound == s.outbound && t.departures == Behind(s.departures)
              && t.accepted == s.accepted + s.outbound[..n]
  {
    hide HandleEvent, Drain, WriteAll, Silent;
    WriteCallIff(s.departures, |s.outbound|);
    WritableWrites(app, s, mask, reaction);
    assert s.outbound[..|s.outbound|] == s.outbound;
  }

  /**
   The kernel at some time takes as much as is buffered without asking to wait, and
   the callbacks send nothing themselves. Then, in any series of events, once more
   of them were writable than the kernel has answers, the buffer is empty; every
   octet was taken once and in order exactly when the kernel took nothing in the
   stretches before. This holds if the connection is still connected, and also if a
   callback closed it.
   */
  lemma {:induction false} ArmedDelivers(app: Callbacks, s: State, events: seq<Event>)
    requires Progressing(app) && s.status == Connected && AllSilent(events)
    requires Willing(s.departures) && s.outbound != [] && Reaches(s.departures, |s.outbound|)
    requires Having(events, 1) > |s.departures|
    ensures var t := Handled(app, s, events);
            t.status == Connected || Orderly(events, s.arrivals) ==> Delivered(s, t)
    decreases |events|
  {
    hide HandleEvent, Drain, Silent, Orderly, Willing;
    var e, rest := events[0], events[1..];
    var u, t := HandleEvent(app, s, e.mask, e.reaction, false), Handled(app, s, events);
    assert e in events && forall x :: x in rest ==> x in events;
    if t.status == Connected || Orderly(events, s.arrivals) {
      if Orderly(events, s.arrivals) {
        OrderlyRest(app, s, events);
      } else {
        LivesOn(app, s, e.mask, e.reaction);
      }
      if 1 !in e.mask {
        OthersDoNotWrite(app, s, e.mask, e.reaction);
        ArmedDelivers(app, u, rest);
      } else {
        WillingWrite(app, s, e.mask, e.reaction);
        if Offer(s.departures) >= |s.outbound| {
          StaysEmpty(app, u, rest);
        } else {
          WillingBehind(s.departures);
          ArmedDelivers(app, u, rest);
          TakenBefore(s, u, t);
        }
      }
    }
  }

  /** What is delivered after a stretch in which the kernel took a part. */
  lemma TakenBefore(s: State, u: State, t: State)
    requires s.outbound != [] && Offer(s.departures) < |s.outbound| && s.departures != []
    requires u.outbound == s.outbound && u.departures == Behind(s.departures)
    requires u.accepted == s.accepted + s.outbound[..Offer(s.departures)] && Delivered(u, t)
    ensures Delivered(s, t)
  {
    if Offer(s.departures) == 0 {
      assert u.accepted == s.accepted;
    } else {
      assert |t.accepted| > |s.accepted + s.outbound|;
    }
  }
}
