/**
 The read side of a connection over whole runs (net/connection.cpp): the cuts
 and pauses the network puts into a stream, and what becomes of the octets that
 arrive together with the end of it.
 */
module Reading {
  import opened Bytes
  import opened Kernel
  import opened Framing
  import opened EventLoop
  import opened Statuses
  import opened Events
  import Session

  type State = Session.State

  /** Nothing complete is waiting in the read buffer. */
  ghost predicate NothingWaiting(app: Callbacks, s: State)
    requires Progressing(app)
  {
    Parse(app, s.calls, s.inbound).messages == [] && Parse(app, s.calls, s.inbound).rest == s.inbound
  }

  ghost function Whole(app: Callbacks, s: State): Parsed
    requires Progressing(app)
  {
    Parse(app, s.calls, s.inbound + Stream(s.arrivals))
  }

  /**
   `t` is a later state of the connection `s` was. While it lives, what is
   committed, buffered and still to arrive makes up the stream `s` expected;
   once closed, what it committed is a prefix of the messages of that stream.
   */
  ghost predicate InStep(app: Callbacks, s: State, t: State)
    requires Progressing(app)
  {
    if t.status == Connected then
      && NothingWaiting(app, t)
      && t.committed + Whole(app, t).messages == s.committed + Whole(app, s).messages
      && Whole(app, t).rest == Whole(app, s).rest
    else
      t.committed <= s.committed + Whole(app, s).messages
  }

  lemma InStepPrefix(app: Callbacks, s: State, t: State)
    requires Progressing(app) && InStep(app, s, t)
    ensures t.committed <= s.committed + Whole(app, s).messages
  {
  }

  lemma StreamStep(app: Callbacks, k: nat, j: nat, committed: seq<Bytes>, inbound: Bytes, bytes: Bytes, later: Bytes)
    requires Framed(app)
    ensures var p := Parse(app, k, inbound + bytes);
            var q := Parse(app, j, p.rest + later);
            var whole := Parse(app, k, inbound + (bytes + later));
            committed + whole.messages == (committed + p.messages) + q.messages && whole.rest == q.rest
  {
    hide Progressing, Parse, Framed;
    var p := Parse(app, k, inbound + bytes);
    ParseExtends(app, k, j, k, inbound + bytes, later);
    Associate(inbound, bytes, later);
    Associate(committed, p.messages, Parse(app, j, p.rest + later).messages);
  }

  /** One readMsg call that does not meet the end commits what one parse of the enlarged buffer does. */
  lemma ReadCommits(app: Callbacks, s: State)
    requires Framed(app) && NothingWaiting(app, s) && Pauses(Drain(s.arrivals).ending)
    ensures var (ret, t) := Session.ReadMsg(app, s);
            var d := Drain(s.arrivals);
            var p := Parse(app, s.calls, s.inbound + d.bytes);
            && ret >= 0 && t.arrivals == d.rest && t.status == s.status
            && t.committed == s.committed + p.messages && t.inbound == p.rest
            && NothingWaiting(app, t)
  {
    hide Progressing, Parse, Framed, Drain;
    var d := Drain(s.arrivals);
    var t := Session.ReadMsg(app, s).1;
    if d.bytes == [] {
      assert s.inbound + d.bytes == s.inbound;
    }
    ParseSettles(app, s.calls, t.calls, s.inbound + d.bytes);
  }

  lemma ReadKeepsStep(app: Callbacks, s: State, t: State)
    requires Framed(app) && InStep(app, s, t) && t.status == Connected && Pauses(Drain(t.arrivals).ending)
    ensures Session.ReadMsg(app, t).0 >= 0 && InStep(app, s, Session.ReadMsg(app, t).1)
  {
    hide Progressing, Parse, Framed, Drain, Stream, Session.ReadMsg, NothingWaiting;
    var d := Drain(t.arrivals);
    var u := Session.ReadMsg(app, t).1;
    DrainStream(t.arrivals);
    ReadCommits(app, t);
    StreamStep(app, t.calls, u.calls, t.committed, t.inbound, d.bytes, Stream(d.rest));
  }

  lemma StepIsStable(app: Callbacks, s: State, t: State, u: State)
    requires Progressing(app) && InStep(app, s, t) && Session.SameReadSide(t, u)
    ensures InStep(app, s, u)
  {
    hide Parse, Stream;
  }

  /** What readMsg keeps while the stream goes on, and the write side does not touch, every event keeps. */
  lemma EventKeeps(p: State -> bool, app: Callbacks, t: State, mask: Mask, reaction: Session.Reaction)
    requires Progressing(app) && p(t) && t.status == Connected
    requires forall u: State, v: State :: p(u) && Session.SameReadSide(u, v) ==> p(v)
    requires forall u: State, v: State :: p(u) && ClosedAlike(u, v) ==> p(v)
    requires Pauses(Drain(t.arrivals).ending) ==> Session.ReadMsg(app, t).0 >= 0 && p(Session.ReadMsg(app, t).1)
    ensures p(Session.HandleEvent(app, t, mask, reaction, false))
  {
    hide Drain, Session.ReadMsg, Session.SendMsg;
    var (read, s1) := if mask * XE_READABLE != {} then Session.ReadMsg(app, t) else (0, t);
    assert Session.SameReadSide(t, Session.CloseConn(t));
    if mask * XE_READABLE != {} && !Pauses(Drain(t.arrivals).ending) {
      EndedRead(app, t);
      assert ClosedAlike(Session.CloseConn(t), Session.CloseConn(s1));
    } else {
      Session.FlushIsStable(s1, reaction);
      var s2 := Session.SendMsg(s1, reaction, false).1;
      assert p(s1) && p(s2);
      assert Session.SameReadSide(s2, Session.CloseConn(s2));
    }
  }

  /** Both closed, having committed the same. */
  predicate ClosedAlike(u: State, v: State) {
    u.status != Connected && v.status != Connected && v.committed == u.committed
  }

  /** Whatever event comes and whatever the callback does, the connection stays in step. */
  lemma EventKeepsStep(app: Callbacks, s: State, t: State, mask: Mask, reaction: Session.Reaction)
    requires Framed(app) && InStep(app, s, t) && t.status == Connected
    ensures InStep(app, s, Session.HandleEvent(app, t, mask, reaction, false))
  {
    hide Progressing, Framed, InStep, Drain, Session.ReadMsg;
    var p := (u: State) => InStep(app, s, u);
    forall u: State, v: State | p(u) && Session.SameReadSide(u, v) ensures p(v) {
      StepIsStable(app, s, u, v);
    }
    forall u: State, v: State | p(u) && ClosedAlike(u, v) ensures p(v) {
      CommittedDecides(app, s, u, v);
    }
    if Pauses(Drain(t.arrivals).ending) {
      ReadKeepsStep(app, s, t);
    }
    EventKeeps(p, app, t, mask, reaction);
  }

  lemma CommittedDecides(app: Callbacks, s: State, t: State, u: State)
    requires Progressing(app) && InStep(app, s, t) && t.status != Connected && u.status != Connected
    requires u.committed == t.committed
    ensures InStep(app, s, u)
  {
  }

  /** A readMsg call that meets the end commits nothing, buffers what it received and asks for the close. */
  lemma EndedRead(app: Callbacks, s: State)
    requires Progressing(app) && !Pauses(Drain(s.arrivals).ending)
    ensures var d := Drain(s.arrivals);
            var (ret, t) := Session.ReadMsg(app, s);
            ret == -1 && t == s.(arrivals := d.rest, inbound := s.inbound + d.bytes)
  {
    hide Drain;
    assert s.committed + [] == s.committed;
  }

  // ---------- octets

  /** `all` is what was committed, is buffered and is still to arrive; once closed, what was committed begins it. */
  predicate Conserves(all: Bytes, t: State) {
    if t.status == Connected then Join(t.committed) + (t.inbound + Stream(t.arrivals)) == all
    else Join(t.committed) <= all
  }

  lemma ConservesPrefix(all: Bytes, t: State)
    requires Conserves(all, t)
    ensures Join(t.committed) <= all
  {
  }

  lemma ReadConserves(app: Callbacks, all: Bytes, t: State)
    requires ErrorFree(app) && Conserves(all, t) && t.status == Connected && Pauses(Drain(t.arrivals).ending)
    ensures Session.ReadMsg(app, t).0 >= 0 && Conserves(all, Session.ReadMsg(app, t).1)
  {
    hide Progressing, ErrorFree, Parse, Drain, Join, Stream;
    var d := Drain(t.arrivals);
    var p := ReadEvent(app, t.calls, t.inbound, d.bytes);
    DrainStream(t.arrivals);
    ParseConserves(app, t.calls, t.inbound + d.bytes);
    JoinAppend(t.committed, p.messages);
    if d.bytes == [] {
      NothingJoined(t.inbound);
    }
    Associate(Join(p.messages), p.rest, Stream(d.rest));
    Associate(t.inbound, d.bytes, Stream(d.rest));
    assert Join(p.messages) + (p.rest + Stream(d.rest)) == t.inbound + Stream(t.arrivals);
    Associate(Join(t.committed), Join(p.messages), p.rest + Stream(d.rest));
  }

  lemma NothingJoined(b: Bytes)
    ensures Join([]) + b == b && b + [] == b
  {
  }

  /** With a decoder that never clears the buffer no event loses, adds or moves an octet. */
  lemma EventConserves(app: Callbacks, all: Bytes, t: State, mask: Mask, reaction: Session.Reaction)
    requires ErrorFree(app) && Conserves(all, t) && t.status == Connected
    ensures Conserves(all, Session.HandleEvent(app, t, mask, reaction, false))
  {
    hide Progressing, ErrorFree, Drain, Session.ReadMsg;
    var p := (u: State) => Conserves(all, u);
    forall u: State, v: State | p(u) && Session.SameReadSide(u, v) ensures p(v) {
    }
    forall u: State, v: State | p(u) && ClosedAlike(u, v) ensures p(v) {
    }
    if Pauses(Drain(t.arrivals).ending) {
      ReadConserves(app, all, t);
    }
    EventKeeps(p, app, t, mask, reaction);
  }

  // ---------- events in a row

  /** What a read event takes and commits, when it is not the last, against the stream as a whole. */
  lemma ReadProgress(app: Callbacks, s: State, mask: Mask, reaction: Session.Reaction)
    requires Framed(app) && NothingWaiting(app, s) && s.status == Connected
    requires 0 in mask && 3 !in mask && 4 !in mask && Pauses(Drain(s.arrivals).ending)
    ensures var d := Drain(s.arrivals);
            var t := Session.HandleEvent(app, s, mask, reaction, false);
            var p := Parse(app, s.calls, s.inbound + d.bytes);
            && t.arrivals == d.rest && t.committed == s.committed + p.messages && t.inbound == p.rest
            && NothingWaiting(app, t)
  {
    hide Progressing, Parse, Framed, Drain, Session.HandleEvent;
    var d := Drain(s.arrivals);
    var t := Session.HandleEvent(app, s, mask, reaction, false);
    ReadableReads(app, s, mask, reaction);
    if d.bytes == [] {
      assert s.inbound + d.bytes == s.inbound;
      NothingMore(app, s);
    }
    ParseSettles(app, s.calls, t.calls, s.inbound + d.bytes);
  }

  lemma SkipKeepsWaiting(app: Callbacks, s: State, t: State)
    requires Progressing(app) && NothingWaiting(app, s) && Session.SameReadSide(s, t)
    ensures NothingWaiting(app, t) && Whole(app, t) == Whole(app, s)
  {
  }

  /**
   Any series of events with enough readable ones among them, whatever their other
   bits and the callbacks: a connection that lives through it has committed the
   messages of the stream and keeps its incomplete end, whatever cuts and pauses the
   network put into the stream.
   */
  lemma {:induction false} StreamCommitted(app: Callbacks, s: State, events: seq<Event>)
    requires Framed(app) && NothingWaiting(app, s) && Ongoing(s.arrivals) && Having(events, 0) >= |s.arrivals|
    ensures var t := Handled(app, s, events);
            t.status == Connected ==>
              t.arrivals == [] && t.committed == s.committed + Whole(app, s).messages && t.inbound == Whole(app, s).rest
    decreases |events|
  {
    hide Progressing, Parse, Framed, Drain, NothingWaiting, Session.HandleEvent;
    if events == [] {
      assert s.inbound + [] == s.inbound;
      NothingMore(app, s);
    } else if Handled(app, s, events).status == Connected {
      var e := events[0];
      var t := Session.HandleEvent(app, s, e.mask, e.reaction, false);
      ClosedStays(app, t, events[1..]);
      LivesOn(app, s, e.mask, e.reaction);
      if 0 in e.mask {
        var d := Drain(s.arrivals);
        DrainStream(s.arrivals);
        ReadProgress(app, s, e.mask, e.reaction);
        StreamStep(app, s.calls, t.calls, s.committed, s.inbound, d.bytes, Stream(d.rest));
      } else {
        OthersDoNotRead(app, s, e.mask, e.reaction);
        SkipKeepsWaiting(app, s, t);
      }
      StreamCommitted(app, t, events[1..]);
    }
  }

  /** Without an error, a hang-up or a writable event the connection does live through it. */
  lemma {:induction false} LivesThrough(app: Callbacks, s: State, events: seq<Event>)
    requires Progressing(app) && s.status == Connected && Ongoing(s.arrivals)
    requires Lacks(events, 1) && Lacks(events, 3) && Lacks(events, 4)
    ensures Handled(app, s, events).status == Connected
    decreases |events|
  {
    hide Session.HandleEvent, Drain;
    if events == [] {
    } else {
      var e := events[0];
      assert e in events && forall x :: x in events[1..] ==> x in events;
      DrainStream(s.arrivals);
      OthersDoNotWrite(app, s, e.mask, e.reaction);
      if 0 in e.mask {
        ReadableReads(app, s, e.mask, e.reaction);
      } else {
        OthersDoNotRead(app, s, e.mask, e.reaction);
      }
      LivesThrough(app, Session.HandleEvent(app, s, e.mask, e.reaction, false), events[1..]);
    }
  }

  lemma NothingMore(app: Callbacks, s: State)
    requires Progressing(app) && NothingWaiting(app, s)
    ensures Parse(app, s.calls, s.inbound).rest == s.inbound
    ensures s.committed + Parse(app, s.calls, s.inbound).messages == s.committed
  {
  }

  // ---------- a stream that ends

  /** Data and pauses up to and including the last pause. */
  predicate ToLastPause(head: seq<Arrival>) {
    Ongoing(head) && (head != [] ==> Pauses(head[|head| - 1]))
  }

  predicate AllData(tail: seq<Arrival>) {
    forall a :: a in tail ==> Delivers(a)
  }

  predicate Ends(a: Arrival) {
    !Delivers(a) && !Pauses(a)
  }

  lemma {:induction false} DrainTail(tail: seq<Arrival>, end: Arrival, rest: seq<Arrival>)
    requires AllData(tail) && Ends(end)
    ensures var d := Drain(tail + [end] + rest);
            d.bytes == Stream(tail) && !Pauses(d.ending) && d.rest == rest
  {
    if tail == [] {
      assert tail + [end] + rest == [end] + rest;
    } else {
      assert tail[0] in tail && forall a :: a in tail[1..] ==> a in tail;
      assert (tail + [end] + rest)[1..] == tail[1..] + [end] + rest;
      DrainTail(tail[1..], end, rest);
    }
  }

  lemma {:induction false} DrainHead(head: seq<Arrival>, more: seq<Arrival>)
    requires ToLastPause(head) && head != []
    ensures var d, e := Drain(head + more), Drain(head);
            && Pauses(d.ending) && d.bytes == e.bytes && d.rest == e.rest + more
            && ToLastPause(e.rest) && |e.rest| < |head|
  {
    assert head[0] in head && (head + more)[1..] == head[1..] + more;
    if Pauses(head[0]) {
      assert forall a :: a in head[1..] ==> a in head;
    } else {
      assert |head| > 1;
      assert forall a :: a in head[1..] ==> a in head;
      DrainHead(head[1..], more);
    }
  }

  /**
   Events for a connection whose stream ends: after more readable ones than there
   were arrivals up to the last pause it is closed. If it came to the end of the
   stream, what came before the last pause is committed and what came after it stays
   buffered, unparsed.
   */
  lemma {:induction false} EndedStream(app: Callbacks, s: State, events: seq<Event>,
                                       head: seq<Arrival>, tail: seq<Arrival>, end: Arrival, rest: seq<Arrival>)
    requires Framed(app) && NothingWaiting(app, s) && s.status == Connected
    requires s.arrivals == head + (tail + [end] + rest) && ToLastPause(head) && AllData(tail) && Ends(end)
    ensures var t := Handled(app, s, events);
            var heard := Parse(app, s.calls, s.inbound + Stream(head));
            && |t.arrivals| >= |rest|
            && (|t.arrivals| == |rest| ==>
                  && t.committed == s.committed + heard.messages && t.inbound == heard.rest + Stream(tail)
                  && t.status == Disconnecting && t.closeNotices == s.closeNotices + 1)
            && (Having(events, 0) > |head| ==> t.status != Connected)
            && (Having(events, 0) > |head| && Lacks(events, 1) && Lacks(events, 3) && Lacks(events, 4) ==>
                  |t.arrivals| == |rest|)
    decreases |events|
  {
    hide Progressing, Parse, Framed, Drain, NothingWaiting, Session.HandleEvent, Stream;
    if events != [] {
      var e := events[0];
      assert e in events && forall x :: x in events[1..] ==> x in events;
      var t := Session.HandleEvent(app, s, e.mask, e.reaction, false);
      LiveUnnoticed(app, s, e.mask, e.reaction);
      if 1 !in e.mask {
        OthersDoNotWrite(app, s, e.mask, e.reaction);
      }
      if 3 in e.mask || 4 in e.mask {
        ErrorCloses(app, s, e.mask, e.reaction);
      } else if 0 !in e.mask {
        OthersDoNotRead(app, s, e.mask, e.reaction);
        SkipKeepsWaiting(app, s, t);
        if t.status == Connected {
          EndedStream(app, t, events[1..], head, tail, end, rest);
          CallsDoNotMatter(app, s.calls, t.calls, s.inbound + Stream(head));
        }
      } else if head == [] {
        assert head + (tail + [end] + rest) == tail + [end] + rest;
        DrainTail(tail, end, rest);
        EndCloses(app, s, e.mask, e.reaction);
        NothingMore(app, s);
        StreamOfNothing();
        assert s.inbound + [] == s.inbound;
      } else {
        ReadsOn(app, s, e.mask, e.reaction, head, tail + [end] + rest);
        if t.status == Connected {
          var d := Drain(head);
          EndedStream(app, t, events[1..], d.rest, tail, end, rest);
          StreamStep(app, s.calls, t.calls, s.committed, s.inbound, d.bytes, Stream(d.rest));
        }
      }
    }
  }

  /** A readable event that comes before the last pause. */
  lemma ReadsOn(app: Callbacks, s: State, mask: Mask, reaction: Session.Reaction,
                head: seq<Arrival>, more: seq<Arrival>)
    requires Framed(app) && NothingWaiting(app, s) && s.status == Connected
    requires s.arrivals == head + more && ToLastPause(head) && head != []
    requires 0 in mask && 3 !in mask && 4 !in mask
    ensures var d := Drain(head);
            var t := Session.HandleEvent(app, s, mask, reaction, false);
            var p := Parse(app, s.calls, s.inbound + d.bytes);
            && Pauses(Drain(s.arrivals).ending)
            && t.arrivals == d.rest + more && ToLastPause(d.rest) && |d.rest| < |head|
            && t.committed == s.committed + p.messages && t.inbound == p.rest && NothingWaiting(app, t)
            && Stream(head) == d.bytes + Stream(d.rest)
  {
    hide Progressing, Parse, Framed, Drain, NothingWaiting, Session.HandleEvent, Stream;
    DrainHead(head, more);
    DrainStream(head);
    ReadProgress(app, s, mask, reaction);
  }

  lemma StreamOfNothing()
    ensures Stream([]) == []
  {
  }

  /**
   A connection that came to the end of its stream: everything in it is committed exactly when the octets left
   over after the last pause are none, or the decoder calls them not enough.
   */
  lemma EndedStreamCommittedIff(app: Callbacks, s: State, events: seq<Event>,
                                head: seq<Arrival>, tail: seq<Arrival>, end: Arrival, rest: seq<Arrival>)
    requires Framed(app) && NothingWaiting(app, s) && s.status == Connected
    requires s.arrivals == head + (tail + [end] + rest) && ToLastPause(head) && AllData(tail) && Ends(end)
    requires |Handled(app, s, events).arrivals| == |rest|
    ensures var t := Handled(app, s, events);
            var whole := Parse(app, s.calls, s.inbound + (Stream(head) + Stream(tail)));
            var late := Parse(app, s.calls, s.inbound + Stream(head)).rest + Stream(tail);
            t.committed == s.committed + whole.messages <==>
            late == [] || app.decode(0, late) == Returned(DECODE_NOT_ENOUGH)
  {
    hide Progressing, Parse, Framed, NothingWaiting, Stream, Handled;
    EndedStream(app, s, events, head, tail, end, rest);
    var heard := Parse(app, s.calls, s.inbound + Stream(head));
    var late := heard.rest + Stream(tail);
    StreamStep(app, s.calls, heard.calls, s.committed, s.inbound, Stream(head), Stream(tail));
    LateCommitsIff(app, heard.calls, late);
    var a, b := s.committed + heard.messages, Parse(app, heard.calls, late).messages;
    assert a + b == a <==> b == [] by {
      assert |a + b| == |a| + |b|;
      assert a + [] == a;
    }
  }

  lemma LateCommitsIff(app: Callbacks, k: nat, late: Bytes)
    requires Framed(app)
    ensures Parse(app, k, late).messages == [] <==> late == [] || app.decode(0, late) == Returned(DECODE_NOT_ENOUGH)
  {
    if late != [] {
      assert app.decode(k, late) == app.decode(0, late);
    }
  }
}
