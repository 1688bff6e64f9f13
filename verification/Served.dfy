/** The streams of a server's clients over any run of the server (net/xserver.cpp, net/connection.cpp). */
module Served {
  import opened Bytes
  import opened Kernel
  import opened Framing
  import opened EventLoop
  import opened Statuses
  import Lifecycle
  import opened Events
  import opened Traffic
  import Session
  import Reading

  /** How many of these inputs are events on a descriptor that make it readable. */
  function ReadsFor(inputs: seq<Input>, fd: int): nat {
    if inputs == [] then 0
    else
      (if inputs[0].Fires? && inputs[0].fd == fd && 0 in inputs[0].mask then 1 else 0) + ReadsFor(inputs[1..], fd)
  }

  /**
   Over any run with a framed decoder: a connection that lives through it, with at
   least as many readable events for its descriptor as there were arrivals to come,
   has taken its whole stream, committed the messages in it and kept the incomplete
   end, whatever else the events, responses and callbacks were.
   */
  lemma {:induction false} StreamServed(app: Callbacks, w: World, inputs: seq<Input>, id: nat)
    requires Framed(app) && Sane(w) && NoneThrows(inputs)
    requires id in w.sessions && w.sessions[id].status == Connected
    requires Reading.NothingWaiting(app, w.sessions[id]) && Ongoing(w.sessions[id].arrivals)
    requires ReadsFor(inputs, w.life.conns[id].fd) >= |w.sessions[id].arrivals|
    ensures var s, t := w.sessions[id], Traffic.Run(app, w, inputs);
            && id in t.sessions
            && (t.sessions[id].status == Connected ==>
                  var whole := Parse(app, s.calls, s.inbound + Stream(s.arrivals));
                  && t.sessions[id].arrivals == [] && t.sessions[id].committed == s.committed + whole.messages
                  && t.sessions[id].inbound == whole.rest)
    decreases |inputs|
  {
    hide Traffic.After, Sane, Progressing, Framed, Parse, Reading.NothingWaiting, Touch;
    HasConn(w, id);
    var s := w.sessions[id];
    if inputs == [] {
      assert s.inbound + [] == s.inbound;
      Reading.NothingMore(app, s);
    } else {
      var input, rest := inputs[0], inputs[1..];
      assert input in inputs && forall x :: x in rest ==> x in inputs;
      var u := Traffic.After(app, w, input);
      OneConnection(app, w, input, id);
      if u.sessions[id].status == Connected {
        TouchReads(app, s, input, w.life.conns[id].fd);
        StreamServed(app, u, rest, id);
      } else {
        ClosedForGood(app, u, rest, id);
      }
    }
  }

  /** An input that leaves a connection live: how far it has come in its stream. */
  lemma TouchReads(app: Callbacks, s: Session.State, input: Input, fd: int)
    requires Framed(app) && s.status == Connected && Reading.NothingWaiting(app, s) && Ongoing(s.arrivals)
    ensures var t := if Target(input) == Some(fd) then Touch(app, s, input) else s;
            t.status == Connected ==>
              && Reading.NothingWaiting(app, t) && Ongoing(t.arrivals)
              && |t.arrivals| <= |s.arrivals|
              && (input.Fires? && input.fd == fd && 0 in input.mask ==>
                    |t.arrivals| < |s.arrivals| || (s.arrivals == [] && t.arrivals == []))
              && t.committed + Reading.Whole(app, t).messages == s.committed + Reading.Whole(app, s).messages
              && Reading.Whole(app, t).rest == Reading.Whole(app, s).rest
  {
    hide Progressing, Framed, Parse, Drain, Reading.NothingWaiting, Session.HandleEvent, Session.SendMsg;
    var t := Touch(app, s, input);
    if Target(input) == Some(fd) && t.status == Connected {
      match input {
        case Fires(_, mask, reaction) =>
          LivesOn(app, s, mask, reaction);
          if 0 in mask {
            var d := Drain(s.arrivals);
            DrainStream(s.arrivals);
            Reading.ReadProgress(app, s, mask, reaction);
            Reading.StreamStep(app, s.calls, t.calls, s.committed, s.inbound, d.bytes, Stream(d.rest));
          } else {
            OthersDoNotRead(app, s, mask, reaction);
            Reading.SkipKeepsWaiting(app, s, t);
          }
        case Responds(_, msg, reaction) =>
          Session.FlushIsStable(Session.Put(s, msg), reaction);
          Reading.SkipKeepsWaiting(app, s, t);
        case _ =>
      }
    }
  }

  /**
   From its accept on: a connection is appended the messages of the responses for its
   descriptor and takes its own stream, whatever the server did before and whatever
   happens to other connections.
   */
  lemma SinceAccept(app: Callbacks, w: World, before: seq<Input>, fd: int, arrivals: seq<Arrival>,
                    departures: seq<Departure>, later: seq<Input>)
    requires Progressing(app) && Sane(w) && NoneThrows(before) && NoneThrows(later) && Silents(later)
    requires fd !in Traffic.Run(app, w, before).life.open
    ensures var id := Traffic.Run(app, w, before).next;
            var t := Traffic.Run(app, w, before + [Accepts(fd, arrivals, departures, false)] + later);
            && id in t.sessions
            && (t.sessions[id].status == Connected ==>
                  && t.sessions[id].appended == MessagesFor(later, fd)
                  && (Framed(app) && Ongoing(arrivals) && ReadsFor(later, fd) >= |arrivals| ==>
                        && t.sessions[id].arrivals == []
                        && t.sessions[id].committed == Parse(app, 0, Stream(arrivals)).messages
                        && t.sessions[id].inbound == Parse(app, 0, Stream(arrivals)).rest))
  {
    hide Traffic.After, Sane, Progressing, Framed, Parse, Stream, Traffic.Run;
    var input := Accepts(fd, arrivals, departures, false);
    SaneRun(app, w, before);
    var v := Traffic.Run(app, w, before);
    var u := Traffic.After(app, v, input);
    RunAppend(app, w, before + [input], later);
    RunAppend(app, w, before, [input]);
    RunOne(app, v, input);
    SaneStep(app, v, input);
    AcceptedSession(app, v, fd, arrivals, departures);
    var n := AppendedAreResponses(app, u, later, v.next);
    assert later[..|later|] == later && [] + MessagesFor(later, fd) == MessagesFor(later, fd);
    if Framed(app) && Ongoing(arrivals) && ReadsFor(later, fd) >= |arrivals| {
      NothingYet(app, arrivals, departures);
      StreamServed(app, u, later, v.next);
    }
  }

  lemma AcceptedSession(app: Callbacks, w: World, fd: int, arrivals: seq<Arrival>, departures: seq<Departure>)
    requires Progressing(app) && Sane(w) && fd !in w.life.open
    ensures var u := Traffic.After(app, w, Accepts(fd, arrivals, departures, false));
            && w.next in u.sessions && u.sessions[w.next] == Session.Opened(arrivals, departures)
            && w.next in u.life.conns && u.life.conns[w.next] == Lifecycle.Conn(fd, Connected)
  {
    hide Lifecycle.Inv;
  }

  lemma NothingYet(app: Callbacks, arrivals: seq<Arrival>, departures: seq<Departure>)
    requires Progressing(app)
    ensures Reading.NothingWaiting(app, Session.Opened(arrivals, departures))
    ensures [] + Stream(arrivals) == Stream(arrivals)
    ensures forall ms: seq<Bytes> :: [] + ms == ms
  {
  }
}
