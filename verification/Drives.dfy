/**
 What a server does is what the machines of `Delivery` and `Responses` do: every
 run of `Traffic`, and so everything `Server.Server` goes through, is one of
 their runs (net/xserver.cpp, net/handler.cpp, base/xloop.cpp).
 */
module Drives {
  import opened Bytes
  import opened Kernel
  import opened Framing
  import opened EventLoop
  import opened Statuses
  import opened Lifecycle
  import opened Traffic
  import Session
  import Writing
  import Channel
  import Dispatch
  import Delivery
  import Schedule
  import Responses

  /** What the connections with these ids committed under a descriptor, in the order of their ids. */
  function CommittedBy(w: World, fd: int, n: nat): seq<Bytes> {
    if n == 0 then []
    else
      CommittedBy(w, fd, n - 1) +
        if n - 1 in w.sessions && n - 1 in w.life.conns && w.life.conns[n - 1].fd == fd
        then w.sessions[n - 1].committed else []
  }

  /** Of the connections that ever had a descriptor, the listed one is the last. */
  ghost predicate Latest(w: World) {
    forall id, fd :: id in w.life.conns && fd in w.life.connections && w.life.conns[id].fd == fd ==>
      id <= w.life.connections[fd]
  }

  /** The loop thread is between two events and nobody holds the lock of the queue. */
  predicate Rests(d: Delivery.Server) {
    Delivery.Idle(d) && d.queue.chan.owner == {}
  }

  /** The listed connections, each under its descriptor. */
  predicate SameLive(w: World, sessions: map<int, Session.State>) {
    forall fd :: fd in w.life.connections ==>
      Listens(w, fd) && fd in sessions && sessions[fd] == w.sessions[w.life.connections[fd]]
  }

  /** And no others. */
  predicate NoneElse(w: World, sessions: map<int, Session.State>) {
    forall fd :: fd in sessions && fd !in w.life.connections ==> sessions[fd].status != Connected
  }

  ghost predicate SameCommitted(w: World, d: Delivery.Server) {
    forall fd :: Delivery.CommittedUnder(d, fd) == CommittedBy(w, fd, w.next)
  }

  /** The same live connections, and the same messages committed under every descriptor. */
  ghost predicate Mirrors(w: World, d: Delivery.Server) {
    SameLive(w, d.sessions) && NoneElse(w, d.sessions) && SameCommitted(w, d) && Fitting(w)
  }

  /** Every descriptor in use fits the four octets in front of a message. */
  predicate Fitting(w: World) {
    forall fd :: fd in w.life.connections ==> Fits(fd, 4)
  }

  // ---------- messages on their way to the handlers

  lemma {:induction false} DeliveryAppend(app: Callbacks, d: Delivery.Server, run: seq<Delivery.Event>,
                                          more: seq<Delivery.Event>)
    requires Progressing(app) && Delivery.Possible(app, d, run)
    requires Delivery.Possible(app, Delivery.Run(app, d, run), more)
    ensures Delivery.Possible(app, d, run + more)
    ensures Delivery.Run(app, d, run + more) == Delivery.Run(app, Delivery.Run(app, d, run), more)
    decreases |run|
  {
    hide Delivery.After, Delivery.CanHappen;
    if run == [] {
      assert run + more == more;
    } else {
      assert (run + more)[1..] == run[1..] + more;
      DeliveryAppend(app, Delivery.After(app, d, run[0]), run[1..], more);
    }
  }

  lemma DeliveryOne(app: Callbacks, d: Delivery.Server, e: Delivery.Event)
    requires Progressing(app) && Delivery.CanHappen(d, e)
    ensures Delivery.Possible(app, d, [e]) && Delivery.Run(app, d, [e]) == Delivery.After(app, d, e)
  {
    hide Delivery.After, Delivery.CanHappen;
    assert [e][1..] == [];
    assert Delivery.Possible(app, Delivery.After(app, d, e), []);
  }

  predicate AllFit(ms: seq<Dispatch.Message>) {
    forall m :: m in ms ==> Fits(m.fd, 4)
  }

  /** One waiting message goes through messageComing and, if a handler is active, into the queue. */
  lemma HandOne(app: Callbacks, d: Delivery.Server, active: nat) returns (run: seq<Delivery.Event>)
    requires Progressing(app) && d.waiting != [] && AllFit(d.waiting)
    requires Channel.At(d.queue.chan, Dispatch.LOOP_THREAD) == Channel.Outside && d.queue.chan.owner == {}
    ensures Delivery.Possible(app, d, run)
    ensures var e := Delivery.Run(app, d, run);
            && e == d.(waiting := d.waiting[1..], handed := d.handed + [d.waiting[0]], queue := e.queue)
            && Channel.At(e.queue.chan, Dispatch.LOOP_THREAD) == Channel.Outside && e.queue.chan.owner == {}
  {
    assert d.waiting[0] in d.waiting;
    var give := Delivery.HandsOver(active);
    DeliveryOne(app, d, give);
    var e := Delivery.After(app, d, give);
    run := [give];
    if active != 0 {
      var push := Delivery.Queues(Dispatch.Pushes);
      DeliveryOne(app, e, push);
      DeliveryAppend(app, d, [give], [push]);
      run := [give] + [push];
    }
  }

  /** All of them do, whatever the number of active handlers is each time. */
  lemma {:induction false} HandAll(app: Callbacks, d: Delivery.Server, active: nat -> nat)
    returns (run: seq<Delivery.Event>)
    requires Progressing(app) && AllFit(d.waiting)
    requires Channel.At(d.queue.chan, Dispatch.LOOP_THREAD) == Channel.Outside && d.queue.chan.owner == {}
    ensures Delivery.Possible(app, d, run)
    ensures var e := Delivery.Run(app, d, run);
            Rests(e) && e == d.(waiting := [], handed := d.handed + d.waiting, queue := e.queue)
    decreases |d.waiting|
  {
    hide Delivery.After, Delivery.CanHappen;
    if d.waiting == [] {
      run := [];
      assert d.handed + d.waiting == d.handed;
    } else {
      var first := HandOne(app, d, active(|d.handed|));
      var e := Delivery.Run(app, d, first);
      assert forall m :: m in e.waiting ==> m in d.waiting;
      var rest := HandAll(app, e, active);
      DeliveryAppend(app, d, first, rest);
      run := first + rest;
      assert d.handed + d.waiting == (d.handed + [d.waiting[0]]) + d.waiting[1..];
    }
  }

  // ---------- one input

  lemma TouchCommits(app: Callbacks, s: Session.State, input: Input)
    requires Progressing(app)
    ensures s.committed <= Touch(app, s, input).committed
    ensures !input.Fires? ==> Touch(app, s, input).committed == s.committed
  {
    hide Session.HandleEvent, Session.Send;
    match input {
      case Fires(_, mask, reaction) => Delivery.EventExtends(app, s, mask, reaction);
      case Responds(_, msg, reaction) => Delivery.SendKeepsCommitted(s, msg, reaction);
      case _ =>
    }
  }

  /** The same input to the same connection in `Delivery`. */
  lemma TouchEvent(app: Callbacks, d: Delivery.Server, input: Input, fd: int) returns (e: Delivery.Event)
    requires Progressing(app) && Target(input) == Some(fd) && Delivery.Idle(d)
    requires fd in d.sessions && d.sessions[fd].status == Connected
    ensures Delivery.CanHappen(d, e)
    ensures var s := d.sessions[fd];
            var t := Touch(app, s, input);
            && s.committed <= t.committed
            && Delivery.After(app, d, e) == d.(sessions := d.sessions[fd := t],
                                               waiting := Delivery.Under(fd, t.committed[|s.committed|..]))
  {
    hide Session.HandleEvent, Session.Send, Session.CloseConn;
    var s := d.sessions[fd];
    TouchCommits(app, s, input);
    match input {
      case Fires(_, mask, reaction) => e := Delivery.Handles(fd, mask, reaction);
      case Responds(_, msg, reaction) => e := Delivery.Responds(fd, msg, reaction);
      case Closes(_) => e := Delivery.Closes(fd);
    }
  }

  /** What one connection commits is added to what is committed under its descriptor, and to nothing else. */
  lemma {:induction false} CommittedGrows(w: World, u: World, id: nat, news: seq<Bytes>, fd: int, n: nat)
    requires id in w.sessions && id in u.sessions && id in w.life.conns
    requires u.sessions[id].committed == w.sessions[id].committed + news
    requires u.sessions.Keys == w.sessions.Keys && u.life.conns.Keys == w.life.conns.Keys
    requires forall jd :: jd in w.life.conns ==> u.life.conns[jd].fd == w.life.conns[jd].fd
    requires forall jd :: jd in w.sessions && jd != id ==> u.sessions[jd] == w.sessions[jd]
    requires forall jd :: jd in w.life.conns && jd > id ==> w.life.conns[jd].fd != w.life.conns[id].fd
    ensures CommittedBy(u, fd, n) ==
            CommittedBy(w, fd, n) + if id < n && fd == w.life.conns[id].fd then news else []
    decreases n
  {
    if n == 0 {
    } else {
      CommittedGrows(w, u, id, news, fd, n - 1);
      var before := CommittedBy(w, fd, n - 1);
      if id == n - 1 && fd == w.life.conns[id].fd {
        Associate(before, w.sessions[id].committed, news);
        assert before + [] == before;
      } else if fd == w.life.conns[id].fd && id < n - 1 {
        assert before + news + [] == before + news && before + [] == before;
      } else {
        assert before + [] == before;
        assert CommittedBy(w, fd, n) + [] == CommittedBy(w, fd, n);
      }
    }
  }

  lemma {:induction false} CommittedKept(w: World, u: World, fd: int, n: nat)
    requires forall id :: id in w.sessions && id < n ==> id in u.sessions && u.sessions[id] == w.sessions[id]
    requires forall id :: id in u.sessions && id < n ==> id in w.sessions
    requires forall id :: id in u.life.conns && id < n ==> id in w.life.conns
    requires forall id :: id in w.life.conns && id < n ==>
               id in u.life.conns && u.life.conns[id].fd == w.life.conns[id].fd
    ensures CommittedBy(u, fd, n) == CommittedBy(w, fd, n)
    decreases n
  {
    if n == 0 {
    } else {
      CommittedKept(w, u, fd, n - 1);
    }
  }

  /** What an input for a live connection does to the tables and the connections. */
  lemma TouchedWorld(app: Callbacks, w: World, input: Input, fd: int)
    requires Progressing(app) && Sane(w) && Target(input) == Some(fd) && fd in w.life.connections
    ensures Listens(w, fd)
    ensures var id := w.life.connections[fd];
            var t, u := Touch(app, w.sessions[id], input), Traffic.After(app, w, input);
            && w.life.conns[id].fd == fd && w.sessions[id].status == Connected
            && u.next == w.next
            && u.life.connections == (if t.status == Connected then w.life.connections else w.life.connections - {fd})
            && u.life.conns.Keys == w.life.conns.Keys
            && (forall jd :: jd in w.life.conns ==> u.life.conns[jd].fd == w.life.conns[jd].fd)
            && u.sessions == w.sessions[id := if t.status == Connected then t else t.(status := Disconnected)]
  {
    hide Inv, Session.HandleEvent, Session.Send, Session.CloseConn, Agrees;
    ListedIsLive(w, fd);
  }

  lemma UnderGrows(d: Delivery.Server, e: Delivery.Server, fd: int, t: Session.State, news: seq<Bytes>, at: int)
    requires fd in d.sessions && t.committed == d.sessions[fd].committed + news
    requires e.sessions == d.sessions[fd := t] && e.earlier == d.earlier
    ensures Delivery.CommittedUnder(e, at) == Delivery.CommittedUnder(d, at) + if at == fd then news else []
  {
    if at == fd {
      Associate(Delivery.Earlier(d, fd), d.sessions[fd].committed, news);
    } else {
      assert Delivery.CommittedUnder(d, at) + [] == Delivery.CommittedUnder(d, at);
    }
  }

  lemma AllUnderFit(fd: int, octets: seq<Bytes>)
    requires Fits(fd, 4)
    ensures AllFit(Delivery.Under(fd, octets))
  {
  }

  /** The live connections after an input for one of them. */
  lemma TouchLive(app: Callbacks, w: World, sessions: map<int, Session.State>, input: Input, fd: int)
    requires Progressing(app) && Sane(w) && SameLive(w, sessions) && NoneElse(w, sessions)
    requires Target(input) == Some(fd) && fd in w.life.connections
    ensures fd in sessions
    ensures var u, after := Traffic.After(app, w, input), sessions[fd := Touch(app, sessions[fd], input)];
            SameLive(u, after) && NoneElse(u, after)
  {
    hide Sane, Traffic.After, Touch;
    TouchedWorld(app, w, input, fd);
    var u, after := Traffic.After(app, w, input), sessions[fd := Touch(app, sessions[fd], input)];
    forall at | at in u.life.connections
      ensures Listens(u, at) && at in after && after[at] == u.sessions[u.life.connections[at]]
    {
      ListedIsLive(w, at);
      ListedIsLive(w, fd);
    }
  }

  lemma TouchLatest(app: Callbacks, w: World, input: Input, fd: int)
    requires Progressing(app) && Sane(w) && Latest(w) && Target(input) == Some(fd) && fd in w.life.connections
    ensures Latest(Traffic.After(app, w, input))
  {
    hide Sane, Traffic.After, Touch;
    TouchedWorld(app, w, input, fd);
  }

  lemma TouchMirrors(app: Callbacks, w: World, d: Delivery.Server, input: Input, fd: int, e: Delivery.Server)
    requires Progressing(app) && Sane(w) && Latest(w) && Mirrors(w, d)
    requires Target(input) == Some(fd) && fd in w.life.connections
    requires fd in d.sessions && e.sessions == d.sessions[fd := Touch(app, d.sessions[fd], input)]
    requires e.earlier == d.earlier
    ensures Mirrors(Traffic.After(app, w, input), e) && Latest(Traffic.After(app, w, input))
  {
    hide Sane, Traffic.After, Touch, Delivery.CommittedUnder, CommittedBy;
    TouchedWorld(app, w, input, fd);
    TouchLive(app, w, d.sessions, input, fd);
    TouchLatest(app, w, input, fd);
    var id, u := w.life.connections[fd], Traffic.After(app, w, input);
    var s := w.sessions[id];
    var t := Touch(app, s, input);
    TouchCommits(app, s, input);
    var news := t.committed[|s.committed|..];
    forall at ensures Delivery.CommittedUnder(e, at) == CommittedBy(u, at, u.next) {
      HasConn(w, id);
      UnderGrows(d, e, fd, t, news, at);
      NextIsNew(w, id);
      CommittedGrows(w, u, id, news, at, w.next);
    }
  }

  lemma NextIsNew(w: World, id: nat)
    requires Sane(w) && id in w.sessions
    ensures id < w.next && w.sessions.Keys == w.life.conns.Keys
  {
  }

  lemma TouchedStep(app: Callbacks, w: World, d: Delivery.Server, input: Input, fd: int, active: nat -> nat)
    returns (run: seq<Delivery.Event>)
    requires Progressing(app) && Sane(w) && Latest(w) && Mirrors(w, d) && Rests(d)
    requires Target(input) == Some(fd) && fd in w.life.connections
    ensures Delivery.Possible(app, d, run)
    ensures var e := Delivery.Run(app, d, run);
            Rests(e) && Mirrors(Traffic.After(app, w, input), e) && Latest(Traffic.After(app, w, input))
  {
    hide Sane, Latest, Traffic.After, Touch, Delivery.After, Delivery.Possible, Delivery.Run, Delivery.CommittedUnder,
         Delivery.CanHappen;
    TouchedWorld(app, w, input, fd);
    var s := d.sessions[fd];
    var e := TouchEvent(app, d, input, fd);
    DeliveryOne(app, d, e);
    var f := Delivery.After(app, d, e);
    AllUnderFit(fd, Touch(app, s, input).committed[|s.committed|..]);
    var rest := HandAll(app, f, active);
    DeliveryAppend(app, d, [e], rest);
    TouchMirrors(app, w, d, input, fd, Delivery.Run(app, f, rest));
    run := [e] + rest;
  }

  /** The live connections after an accept. */
  lemma AcceptLive(app: Callbacks, w: World, sessions: map<int, Session.State>, input: Input)
    requires Progressing(app) && Sane(w) && SameLive(w, sessions) && NoneElse(w, sessions)
    requires input.Accepts? && !input.throws && input.fd !in w.life.open
    ensures var u := Traffic.After(app, w, input);
            var after := sessions[input.fd := Session.Opened(input.arrivals, input.departures)];
            SameLive(u, after) && NoneElse(u, after)
  {
    hide Sane, Traffic.After;
    AcceptedWorld(app, w, input);
  }

  lemma AcceptLatest(app: Callbacks, w: World, input: Input)
    requires Progressing(app) && Sane(w) && Latest(w)
    requires input.Accepts? && !input.throws && input.fd !in w.life.open
    ensures Latest(Traffic.After(app, w, input))
  {
    hide Sane, Traffic.After;
    AcceptedWorld(app, w, input);
  }

  /** The connections after an accept. */
  lemma AcceptMirrors(app: Callbacks, w: World, d: Delivery.Server, input: Input, e: Delivery.Server)
    requires Progressing(app) && Sane(w) && Latest(w) && Mirrors(w, d)
    requires input.Accepts? && !input.throws && Fits(input.fd, 4) && input.fd !in w.life.open
    requires e.sessions == d.sessions[input.fd := Session.Opened(input.arrivals, input.departures)]
    requires forall at :: Delivery.CommittedUnder(e, at) == Delivery.CommittedUnder(d, at)
    ensures Mirrors(Traffic.After(app, w, input), e) && Latest(Traffic.After(app, w, input))
  {
    hide Sane, Traffic.After, Delivery.CommittedUnder, CommittedBy, Latest, SameLive, NoneElse;
    var u := Traffic.After(app, w, input);
    AcceptedWorld(app, w, input);
    AcceptLive(app, w, d.sessions, input);
    AcceptLatest(app, w, input);
    forall at ensures Delivery.CommittedUnder(e, at) == CommittedBy(u, at, u.next) {
      CommittedKept(w, u, at, w.next);
      LastCommitted(u, at);
    }
  }

  lemma LastCommitted(u: World, fd: int)
    requires u.next > 0 && u.next - 1 in u.sessions && u.sessions[u.next - 1].committed == []
    ensures CommittedBy(u, fd, u.next) == CommittedBy(u, fd, u.next - 1)
  {
    assert CommittedBy(u, fd, u.next - 1) + [] == CommittedBy(u, fd, u.next - 1);
  }

  lemma AcceptedWorld(app: Callbacks, w: World, input: Input)
    requires Progressing(app) && Sane(w) && input.Accepts? && !input.throws && input.fd !in w.life.open
    ensures var u := Traffic.After(app, w, input);
            && input.fd !in w.life.connections && w.next !in w.life.conns && w.sessions.Keys == w.life.conns.Keys
            && u.next == w.next + 1
            && u.sessions == w.sessions[w.next := Session.Opened(input.arrivals, input.departures)]
            && u.life.conns == w.life.conns[w.next := Conn(input.fd, Connected)]
            && u.life.connections == w.life.connections[input.fd := w.next]
    ensures forall id :: id in w.sessions ==> id < w.next
  {
    hide Inv;
    Fresh(w, input.fd);
  }

  lemma AcceptStep(app: Callbacks, w: World, d: Delivery.Server, input: Input) returns (run: seq<Delivery.Event>)
    requires Progressing(app) && Sane(w) && Latest(w) && Mirrors(w, d) && Rests(d)
    requires input.Accepts? && !input.throws && Fits(input.fd, 4) && input.fd !in w.life.open
    ensures Delivery.Possible(app, d, run)
    ensures var e := Delivery.Run(app, d, run);
            Rests(e) && Mirrors(Traffic.After(app, w, input), e) && Latest(Traffic.After(app, w, input))
  {
    hide Sane, Traffic.After, Delivery.After, Delivery.CommittedUnder, Latest, SameCommitted;
    Fresh(w, input.fd);
    var e := Delivery.Accepts(input.fd, input.arrivals, input.departures);
    DeliveryOne(app, d, e);
    run := [e];
    AcceptUnder(app, d, e);
    AcceptMirrors(app, w, d, input, Delivery.After(app, d, e));
  }

  lemma ForgetMirrors(w: World, life: Life, d: Delivery.Server)
    requires Latest(w) && Mirrors(w, d) && life.conns == w.life.conns && life.connections == w.life.connections
    ensures Mirrors(w.(life := life), d) && Latest(w.(life := life))
  {
    hide Delivery.CommittedUnder, CommittedBy;
    var u := w.(life := life);
    forall at ensures Delivery.CommittedUnder(d, at) == CommittedBy(u, at, u.next) {
      CommittedKept(w, u, at, w.next);
    }
  }

  lemma Fresh(w: World, fd: int)
    requires Sane(w) && fd !in w.life.open
    ensures fd !in w.life.connections && w.next !in w.life.conns && Enabled(w.life, Accept(w.next, fd, false))
  {
    AcceptIsNew(w.life, w.next, fd);
  }

  lemma AcceptUnder(app: Callbacks, d: Delivery.Server, e: Delivery.Event)
    requires Progressing(app) && e.Accepts? && Delivery.CanHappen(d, e)
    ensures var f := Delivery.After(app, d, e);
            && f.sessions == d.sessions[e.fd := Session.Opened(e.arrivals, e.departures)]
            && f.waiting == d.waiting && f.queue == d.queue
            && forall at :: Delivery.CommittedUnder(f, at) == Delivery.CommittedUnder(d, at)
  {
  }

  predicate InputFits(input: Input) {
    input.Accepts? ==> Fits(input.fd, 4)
  }

  /** One thing that happens to the server is a run of `Delivery`, with any number of handlers active. */
  lemma InputIsARun(app: Callbacks, w: World, d: Delivery.Server, input: Input, active: nat -> nat)
    returns (run: seq<Delivery.Event>)
    requires Progressing(app) && Sane(w) && Latest(w) && Mirrors(w, d) && Rests(d)
    requires !Throwing(input) && InputFits(input)
    ensures Delivery.Possible(app, d, run)
    ensures var e := Delivery.Run(app, d, run);
            Rests(e) && Mirrors(Traffic.After(app, w, input), e) && Latest(Traffic.After(app, w, input))
  {
    hide Sane, Touch, Mirrors, Latest;
    run := [];
    if Target(input).Some? {
      var fd := Target(input).value;
      if fd in w.life.connections {
        run := TouchedStep(app, w, d, input, fd, active);
      }
    } else if input.Accepts? {
      if input.fd !in w.life.open {
        run := AcceptStep(app, w, d, input);
      }
    } else if Enabled(w.life, Release(input.id)) {
      ForgetMirrors(w, Step(w.life, Release(input.id)), d);
    }
  }

  // ---------- every run

  predicate InputsFit(inputs: seq<Input>) {
    forall input :: input in inputs ==> InputFits(input)
  }

  lemma {:induction false} InputsAreARun(app: Callbacks, w: World, d: Delivery.Server, inputs: seq<Input>,
                                         active: nat -> nat)
    returns (run: seq<Delivery.Event>)
    requires Progressing(app) && Sane(w) && Latest(w) && Mirrors(w, d) && Rests(d)
    requires NoneThrows(inputs) && InputsFit(inputs)
    ensures Delivery.Possible(app, d, run)
    ensures var e := Delivery.Run(app, d, run); Rests(e) && Mirrors(Traffic.Run(app, w, inputs), e)
    decreases |inputs|
  {
    hide Sane, Latest, Mirrors, Rests, Traffic.After, Delivery.After, Delivery.CanHappen, InputFits, Throwing;
    if inputs == [] {
      run := [];
    } else {
      assert inputs[0] in inputs && forall x :: x in inputs[1..] ==> x in inputs;
      SaneStep(app, w, inputs[0]);
      var first := InputIsARun(app, w, d, inputs[0], active);
      var u, e := Traffic.After(app, w, inputs[0]), Delivery.Run(app, d, first);
      var rest := InputsAreARun(app, u, e, inputs[1..], active);
      DeliveryAppend(app, d, first, rest);
      run := first + rest;
    }
  }

  /**
   Whatever happens to a server: it is a run of `Delivery`, with any number of
   handlers active at each message, and what its connections committed under a
   descriptor is what messageComing was called with for it, in order.
   */
  lemma ServerDelivers(app: Callbacks, register: map<int, Handler>, open: set<int>, inputs: seq<Input>,
                       active: nat -> nat)
    returns (run: seq<Delivery.Event>)
    requires Progressing(app) && register.Keys <= open && NoneThrows(inputs) && InputsFit(inputs)
    ensures Delivery.Possible(app, Delivery.Started(), run)
    ensures var w := Traffic.Run(app, Opening(register, open), inputs);
            var d := Delivery.Run(app, Delivery.Started(), run);
            && Rests(d) && Mirrors(w, d)
            && forall fd :: Delivery.OctetsOf(d.handed, fd) == CommittedBy(w, fd, w.next)
  {
    hide Delivery.Run, Delivery.Possible, Traffic.Run, Delivery.Taken, Delivery.AllInStep, Delivery.AllConserve;
    OpeningMirrors(register, open);
    run := InputsAreARun(app, Opening(register, open), Delivery.Started(), inputs, active);
    Delivery.EveryState(app, run);
    var w, d := Traffic.Run(app, Opening(register, open), inputs), Delivery.Run(app, Delivery.Started(), run);
    forall fd ensures Delivery.OctetsOf(d.handed, fd) == CommittedBy(w, fd, w.next) {
      assert Delivery.OctetsOf(d.handed, fd) + Delivery.OctetsOf(d.waiting, fd) == Delivery.CommittedUnder(d, fd);
    }
  }

  lemma OpeningMirrors(register: map<int, Handler>, open: set<int>)
    requires register.Keys <= open
    ensures Sane(Opening(register, open)) && Latest(Opening(register, open))
    ensures Mirrors(Opening(register, open), Delivery.Started()) && Rests(Delivery.Started())
  {
  }

  // ---------- the way back

  /** The same live connections, and nothing scheduled that has not run. */
  ghost predicate Returns(w: World, r: Responses.Server) {
    && SameLive(w, r.sessions) && NoneElse(w, r.sessions)
    && r.sessions.Keys == r.answers.Keys
    && r.work.phase == Schedule.Elsewhere && r.work.list == [] && r.work.scheduled == |r.jobs|
  }

  lemma {:induction false} ResponsesAppend(app: Callbacks, r: Responses.Server, run: seq<Responses.Event>,
                                           more: seq<Responses.Event>)
    requires Progressing(app) && Responses.Possible(app, r, run)
    requires Responses.Possible(app, Responses.Run(app, r, run), more)
    ensures Responses.Possible(app, r, run + more)
    ensures Responses.Run(app, r, run + more) == Responses.Run(app, Responses.Run(app, r, run), more)
    decreases |run|
  {
    hide Responses.After, Responses.CanHappen;
    if run == [] {
      assert run + more == more;
    } else {
      assert (run + more)[1..] == run[1..] + more;
      ResponsesAppend(app, Responses.After(app, r, run[0]), run[1..], more);
    }
  }

  lemma ResponsesOne(app: Callbacks, r: Responses.Server, e: Responses.Event)
    requires Progressing(app) && Responses.CanHappen(r, e)
    ensures Responses.Possible(app, r, [e]) && Responses.Run(app, r, [e]) == Responses.After(app, r, e)
  {
    hide Responses.After, Responses.CanHappen;
    assert [e][1..] == [];
    assert Responses.Possible(app, Responses.After(app, r, e), []);
  }

  lemma ResponsesSnoc(app: Callbacks, r: Responses.Server, run: seq<Responses.Event>, e: Responses.Event)
    requires Progressing(app) && Responses.Possible(app, r, run)
    requires Responses.CanHappen(Responses.Run(app, r, run), e)
    ensures Responses.Possible(app, r, run + [e])
    ensures Responses.Run(app, r, run + [e]) == Responses.After(app, Responses.Run(app, r, run), e)
  {
    hide Responses.After, Responses.CanHappen, Responses.Possible, Responses.Run;
    ResponsesOne(app, Responses.Run(app, r, run), e);
    ResponsesAppend(app, r, run, [e]);
  }

  /** A response is scheduled by a handler and run by the next process(). */
  lemma RespondRun(app: Callbacks, r: Responses.Server, job: Responses.Job) returns (run: seq<Responses.Event>)
    requires Progressing(app) && Writing.Silent(job.reaction)
    requires r.work.phase == Schedule.Elsewhere && r.work.list == [] && r.work.scheduled == |r.jobs|
    requires job.uid in r.answers && job.uid in r.sessions && r.sessions[job.uid].status == Connected
    ensures Responses.Possible(app, r, run)
    ensures var e := Responses.Run(app, r, run);
            && e.sessions == r.sessions[job.uid := Session.Send(r.sessions[job.uid], job.msg, job.reaction, false)]
            && e.answers.Keys == r.answers.Keys && e.jobs == r.jobs + [job]
            && e.work.phase == Schedule.Elsewhere && e.work.list == [] && e.work.scheduled == |e.jobs|
  {
    hide Responses.Possible, Responses.Run, Session.Send, Writing.Silent;
    var n := |r.jobs|;
    var schedules, begins := Responses.Schedules(job), Responses.Works(Schedule.Begin);
    var runs, finishes, clears := Responses.Works(Schedule.RunNext), Responses.Works(Schedule.Finish),
        Responses.Works(Schedule.Clear);
    var r1 := Responses.After(app, r, schedules);
    var r2 := Responses.After(app, r1, begins);
    ResponsesOne(app, r, schedules);
    ResponsesSnoc(app, r, [schedules], begins);
    assert r2.work.list == [n] && r2.jobs[n] == job;
    var r3 := Responses.After(app, r2, runs);
    ResponsesSnoc(app, r, [schedules] + [begins], runs);
    var r4 := Responses.After(app, r3, finishes);
    ResponsesSnoc(app, r, [schedules] + [begins] + [runs], finishes);
    ResponsesSnoc(app, r, [schedules] + [begins] + [runs] + [finishes], clears);
    run := [schedules] + [begins] + [runs] + [finishes] + [clears];
  }

  /** One thing that happens to the server is a run of `Responses`. */
  lemma InputReturns(app: Callbacks, w: World, r: Responses.Server, input: Input) returns (run: seq<Responses.Event>)
    requires Progressing(app) && Sane(w) && Returns(w, r) && !Throwing(input) && SilentInput(input)
    ensures Responses.Possible(app, r, run)
    ensures Returns(Traffic.After(app, w, input), Responses.Run(app, r, run))
  {
    hide Sane, Inv, Responses.Possible, Responses.Run, Session.Send, Session.HandleEvent,
         Session.CloseConn, Writing.Silent;
    NoResponses(app, r);
    run := [];
    match input {
      case Accepts(fd, arrivals, departures, _) =>
        if fd !in w.life.open {
          AcceptLive(app, w, r.sessions, input);
          Fresh(w, fd);
          var e := Responses.Accepts(fd, arrivals, departures);
          ResponsesOne(app, r, e);
          run := [e];
        }
      case Fires(fd, mask, reaction) =>
        if fd in w.life.connections {
          ListedIsLive(w, fd);
          TouchLive(app, w, r.sessions, input, fd);
          var e := Responses.Handles(fd, mask, reaction);
          ResponsesOne(app, r, e);
          run := [e];
        }
      case Responds(uid, msg, reaction) =>
        if uid in w.life.connections {
          ListedIsLive(w, uid);
          TouchLive(app, w, r.sessions, input, uid);
          run := RespondRun(app, r, Responses.Job(uid, msg, reaction));
        }
      case Closes(fd) =>
        if fd in w.life.connections {
          ListedIsLive(w, fd);
          TouchLive(app, w, r.sessions, input, fd);
          var e := Responses.Closes(fd);
          ResponsesOne(app, r, e);
          run := [e];
        }
      case Forgets(_) =>
    }
  }

  lemma NoResponses(app: Callbacks, r: Responses.Server)
    requires Progressing(app)
    ensures Responses.Possible(app, r, []) && Responses.Run(app, r, []) == r
  {
  }

  lemma {:induction false} InputsReturn(app: Callbacks, w: World, r: Responses.Server, inputs: seq<Input>)
    returns (run: seq<Responses.Event>)
    requires Progressing(app) && Sane(w) && Returns(w, r) && NoneThrows(inputs) && Silents(inputs)
    ensures Responses.Possible(app, r, run)
    ensures Returns(Traffic.Run(app, w, inputs), Responses.Run(app, r, run))
    decreases |inputs|
  {
    hide Sane, Returns, Traffic.After, Responses.After, Responses.CanHappen, SilentInput, Throwing;
    if inputs == [] {
      run := [];
    } else {
      assert inputs[0] in inputs && forall x :: x in inputs[1..] ==> x in inputs;
      SaneStep(app, w, inputs[0]);
      var first := InputReturns(app, w, r, inputs[0]);
      var rest := InputsReturn(app, Traffic.After(app, w, inputs[0]), Responses.Run(app, r, first), inputs[1..]);
      ResponsesAppend(app, r, first, rest);
      run := first + rest;
    }
  }

  /**
   Whatever happens to a server whose callbacks send nothing themselves: it is a run
   of `Responses`, and what the kernel took from a live connection, followed by what
   is still buffered, is the responses that ran for it, if no write call failed part
   way.
   */
  lemma ServerResponds(app: Callbacks, register: map<int, Handler>, open: set<int>, inputs: seq<Input>)
    returns (run: seq<Responses.Event>)
    requires Progressing(app) && register.Keys <= open && NoneThrows(inputs) && Silents(inputs)
    ensures Responses.Possible(app, Responses.Started(), run)
    ensures var w := Traffic.Run(app, Opening(register, open), inputs);
            var r := Responses.Run(app, Responses.Started(), run);
            && Returns(w, r)
            && forall fd :: fd in w.life.connections ==>
                 && Listens(w, fd) && fd in r.answers
                 && var c := w.sessions[w.life.connections[fd]];
                    && c.appended == Responses.Octets(Responses.For(Responses.RanSince(r, fd), r.jobs, fd), r.jobs)
                    && (c.accepted + c.outbound == c.appended <==> c.torn == 0)
  {
    hide Responses.Run, Responses.Possible, Traffic.Run, Sane, Responses.Octets, Responses.For, Responses.RanSince;
    OpeningReturns(register, open);
    run := InputsReturn(app, Opening(register, open), Responses.Started(), inputs);
    var w, r := Traffic.Run(app, Opening(register, open), inputs), Responses.Run(app, Responses.Started(), run);
    SaneRun(app, Opening(register, open), inputs);
    forall fd | fd in w.life.connections
      ensures Listens(w, fd) && fd in r.answers
      ensures var c := w.sessions[w.life.connections[fd]];
              && c.appended == Responses.Octets(Responses.For(Responses.RanSince(r, fd), r.jobs, fd), r.jobs)
              && (c.accepted + c.outbound == c.appended <==> c.torn == 0)
    {
      ListedIsLive(w, fd);
      Responses.ResponsesReachKernel(app, run, fd);
    }
  }

  lemma OpeningReturns(register: map<int, Handler>, open: set<int>)
    requires register.Keys <= open
    ensures Sane(Opening(register, open)) && Returns(Opening(register, open), Responses.Started())
  {
  }
}
