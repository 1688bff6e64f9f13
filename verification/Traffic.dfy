/**
 A whole server as one value (net/xserver.cpp): its tables and the state of every
 connection it ever accepted, and what each thing that can happen to it does.
 `Server.Server` is the class that goes through exactly these steps.
 */
module Traffic {
  import opened Bytes
  import opened Kernel
  import opened Framing
  import opened EventLoop
  import opened Statuses
  import opened Lifecycle
  import opened Events
  import Session
  import Writing

  datatype Input =
    | Accepts(fd: int, arrivals: seq<Arrival>, departures: seq<Departure>, throws: bool)
    | Fires(fd: int, mask: Mask, reaction: Session.Reaction)
    | Responds(uid: int, msg: Bytes, reaction: Session.Reaction)
    | Closes(fd: int)
    | Forgets(id: nat)

  datatype World = World(
    life: Life,
    sessions: map<nat, Session.State>,  // every connection accepted so far, by its id
    next: nat                           // the id of the next one
  )

  /** A server that has accepted nothing yet. */
  function Opening(register: map<int, Handler>, open: set<int>): World {
    World(Listening(register, open), map[], 0)
  }

  /** A connection that is no longer connected goes through doCloseConnection. */
  function Becomes(w: World, id: nat, t: Session.State): World
    requires id in w.life.conns
  {
    if t.status == Connected then w.(sessions := w.sessions[id := t])
    else World(Step(w.life, Close(id)), w.sessions[id := t.(status := Disconnected)], w.next)
  }

  predicate Listens(w: World, fd: int) {
    fd in w.life.connections && w.life.connections[fd] in w.sessions && w.life.connections[fd] in w.life.conns
  }

  /** What cannot happen now, or finds no connection, does nothing. */
  ghost function After(app: Callbacks, w: World, input: Input): World
    requires Progressing(app)
  {
    match input
    case Accepts(fd, arrivals, departures, throws) =>
      if fd in w.life.open || w.next in w.life.conns then w
      else
        World(Step(w.life, Accept(w.next, fd, throws)),
              w.sessions[w.next := Session.Opened(arrivals, departures)], w.next + 1)
    case Fires(fd, mask, reaction) =>
      if !Listens(w, fd) then w
      else
        var id := w.life.connections[fd];
        Becomes(w, id, Session.HandleEvent(app, w.sessions[id], mask, reaction, false))
    case Responds(uid, msg, reaction) =>
      if !Listens(w, uid) then w
      else
        var id := w.life.connections[uid];
        Becomes(w, id, Session.Send(w.sessions[id], msg, reaction, false))
    case Closes(fd) =>
      if !Listens(w, fd) then w
      else
        var id := w.life.connections[fd];
        Becomes(w, id, Session.CloseConn(w.sessions[id]))
    case Forgets(id) =>
      if Enabled(w.life, Release(id)) then w.(life := Step(w.life, Release(id))) else w
  }

  lemma AcceptsIs(app: Callbacks, w: World, fd: int, arrivals: seq<Arrival>, departures: seq<Departure>)
    requires Progressing(app) && fd !in w.life.open && w.next !in w.life.conns
    ensures After(app, w, Accepts(fd, arrivals, departures, false)) ==
            World(Step(w.life, Accept(w.next, fd, false)),
                  w.sessions[w.next := Session.Opened(arrivals, departures)], w.next + 1)
  {
  }

  lemma ForgetsIs(app: Callbacks, w: World, id: nat)
    requires Progressing(app) && Enabled(w.life, Release(id))
    ensures After(app, w, Forgets(id)) == w.(life := Step(w.life, Release(id)))
  {
  }

  ghost function Run(app: Callbacks, w: World, inputs: seq<Input>): World
    requires Progressing(app)
    decreases |inputs|
  {
    if inputs == [] then w else Run(app, After(app, w, inputs[0]), inputs[1..])
  }

  predicate Throwing(input: Input) {
    input.Accepts? && input.throws
  }

  predicate NoneThrows(inputs: seq<Input>) {
    forall input :: input in inputs ==> !Throwing(input)
  }

  /** What the server knows of a connection is what it is like, and the loop watches it as it should. */
  predicate Agrees(s: Session.State, c: Conn) {
    s.status == c.status && Writing.Interest(s) && (s.status != Connected ==> s.watched == None)
  }

  /** The tables are in order and speak of these connections. */
  ghost predicate Sane(w: World) {
    && Inv(w.life)
    && w.sessions.Keys == w.life.conns.Keys
    && (forall id :: id in w.sessions ==> id < w.next && Agrees(w.sessions[id], w.life.conns[id]))
  }

  /** The connection under a descriptor is connected and everything agrees about it. */
  lemma ListedIsLive(w: World, fd: int)
    requires Sane(w) && fd in w.life.connections
    ensures Listens(w, fd)
    ensures var id := w.life.connections[fd];
            w.life.conns[id] == Conn(fd, Connected) && w.sessions[id].status == Connected && Registered(w.life, id)
            && Writing.Interest(w.sessions[id])
  {
    var id := w.life.connections[fd];
    assert Listed(w.life, id);
  }

  lemma LiveIsListed(w: World, id: nat)
    requires Sane(w) && id in w.sessions && w.sessions[id].status == Connected
    ensures var fd := w.life.conns[id].fd; fd in w.life.connections && w.life.connections[fd] == id
  {
    assert Listed(w.life, id);
  }

  /** Where an input leaves the connections it does not speak of: as they are. */
  predicate OthersAlike(w: World, t: World, except: set<nat>) {
    && w.life.conns.Keys <= t.life.conns.Keys
    && (forall id :: id in w.sessions && id !in except ==>
          id in t.sessions && id in t.life.conns && t.sessions[id] == w.sessions[id])
    && (forall id :: id in w.life.conns ==> id in t.life.conns && t.life.conns[id].fd == w.life.conns[id].fd)
  }

  /** A change to one connection, or a new one. */
  lemma OneChanged(w: World, u: World, id: nat, t: Session.State, c: Conn)
    requires Sane(w) && Inv(u.life) && id < u.next && w.next <= u.next
    requires u.sessions == w.sessions[id := t] && u.life.conns == w.life.conns[id := c] && Agrees(t, c)
    requires id in w.life.conns ==> c.fd == w.life.conns[id].fd
    ensures Sane(u) && OthersAlike(w, u, {id})
  {
    hide Inv, Agrees;
    forall jd | jd in u.sessions ensures jd < u.next && Agrees(u.sessions[jd], u.life.conns[jd]) {
    }
  }

  lemma BecomesSane(w: World, id: nat, t: Session.State)
    requires Sane(w) && id in w.sessions && w.sessions[id].status == Connected
    requires Session.LiveOrClosed(t, w.sessions[id].closeNotices) && Writing.Interest(t)
    ensures var u := Becomes(w, id, t);
            && Sane(u) && OthersAlike(w, u, {id}) && id in u.sessions
            && u.sessions[id] == if t.status == Connected then t else t.(status := Disconnected)
  {
    hide Inv, Writing.Interest, Step, OthersAlike;
    var u, c := Becomes(w, id, t), w.life.conns[id];
    if t.status == Connected {
      assert u.life.conns == w.life.conns[id := c];
      OneChanged(w, u, id, t, c);
    } else {
      CloseStep(w.life, id);
      CloseMarks(w.life, id);
      ClosedInterest(t.(status := Disconnected));
      OneChanged(w, u, id, t.(status := Disconnected), Conn(c.fd, Disconnected));
    }
  }

  lemma CloseMarks(s: Life, id: nat)
    requires id in s.conns && s.conns[id].status == Connected
    ensures Step(s, Close(id)).conns == s.conns[id := Conn(s.conns[id].fd, Disconnected)]
  {
  }

  lemma ClosedInterest(s: Session.State)
    requires s.status != Connected
    ensures Writing.Interest(s)
  {
  }

  /** What an event, a response and a close leave of a live connection. */
  lemma EventOn(app: Callbacks, s: Session.State, mask: Mask, reaction: Session.Reaction)
    requires Progressing(app) && s.status == Connected && Writing.Interest(s)
    ensures var t := Session.HandleEvent(app, s, mask, reaction, false);
            Session.LiveOrClosed(t, s.closeNotices) && Writing.Interest(t)
  {
    hide Session.HandleEvent;
    Session.EventOutcome(app, s, mask, reaction);
    EventKeepsInterest(app, s, mask, reaction);
  }

  lemma ResponseOn(s: Session.State, msg: Bytes, reaction: Session.Reaction)
    requires s.status == Connected && Writing.Interest(s)
    ensures var t := Session.Send(s, msg, reaction, false);
            Session.LiveOrClosed(t, s.closeNotices) && Writing.Interest(t)
  {
    hide Session.SendMsg;
    Session.SendOutcome(Session.Put(s, msg), reaction);
    SendKeepsInterest(s, msg, reaction);
  }

  lemma CloseOn(s: Session.State)
    requires s.status == Connected
    ensures var t := Session.CloseConn(s); Session.LiveOrClosed(t, s.closeNotices) && Writing.Interest(t)
  {
  }

  lemma AcceptSane(w: World, fd: int, arrivals: seq<Arrival>, departures: seq<Departure>)
    requires Sane(w) && fd !in w.life.open
    ensures var t := World(Step(w.life, Accept(w.next, fd, false)),
                           w.sessions[w.next := Session.Opened(arrivals, departures)], w.next + 1);
            Sane(t) && OthersAlike(w, t, {}) && t.life.conns[w.next] == Conn(fd, Connected)
  {
    hide Inv, Writing.Interest, Step;
    var t := World(Step(w.life, Accept(w.next, fd, false)),
                   w.sessions[w.next := Session.Opened(arrivals, departures)], w.next + 1);
    assert w.next !in w.life.conns;
    AcceptStep(w.life, w.next, fd, false);
    AcceptAdds(w.life, w.next, fd);
    OpenedInterest(arrivals, departures);
    OneChanged(w, t, w.next, Session.Opened(arrivals, departures), Conn(fd, Connected));
  }

  lemma AcceptAdds(s: Life, id: nat, fd: int)
    requires Enabled(s, Accept(id, fd, false))
    ensures Step(s, Accept(id, fd, false)).conns == s.conns[id := Conn(fd, Connected)]
  {
  }

  lemma OpenedInterest(arrivals: seq<Arrival>, departures: seq<Departure>)
    ensures Writing.Interest(Session.Opened(arrivals, departures))
  {
    assert 0 in XE_READABLE * XE_READABLE;
  }

  lemma AlikeItself(w: World)
    requires Sane(w)
    ensures OthersAlike(w, w, {})
  {
  }

  lemma ReleaseSane(w: World, id: nat)
    requires Sane(w) && Enabled(w.life, Release(id))
    ensures var t := w.(life := Step(w.life, Release(id))); Sane(t) && OthersAlike(w, t, {})
  {
    hide Inv, Writing.Interest;
    ReleaseStep(w.life, id);
  }

  /** The connection an input is about, if it is about one. */
  function About(w: World, input: Input): set<nat> {
    match input
    case Fires(fd, _, _) => if Listens(w, fd) then {w.life.connections[fd]} else {}
    case Responds(uid, _, _) => if Listens(w, uid) then {w.life.connections[uid]} else {}
    case Closes(fd) => if Listens(w, fd) then {w.life.connections[fd]} else {}
    case _ => {}
  }

  /** Only a throwing connected callback brings a server out of order, and every input speaks of one connection. */
  lemma SaneStep(app: Callbacks, w: World, input: Input)
    requires Progressing(app) && Sane(w) && !Throwing(input)
    ensures Sane(After(app, w, input)) && OthersAlike(w, After(app, w, input), About(w, input))
  {
    hide Sane, Inv, Session.HandleEvent, Session.Send, Session.CloseConn, Writing.Interest, Session.LiveOrClosed, Step;
    AlikeItself(w);
    match input {
      case Accepts(fd, arrivals, departures, _) =>
        if fd !in w.life.open && w.next !in w.life.conns {
          AcceptSane(w, fd, arrivals, departures);
        }
      case Fires(fd, mask, reaction) =>
        if Listens(w, fd) {
          ListedIsLive(w, fd);
          var id := w.life.connections[fd];
          EventOn(app, w.sessions[id], mask, reaction);
          BecomesSane(w, id, Session.HandleEvent(app, w.sessions[id], mask, reaction, false));
        }
      case Responds(uid, msg, reaction) =>
        if Listens(w, uid) {
          ListedIsLive(w, uid);
          var id := w.life.connections[uid];
          ResponseOn(w.sessions[id], msg, reaction);
          BecomesSane(w, id, Session.Send(w.sessions[id], msg, reaction, false));
        }
      case Closes(fd) =>
        if Listens(w, fd) {
          ListedIsLive(w, fd);
          var id := w.life.connections[fd];
          CloseOn(w.sessions[id]);
          BecomesSane(w, id, Session.CloseConn(w.sessions[id]));
        }
      case Forgets(id) =>
        if Enabled(w.life, Release(id)) {
          ReleaseSane(w, id);
        }
    }
  }

  lemma {:induction false} SaneRun(app: Callbacks, w: World, inputs: seq<Input>)
    requires Progressing(app) && Sane(w) && NoneThrows(inputs)
    ensures Sane(Run(app, w, inputs))
    decreases |inputs|
  {
    hide Sane, After;
    if inputs == [] {
    } else {
      assert inputs[0] in inputs && forall x :: x in inputs[1..] ==> x in inputs;
      SaneStep(app, w, inputs[0]);
      SaneRun(app, After(app, w, inputs[0]), inputs[1..]);
    }
  }

  lemma {:induction false} RunAppend(app: Callbacks, w: World, inputs: seq<Input>, more: seq<Input>)
    requires Progressing(app)
    ensures Run(app, w, inputs + more) == Run(app, Run(app, w, inputs), more)
    decreases |inputs|
  {
    if inputs == [] {
      assert inputs + more == more;
    } else {
      assert (inputs + more)[1..] == inputs[1..] + more;
      RunAppend(app, After(app, w, inputs[0]), inputs[1..], more);
    }
  }

  lemma NoInputs(app: Callbacks, w: World)
    requires Progressing(app)
    ensures Run(app, w, []) == w
  {
  }

  lemma RunOne(app: Callbacks, w: World, input: Input)
    requires Progressing(app)
    ensures Run(app, w, [input]) == After(app, w, input)
  {
    hide After;
    assert [input][1..] == [];
  }

  lemma RunSnoc(app: Callbacks, w: World, inputs: seq<Input>, input: Input)
    requires Progressing(app)
    ensures Run(app, w, inputs + [input]) == After(app, Run(app, w, inputs), input)
  {
    hide After;
    RunAppend(app, w, inputs, [input]);
    RunOne(app, Run(app, w, inputs), input);
  }

  // ---------- what one connection sees of a run

  /** The octets of the responses for a descriptor. */
  function MessagesFor(inputs: seq<Input>, fd: int): Bytes {
    if inputs == [] then [] else MessageFor(inputs[0], fd) + MessagesFor(inputs[1..], fd)
  }

  function MessageFor(input: Input, fd: int): Bytes {
    if input.Responds? && input.uid == fd then input.msg else []
  }

  /** The callbacks send nothing themselves. */
  predicate SilentInput(input: Input) {
    (input.Fires? || input.Responds?) ==> Writing.Silent(input.reaction)
  }

  predicate Silents(inputs: seq<Input>) {
    forall input :: input in inputs ==> SilentInput(input)
  }

  /** Where an input leaves one live connection it speaks of. */
  ghost function Touch(app: Callbacks, s: Session.State, input: Input): Session.State
    requires Progressing(app)
  {
    match input
    case Fires(_, mask, reaction) => Session.HandleEvent(app, s, mask, reaction, false)
    case Responds(_, msg, reaction) => Session.Send(s, msg, reaction, false)
    case Closes(_) => Session.CloseConn(s)
    case _ => s
  }

  function Target(input: Input): Option<int> {
    match input
    case Fires(fd, _, _) => Some(fd)
    case Responds(uid, _, _) => Some(uid)
    case Closes(fd) => Some(fd)
    case _ => None
  }

  /** Inputs for its descriptor touch a live connection; no other input does, and none touches a closed one. */
  lemma OneConnection(app: Callbacks, w: World, input: Input, id: nat)
    requires Progressing(app) && Sane(w) && !Throwing(input) && id in w.sessions
    ensures Sane(After(app, w, input))
    ensures var u := After(app, w, input);
            && id in u.sessions && u.life.conns[id].fd == w.life.conns[id].fd
            && if w.sessions[id].status == Connected && Target(input) == Some(w.life.conns[id].fd) then
                 var t := Touch(app, w.sessions[id], input);
                 u.sessions[id] == if t.status == Connected then t else t.(status := Disconnected)
               else u.sessions[id] == w.sessions[id]
  {
    hide Inv, Session.HandleEvent, Session.Send, Session.CloseConn, Writing.Interest, Session.LiveOrClosed,
         Step, Agrees;
    SaneStep(app, w, input);
    if Target(input).Some? {
      var fd := Target(input).value;
      if Listens(w, fd) {
        ListedIsLive(w, fd);
        var jd := w.life.connections[fd];
        TouchesOne(app, w, input, jd);
      }
    }
    if w.sessions[id].status == Connected {
      LiveIsListed(w, id);
    }
  }

  lemma TouchesOne(app: Callbacks, w: World, input: Input, id: nat)
    requires Progressing(app) && Sane(w) && Target(input).Some? && Listens(w, Target(input).value)
    requires id == w.life.connections[Target(input).value]
    ensures var t := Touch(app, w.sessions[id], input);
            After(app, w, input).sessions[id] == if t.status == Connected then t else t.(status := Disconnected)
  {
    hide Inv, Session.HandleEvent, Session.Send, Session.CloseConn, Step, Agrees;
  }

  /** A response appends its message; nothing else appends anything. */
  lemma TouchAppends(app: Callbacks, s: Session.State, input: Input)
    requires Progressing(app) && s.status == Connected && SilentInput(input)
    ensures Touch(app, s, input).appended == s.appended + if input.Responds? then input.msg else []
  {
    hide Session.SendMsg, Session.HandleEvent;
    match input {
      case Fires(_, mask, reaction) => SilentEventAppends(app, s, mask, reaction);
      case Responds(_, msg, reaction) => Writing.SilentFlush(Session.Put(s, msg), reaction, false);
      case _ =>
    }
    assert s.appended + [] == s.appended;
  }

  lemma SilentEventAppends(app: Callbacks, s: Session.State, mask: Mask, reaction: Session.Reaction)
    requires Progressing(app) && Writing.Silent(reaction)
    ensures Session.HandleEvent(app, s, mask, reaction, false).appended == s.appended
  {
    hide Session.SendMsg, Session.ReadMsg;
    Session.ReadOutcome(app, s);
    Writing.SilentFlush(s, reaction, false);
    Writing.SilentFlush(Session.ReadMsg(app, s).1, reaction, false);
  }

  lemma HasConn(w: World, id: nat)
    requires Sane(w) && id in w.sessions
    ensures id in w.life.conns
  {
  }

  /** A closed connection stays as it is. */
  lemma {:induction false} ClosedForGood(app: Callbacks, w: World, inputs: seq<Input>, id: nat)
    requires Progressing(app) && Sane(w) && NoneThrows(inputs)
    requires id in w.sessions && w.sessions[id].status != Connected
    ensures var t := Run(app, w, inputs); id in t.sessions && t.sessions[id] == w.sessions[id]
    decreases |inputs|
  {
    hide After, Sane, Touch;
    if inputs == [] {
    } else {
      assert inputs[0] in inputs && forall x :: x in inputs[1..] ==> x in inputs;
      OneConnection(app, w, inputs[0], id);
      ClosedForGood(app, After(app, w, inputs[0]), inputs[1..], id);
    }
  }

  /** One input and a connection that was live: what it was appended, if it is about its descriptor. */
  lemma StepAppends(app: Callbacks, w: World, input: Input, id: nat)
    requires Progressing(app) && Sane(w) && !Throwing(input) && SilentInput(input)
    requires id in w.sessions && w.sessions[id].status == Connected
    ensures var u := After(app, w, input);
            var fd := w.life.conns[id].fd;
            && Sane(u) && id in u.sessions && u.life.conns[id].fd == fd
            && u.sessions[id].appended == w.sessions[id].appended + MessageFor(input, fd)
  {
    hide After, Inv, Touch, Agrees;
    OneConnection(app, w, input, id);
    TouchAppends(app, w.sessions[id], input);
    assert w.sessions[id].appended + [] == w.sessions[id].appended;
  }

  lemma MessagesFirst(inputs: seq<Input>, n: nat, fd: int)
    requires 0 < n <= |inputs|
    ensures MessagesFor(inputs[..n], fd) == MessageFor(inputs[0], fd) + MessagesFor(inputs[1..][..n - 1], fd)
  {
    assert inputs[..n][1..] == inputs[1..][..n - 1];
  }

  lemma NoMessages(fd: int)
    ensures MessagesFor([], fd) == []
  {
  }

  /**
   Over any run: what is appended to a live connection is the messages of the
   responses for its descriptor, in order, whole and unchanged: all of them if it
   lives through the run, the first of them if it closes.
   */
  lemma {:induction false} AppendedAreResponses(app: Callbacks, w: World, inputs: seq<Input>, id: nat) returns (n: nat)
    requires Progressing(app) && Sane(w) && NoneThrows(inputs) && Silents(inputs)
    requires id in w.sessions && w.sessions[id].status == Connected
    ensures var fd, t := w.life.conns[id].fd, Run(app, w, inputs);
            && n <= |inputs| && id in t.sessions
            && t.sessions[id].appended == w.sessions[id].appended + MessagesFor(inputs[..n], fd)
            && (t.sessions[id].status == Connected ==> n == |inputs|)
    decreases |inputs|
  {
    hide After, Sane, MessagesFor, MessageFor, SilentInput;
    HasConn(w, id);
    var fd := w.life.conns[id].fd;
    NoMessages(fd);
    if inputs == [] {
      n := 0;
      assert w.sessions[id].appended + [] == w.sessions[id].appended;
    } else {
      var input, rest := inputs[0], inputs[1..];
      assert input in inputs && forall x :: x in rest ==> x in inputs;
      var u := After(app, w, input);
      StepAppends(app, w, input, id);
      var m := 0;
      if u.sessions[id].status == Connected {
        m := AppendedAreResponses(app, u, rest, id);
      } else {
        ClosedForGood(app, u, rest, id);
        assert MessageFor(input, fd) + [] == MessageFor(input, fd);
      }
      n := m + 1;
      MessagesFirst(inputs, n, fd);
      Associate(w.sessions[id].appended, MessageFor(input, fd), MessagesFor(rest[..m], fd));
    }
  }
}
