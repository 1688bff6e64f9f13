/**
 Every connection of a server from accept to close (net/xserver.cpp,
 net/listener.cpp, net/connection.cpp), between the callbacks of the loop.
 Connections are named by an id; descriptors are reused once closed.
 `Server.Server` is the class these functions specify.
 */
module Lifecycle {
  import opened EventLoop
  import opened Statuses

  datatype Conn = Conn(fd: int, status: Status)

  datatype Life = Life(
    conns: map<nat, Conn>,         // every connection accepted so far
    connections: map<int, nat>,    // connections_
    register: map<int, Handler>,   // whose callback the loop has for a descriptor
    open: set<int>,                // descriptors open in the process
    held: set<nat>,                // connections whose socket object still owns its descriptor
    closed: seq<nat>               // calls of the user's close callback
  )

  datatype Action =
    | Accept(id: nat, fd: int, throws: bool)  // throws: the user's connected callback lets an exception out
    | Close(id: nat)                          // closeConn, from whichever callback or timer
    | Release(id: nat)                        // the last reference goes and the socket closes

  /** The kernel hands out closed descriptors; an object is released once, and not while the server refers to it. */
  predicate Enabled(s: Life, a: Action) {
    match a
    case Accept(id, fd, _) => id !in s.conns && fd !in s.open
    case Close(id) => id in s.conns
    case Release(id) => id in s.held && id in s.conns && id !in s.connections.Values
  }

  /** closeConn would go through to doCloseConnection. */
  predicate Closes(s: Life, id: nat)
    requires id in s.conns
  {
    s.conns[id].status != Disconnected && s.conns[id].status != Disconnecting
  }

  /** What a step does to the tables, its assertions aside. */
  function Step(s: Life, a: Action): Life
    requires Enabled(s, a)
  {
    match a
    case Accept(id, fd, throws) =>
      s.(conns := s.conns[id := Conn(fd, Connected)],
         connections := s.connections[fd := id],
         register := s.register[fd := OfConnection(id)],
         open := if throws then s.open else s.open + {fd},
         held := s.held + {id})
    case Close(id) =>
      if !Closes(s, id) then s
      else
        var c := s.conns[id];
        s.(conns := s.conns[id := c.(status := Disconnected)],
           register := s.register - {c.fd},
           connections := s.connections - {c.fd},
           closed := s.closed + [id])
    case Release(id) => s.(open := s.open - {s.conns[id].fd}, held := s.held - {id})
  }

  /**
   The assertions on the way: doCloseConnection erases one entry; and a
   descriptor that is registered although it was closed is no longer known to the
   kernel, so that registering it again or removing it fails in xEpoller::ctrl.
   */
  predicate Passes(s: Life, a: Action)
    requires Enabled(s, a)
  {
    match a
    case Accept(id, fd, _) => fd !in s.register
    case Close(id) =>
      var fd := s.conns[id].fd;
      Closes(s, id) ==> (fd in s.register ==> fd in s.open) && fd in s.connections
    case Release(_) => true
  }

  /** None is a failing assertion. */
  function Next(s: Life, a: Action): Option<Life>
    requires Enabled(s, a)
  {
    if Passes(s, a) then Some(Step(s, a)) else None
  }

  function CloseConn(s: Life, id: nat): Option<Life>
    requires id in s.conns
  {
    Next(s, Close(id))
  }

  /** In `connections_` under its own descriptor. */
  predicate Listed(s: Life, id: nat)
    requires id in s.conns
  {
    var fd := s.conns[id].fd;
    fd in s.connections && s.connections[fd] == id
  }

  /** Registered in the loop with its own handler. */
  predicate Registered(s: Life, id: nat)
    requires id in s.conns
  {
    var fd := s.conns[id].fd;
    fd in s.register && s.register[fd] == OfConnection(id)
  }

  /** Listed, registered with its own handler, and connected are the same thing. */
  ghost predicate Consistent(s: Life) {
    forall id :: id in s.conns ==>
      && Listed(s, id) == Registered(s, id) == (s.conns[id].status == Connected)
      && (s.conns[id].status == Connected || s.conns[id].status == Disconnected)
  }

  /** Listed connections still own the descriptor they are listed under. */
  ghost predicate Owned(s: Life) {
    forall fd :: fd in s.connections ==>
      s.connections[fd] in s.held && s.connections[fd] in s.conns && s.conns[s.connections[fd]].fd == fd
  }

  /** Owned descriptors are open, owned once, and watched by nobody but their owner; what is watched is open. */
  ghost predicate Descriptors(s: Life) {
    && s.held <= s.conns.Keys
    && s.register.Keys <= s.open
    && (forall id :: id in s.held ==> s.conns[id].fd in s.open)
    && (forall id, jd :: id in s.held && jd in s.held && s.conns[id].fd == s.conns[jd].fd ==> id == jd)
    && (forall id :: id in s.held && s.conns[id].fd in s.register ==> s.register[s.conns[id].fd] == OfConnection(id))
  }

  /** The close callback has run once for each closed connection and for no other. */
  ghost predicate ClosedOnce(s: Life) {
    forall id :: multiset(s.closed)[id] == if id in s.conns && s.conns[id].status == Disconnected then 1 else 0
  }

  ghost predicate Inv(s: Life) {
    Consistent(s) && Owned(s) && Descriptors(s) && ClosedOnce(s)
  }

  lemma AcceptStep(s: Life, id: nat, fd: int, throws: bool)
    requires Inv(s) && Enabled(s, Accept(id, fd, throws))
    ensures Next(s, Accept(id, fd, throws)).Some?
    ensures Inv(Next(s, Accept(id, fd, throws)).value) <==> !throws
    ensures fd !in s.connections && fd !in s.register
  {
    AcceptIsNew(s, id, fd);
    AcceptConsistent(s, id, fd, throws);
    AcceptDescriptorsIff(s, id, fd, throws);
  }

  lemma AcceptIsNew(s: Life, id: nat, fd: int)
    requires Owned(s) && Descriptors(s) && id !in s.conns && fd !in s.open
    ensures fd !in s.connections && fd !in s.register && id !in s.held
  {
  }

  lemma AcceptConsistent(s: Life, id: nat, fd: int, throws: bool)
    requires Consistent(s) && Owned(s) && ClosedOnce(s) && Enabled(s, Accept(id, fd, throws))
    requires fd !in s.connections && fd !in s.register
    ensures var t := Step(s, Accept(id, fd, throws)); Consistent(t) && Owned(t) && ClosedOnce(t)
  {
    var t := Step(s, Accept(id, fd, throws));
    forall jd | jd in s.conns
      ensures Listed(t, jd) == Registered(t, jd) == (t.conns[jd].status == Connected)
    {
      assert Listed(s, jd) == Registered(s, jd) == (s.conns[jd].status == Connected);
    }
  }

  lemma AcceptDescriptorsIff(s: Life, id: nat, fd: int, throws: bool)
    requires Descriptors(s) && Enabled(s, Accept(id, fd, throws))
    ensures Descriptors(Step(s, Accept(id, fd, throws))) <==> !throws
  {
    var t := Step(s, Accept(id, fd, throws));
    assert fd in t.register;
    assert throws ==> fd !in t.open;
  }

  lemma CloseStep(s: Life, id: nat)
    requires Inv(s) && id in s.conns
    ensures CloseConn(s, id) == Next(s, Close(id)) && CloseConn(s, id).Some? && Inv(CloseConn(s, id).value)
    ensures if s.conns[id].status == Connected then s.conns[id].fd in s.connections
            else s.conns[id].status == Disconnected && CloseConn(s, id) == Some(s)
  {
    assert Listed(s, id) == Registered(s, id) == (s.conns[id].status == Connected);
    if s.conns[id].status == Connected {
      CloseConsistent(s, id);
      CloseOwned(s, id);
    }
  }

  lemma CloseConsistent(s: Life, id: nat)
    requires Consistent(s) && ClosedOnce(s) && id in s.conns && s.conns[id].status == Connected
    ensures Consistent(Step(s, Close(id))) && ClosedOnce(Step(s, Close(id)))
  {
    var t := Step(s, Close(id));
    assert Listed(s, id) && Registered(s, id);
    forall jd | jd in s.conns
      ensures Listed(t, jd) == Registered(t, jd) == (t.conns[jd].status == Connected)
    {
      assert Listed(s, jd) == Registered(s, jd) == (s.conns[jd].status == Connected);
    }
  }

  lemma CloseOwned(s: Life, id: nat)
    requires Owned(s) && Descriptors(s) && id in s.conns
    ensures Owned(Step(s, Close(id))) && Descriptors(Step(s, Close(id)))
  {
  }

  lemma RegisteredIsConnected(s: Life, id: nat)
    requires Inv(s) && id in s.conns && Registered(s, id)
    ensures s.conns[id].status == Connected
  {
  }

  lemma ReleaseStep(s: Life, id: nat)
    requires Inv(s) && Enabled(s, Release(id))
    ensures Inv(Next(s, Release(id)).value)
    ensures s.conns[id].fd !in s.register
    ensures var t := Next(s, Release(id)).value;
            id !in t.held && s.conns[id].fd !in t.open && t.open == s.open - {s.conns[id].fd}
  {
    var t := Next(s, Release(id)).value;
    assert !Listed(s, id);
    assert forall fd :: fd in s.connections ==> s.connections[fd] in s.connections.Values;
    assert s.conns[id].fd !in s.register;
  }

  /** Nothing the server does breaks the invariant or fails an assertion; a throwing connected callback does. */
  lemma InvStepIff(s: Life, a: Action)
    requires Inv(s) && Enabled(s, a)
    ensures (var t := Next(s, a); t.Some? && Inv(t.value)) <==> !(a.Accept? && a.throws)
  {
    match a {
      case Accept(id, fd, throws) => AcceptStep(s, id, fd, throws);
      case Close(id) => CloseStep(s, id);
      case Release(id) => ReleaseStep(s, id);
    }
  }

  // ---------- every run

  /** No step of the run is refused by the kernel or the reference counts. */
  ghost predicate Possible(s: Life, run: seq<Action>)
    decreases |run|
  {
    run != [] ==> Enabled(s, run[0]) && Possible(Step(s, run[0]), run[1..])
  }

  /** None as soon as an assertion fails. */
  ghost function Run(s: Life, run: seq<Action>): Option<Life>
    requires Possible(s, run)
    decreases |run|
  {
    if run == [] then Some(s)
    else if !Passes(s, run[0]) then None
    else Run(Step(s, run[0]), run[1..])
  }

  predicate Throws(a: Action) {
    a.Accept? && a.throws
  }

  /** No connected callback throws in the run. */
  predicate Quiet(run: seq<Action>) {
    forall a :: a in run ==> !Throws(a)
  }

  lemma {:induction false} InvRun(s: Life, run: seq<Action>)
    requires Inv(s) && Possible(s, run) && Quiet(run)
    ensures Run(s, run).Some? && Inv(Run(s, run).value)
    decreases |run|
  {
    if run == [] {
    } else {
      hide Inv;
      assert run[0] in run;
      assert forall a :: a in run[1..] ==> a in run;
      InvStepIff(s, run[0]);
      InvRun(Step(s, run[0]), run[1..]);
    }
  }

  /** A server that has only its listener and its loop. */
  function Listening(register: map<int, Handler>, open: set<int>): Life {
    Life(map[], map[], register, open, {}, [])
  }

  /**
   Over every run without such an exception: no assertion fails; a connection is
   in `connections_` under its own descriptor iff it is connected iff the loop has
   its handler for that descriptor; and the close callback has run exactly once
   for every connection that was closed and never for one that was not.
   */
  lemma EveryRun(register: map<int, Handler>, open: set<int>, run: seq<Action>, id: nat)
    requires register.Keys <= open && Possible(Listening(register, open), run) && Quiet(run)
    ensures var r := Run(Listening(register, open), run);
            && r.Some?
            && var s := r.value;
               id in s.conns ==>
                 && (Listed(s, id) <==> s.conns[id].status == Connected)
                 && (Registered(s, id) <==> s.conns[id].status == Connected)
                 && multiset(s.closed)[id] == (if s.conns[id].status == Connected then 0 else 1)
  {
    var s := Listening(register, open);
    assert Inv(s);
    InvRun(s, run);
  }

  /** Some connection still owns the descriptor. */
  ghost predicate Held(s: Life, fd: int) {
    exists id :: id in s.held && id in s.conns && s.conns[id].fd == fd
  }

  /** The descriptors open are those the server started with and those its connections own. */
  ghost predicate NoLeak(open: set<int>, s: Life) {
    && (forall fd :: fd in s.open <==> fd in open || Held(s, fd))
    && (forall fd :: fd in open ==> !Held(s, fd))
  }

  /** What a step does to who owns a descriptor. */
  lemma HeldAfter(s: Life, a: Action, fd: int)
    requires Descriptors(s) && Enabled(s, a)
    ensures Held(Step(s, a), fd) <==>
            match a
            case Accept(id, at, _) => Held(s, fd) || at == fd
            case Close(_) => Held(s, fd)
            case Release(id) => Held(s, fd) && s.conns[id].fd != fd
  {
    var t := Step(s, a);
    if Held(s, fd) {
      var id :| id in s.held && id in s.conns && s.conns[id].fd == fd;
      assert a != Release(id) ==> id in t.held && id in t.conns && t.conns[id].fd == fd;
    }
    if Held(t, fd) {
      var id :| id in t.held && id in t.conns && t.conns[id].fd == fd;
      assert id in s.held ==> s.conns[id].fd == fd;
    }
    if a.Accept? && a.fd == fd {
      assert a.id in t.held && t.conns[a.id].fd == fd;
    }
  }

  lemma NoLeakStep(open: set<int>, s: Life, a: Action)
    requires Inv(s) && NoLeak(open, s) && Enabled(s, a) && !Throws(a)
    ensures NoLeak(open, Step(s, a))
  {
    hide Consistent, Owned, ClosedOnce, Held, Descriptors;
    if a.Release? {
      ReleasedIsHeld(s, a.id);
    }
    var t := Step(s, a);
    forall fd
      ensures (fd in t.open <==> fd in open || Held(t, fd)) && (fd in open ==> !Held(t, fd))
    {
      HeldAfter(s, a, fd);
    }
  }

  lemma ReleasedIsHeld(s: Life, id: nat)
    requires id in s.held && id in s.conns
    ensures Held(s, s.conns[id].fd)
  {
  }

  lemma {:induction false} NoLeakRun(open: set<int>, s: Life, run: seq<Action>)
    requires Inv(s) && NoLeak(open, s) && Possible(s, run) && Quiet(run)
    ensures Run(s, run).Some? && NoLeak(open, Run(s, run).value)
    decreases |run|
  {
    if run == [] {
    } else {
      hide Inv, NoLeak, Step;
      assert run[0] in run && forall a :: a in run[1..] ==> a in run;
      InvStepIff(s, run[0]);
      NoLeakStep(open, s, run[0]);
      NoLeakRun(open, Step(s, run[0]), run[1..]);
    }
  }

  /** In every state of every such run no descriptor is left open that no connection owns, and none is owned closed. */
  lemma OpenAreOwned(register: map<int, Handler>, open: set<int>, run: seq<Action>, fd: int)
    requires register.Keys <= open && Possible(Listening(register, open), run) && Quiet(run)
    ensures var r := Run(Listening(register, open), run);
            && r.Some?
            && (fd in r.value.open <==> fd in open || Held(r.value, fd))
  {
    var s := Listening(register, open);
    assert Inv(s) && NoLeak(open, s);
    NoLeakRun(open, s, run);
  }

  // ---------- exactly when it holds

  /** The tables name the same connections and each closed one was reported once. */
  ghost predicate Sound(s: Life) {
    Consistent(s) && ClosedOnce(s)
  }

  /** What can still happen without another exception fails no assertion and keeps the tables sound. */
  ghost predicate Safe(s: Life) {
    forall run :: Possible(s, run) && Quiet(run) ==> Run(s, run).Some? && Sound(Run(s, run).value)
  }

  lemma InvIsSafe(s: Life)
    requires Inv(s)
    ensures Safe(s)
  {
    forall run | Possible(s, run) && Quiet(run)
      ensures Run(s, run).Some? && Sound(Run(s, run).value)
    {
      InvRun(s, run);
    }
  }

  lemma RunOfOne(s: Life, a: Action)
    requires Enabled(s, a)
    ensures Possible(s, [a]) && Run(s, [a]) == Next(s, a)
    ensures Quiet([a]) <==> !Throws(a)
  {
    assert a in [a];
    assert [a][1..] == [];
    assert Possible(Step(s, a), []);
  }

  /** An id no connection has. */
  lemma {:induction false} UnusedId(used: set<nat>) returns (id: nat)
    ensures forall u :: u in used ==> u < id
    decreases |used|
  {
    if used == {} {
      id := 0;
    } else {
      var u :| u in used;
      var rest := UnusedId(used - {u});
      id := if rest <= u then u + 1 else rest;
      assert forall v :: v in used ==> v == u || v in used - {u};
    }
  }

  /**
   After an exception the kernel can hand out the same descriptor next.
   Registering it fails the assertion in ctrl; in a build without assertions it
   leaves two connected connections under one entry.
   */
  lemma AfterThrow(s: Life, id: nat, fd: int) returns (again: Action)
    requires Enabled(s, Accept(id, fd, true))
    ensures var t := Step(s, Accept(id, fd, true));
            Enabled(t, again) && !Throws(again) && !Passes(t, again) && !Sound(Step(t, again))
  {
    var t := Step(s, Accept(id, fd, true));
    var jd := UnusedId(t.conns.Keys);
    again := Accept(jd, fd, false);
    var u := Step(t, again);
    assert id in u.conns && u.conns[id].status == Connected && !Listed(u, id);
  }

  lemma UnsafeAfterThrow(s: Life, id: nat, fd: int)
    requires Enabled(s, Accept(id, fd, true))
    ensures !Safe(Step(s, Accept(id, fd, true)))
  {
    hide Enabled, Step, Passes;
    var t := Step(s, Accept(id, fd, true));
    var again := AfterThrow(s, id, fd);
    RunOfOne(t, again);
    var run := [again];
    assert Possible(t, run) && Quiet(run) && Run(t, run) == None;
  }

  /** Accepting leaves a sound server safe exactly when the connected callback does not throw. */
  lemma AcceptSafeIff(s: Life, id: nat, fd: int, throws: bool)
    requires Inv(s) && Enabled(s, Accept(id, fd, throws))
    ensures Safe(Step(s, Accept(id, fd, throws))) <==> !throws
  {
    if throws {
      UnsafeAfterThrow(s, id, fd);
    } else {
      AcceptStep(s, id, fd, throws);
      InvIsSafe(Step(s, Accept(id, fd, throws)));
    }
  }

  /** Every state the run goes through is safe. */
  ghost predicate SafeThroughout(s: Life, run: seq<Action>)
    requires Possible(s, run)
    decreases |run|
  {
    Safe(s) && (run != [] ==> SafeThroughout(Step(s, run[0]), run[1..]))
  }

  lemma {:induction false} SafeThroughoutIffFrom(s: Life, run: seq<Action>)
    requires Inv(s) && Possible(s, run)
    ensures SafeThroughout(s, run) <==> Quiet(run)
    decreases |run|
  {
    InvIsSafe(s);
    if run == [] {
    } else {
      hide Inv, Safe;
      var a, rest := run[0], run[1..];
      assert run == [a] + rest;
      if Throws(a) {
        UnsafeAfterThrow(s, a.id, a.fd);
        assert !Quiet(run) by { assert a in run; }
        assert !SafeThroughout(Step(s, a), rest);
      } else {
        InvStepIff(s, a);
        SafeThroughoutIffFrom(Step(s, a), rest);
        assert Quiet(run) <==> Quiet(rest);
      }
    }
  }

  /** For every run of a server: it goes through safe states only, exactly when no connected callback throws in it. */
  lemma EveryRunSafeIff(register: map<int, Handler>, open: set<int>, run: seq<Action>)
    requires register.Keys <= open && Possible(Listening(register, open), run)
    ensures SafeThroughout(Listening(register, open), run) <==> Quiet(run)
  {
    assert Inv(Listening(register, open));
    SafeThroughoutIffFrom(Listening(register, open), run);
  }

  /** The tables after a run in a build whose assertions are compiled out. */
  ghost function Unchecked(s: Life, run: seq<Action>): Life
    requires Possible(s, run)
    decreases |run|
  {
    if run == [] then s else Unchecked(Step(s, run[0]), run[1..])
  }

  /**
   A callback throws and the kernel reuses descriptor 5. With assertions neither
   closing that connection nor accepting the next one gets through. Without them,
   after the next accept, connection 0 is connected and neither listed nor
   registered; closing it erases and deregisters connection 1, which then closes
   without an entry to erase.
   */
  lemma ThrowWitness(handlers: map<int, Handler>)
    requires handlers.Keys <= {3, 4}
    ensures var s := Listening(handlers, {3, 4});
            && Possible(s, [Accept(0, 5, true), Close(0)]) && Run(s, [Accept(0, 5, true), Close(0)]) == None
            && Possible(s, [Accept(0, 5, true), Accept(1, 5, false)])
            && Run(s, [Accept(0, 5, true), Accept(1, 5, false)]) == None
            && var t := Unchecked(s, [Accept(0, 5, true), Accept(1, 5, false)]);
               && t.conns[0].status == Connected && !Listed(t, 0) && !Registered(t, 0)
               && Enabled(t, Close(0)) && var u := Step(t, Close(0));
                  u.conns[1].status == Connected && !Listed(u, 1) && !Registered(u, 1) && !Passes(u, Close(1))
  {
    var s := Listening(handlers, {3, 4});
    var a, b := Accept(0, 5, true), Accept(1, 5, false);
    var s1 := Step(s, a);
    RunOfTwo(s, a, Close(0));
    RunOfTwo(s, a, b);
    var s2 := Step(s1, b);
    assert [a, b][1..] == [b] && [b][1..] == [];
    assert Unchecked(s2, []) == s2 && Unchecked(s1, [b]) == s2;
    assert Step(s2, Close(0)).connections == map[];
  }

  lemma RunOfTwo(s: Life, a: Action, b: Action)
    requires Enabled(s, a) && Passes(s, a) && Enabled(Step(s, a), b)
    ensures Possible(s, [a, b]) && Run(s, [a, b]) == Next(Step(s, a), b)
  {
    assert [a, b][1..] == [b];
    RunOfOne(Step(s, a), b);
  }

  lemma NoRun(s: Life)
    ensures Possible(s, []) && Run(s, []) == Some(s) && Quiet([])
  {
  }

  lemma QuietAppend(run: seq<Action>, more: seq<Action>)
    ensures Quiet(run + more) <==> Quiet(run) && Quiet(more)
  {
    assert forall a :: a in run + more <==> a in run || a in more;
  }

  /** Runs put together. */
  lemma {:induction false} RunAppend(s: Life, run: seq<Action>, more: seq<Action>)
    requires Possible(s, run) && Run(s, run).Some? && Possible(Run(s, run).value, more)
    ensures Possible(s, run + more) && Run(s, run + more) == Run(Run(s, run).value, more)
    decreases |run|
  {
    if run == [] {
      assert run + more == more;
    } else {
      assert (run + more)[1..] == run[1..] + more;
      RunAppend(Step(s, run[0]), run[1..], more);
    }
  }

  /** Accepting never replaces the entry of a live connection. */
  lemma AcceptNeverOverwrites(s: Life, id: nat, fd: int, throws: bool)
    requires Inv(s) && Enabled(s, Accept(id, fd, throws))
    ensures forall jd :: jd in s.conns && Listed(s, jd) ==> Listed(Step(s, Accept(id, fd, throws)), jd)
  {
    AcceptStep(s, id, fd, throws);
  }
}
