/** The connection table of xServer (net/xserver.cpp), specified by `Lifecycle` and `Traffic`. */
module Server {
  import opened EventLoop
  import opened Bytes
  import opened Statuses
  import opened Kernel
  import opened Framing
  import opened Connection
  import Session
  import Events
  import Writing
  import Traffic
  import opened Lifecycle

  lemma KeyOf<K, V>(m: map<K, V>, v: V) returns (k: K)
    requires v in m.Values
    ensures k in m && m[k] == v
  {
    k :| k in m && m[k] == v;
  }

  class Server {
    const loop: Loop
    const app: Callbacks                   // the decoder and messageComing, the same for every connection
    var connections: map<int, Connection>
    var nextId: nat
    var conns: map<nat, Connection>        // every connection accepted so far, by its id
    var held: set<nat>                     // those whose socket object still owns its descriptor
    ghost var closed: seq<nat>             // calls of the user's close callback

    ghost function View(): Life
      reads this, conns.Values, loop, loop.poller
    {
      Life(map id | id in conns :: Conn(conns[id].fd, conns[id].status),
           map fd | fd in connections :: connections[fd].id,
           map fd | fd in loop.register :: loop.register[fd].callback,
           loop.poller.open, held, closed)
    }

    /** The ids name the connections. */
    ghost predicate Separate()
      reads this, conns.Values
    {
      && (forall id :: id in conns ==> conns[id].id == id < nextId && conns[id].loop == loop && conns[id].app == app)
      && (forall fd :: fd in connections ==>
            connections[fd].id in conns && conns[connections[fd].id] == connections[fd])
      && (forall id, jd :: id in conns && jd in conns && id != jd ==> conns[id] != conns[jd])
    }

    /** The tables agree with each other and with the kernel. */
    ghost predicate Tables()
      reads this, conns.Values, loop, loop.poller
    {
      Separate() && loop.Valid() && Inv(View())
    }

    ghost function Buffers(): set<object>
      reads this
    {
      (set id | id in conns :: conns[id].readBuff) + (set id | id in conns :: conns[id].writeBuff)
    }

    /** Every connection is in order, and no two of them share an object. */
    ghost predicate Apart()
      reads this, Buffers()
    {
      && (forall id :: id in conns ==> conns[id].Sound())
      && (forall id, jd :: id in conns && jd in conns && id != jd ==> conns[id].Distinct(conns[jd]))
    }

    ghost predicate Orderly()
      reads this, conns.Values, Buffers(), loop, loop.poller
    {
      Progressing(app) && Tables() && Apart()
    }

    /** Everything the connections own. */
    ghost function Objects(): set<object>
      reads this, Buffers()
    {
      set id, o | id in conns && o in conns[id].Footprint() :: o
    }

    constructor (loop: Loop, app: Callbacks)
      requires loop.Valid() && Progressing(app)
      ensures Valid() && this.loop == loop && this.app == app && conns == map[]
      ensures World() ==
              Traffic.Opening(map fd | fd in loop.register :: loop.register[fd].callback, loop.poller.open)
    {
      this.loop, this.app := loop, app;
      connections, nextId := map[], 0;
      conns, held, closed := map[], {}, [];
    }

    /** doCloseConnection; the assertion that one entry was erased is the precondition. */
    method DoCloseConnection(c: Connection)
      requires c.fd in connections && c.Valid()
      modifies this`connections, this`closed, c`status
      ensures connections == old(connections) - {c.fd}
      ensures closed == old(closed) + [c.id]
      ensures c.Valid() && c.status == Disconnected && c.View() == old(c.View()).(status := Disconnected)
    {
      connections := connections - {c.fd};
      closed := closed + [c.id];
      c.status := Disconnected;  // setClosed
    }

    /** Nothing the view shows has changed, except possibly for one connection. */
    twostate predicate OthersKept(except: Connection)
      reads this, conns.Values, loop, loop.poller
    {
      && conns == old(conns) && held == old(held) && nextId == old(nextId)
      && loop.poller.open == old(loop.poller.open)
      && forall id :: id in conns && conns[id] != except ==> conns[id].status == old(conns[id].status)
    }

    twostate lemma SameView(c: Connection)
      requires OthersKept(c) && c.status == old(c.status)
      requires connections == old(connections) && closed == old(closed) && loop.register == old(loop.register)
      ensures View() == old(View()) && (old(Separate()) ==> Separate())
    {
    }

    twostate lemma ClosedView(c: Connection)
      requires old(Separate()) && OthersKept(c) && c.id in conns && conns[c.id] == c
      requires old(c.status) == Connected && c.status == Disconnected
      requires c.fd in old(connections) && (c.fd in old(loop.register) ==> c.fd in old(loop.poller.open))
      requires connections == old(connections) - {c.fd} && closed == old(closed) + [c.id]
      requires loop.register == old(loop.register) - {c.fd}
      ensures Some(View()) == Lifecycle.CloseConn(old(View()), c.id) && Separate()
    {
      var v, w := old(View()), View();
      assert v.conns[c.id] == Conn(c.fd, Connected);
      assert w.conns == v.conns[c.id := Conn(c.fd, Disconnected)];
      assert w.connections == v.connections - {c.fd};
      assert w.register == v.register - {c.fd};
    }

    lemma Shows(c: Connection)
      requires Separate() && c.id in conns && conns[c.id] == c
      ensures c.loop == loop && c.id < nextId
      ensures c.id in View().conns && View().conns[c.id] == Conn(c.fd, c.status)
      ensures c.fd in View().connections <==> c.fd in connections
      ensures c.fd in loop.register && loop.register[c.fd].callback == OfConnection(c.id) ==> Registered(View(), c.id)
      ensures loop.Valid() && c.fd in loop.register ==> c.fd in loop.poller.open
    {
    }

    /** closeConn with the server's close callback, and what it does to the tables. */
    method CloseTabled(c: Connection)
      requires Tables() && c.id in conns && conns[c.id] == c && c.Valid()
      modifies this`connections, this`closed, c`status, c`closeNotices, loop`register, loop.poller`interest
      ensures Tables() && c.Valid() && conns == old(conns) && c.OthersKept()
      ensures c.View() == (if old(c.status) == Connected
                           then Session.CloseConn(old(c.View())).(status := Disconnected) else old(c.View()))
      ensures old(c.status) != Connected ==> loop.register == old(loop.register) && View() == old(View())
      ensures Some(View()) == Lifecycle.CloseConn(old(View()), c.id)
    {
      hide Inv, Progressing, Session.CloseConn, Lifecycle.CloseConn, View,
           Connection.View, Connection.OthersKept, Apply;
      Shows(c);
      Sees(c);
      CloseStep(View(), c.id);
      ClosedAlready(c.View());
      var notify := c.CloseConn();
      if notify {
        DoCloseConnection(c);
        ClosedView(c);
      } else {
        SameView(c);
      }
    }

    lemma ClosedAlready(s: Session.State)
      ensures s.status == Disconnected ==> Session.CloseConn(s) == s
    {
    }

    lemma NewId()
      requires Separate()
      ensures nextId !in conns
    {
    }

    /** None of these connections changed its status. */
    twostate predicate Steady(cs: set<Connection>)
      reads cs
    {
      forall c :: c in cs ==> c.status == old(c.status)
    }

    lemma NotRegistered(fd: int)
      requires Inv(View()) && fd !in loop.poller.open
      ensures fd !in loop.register
    {
      assert fd !in View().register;
    }

    twostate lemma Untouched(cs: set<Connection>)
      requires forall c :: c in cs ==> unchanged(c)
      ensures Steady(cs)
    {
    }

    method Insert(c: Connection)
      modifies this`connections, this`conns, this`held, this`nextId
      ensures connections == old(connections)[c.fd := c]
      ensures conns == old(conns)[c.id := c] && held == old(held) + {c.id} && nextId == old(nextId) + 1
    {
      connections := connections[c.fd := c];
      conns, held, nextId := conns[c.id := c], held + {c.id}, nextId + 1;
    }

    twostate lemma StillSeparate(new c: Connection)
      requires old(Separate()) && c !in old(conns.Values) && c.id == old(nextId) && nextId == c.id + 1 && c.loop == loop
      requires c.app == app
      requires conns == old(conns)[c.id := c] && connections == old(connections)[c.fd := c]
      ensures Separate()
    {
      forall id | id in old(conns)
        ensures conns[id] != c
      {
        assert old(conns)[id] in old(conns.Values);
      }
    }

    twostate lemma AcceptedConns(new c: Connection)
      requires conns == old(conns)[c.id := c] && c.status == Connected
      requires c.id !in old(conns) && Steady(old(conns.Values))
      ensures View().conns == old(View()).conns[c.id := Conn(c.fd, Connected)]
    {
      forall id | id in old(conns)
        ensures View().conns[id] == old(View()).conns[id]
      {
        assert old(conns)[id] in old(conns.Values);
      }
    }

    twostate lemma AcceptedMaps(new c: Connection)
      requires connections == old(connections)[c.fd := c]
      requires loop.register == old(loop.register)[c.fd := EventState(XE_READABLE, 0, OfConnection(c.id))]
      ensures View().connections == old(View()).connections[c.fd := c.id]
      ensures View().register == old(View()).register[c.fd := OfConnection(c.id)]
    {
    }

    twostate lemma AcceptedView(new c: Connection, throws: bool)
      requires View().conns == old(View()).conns[c.id := Conn(c.fd, Connected)]
      requires View().connections == old(View()).connections[c.fd := c.id]
      requires View().register == old(View()).register[c.fd := OfConnection(c.id)]
      requires held == old(held) + {c.id} && closed == old(closed)
      requires c.fd !in old(loop.poller.open) && c.fd !in old(loop.register) && c.id !in old(conns)
      requires loop.poller.open == if throws then old(loop.poller.open) else old(loop.poller.open) + {c.fd}
      ensures Enabled(old(View()), Accept(c.id, c.fd, throws))
      ensures Some(View()) == Next(old(View()), Accept(c.id, c.fd, throws))
    {
    }

    /** The descriptor from accept(2), and the connection object for it. */
    method Create(sock: Socket) returns (c: Connection)
      requires loop.Valid() && Progressing(app)
      modifies loop.poller`open
      ensures loop.Valid() && loop.poller.open == old(loop.poller.open) + {sock.fd}
      ensures c.Valid() && c.loop == loop && c.id == nextId && c.sock == sock && c.fd == sock.fd && c.app == app
      ensures fresh(c)
      ensures fresh(c.readBuff) && fresh(c.readBuff.buffer) && fresh(c.writeBuff) && fresh(c.writeBuff.buffer)
      ensures c.View().(status := Connected, watched := Some(XE_READABLE)) ==
              Session.Opened(sock.arrivals, sock.departures).(accepted := sock.accepted)
    {
      hide Connection.View, Connection.Sound;
      loop.poller.OpenDescriptor(sock.fd);
      c := new Connection(nextId, loop, sock, app);
    }

    /** acceptNewConnection up to the connected callback. */
    method Enter(sock: Socket) returns (c: Connection)
      requires Tables() && Progressing(app) && sock.fd !in loop.poller.open
      modifies this`connections, this`conns, this`held, this`nextId, loop`register, loop.poller
      ensures Separate() && loop.Valid() && c.Valid() && c.loop == loop
      ensures c.id == old(nextId) && c.id !in old(conns) && c.sock == sock && c.fd == sock.fd && c.app == app
      ensures fresh(c)
      ensures fresh(c.readBuff) && fresh(c.readBuff.buffer) && fresh(c.writeBuff) && fresh(c.writeBuff.buffer)
      ensures c.View() == Session.Opened(sock.arrivals, sock.departures).(accepted := sock.accepted)
      ensures conns == old(conns)[c.id := c] && held == old(held) + {c.id}
      ensures View().conns == old(View()).conns[c.id := Conn(c.fd, Connected)]
      ensures View().connections == old(View()).connections[c.fd := c.id]
      ensures View().register == old(View()).register[c.fd := OfConnection(c.id)]
      ensures c.fd !in old(loop.register) && loop.poller.open == old(loop.poller.open) + {c.fd}
      ensures nextId == old(nextId) + 1
      ensures loop.register == old(loop.register)[c.fd := EventState(XE_READABLE, 0, OfConnection(c.id))]
    {
      hide Inv, Progressing, View, Connection.View, Connection.Sound, Apply, Separate, Steady, Loop.Valid;
      NewId();
      NotRegistered(sock.fd);
      c := Create(sock);
      Insert(c);
      c.MakeConnected();
      Untouched(old(conns.Values));
      StillSeparate(c);
      AcceptedConns(c);
      AcceptedMaps(c);
    }

    /** Closing a descriptor shows in the open ones only. */
    twostate lemma OnlyOpen()
      requires unchanged(this) && unchanged(loop) && forall c :: c in conns.Values ==> unchanged(c)
      ensures View() == old(View()).(open := loop.poller.open) && (old(Separate()) ==> Separate())
    {
      forall id | id in conns
        ensures View().conns[id] == old(View()).conns[id]
      {
        assert conns[id] in conns.Values;
      }
    }

    /** acceptNewConnection, with the connected callback, and what it does to the tables. */
    method AcceptTabled(sock: Socket, throws: bool) returns (c: Connection)
      requires Tables() && Progressing(app) && sock.fd !in loop.poller.open
      modifies this`connections, this`conns, this`held, this`nextId, loop`register, loop.poller
      ensures Tables() <==> !throws
      ensures c.id == old(nextId) && c.id !in old(conns) && c.sock == sock && c.fd == sock.fd && c.app == app
      ensures c.Sound() && c.loop == loop && conns == old(conns)[c.id := c] && nextId == old(nextId) + 1
      ensures c.fd !in old(loop.register)
      ensures loop.register == old(loop.register)[c.fd := EventState(XE_READABLE, 0, OfConnection(c.id))]
      ensures fresh(c)
      ensures fresh(c.readBuff) && fresh(c.readBuff.buffer) && fresh(c.writeBuff) && fresh(c.writeBuff.buffer)
      ensures !throws ==>
                c.Valid() && c.View() == Session.Opened(sock.arrivals, sock.departures).(accepted := sock.accepted)
      ensures Enabled(old(View()), Accept(c.id, c.fd, throws))
      ensures Some(View()) == Next(old(View()), Accept(c.id, c.fd, throws))
    {
      hide Inv, Progressing, View, Connection.View, Connection.Sound, Connection.Footprint,
           Apply, Enabled, Next, Separate;
      c := Enter(sock);
      label entered:
      if throws {
        loop.poller.CloseDescriptor(c.fd);
        OnlyOpen@entered();
      }
      AcceptedView(c, throws);
      AcceptStep(old(View()), c.id, c.fd, throws);
    }

    /** The last reference to a closed connection goes, and with it the descriptor. */
    method ReleaseTabled(c: Connection)
      requires Tables() && c.id in conns && conns[c.id] == c
      requires c.id in held && c !in connections.Values
      modifies this`held, loop.poller
      ensures Tables() && Enabled(old(View()), Lifecycle.Release(c.id))
      ensures Some(View()) == Next(old(View()), Lifecycle.Release(c.id))
    {
      hide Inv, View, Enabled, Next, Separate;
      NotListed(c);
      ReleaseStep(View(), c.id);
      held := held - {c.id};
      loop.poller.CloseDescriptor(c.fd);
      ReleasedView(c);
    }

    lemma NotListed(c: Connection)
      requires Separate() && c.id in conns && conns[c.id] == c && c.id in held && c !in connections.Values
      ensures Enabled(View(), Lifecycle.Release(c.id)) && View().conns[c.id].fd == c.fd
      ensures c.fd in View().register <==> c.fd in loop.register
    {
      if c.id in View().connections.Values {
        var fd := KeyOf(View().connections, c.id);
      }
    }

    twostate lemma ReleasedView(c: Connection)
      requires conns == old(conns) && nextId == old(nextId) && held == old(held) - {c.id}
      requires c.id in conns && conns[c.id] == c
      requires connections == old(connections) && closed == old(closed) && loop.register == old(loop.register)
      requires loop.poller.open == old(loop.poller.open) - {c.fd}
      requires forall id :: id in conns ==> conns[id].status == old(conns[id].status)
      requires Enabled(old(View()), Lifecycle.Release(c.id)) && old(Separate())
      ensures Some(View()) == Next(old(View()), Lifecycle.Release(c.id)) && Separate()
    {
      var v, w := old(View()), View();
      assert v.conns == w.conns && v.connections == w.connections && v.register == w.register;
    }

    twostate lemma KeptView(c: Connection)
      requires OthersKept(c) && c.status == old(c.status)
      requires connections == old(connections) && closed == old(closed)
      requires c.OthersKept() && c.loop == loop && c.fd in loop.register
      ensures View() == old(View()) && (old(Separate()) ==> Separate())
    {
      forall fd | fd in loop.register || fd in old(loop.register)
        ensures fd in loop.register && fd in old(loop.register)
        ensures loop.register[fd].callback == old(loop.register)[fd].callback
      {
        assert fd in loop.register - {c.fd} <==> fd in old(loop.register) - {c.fd};
      }
      assert View().register == old(View()).register;
    }

    twostate lemma Unregistered(c: Connection)
      requires c.OthersKept() && c.fd !in loop.register && c.loop == loop
      ensures loop.register == old(loop.register) - {c.fd} && loop.poller.open == old(loop.poller.open)
    {
    }

    lemma Sees(c: Connection)
      requires c.Valid()
      ensures Progressing(c.app) && c.loop.Valid()
      ensures c.View().status == c.status && (c.View().watched.Some? <==> c.fd in c.loop.register)
    {
    }

    /** The handler of a connection and, if it closed, the close callback, and what they do to the tables. */
    method EventTabled(c: Connection, mask: Mask, reaction: Session.Reaction)
      requires Tables() && c.id in conns && conns[c.id] == c && c.Valid()
      requires c.fd in loop.register && loop.register[c.fd].callback == OfConnection(c.id)
      modifies this`connections, this`closed, c, c.readBuff, c.readBuff.buffer, c.writeBuff, c.writeBuff.buffer, c.sock
      modifies loop`register, loop.poller`interest
      ensures Tables() && c.Valid() && conns == old(conns) && c.OthersKept()
      ensures c.readBuff.buffer == old(c.readBuff.buffer) || fresh(c.readBuff.buffer)
      ensures c.writeBuff.buffer == old(c.writeBuff.buffer) || fresh(c.writeBuff.buffer)
      ensures var t := Session.HandleEvent(c.app, old(c.View()), mask, reaction, false);
              && c.View() == (if t.status == Connected then t else t.(status := Disconnected))
              && Some(View()) == (if t.status == Connected then Some(old(View()))
                                  else Lifecycle.CloseConn(old(View()), c.id))
    {
      hide Inv, Progressing, View, Session.HandleEvent, Lifecycle.CloseConn, Registered, Separate,
           Connection.OthersKept, Connection.Valid, Connection.View, Loop.Valid, Next, Session.LiveOrClosed, Listed;
      ghost var s := c.View();
      Shows(c);
      Sees(c);
      RegisteredIsConnected(View(), c.id);
      CloseStep(View(), c.id);
      c.HandleEvent(mask, reaction);
      Sees(c);
      Session.EventOutcome(c.app, s, mask, reaction);
      Outcome(c.View(), s.closeNotices);
      if c.status == Disconnecting {
        Unregistered(c);
        DoCloseConnection(c);
        ClosedView(c);
      } else {
        KeptView(c);
      }
    }

    /** A response for a listed connection, and what it does to the tables. */
    method RespondTabled(c: Connection, uid: int, msg: Bytes, reaction: Session.Reaction)
      requires Tables() && uid in connections && connections[uid] == c && c.Valid()
      modifies this`connections, this`closed, c, c.writeBuff, c.writeBuff.buffer, c.sock
      modifies loop`register, loop.poller`interest
      ensures Tables() && c.Valid() && conns == old(conns) && c.OthersKept()
      ensures c.writeBuff.buffer == old(c.writeBuff.buffer) || fresh(c.writeBuff.buffer)
      ensures var t := Session.Send(old(c.View()), msg, reaction, false);
              && c.View() == (if t.status == Connected then t else t.(status := Disconnected))
              && Some(View()) == (if t.status == Connected then Some(old(View()))
                                  else Lifecycle.CloseConn(old(View()), c.id))
    {
      hide Inv, Progressing, View, Session.SendMsg, Lifecycle.CloseConn, Registered, Separate,
           Connection.OthersKept, Connection.Valid, Connection.View, Loop.Valid, Next, Session.LiveOrClosed, Listed;
      ghost var s := c.View();
      ListedShows(c, uid);
      Sees(c);
      CloseStep(View(), c.id);
      c.Send(msg, reaction);
      Sees(c);
      Session.SendOutcome(Session.Put(s, msg), reaction);
      Outcome(c.View(), s.closeNotices);
      if c.status == Disconnecting {
        Unregistered(c);
        DoCloseConnection(c);
        ClosedView(c);
      } else {
        KeptView(c);
      }
    }

    lemma Outcome(s: Session.State, notices: nat)
      requires Session.LiveOrClosed(s, notices)
      ensures s.status == Connected || s.status == Disconnecting
      ensures s.watched.Some? <==> s.status == Connected
    {
    }

    lemma ListedShows(c: Connection, uid: int)
      requires Tables() && uid in connections && connections[uid] == c
      ensures c.id in conns && conns[c.id] == c && c.loop == loop && c.fd == uid
      ensures c.status == Connected && uid in loop.register
      ensures c.id in View().conns && View().conns[c.id] == Conn(uid, Connected) && uid in loop.poller.open
    {
      assert uid in View().connections && View().connections[uid] == c.id;
      assert Listed(View(), c.id) && Registered(View(), c.id);
    }

    // ---------- many connections

    lemma Ready(c: Connection)
      requires Orderly() && c.id in conns && conns[c.id] == c
      ensures Progressing(app) && Tables() && Apart() && c.Valid() && c.readBuff != c.writeBuff
      ensures forall id :: id in conns && id != c.id ==> conns[id].Distinct(c)
    {
    }

    lemma Together(c: Connection)
      requires Progressing(app) && Tables() && Apart()
      ensures Orderly()
    {
    }

    /** After a change to one connection alone all are in order and share nothing. */
    twostate lemma StillApart(c: Connection)
      requires old(Apart()) && conns == old(conns) && c.id in conns && conns[c.id] == c && c.Valid()
      requires forall id :: id in conns && id != c.id ==> conns[id].Untouched()
      requires c.readBuff.buffer == old(c.readBuff.buffer) || fresh(c.readBuff.buffer)
      requires c.writeBuff.buffer == old(c.writeBuff.buffer) || fresh(c.writeBuff.buffer)
      ensures Apart()
    {
    }

    /** process() for an event on a connection's descriptor: one connection and the tables. */
    method EventApart(c: Connection, mask: Mask, reaction: Session.Reaction)
      requires Orderly() && c.id in conns && conns[c.id] == c
      requires c.fd in loop.register && loop.register[c.fd].callback == OfConnection(c.id)
      modifies this`connections, this`closed, c.Footprint(), loop`register, loop.poller`interest
      ensures Orderly() && conns == old(conns) && nextId == old(nextId)
      ensures c.readBuff.buffer == old(c.readBuff.buffer) || fresh(c.readBuff.buffer)
      ensures c.writeBuff.buffer == old(c.writeBuff.buffer) || fresh(c.writeBuff.buffer)
      ensures forall id :: id in conns && id != c.id ==> conns[id].Untouched()
      ensures c.Valid() && c.OthersKept()
      ensures var t := Session.HandleEvent(c.app, old(c.View()), mask, reaction, false);
              && c.View() == (if t.status == Connected then t else t.(status := Disconnected))
              && Some(View()) == (if t.status == Connected then Some(old(View()))
                                  else Lifecycle.CloseConn(old(View()), c.id))
    {
      hide Orderly, Tables, Apart, View, Progressing, Session.HandleEvent, Lifecycle.CloseConn,
           Connection.View, Connection.Valid;
      Ready(c);
      EventTabled(c, mask, reaction);
      StillApart(c);
      Together(c);
    }

    method CloseApart(c: Connection)
      requires Orderly() && c.id in conns && conns[c.id] == c
      modifies this`connections, this`closed, c`status, c`closeNotices, loop`register, loop.poller`interest
      ensures Orderly() && conns == old(conns) && nextId == old(nextId)
      ensures forall id :: id in conns && id != c.id ==> conns[id].Untouched()
      ensures c.readBuff.buffer == old(c.readBuff.buffer) && c.writeBuff.buffer == old(c.writeBuff.buffer)
      ensures c.Valid() && c.OthersKept()
      ensures c.View() == (if old(c.status) == Connected
                           then Session.CloseConn(old(c.View())).(status := Disconnected) else old(c.View()))
      ensures old(c.status) != Connected ==> loop.register == old(loop.register) && View() == old(View())
      ensures Some(View()) == Lifecycle.CloseConn(old(View()), c.id)
    {
      hide Orderly, Tables, Apart, View, Progressing, Lifecycle.CloseConn, Connection.Valid;
      Ready(c);
      CloseTabled(c);
      StillApart(c);
      Together(c);
    }

    method RespondApart(c: Connection, uid: int, msg: Bytes, reaction: Session.Reaction)
      requires Orderly() && uid in connections && connections[uid] == c && c.id in conns && conns[c.id] == c
      modifies this`connections, this`closed, c.Footprint(), loop`register, loop.poller`interest
      ensures Orderly() && conns == old(conns) && nextId == old(nextId)
      ensures c.readBuff.buffer == old(c.readBuff.buffer)
      ensures c.writeBuff.buffer == old(c.writeBuff.buffer) || fresh(c.writeBuff.buffer)
      ensures forall id :: id in conns && id != c.id ==> conns[id].Untouched()
      ensures c.Valid() && c.OthersKept()
      ensures var t := Session.Send(old(c.View()), msg, reaction, false);
              && c.View() == (if t.status == Connected then t else t.(status := Disconnected))
              && Some(View()) == (if t.status == Connected then Some(old(View()))
                                  else Lifecycle.CloseConn(old(View()), c.id))
    {
      hide Orderly, Tables, Apart, View, Progressing, Session.Send, Lifecycle.CloseConn,
           Connection.View, Connection.Valid;
      Ready(c);
      RespondTabled(c, uid, msg, reaction);
      StillApart(c);
      Together(c);
    }

    lemma IsListed(uid: int)
      requires Orderly() && uid in connections
      ensures var c := connections[uid];
              && c.id in conns && conns[c.id] == c && c.fd == uid && c.Valid() && c.id in View().conns
              && uid in loop.register && loop.register[uid].callback == OfConnection(c.id)
    {
      ListedShows(connections[uid], uid);
      assert Registered(View(), connections[uid].id);
    }

    /** A new connection made of new objects keeps all in order. */
    twostate lemma AdmittedApart(new c: Connection)
      requires old(Apart()) && c.id !in old(conns) && conns == old(conns)[c.id := c] && c.Sound()
      requires fresh(c.Footprint())
      requires forall id :: id in old(conns) ==> old(conns)[id].Untouched()
      ensures Apart()
    {
      forall id | id in old(conns)
        ensures conns[id].Sound() && conns[id].Distinct(c) && c.Distinct(conns[id])
      {
      }
    }

    method AcceptApart(fd: int, arrivals: seq<Arrival>, departures: seq<Departure>, throws: bool)
      returns (c: Connection)
      requires Orderly() && fd !in loop.poller.open
      modifies this`connections, this`conns, this`held, this`nextId, loop`register, loop.poller
      ensures Orderly() <==> !throws
      ensures Apart() && fresh(c.Footprint())
      ensures c.id == old(nextId) && c.id !in old(conns) && c.fd == fd && c.app == app
      ensures conns == old(conns)[c.id := c] && nextId == old(nextId) + 1
      ensures c.fd !in old(loop.register)
      ensures loop.register == old(loop.register)[c.fd := EventState(XE_READABLE, 0, OfConnection(c.id))]
      ensures forall id :: id in old(conns) ==> old(conns)[id].Untouched()
      ensures !throws ==> c.Valid() && c.View() == Session.Opened(arrivals, departures)
      ensures Enabled(old(View()), Accept(c.id, fd, throws))
      ensures Some(View()) == Next(old(View()), Accept(c.id, fd, throws))
    {
      hide Tables, Apart, View, Progressing, Enabled, Next, Connection.Sound;
      var sock := new Socket(fd, arrivals, departures);
      c := AcceptTabled(sock, throws);
      AdmittedApart(c);
    }

    method ReleaseApart(c: Connection)
      requires Orderly() && c.id in conns && conns[c.id] == c
      requires c.id in held && c !in connections.Values
      modifies this`held, loop.poller
      ensures Orderly() && Enabled(old(View()), Lifecycle.Release(c.id))
      ensures forall id :: id in conns ==> conns[id].Untouched()
      ensures Some(View()) == Next(old(View()), Lifecycle.Release(c.id))
    {
      hide Tables, View, Progressing, Enabled, Next, Connection.Sound;
      ReleaseTabled(c);
    }

    lemma PartOf(id: nat)
      requires id in conns
      ensures conns[id].Footprint() <= Objects() && conns[id] in Objects()
    {
    }

    /** What the connections own is what they owned, or new. */
    twostate lemma ObjectsGrow()
      requires forall id :: id in old(conns) ==> id in conns && conns[id] == old(conns)[id]
      requires forall id :: id in conns && id !in old(conns) ==> fresh(conns[id].Footprint())
      requires forall id :: id in old(conns) ==>
                 && (conns[id].readBuff.buffer == old(conns[id].readBuff.buffer) || fresh(conns[id].readBuff.buffer))
                 && (conns[id].writeBuff.buffer == old(conns[id].writeBuff.buffer) || fresh(conns[id].writeBuff.buffer))
      ensures fresh(Objects() - old(Objects()))
    {
      forall o | o in Objects() && o !in old(Objects())
        ensures fresh(o)
      {
        var id :| id in conns && o in conns[id].Footprint();
        if id in old(conns) {
          assert old(conns[id].Footprint()) <= old(Objects());
        }
      }
    }

    /** In this form the parts of every connection can be compared. */
    twostate lemma UntouchedKeep(c: Connection)
      requires conns == old(conns)
      requires forall id :: id in conns && id != c.id ==> conns[id].Untouched()
      ensures forall id :: id in conns && id != c.id ==>
                && conns[id].readBuff.buffer == old(conns[id].readBuff.buffer)
                && conns[id].writeBuff.buffer == old(conns[id].writeBuff.buffer)
    {
    }

    twostate lemma OldKept()
      requires forall id :: id in old(conns) ==> id in conns && conns[id] == old(conns)[id]
      requires forall id :: id in old(conns) ==> old(conns)[id].Untouched()
      ensures forall id :: id in old(conns) ==>
                && conns[id].readBuff.buffer == old(conns[id].readBuff.buffer)
                && conns[id].writeBuff.buffer == old(conns[id].writeBuff.buffer)
    {
    }

    // ---------- the server as a value

    /** A connection as it is; a closed one is watched by nobody, whoever has its descriptor now. */
    ghost function Shown(id: nat): Session.State
      requires Orderly() && id in conns
      reads this, conns.Values, Buffers(), Objects(), loop, loop.poller
    {
      PartOf(id);
      Closed(conns[id].View())
    }

    ghost function World(): Traffic.World
      requires Orderly()
      reads this, conns.Values, Buffers(), Objects(), loop, loop.poller
    {
      Traffic.World(View(), map id | id in conns :: Shown(id), nextId)
    }

    /** In order, and every live connection is watched for reading, and for writing where it says so. */
    ghost predicate Valid()
      reads this, conns.Values, Buffers(), Objects(), loop, loop.poller
    {
      Orderly() && forall id :: id in conns ==> Writing.Interest(Shown(id))
    }

    lemma ShownStatus(id: nat)
      requires Orderly() && id in conns
      ensures Shown(id).status == conns[id].status && (Shown(id).status != Connected ==> Shown(id).watched == None)
      ensures id in World().sessions && World().sessions[id] == Shown(id)
      ensures id in World().life.conns && World().life.conns[id] == Conn(conns[id].fd, conns[id].status)
      ensures id < nextId
    {
      hide Apart, Inv;
    }

    lemma WorldKeys()
      requires Orderly()
      ensures Inv(World().life) && World().next == nextId
      ensures World().sessions.Keys == World().life.conns.Keys == conns.Keys
    {
    }

    lemma WorldIsSane()
      requires Orderly()
      ensures Valid() <==> Traffic.Sane(World())
    {
      hide Orderly, View, World, Shown, Writing.Interest, Inv;
      WorldKeys();
      forall id | id in conns
        ensures id < nextId && World().sessions[id] == Shown(id)
        ensures Traffic.Agrees(World().sessions[id], World().life.conns[id]) <==> Writing.Interest(Shown(id))
      {
        ShownStatus(id);
      }
    }

    /** An untouched connection is as it was, except perhaps for what the loop has stored for its descriptor. */
    twostate lemma SameFace(d: Connection)
      requires old(d.Valid()) && d.Valid() && d.Untouched()
      ensures d.View() == old(d.View()).(watched := MaskOf(loop.Snapshot(), d.fd)) || d.loop != loop
    {
    }

    lemma OrderlyAt(id: nat)
      requires Orderly() && id in conns
      ensures conns[id].Valid() && conns[id].loop == loop && conns[id].app == app && conns[id].id == id
      ensures Shown(id) == Closed(conns[id].View())
    {
    }

    twostate lemma OrderlyThen(id: nat)
      requires old(Orderly()) && id in old(conns)
      ensures old(conns[id].Valid()) && old(conns)[id].loop == loop && old(conns)[id].id == id
      ensures old(Shown(id)) == Closed(old(conns[id].View()))
    {
    }

    /** No other live connection had its descriptor. */
    twostate lemma OneDescriptorEach(c: Connection)
      requires old(Orderly()) && c.id in old(conns) && old(conns)[c.id] == c && old(c.status) == Connected
      ensures forall id :: id in old(conns) && id != c.id && old(conns[id].status) == Connected ==>
                old(conns)[id].fd != c.fd
    {
      hide Apart;
      forall id | id in old(conns) && id != c.id && old(conns[id].status) == Connected
        ensures old(conns)[id].fd != c.fd
      {
        assert old(View()).conns[id] == Conn(old(conns)[id].fd, Connected);
        assert old(View()).conns[c.id] == Conn(c.fd, Connected);
        assert Listed(old(View()), id) && Listed(old(View()), c.id);
      }
    }

    twostate lemma SameMasks(c: Connection)
      requires c.loop == loop && c.OthersKept()
      ensures forall fd :: fd != c.fd ==> MaskOf(loop.Snapshot(), fd) == old(MaskOf(loop.Snapshot(), fd))
    {
      forall fd | fd != c.fd
        ensures MaskOf(loop.Snapshot(), fd) == old(MaskOf(loop.Snapshot(), fd))
      {
        assert fd in loop.register - {c.fd} <==> fd in loop.register;
        assert fd in old(loop.register) - {c.fd} <==> fd in old(loop.register);
      }
    }

    lemma ViewShows(d: Connection)
      requires d.Valid()
      ensures d.View().status == d.status && d.View().closeNotices == d.closeNotices
      ensures d.View().watched == MaskOf(d.loop.Snapshot(), d.fd)
    {
    }

    twostate lemma ViewShowed(d: Connection)
      requires old(d.Valid())
      ensures old(d.View()).status == old(d.status)
      ensures old(d.View()).watched == old(MaskOf(d.loop.Snapshot(), d.fd))
    {
    }

    /** An untouched connection whose descriptor's entry is the same, if it is live. */
    twostate lemma SameShown(id: nat)
      requires old(Orderly()) && Orderly() && id in old(conns) && id in conns && conns[id] == old(conns)[id]
      requires conns[id].Untouched()
      requires old(conns[id].status) == Connected ==>
                 MaskOf(loop.Snapshot(), conns[id].fd) == old(MaskOf(loop.Snapshot(), conns[id].fd))
      ensures Shown(id) == old(Shown(id))
    {
      hide Orderly, Shown, Connection.View, Connection.Valid, MaskOf;
      OrderlyThen(id);
      OrderlyAt(id);
      SameFace(conns[id]);
      ViewShows(conns[id]);
      ViewShowed(conns[id]);
    }

    /** What happens to one live connection does not show in the others. */
    twostate lemma OthersShown(c: Connection)
      requires old(Orderly()) && Orderly() && conns == old(conns) && c.id in conns && conns[c.id] == c
      requires old(c.status) == Connected && c.OthersKept()
      requires forall id :: id in conns && id != c.id ==> conns[id].Untouched()
      ensures forall id :: id in conns && id != c.id ==> Shown(id) == old(Shown(id))
    {
      hide Orderly, Shown, MaskOf, Connection.OthersKept;
      OrderlyAt(c.id);
      OneDescriptorEach(c);
      SameMasks(c);
      forall id | id in conns && id != c.id
        ensures Shown(id) == old(Shown(id))
      {
        SameShown(id);
      }
    }

    lemma WorldAt(id: nat)
      requires Orderly() && id in conns
      ensures id in World().sessions && World().sessions[id] == Shown(id) && World().life == View()
      ensures World().sessions.Keys == conns.Keys && World().next == nextId
    {
      hide Orderly, Shown, View;
    }

    twostate lemma WorldThen(id: nat)
      requires old(Orderly()) && id in old(conns)
      ensures id in old(World()).sessions && old(World()).sessions[id] == old(Shown(id))
      ensures old(World()).life == old(View()) && id in old(View()).conns
      ensures old(World()).sessions.Keys == old(conns).Keys && old(World()).next == old(nextId)
    {
    }

    twostate lemma SessionsTurned(c: Connection)
      requires old(Orderly()) && Orderly() && conns == old(conns)
      requires c.id in conns && conns[c.id] == c && old(c.status) == Connected && c.OthersKept()
      requires forall id :: id in conns && id != c.id ==> conns[id].Untouched()
      ensures World().sessions == old(World()).sessions[c.id := Shown(c.id)]
    {
      hide Orderly, World, Shown, Connection.OthersKept;
      OthersShown(c);
      WorldAt(c.id);
      WorldThen(c.id);
      var u, w := World().sessions, old(World()).sessions;
      forall id | id in conns
        ensures id in u && id in w && (id != c.id ==> u[id] == w[id])
      {
        WorldAt(id);
        WorldThen(id);
      }
      assert u == w[c.id := Shown(c.id)];
    }

    /** What one live connection went through is what the server went through. */
    twostate lemma TurnedWorld(c: Connection, new t: Session.State)
      requires old(Orderly()) && Orderly() && conns == old(conns) && nextId == old(nextId)
      requires c.id in conns && conns[c.id] == c && old(c.status) == Connected && c.OthersKept()
      requires forall id :: id in conns && id != c.id ==> conns[id].Untouched()
      requires c.Valid() && c.View() == (if t.status == Connected then t else t.(status := Disconnected))
      requires t.status == Connected || t.watched == None
      requires c.id in old(View()).conns
      requires Some(View()) == (if t.status == Connected then Some(old(View()))
                                else Lifecycle.CloseConn(old(View()), c.id))
      ensures World() == Traffic.Becomes(old(World()), c.id, t)
    {
      hide Orderly, World, View, Shown, Connection.View, Connection.Valid, Connection.OthersKept, Step, Passes;
      SessionsTurned(c);
      OrderlyAt(c.id);
      WorldAt(c.id);
      WorldThen(c.id);
    }

    /** Nothing that shows has changed. */
    twostate lemma AllShown()
      requires old(Orderly()) && Orderly() && conns == old(conns) && loop.register == old(loop.register)
      requires forall id :: id in conns ==> conns[id].Untouched()
      ensures World().sessions == old(World()).sessions
    {
      hide Orderly, World, Shown;
      var u, w := World().sessions, old(World()).sessions;
      forall id | id in conns
        ensures id in u && id in w && u[id] == w[id]
      {
        SameShown(id);
        WorldAt(id);
        WorldThen(id);
      }
      WorldKeys();
      WorldKeysThen();
    }

    twostate lemma WorldKeysThen()
      requires old(Orderly())
      ensures old(World()).sessions.Keys == old(conns).Keys && old(World()).next == old(nextId)
      ensures old(World()).life == old(View())
    {
    }

    /** A close that found the connection closed. */
    twostate lemma SameWorld(c: Connection)
      requires old(Orderly()) && Orderly() && conns == old(conns) && nextId == old(nextId)
      requires loop.register == old(loop.register) && View() == old(View())
      requires c.id in conns && conns[c.id] == c && c.Valid() && old(c.Valid()) && c.View() == old(c.View())
      requires forall id :: id in conns && id != c.id ==> conns[id].Untouched()
      ensures World() == old(World())
    {
      hide Orderly, World, Shown, View, Connection.View, Connection.Valid;
      var u, w := World().sessions, old(World()).sessions;
      forall id | id in conns
        ensures id in u && id in w && u[id] == w[id]
      {
        if id == c.id {
          OrderlyAt(id);
          OrderlyThen(id);
        } else {
          SameShown(id);
        }
        WorldAt(id);
        WorldThen(id);
      }
      WorldKeys();
      WorldKeysThen();
      WorldAt(c.id);
    }

    twostate lemma LiveRegistered(id: nat)
      requires old(Orderly()) && id in old(conns) && old(conns[id].status) == Connected
      ensures old(conns)[id].fd in old(loop.register)
    {
      assert old(View()).conns[id] == Conn(old(conns)[id].fd, Connected);
      assert Registered(old(View()), id);
    }

    /** The connections there were show as before when one is added. */
    twostate lemma OldsShown(new c: Connection)
      requires old(Orderly()) && Orderly() && conns == old(conns)[c.id := c] && c.id !in old(conns)
      requires c.fd !in old(loop.register)
      requires loop.register == old(loop.register)[c.fd := EventState(XE_READABLE, 0, OfConnection(c.id))]
      requires forall id :: id in old(conns) ==> old(conns)[id].Untouched()
      ensures forall id :: id in old(conns) ==> Shown(id) == old(Shown(id))
    {
      hide Orderly, Shown, View;
      forall id | id in old(conns)
        ensures Shown(id) == old(Shown(id))
      {
        if old(conns[id].status) == Connected {
          LiveRegistered(id);
        }
        SameShown(id);
      }
    }

    /** A new connection shows, and the others as before. */
    twostate lemma AdmittedWorld(new c: Connection)
      requires old(Orderly()) && Orderly() && conns == old(conns)[c.id := c] && c.id !in old(conns)
      requires forall id :: id in old(conns) ==> Shown(id) == old(Shown(id))
      ensures World().sessions == old(World()).sessions[c.id := Shown(c.id)]
    {
      hide Orderly, World, Shown;
      var u, w := World().sessions, old(World()).sessions;
      forall id | id in old(conns)
        ensures id in u && id in w && u[id] == w[id]
      {
        WorldAt(id);
        WorldThen(id);
      }
      WorldAt(c.id);
      WorldKeysThen();
      assert u == w[c.id := Shown(c.id)];
    }

    twostate lemma AcceptedWorld(new c: Connection)
      requires old(Orderly()) && Orderly() && c.Valid() && c.id == old(nextId) && nextId == c.id + 1
      requires Enabled(old(View()), Accept(c.id, c.fd, false))
      requires Some(View()) == Next(old(View()), Accept(c.id, c.fd, false))
      requires c.id in conns && conns[c.id] == c && c.View().status == Connected
      requires World().sessions == old(World()).sessions[c.id := Shown(c.id)]
      ensures World() == Traffic.World(Step(old(World()).life, Accept(c.id, c.fd, false)),
                                       old(World()).sessions[c.id := c.View()], c.id + 1)
      ensures c.id == old(World()).next && c.fd !in old(World()).life.open && c.id !in old(World()).life.conns
    {
      hide Orderly, World, Shown, View, Step, Connection.View, Connection.Valid;
      WorldAt(c.id);
      WorldKeysThen();
      OrderlyAt(c.id);
    }

    twostate lemma ReleasedWorld(c: Connection)
      requires old(Orderly()) && Orderly() && conns == old(conns) && loop.register == old(loop.register)
      requires nextId == old(nextId) && forall id :: id in conns ==> conns[id].Untouched()
      requires Enabled(old(View()), Lifecycle.Release(c.id))
      requires Some(View()) == Next(old(View()), Lifecycle.Release(c.id))
      ensures World() == old(World()).(life := Step(old(World()).life, Lifecycle.Release(c.id)))
      ensures Enabled(old(World()).life, Lifecycle.Release(c.id))
    {
      hide Orderly, World, Shown, View, Step, Enabled;
      AllShown();
      WorldKeys();
      WorldKeysThen();
      WorldLife();
    }

    lemma WorldLife()
      requires Orderly()
      ensures World().life == View()
    {
      hide Orderly;
    }

    lemma NotInOrder()
      requires !Orderly()
      ensures !Valid()
    {
    }

    lemma InOrder()
      requires Valid()
      ensures Orderly() && Separate()
    {
    }

    lemma LiveAt(c: Connection)
      requires Valid() && c.id in conns && conns[c.id] == c
      requires c.status == Connected || (c.fd in loop.register && loop.register[c.fd].callback == OfConnection(c.id))
      ensures Orderly() && Traffic.Sane(World()) && c.id in World().sessions
      ensures c.Valid() && c.app == app && c.loop == loop
      ensures c.status == Connected && Registered(View(), c.id) && c.fd in View().connections
      ensures World().sessions[c.id] == c.View() && c.View().status == Connected && Writing.Interest(c.View())
      ensures c.id in View().conns && Progressing(app)
    {
      hide Writing.Interest, Connection.View;
      WorldIsSane();
      Ready(c);
      Shows(c);
      OrderlyAt(c.id);
      WorldAt(c.id);
      ViewShows(c);
      assert View().conns[c.id] == Conn(c.fd, c.status);
      assert Listed(View(), c.id) == Registered(View(), c.id) == (c.status == Connected);
    }

    /** process() for an event on a connection's descriptor. */
    method HandleEvent(c: Connection, mask: Mask, reaction: Session.Reaction)
      requires Valid() && c.id in conns && conns[c.id] == c
      requires c.fd in loop.register && loop.register[c.fd].callback == OfConnection(c.id)
      modifies this`connections, this`closed, c.Footprint(), loop`register, loop.poller`interest
      ensures Valid() && conns == old(conns) && c.Valid()
      ensures c.readBuff.buffer == old(c.readBuff.buffer) || fresh(c.readBuff.buffer)
      ensures c.writeBuff.buffer == old(c.writeBuff.buffer) || fresh(c.writeBuff.buffer)
      ensures forall id :: id in conns && id != c.id ==> conns[id].Untouched()
      ensures var t := Session.HandleEvent(app, old(c.View()), mask, reaction, false);
              && c.View() == (if t.status == Connected then t else t.(status := Disconnected))
              && Some(View()) == (if t.status == Connected then Some(old(View()))
                                  else Lifecycle.CloseConn(old(View()), c.id))
              && World() == Traffic.Becomes(old(World()), c.id, t)
    {
      hide Valid, Orderly, View, World, Lifecycle.CloseConn, Connection.View, Connection.Valid,
           Connection.Footprint, Connection.OthersKept, Traffic.Sane, Traffic.Becomes, Session.LiveOrClosed,
           Writing.Interest, Traffic.OthersAlike, Session.HandleEvent;
      LiveAt(c);
      ghost var s, w := c.View(), World();
      ghost var t := Session.HandleEvent(app, s, mask, reaction, false);
      Traffic.EventOn(app, s, mask, reaction);
      EventApart(c, mask, reaction);
      Outcome(t, s.closeNotices);
      TurnedWorld(c, t);
      Traffic.BecomesSane(w, c.id, t);
      WorldIsSane();
    }

    /** closeConn on a connection in any state. */
    method CloseConn(c: Connection)
      requires Valid() && c.id in conns && conns[c.id] == c
      modifies this`connections, this`closed, c`status, c`closeNotices, loop`register, loop.poller`interest
      ensures Valid() && conns == old(conns) && c.Valid()
      ensures forall id :: id in conns && id != c.id ==> conns[id].Untouched()
      ensures c.readBuff.buffer == old(c.readBuff.buffer) && c.writeBuff.buffer == old(c.writeBuff.buffer)
      ensures Some(View()) == Lifecycle.CloseConn(old(View()), c.id)
      ensures World() == if old(c.status) == Connected
                         then Traffic.Becomes(old(World()), c.id, Session.CloseConn(old(c.View()))) else old(World())
    {
      hide Valid, Orderly, View, World, Lifecycle.CloseConn, Connection.View, Connection.Valid,
           Connection.Footprint, Connection.OthersKept, Traffic.Sane, Traffic.Becomes, Session.LiveOrClosed,
           Writing.Interest, Traffic.OthersAlike, Session.CloseConn;
      InOrder();
      Ready(c);
      if c.status == Connected {
        CloseLive(c);
      } else {
        CloseAgain(c);
      }
    }

    method CloseAgain(c: Connection)
      requires Valid() && c.id in conns && conns[c.id] == c && c.status != Connected
      modifies this`connections, this`closed, c`status, c`closeNotices, loop`register, loop.poller`interest
      ensures Valid() && conns == old(conns) && c.Valid()
      ensures forall id :: id in conns && id != c.id ==> conns[id].Untouched()
      ensures c.readBuff.buffer == old(c.readBuff.buffer) && c.writeBuff.buffer == old(c.writeBuff.buffer)
      ensures Some(View()) == Lifecycle.CloseConn(old(View()), c.id) && World() == old(World())
    {
      hide Valid, Orderly, View, World, Lifecycle.CloseConn, Connection.View, Connection.Valid,
           Connection.Footprint, Connection.OthersKept, Traffic.Sane, Writing.Interest, Session.CloseConn;
      InOrder();
      WorldIsSane();
      OrderlyAt(c.id);
      CloseApart(c);
      SameWorld(c);
      WorldIsSane();
    }

    method CloseLive(c: Connection)
      requires Valid() && c.id in conns && conns[c.id] == c && c.status == Connected
      modifies this`connections, this`closed, c`status, c`closeNotices, loop`register, loop.poller`interest
      ensures Valid() && conns == old(conns) && c.Valid()
      ensures forall id :: id in conns && id != c.id ==> conns[id].Untouched()
      ensures c.readBuff.buffer == old(c.readBuff.buffer) && c.writeBuff.buffer == old(c.writeBuff.buffer)
      ensures c.View() == Session.CloseConn(old(c.View())).(status := Disconnected)
      ensures Some(View()) == Lifecycle.CloseConn(old(View()), c.id)
      ensures World() == Traffic.Becomes(old(World()), c.id, Session.CloseConn(old(c.View())))
    {
      hide Valid, Orderly, View, World, Lifecycle.CloseConn, Connection.View, Connection.Valid,
           Connection.Footprint, Connection.OthersKept, Traffic.Sane, Traffic.Becomes, Session.LiveOrClosed,
           Writing.Interest, Traffic.OthersAlike, Session.CloseConn;
      LiveAt(c);
      ghost var s, w := c.View(), World();
      ghost var t := Session.CloseConn(s);
      Traffic.CloseOn(s);
      ClosesIt(s);
      CloseApart(c);
      TurnedWorld(c, t);
      Traffic.BecomesSane(w, c.id, t);
      WorldIsSane();
    }

    lemma ClosesIt(s: Session.State)
      requires s.status == Connected
      ensures var t := Session.CloseConn(s);
              t.status == Disconnecting && t.watched == None && t.closeNotices == s.closeNotices + 1
    {
    }

    /** A response for the connection listed under its uid. */
    method RespondTo(c: Connection, uid: int, msg: Bytes, reaction: Session.Reaction)
      requires Valid() && uid in connections && connections[uid] == c && c.id in conns && conns[c.id] == c
      modifies this`connections, this`closed, c.Footprint(), loop`register, loop.poller`interest
      ensures Valid() && conns == old(conns) && c.Valid()
      ensures c.readBuff.buffer == old(c.readBuff.buffer)
      ensures c.writeBuff.buffer == old(c.writeBuff.buffer) || fresh(c.writeBuff.buffer)
      ensures forall id :: id in conns && id != c.id ==> conns[id].Untouched()
      ensures var t := Session.Send(old(c.View()), msg, reaction, false);
              && c.View() == (if t.status == Connected then t else t.(status := Disconnected))
              && Some(View()) == (if t.status == Connected then Some(old(View()))
                                  else Lifecycle.CloseConn(old(View()), c.id))
              && World() == Traffic.Becomes(old(World()), c.id, t)
    {
      hide Valid, Orderly, View, World, Lifecycle.CloseConn, Connection.View, Connection.Valid,
           Connection.Footprint, Connection.OthersKept, Traffic.Sane, Traffic.Becomes, Session.LiveOrClosed,
           Writing.Interest, Traffic.OthersAlike, Session.Send;
      InOrder();
      IsListed(uid);
      LiveAt(c);
      ghost var s, w := c.View(), World();
      ghost var t := Session.Send(s, msg, reaction, false);
      Traffic.ResponseOn(s, msg, reaction);
      RespondApart(c, uid, msg, reaction);
      Outcome(t, s.closeNotices);
      TurnedWorld(c, t);
      Traffic.BecomesSane(w, c.id, t);
      WorldIsSane();
    }

    /**
     doSendResponse: the whole response goes to the connection listed under the
     uid now, and nowhere else; without one it is dropped.
     */
    method DoSendResponse(uid: int, msg: Bytes, reaction: Session.Reaction)
      requires Valid()
      modifies this`connections, this`closed, loop`register, loop.poller`interest
      modifies if uid in connections then connections[uid].Footprint() else {}
      ensures Valid() && conns == old(conns)
      ensures uid !in old(connections) ==> unchanged(this) && unchanged(loop) && unchanged(loop.poller)
      ensures forall id :: id in conns && (uid in old(connections) ==> id != old(connections[uid]).id)
                ==> conns[id].Untouched()
      ensures uid in old(connections) ==>
                var c := old(connections[uid]);
                var t := Session.Send(old(c.View()), msg, reaction, false);
                && c.fd == uid && c.Valid()
                && (c.writeBuff.buffer == old(c.writeBuff.buffer) || fresh(c.writeBuff.buffer))
                && c.readBuff.buffer == old(c.readBuff.buffer)
                && c.View() == (if t.status == Connected then t else t.(status := Disconnected))
                && Some(View()) == (if t.status == Connected then Some(old(View()))
                                    else Lifecycle.CloseConn(old(View()), c.id))
                && World() == Traffic.Becomes(old(World()), c.id, t)
    {
      hide Valid, Orderly, View, World, Lifecycle.CloseConn, Connection.View, Connection.Valid,
           Connection.Footprint, Connection.OthersKept, Traffic.Sane, Traffic.Becomes, Session.LiveOrClosed,
           Writing.Interest, Traffic.OthersAlike, Session.Send;
      if uid !in connections {
        return;
      }
      InOrder();
      IsListed(uid);
      RespondTo(connections[uid], uid, msg, reaction);
    }

    /**
     acceptNewConnection for a descriptor accept(2) returned, through makeConnected.
     When the user's connected callback throws, the listener closes a descriptor
     that the loop still watches and the connection still owns.
     */
    method AcceptNewConnection(fd: int, arrivals: seq<Arrival>, departures: seq<Departure>, throws: bool)
      returns (c: Connection)
      requires Valid() && fd !in loop.poller.open
      modifies this`connections, this`conns, this`held, this`nextId, loop`register, loop.poller
      ensures Valid() <==> !throws
      ensures fresh(c.Footprint()) && c.id == old(nextId) && c.id !in old(conns) && c.fd == fd && c.app == app
      ensures conns == old(conns)[c.id := c]
      ensures forall id :: id in old(conns) ==> old(conns)[id].Untouched()
      ensures !throws ==> c.Valid() && c.View() == Session.Opened(arrivals, departures)
      ensures !throws ==> World() == Traffic.After(app, old(World()), Traffic.Accepts(fd, arrivals, departures, false))
      ensures Enabled(old(View()), Accept(c.id, fd, throws))
      ensures Some(View()) == Next(old(View()), Accept(c.id, fd, throws))
    {
      hide Valid, Orderly, View, World, Lifecycle.CloseConn, Connection.View, Connection.Valid,
           Connection.Footprint, Connection.OthersKept, Traffic.Sane, Traffic.Becomes, Session.LiveOrClosed,
           Writing.Interest, Traffic.OthersAlike, Traffic.After, Enabled, Step, Passes;
      InOrder();
      WorldIsSane();
      WorldKeys();
      NewId();
      ghost var w := World();
      c := AcceptApart(fd, arrivals, departures, throws);
      if throws {
        NotInOrder();
      } else {
        OldsShown(c);
        AdmittedWorld(c);
        AcceptedWorld(c);
        Traffic.AcceptSane(w, fd, arrivals, departures);
        Traffic.AcceptsIs(app, w, fd, arrivals, departures);
        WorldIsSane();
      }
    }

    /** The last reference to a closed connection goes, and with it the descriptor. */
    method Release(c: Connection)
      requires Valid() && c.id in conns && conns[c.id] == c
      requires c.id in held && c !in connections.Values
      modifies this`held, loop.poller
      ensures Valid() && Enabled(old(View()), Lifecycle.Release(c.id))
      ensures forall id :: id in conns ==> conns[id].Untouched()
      ensures World() == Traffic.After(app, old(World()), Traffic.Forgets(c.id))
      ensures Some(View()) == Next(old(View()), Lifecycle.Release(c.id))
    {
      hide Valid, Orderly, View, World, Lifecycle.CloseConn, Connection.View, Connection.Valid,
           Connection.Footprint, Connection.OthersKept, Traffic.Sane, Traffic.Becomes, Session.LiveOrClosed,
           Writing.Interest, Traffic.OthersAlike, Traffic.After, Enabled, Step, Next, Connection.Untouched, Inv;
      InOrder();
      WorldIsSane();
      WorldKeys();
      ghost var w := World();
      ReleaseApart(c);
      ReleasedWorld(c);
      Traffic.ReleaseSane(w, c.id);
      Traffic.ForgetsIs(app, w, c.id);
      WorldIsSane();
    }

    // ---------- runs

    /** A live connection that is listed under a descriptor, and how the server as a value has it. */
    lemma ListedAt(fd: int)
      requires Valid() && fd in connections
      ensures var c := connections[fd];
              && c.id in conns && conns[c.id] == c && c.fd == fd && c.Valid() && c.app == app
              && c.status == Connected && c.View().status == Connected
              && fd in loop.register && loop.register[fd].callback == OfConnection(c.id)
              && Traffic.Listens(World(), fd) && World().life.connections[fd] == c.id
              && World().sessions[c.id] == c.View() && Inv(View()) && c.id in View().conns
              && View().conns[c.id] == Conn(fd, Connected) && Progressing(app)
    {
      hide Valid, World, Connection.View, Connection.Valid, Inv, Writing.Interest;
      var c := connections[fd];
      InOrder();
      WorldKeys();
      WorldLife();
      IsListed(fd);
      ListedIs(fd);
      LiveAt(c);
      Shows(c);
    }

    lemma ListedIs(fd: int)
      requires Orderly() && fd in connections
      ensures fd in View().connections && View().connections[fd] == connections[fd].id
    {
    }

    /** What is listed and what was reported closed, when one connection went on or closed. */
    twostate predicate Kept(new fd: int, new id: nat, new live: bool)
      reads this
    {
      && (fd in connections <==> live)
      && (forall other :: other != fd ==> (other in connections <==> other in old(connections)))
      && closed == old(closed) + if live then [] else [id]
    }

    twostate lemma KeptBy(new w: Life, new v: Life, new fd: int, new id: nat, new live: bool)
      requires v == old(View()) && w == View() && Inv(v) && id in v.conns && v.conns[id] == Conn(fd, Connected)
      requires fd in old(connections)
      requires Some(w) == (if live then Some(v) else Lifecycle.CloseConn(v, id))
      ensures Kept(fd, id, live)
    {
      hide Inv;
      assert w.closed == closed && v.closed == old(closed);
      assert forall other :: other in w.connections <==> other in connections;
      assert forall other :: other in v.connections <==> other in old(connections);
    }

    /** No connection is forgotten or replaced. */
    twostate predicate OldStay()
      reads this
    {
      forall id :: id in old(conns) ==> id in conns && conns[id] == old(conns)[id]
    }

    /** The kernel watches every live connection for reading, and for writing while it says so. */
    ghost predicate Attended()
      reads this, conns.Values, loop.poller
    {
      forall id :: id in conns && conns[id].status == Connected ==>
        var fd := conns[id].fd;
        && fd in loop.poller.interest && 0 in loop.poller.interest[fd]
        && (conns[id].writeEnabled ==> 2 in loop.poller.interest[fd])
    }

    lemma EveryLiveIsAttended()
      requires Valid()
      ensures Attended()
    {
      hide Valid, Orderly, View, World, Writing.Interest, Connection.View, Connection.Valid, Inv;
      InOrder();
      forall id | id in conns && conns[id].status == Connected
        ensures var fd := conns[id].fd;
                && fd in loop.poller.interest && 0 in loop.poller.interest[fd]
                && (conns[id].writeEnabled ==> 2 in loop.poller.interest[fd])
      {
        Numbered(id);
        LiveAt(conns[id]);
        Watched(conns[id]);
      }
    }

    lemma Watched(c: Connection)
      requires c.Valid() && c.loop == loop && c.status == Connected && Writing.Interest(c.View())
      ensures c.fd in loop.poller.interest && 0 in loop.poller.interest[c.fd]
      ensures c.writeEnabled ==> 2 in loop.poller.interest[c.fd]
    {
      Bits(loop.register[c.fd].mask);
      assert Matches(loop.register[c.fd].mask, loop.poller.interest[c.fd]);
    }

    /** Every connection that lived through these inputs was appended exactly the responses for its descriptor. */
    twostate predicate AppendedFor(inputs: seq<Traffic.Input>)
      reads this, conns.Values
    {
      forall id ::
        id in old(conns) && id in conns && conns[id] == old(conns)[id] &&
        old(conns[id].status) == Connected && conns[id].status == Connected ==>
          conns[id].appended == old(conns[id].appended) + Traffic.MessagesFor(inputs, conns[id].fd)
    }

    lemma AppendedShows(id: nat)
      requires Orderly() && id in conns
      ensures World().sessions.Keys == conns.Keys && id in World().life.conns
      ensures World().sessions[id].appended == conns[id].appended
      ensures World().sessions[id].status == conns[id].status && World().life.conns[id].fd == conns[id].fd
    {
      hide Orderly;
      OrderlyAt(id);
    }

    twostate lemma AppendedShowed(id: nat)
      requires old(Orderly()) && id in old(conns)
      ensures old(World()).sessions.Keys == old(conns).Keys
      ensures old(World()).sessions[id].appended == old(conns[id].appended)
      ensures old(World()).sessions[id].status == old(conns[id].status)
      ensures id in old(World()).life.conns && old(World()).life.conns[id].fd == old(conns)[id].fd
    {
      hide Orderly;
      OrderlyThen(id);
    }

    twostate lemma SaneThen()
      requires old(Valid())
      ensures old(Orderly()) && Traffic.Sane(old(World())) && Progressing(app)
    {
    }

    twostate lemma ServedAppends(inputs: seq<Traffic.Input>)
      requires old(Valid()) && Valid() && Progressing(app)
      requires World() == Traffic.Run(app, old(World()), inputs)
      requires Traffic.NoneThrows(inputs) && Traffic.Silents(inputs)
      ensures AppendedFor(inputs)
    {
      hide Valid, Orderly, World, View, Traffic.Sane, Traffic.Run, Traffic.NoneThrows, Traffic.Silents;
      SaneThen();
      InOrder();
      forall id | id in old(conns) && id in conns && conns[id] == old(conns)[id] &&
                  old(conns[id].status) == Connected && conns[id].status == Connected
        ensures conns[id].appended == old(conns[id].appended) + Traffic.MessagesFor(inputs, conns[id].fd)
      {
        AppendedShowed(id);
        AppendedShows(id);
        var n := Traffic.AppendedAreResponses(app, old(World()), inputs, id);
        assert inputs[..n] == inputs;
      }
    }

    /** An event on a descriptor, as process() looks it up; without a connection under it there is nothing to do. */
    method Fire(fd: int, mask: Mask, reaction: Session.Reaction) returns (ghost actions: seq<Action>)
      requires Valid()
      modifies this`connections, this`closed, loop`register, loop.poller`interest, Objects()
      ensures Valid() && fresh(Objects() - old(Objects())) && Quiet(actions)
      ensures Possible(old(View()), actions) && Lifecycle.Run(old(View()), actions) == Some(View())
      ensures conns == old(conns) && World() == Traffic.After(app, old(World()), Traffic.Fires(fd, mask, reaction))
      ensures fd in old(connections) ==>
                var c := old(connections[fd]);
                && c.Valid() && Events.Lawful(app, old(c.View()), c.View(), mask, reaction)
                && Kept(fd, c.id, c.status == Connected)
    {
      hide Valid, Orderly, View, World, Objects, Connection.Footprint, Connection.View, Connection.Valid,
           Lifecycle.CloseConn, Session.HandleEvent, Traffic.Becomes, Inv, Events.Lawful;
      actions := [];
      if fd in connections {
        var c := connections[fd];
        ListedAt(fd);
        PartOf(c.id);
        ghost var s, v := c.View(), View();
        ghost var t := Session.HandleEvent(app, s, mask, reaction, false);
        Events.EventIsLawful(app, s, mask, reaction);
        HandleEvent(c, mask, reaction);
        UntouchedKeep(c);
        ObjectsGrow();
        actions := ClosedOrKept(v, View(), c.id);
        if t.status != Connected {
          Events.MarkedClosed(app, s, t, mask, reaction);
        }
        ViewShows(c);
        KeptBy(View(), v, fd, c.id, t.status == Connected);
      } else {
        NotListening(fd);
        ObjectsGrow();
      }
    }

    lemma NotListening(fd: int)
      requires Valid() && fd !in connections
      ensures !Traffic.Listens(World(), fd) && Progressing(app)
    {
    }

    method Respond(fd: int, msg: Bytes, reaction: Session.Reaction) returns (ghost actions: seq<Action>)
      requires Valid()
      modifies this`connections, this`closed, loop`register, loop.poller`interest, Objects()
      ensures Valid() && fresh(Objects() - old(Objects())) && Quiet(actions)
      ensures Possible(old(View()), actions) && Lifecycle.Run(old(View()), actions) == Some(View())
      ensures conns == old(conns) && World() == Traffic.After(app, old(World()), Traffic.Responds(fd, msg, reaction))
      ensures fd in old(connections) ==>
                var c := old(connections[fd]);
                && c.Valid() && Events.Answered(old(c.View()), c.View(), msg, reaction)
                && Kept(fd, c.id, c.status == Connected)
    {
      hide Valid, Orderly, View, World, Objects, Connection.Footprint, Connection.View, Connection.Valid,
           Lifecycle.CloseConn, Session.Send, Traffic.Becomes, Inv, Events.Answered;
      actions := [];
      if fd in connections {
        var c := connections[fd];
        ListedAt(fd);
        PartOf(c.id);
        ghost var s, v := c.View(), View();
        ghost var t := Session.Send(s, msg, reaction, false);
        Events.ResponseIsAnswered(s, msg, reaction);
        DoSendResponse(fd, msg, reaction);
        UntouchedKeep(c);
        ObjectsGrow();
        actions := ClosedOrKept(v, View(), c.id);
        if t.status != Connected {
          Events.MarkedClosedToo(s, t, msg, reaction);
        }
        ViewShows(c);
        KeptBy(View(), v, fd, c.id, t.status == Connected);
      } else {
        NotListening(fd);
        ObjectsGrow();
      }
    }

    /** A close asked for by the program. */
    method Shut(fd: int) returns (ghost actions: seq<Action>)
      requires Valid()
      modifies this`connections, this`closed, loop`register, loop.poller`interest, Objects()
      ensures Valid() && fresh(Objects() - old(Objects())) && Quiet(actions)
      ensures Possible(old(View()), actions) && Lifecycle.Run(old(View()), actions) == Some(View())
      ensures conns == old(conns) && World() == Traffic.After(app, old(World()), Traffic.Closes(fd))
      ensures fd in old(connections) ==>
                var c := old(connections[fd]);
                && c.status == Disconnected && c.closeNotices == old(c.closeNotices) + 1
                && Kept(fd, c.id, false)
    {
      hide Valid, Orderly, View, World, Objects, Connection.Footprint, Connection.View, Connection.Valid,
           Lifecycle.CloseConn, Session.CloseConn, Traffic.Becomes, Inv;
      actions := [];
      if fd in connections {
        var c := connections[fd];
        ListedAt(fd);
        PartOf(c.id);
        ghost var s, v := c.View(), View();
        ClosesIt(s);
        ViewShows(c);
        CloseLive(c);
        ViewShows(c);
        UntouchedKeep(c);
        ObjectsGrow();
        actions := ClosedOrKept(v, View(), c.id);
        KeptBy(View(), v, fd, c.id, false);
      } else {
        NotListening(fd);
        ObjectsGrow();
      }
    }

    /** accept(2) returned a descriptor; the kernel returns none that is open. */
    method Admit(fd: int, arrivals: seq<Arrival>, departures: seq<Departure>, throws: bool)
      returns (ghost actions: seq<Action>, alive: bool)
      requires Valid()
      modifies this`connections, this`conns, this`held, this`nextId, loop`register, loop.poller
      ensures fresh(Objects() - old(Objects()))
      ensures (Valid() <==> alive) && (alive <==> Quiet(actions)) && (alive || throws) && OldStay()
      ensures Possible(old(View()), actions) && Lifecycle.Run(old(View()), actions) == Some(View())
      ensures alive ==> World() == Traffic.After(app, old(World()), Traffic.Accepts(fd, arrivals, departures, throws))
    {
      hide Valid, Orderly, View, World, Objects, Connection.Footprint, Connection.View, Next, Enabled, Inv, Step;
      actions, alive := [], true;
      Opened();
      if fd !in loop.poller.open {
        var c := AcceptNewConnection(fd, arrivals, departures, throws);
        alive := !throws;
        actions := [Accept(c.id, fd, throws)];
        RunOfOne(old(View()), actions[0]);
        OldKept();
      }
      ObjectsGrow();
    }

    lemma Opened()
      requires Valid()
      ensures World().life.open == loop.poller.open && Progressing(app) && World().next !in World().life.conns
    {
    }

    /** The last reference to an unlisted connection goes. */
    method Forget(id: nat) returns (ghost actions: seq<Action>)
      requires Valid()
      modifies this`held, loop.poller
      ensures Valid() && fresh(Objects() - old(Objects())) && Quiet(actions)
      ensures Possible(old(View()), actions) && Lifecycle.Run(old(View()), actions) == Some(View())
      ensures World() == Traffic.After(app, old(World()), Traffic.Forgets(id))
    {
      hide Valid, Orderly, View, World, Objects, Connection.Footprint, Connection.View, Next, Enabled, Inv, Step;
      actions := [];
      Releasable(id);
      if id in conns && id in held && conns[id] !in connections.Values {
        InOrder();
        Numbered(id);
        Release(conns[id]);
        actions := [Lifecycle.Release(id)];
        RunOfOne(old(View()), actions[0]);
      }
      ObjectsGrow();
    }

    lemma Releasable(id: nat)
      requires Valid()
      ensures Progressing(app)
      ensures Enabled(World().life, Lifecycle.Release(id)) <==>
              id in conns && id in held && conns[id] !in connections.Values
    {
      hide Inv, Apart, Writing.Interest, Shown;
      if id in conns && id in View().connections.Values {
        var fd := KeyOf(View().connections, id);
        assert connections[fd] == conns[id];
      }
      if id in conns && conns[id] in connections.Values {
        var fd := KeyOf(connections, conns[id]);
        assert View().connections[fd] == id;
      }
    }

    /**
     One thing that happens to the server. What cannot happen now, or finds no
     connection, does nothing.
     */
    method Handle(input: Traffic.Input) returns (ghost actions: seq<Action>, alive: bool)
      requires Valid()
      modifies this, loop`register, loop.poller, Objects()
      ensures fresh(Objects() - old(Objects()))
      ensures (Valid() <==> alive) && (alive <==> Quiet(actions)) && (alive || Traffic.Throwing(input)) && OldStay()
      ensures Possible(old(View()), actions) && Lifecycle.Run(old(View()), actions) == Some(View())
      ensures alive ==> World() == Traffic.After(app, old(World()), input)
    {
      hide Valid, View, World, Objects, Traffic.After;
      alive := true;
      match input {
        case Accepts(fd, arrivals, departures, throws) => actions, alive := Admit(fd, arrivals, departures, throws);
        case Fires(fd, mask, reaction) => actions := Fire(fd, mask, reaction);
        case Responds(uid, msg, reaction) => actions := Respond(uid, msg, reaction);
        case Closes(fd) => actions := Shut(fd);
        case Forgets(id) => actions := Forget(id);
      }
    }

    /**
     Any number of such things, up to a connected callback that throws: the tables,
     the loop and the kernel go through a run of `Lifecycle`, and everything stays in
     order exactly when no callback threw. The server as a whole then goes through
     the same run of `Traffic`.
     */
    method Serve(inputs: seq<Traffic.Input>) returns (ghost actions: seq<Action>)
      requires Valid()
      modifies this, loop`register, loop.poller, Objects()
      ensures forall o :: o in Objects() && o !in old(Objects()) ==> fresh(o)
      ensures Valid() <==> Quiet(actions)
      ensures (forall input :: input in inputs ==> !Traffic.Throwing(input)) ==> Quiet(actions)
      ensures Possible(old(View()), actions) && Lifecycle.Run(old(View()), actions) == Some(View())
      ensures Valid() ==> World() == Traffic.Run(app, old(World()), inputs)
      ensures OldStay() && (Valid() ==> Attended())
      ensures Valid() && Traffic.NoneThrows(inputs) && Traffic.Silents(inputs) ==> AppendedFor(inputs)
    {
      hide Attended, AppendedFor, Valid, Orderly, View, World, Objects, Lifecycle.Run, Possible, Quiet,
           Traffic.Run, Traffic.After;
      actions := [];
      NoRun(View());
      InOrder();
      Traffic.NoInputs(app, World());
      var i := 0;
      while i < |inputs|
        invariant i <= |inputs| && Valid() && Orderly() && Quiet(actions)
        invariant forall o :: o in Objects() && o !in old(Objects()) ==> fresh(o)
        invariant Possible(old(View()), actions) && Lifecycle.Run(old(View()), actions) == Some(View())
        invariant World() == Traffic.Run(app, old(World()), inputs[..i]) && OldStay()
      {
        ghost var before := Objects();
        var alive;
        ghost var more;
        label now:
        more, alive := Handle(inputs[i]);
        forall o | o in Objects() && o !in old(Objects())
          ensures fresh(o)
        {
          if o !in before {
            assert o in Objects() - before && fresh@now(o);
          }
        }
        RunAppend(old(View()), actions, more);
        QuietAppend(actions, more);
        actions := actions + more;
        if !alive {
          return;
        }
        InOrder();
        Traffic.RunSnoc(app, old(World()), inputs[..i], inputs[i]);
        assert inputs[..i] + [inputs[i]] == inputs[..i + 1];
        i := i + 1;
      }
      assert inputs[..i] == inputs;
      EveryLiveIsAttended();
      if Traffic.NoneThrows(inputs) && Traffic.Silents(inputs) {
        ServedAppends(inputs);
      }
    }

    lemma Numbered(id: nat)
      requires Orderly() && id in conns
      ensures conns[id].id == id
    {
    }
  }

  /** Nobody watches a connection that is not connected. */
  function Closed(s: Session.State): Session.State {
    if s.status == Connected then s else s.(watched := None)
  }

  /** A handler that changed nothing, or a close. */
  lemma ClosedOrKept(v: Life, w: Life, id: nat) returns (actions: seq<Action>)
    requires id in v.conns && (w == v || Some(w) == Lifecycle.CloseConn(v, id))
    ensures Quiet(actions) && Possible(v, actions) && Lifecycle.Run(v, actions) == Some(w)
  {
    if w == v {
      actions := [];
    } else {
      actions := [Close(id)];
      RunOfOne(v, Close(id));
    }
  }
}
