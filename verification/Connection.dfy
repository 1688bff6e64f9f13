/** xConnection (net/connection.cpp, net/include/connection.h), specified by the functions of `Session`. */
module Connection {
  import opened Bytes
  import opened Kernel
  import opened ByteBuffer
  import opened Framing
  import opened EventLoop
  import opened Statuses
  import Session
  import Writing

  class Connection {
    const id: nat
    const fd: int
    const loop: Loop
    const sock: Socket
    const readBuff: Buffer
    const writeBuff: Buffer
    const app: Callbacks
    var status: Status
    var writeEnabled: bool

    // what the callbacks have seen so far
    var calls: nat
    ghost var committed: seq<Bytes>
    ghost var reports: seq<int>
    ghost var closeNotices: nat
    ghost var appended: Bytes
    ghost var torn: nat

    /** What only this connection touches. */
    ghost function Footprint(): set<object>
      reads readBuff, writeBuff
    {
      {this, readBuff, readBuff.buffer, writeBuff, writeBuff.buffer, sock}
    }

    /** The two connections share nothing. */
    ghost predicate Distinct(other: Connection)
      reads readBuff, writeBuff, other.readBuff, other.writeBuff
    {
      && this != other && sock != other.sock
      && readBuff != other.readBuff && readBuff != other.writeBuff
      && writeBuff != other.readBuff && writeBuff != other.writeBuff
      && readBuff.buffer != other.readBuff.buffer && readBuff.buffer != other.writeBuff.buffer
      && writeBuff.buffer != other.readBuff.buffer && writeBuff.buffer != other.writeBuff.buffer
    }

    /** Nothing this connection owns has changed. */
    twostate predicate Untouched()
      reads Footprint()
    {
      && unchanged(this) && unchanged(sock)
      && unchanged(readBuff) && unchanged(readBuff.buffer)
      && unchanged(writeBuff) && unchanged(writeBuff.buffer)
    }

    /** The connection by itself, whatever the loop does. */
    ghost predicate Sound()
      reads readBuff, writeBuff
    {
      && readBuff != writeBuff && readBuff.buffer != writeBuff.buffer
      && readBuff.Valid() && writeBuff.Valid()
      && sock.fd == fd
      && Progressing(app)
    }

    ghost predicate Valid()
      reads readBuff, writeBuff, loop, loop.poller
    {
      Sound() && loop.Valid()
    }

    ghost function View(): Session.State
      requires Valid()
      reads this, readBuff, readBuff.buffer, writeBuff, writeBuff.buffer, sock, loop, loop.poller
    {
      Session.State(status, writeEnabled,
            MaskOf(loop.Snapshot(), fd),
            readBuff.Contents(), writeBuff.Contents(),
            sock.arrivals, sock.departures, sock.accepted, appended, torn,
            calls, committed, reports, closeNotices)
    }

    /** Nothing but this descriptor's entry changed in the loop, and of that at most the mask. */
    twostate predicate OthersKept()
      reads loop, loop.poller
    {
      OnlyMask(old(loop.Snapshot()), loop.Snapshot(), fd)
    }

    constructor (id: nat, loop: Loop, sock: Socket, app: Callbacks)
      requires loop.Valid() && Progressing(app)
      ensures Valid() && this.id == id && fd == sock.fd && this.loop == loop && this.sock == sock && this.app == app
      ensures fresh(readBuff) && fresh(readBuff.buffer) && fresh(writeBuff) && fresh(writeBuff.buffer)
      ensures status == Connecting && !writeEnabled && calls == 0
      ensures committed == [] && reports == [] && closeNotices == 0 && appended == [] && torn == 0
      ensures readBuff.Contents() == [] && writeBuff.Contents() == []
      ensures View() == Session.Opened(sock.arrivals, sock.departures).(
                          status := Connecting, watched := MaskOf(loop.Snapshot(), fd), accepted := sock.accepted)
    {
      this.id, this.loop, this.sock, this.app := id, loop, sock, app;
      fd := sock.fd;
      readBuff := new Buffer(1020);
      writeBuff := new Buffer(1020);
      status, writeEnabled, calls := Connecting, false, 0;
      committed, reports, closeNotices, appended, torn := [], [], 0, [], 0;
    }

    /** makeConnected up to the finish callback, which the caller runs next. */
    method MakeConnected()
      requires Valid() && fd in loop.poller.open
      modifies this`status, loop`register, loop.poller`interest
      ensures Valid() && status == Connected
      ensures View() == old(View()).(status := Connected, watched := Some(XE_READABLE))
      ensures loop.register == old(loop.register)[fd := EventState(XE_READABLE, 0, OfConnection(id))]
      ensures loop.poller.open == old(loop.poller.open)
    {
      status := Connected;
      loop.Reg(fd, 0, XE_READABLE, OfConnection(id));
    }

    /** closeConn; `notify` is whether the close callback is due. */
    method CloseConn() returns (notify: bool)
      requires Valid()
      modifies this`status, this`closeNotices, loop`register, loop.poller`interest
      ensures Valid() && OthersKept()
      ensures notify <==> old(status) != Disconnected && old(status) != Disconnecting
      ensures status == if notify then Disconnecting else old(status)
      ensures loop.register == if notify then old(loop.register) - {fd} else old(loop.register)
      ensures View() == Session.CloseConn(old(View()))
    {
      hide EventLoop.Apply, RestOf, OwnerOf, MaskOf;
      if status == Disconnected || status == Disconnecting {
        return false;
      }
      status := Disconnecting;
      loop.Remove(fd);
      OneEntry(old(loop.Snapshot()), EventLoop.Op.Remove(fd), false);
      closeNotices := closeNotices + 1;
      notify := true;
    }

    method SendMsg(reaction: Session.Reaction) returns (ret: int)
      requires Valid()
      modifies this`status, this`writeEnabled, this`reports, this`closeNotices, this`appended, this`torn
      modifies writeBuff, writeBuff.buffer, sock`departures, sock`accepted, loop`register, loop.poller`interest
      ensures Valid() && OthersKept() && (writeBuff.buffer == old(writeBuff.buffer) || fresh(writeBuff.buffer))
      ensures (ret, View()) == Session.SendMsg(old(View()), reaction, false)
      decreases reaction, 2
    {
      hide Session.CloseConn, Session.Perform, Session.Settle, WriteAll;
      if status != Connected {
        return -1;
      }
      var sent := 0;
      if writeBuff.writerIndex - writeBuff.readerIndex > 0 {
        var errno;
        sent, errno := Write();
        if sent < 0 {
          return if errno == WouldBlock then 0 else -1;
        }
        React(sent, reaction);
      }
      Settle();
      ret := sent;
    }

    /** The call of writeFd, and moveOver when it succeeds. */
    method Write() returns (sent: int, errno: Errno)
      requires Valid()
      modifies writeBuff, sock`departures, sock`accepted, this`torn
      ensures Valid() && OthersKept() && writeBuff.buffer == old(writeBuff.buffer)
      ensures View() == Session.Write(old(View()))
      ensures var w := WriteAll(old(sock.departures), |old(writeBuff.Contents())|);
              sent == w.ret && (sent < 0 ==> errno == w.errno)
    {
      hide WriteAll;
      ghost var w := WriteAll(sock.departures, |writeBuff.Contents()|);
      sent, errno := WriteFd(sock, writeBuff.Contents());
      torn := torn + if w.ret < 0 < w.taken then 1 else 0;
      if sent >= 0 {
        writeBuff.MoveOver(sent);
      }
    }

    /** The sent-bytes callback; an exception from it is swallowed. */
    method React(n: int, reaction: Session.Reaction)
      requires Valid()
      modifies this`status, this`writeEnabled, this`reports, this`closeNotices, this`appended, this`torn
      modifies writeBuff, writeBuff.buffer, sock`departures, sock`accepted, loop`register, loop.poller`interest
      ensures Valid() && OthersKept() && (writeBuff.buffer == old(writeBuff.buffer) || fresh(writeBuff.buffer))
      ensures View() == Session.React(old(View()), n, reaction, false)
      decreases reaction, 1
    {
      hide Session.Perform;
      reports := reports + [n];
      assert View() == old(View()).(reports := reports);
      Perform(reaction);
    }

    /** The calls the callback makes on this connection. */
    method Perform(reaction: Session.Reaction)
      requires Valid()
      modifies this`status, this`writeEnabled, this`reports, this`closeNotices, this`appended, this`torn
      modifies writeBuff, writeBuff.buffer, sock`departures, sock`accepted, loop`register, loop.poller`interest
      ensures Valid() && OthersKept() && (writeBuff.buffer == old(writeBuff.buffer) || fresh(writeBuff.buffer))
      ensures View() == Session.Perform(old(View()), reaction, false)
      decreases reaction, 0
    {
      hide Session.CloseConn, Session.Send, View, Valid, RestOf, OwnerOf, MaskOf;
      match reaction {
        case Quiet =>
        case Throws =>
        case Closes(next) =>
          var _ := CloseConn();
          Perform(next);
        case Sends(msg, inner, next) =>
          Send(msg, inner);
          Perform(next);
      }
    }

    /** The last lines of sendMsg. */
    method Settle()
      requires Valid()
      modifies this`writeEnabled, loop`register, loop.poller`interest
      ensures Valid() && OthersKept()
      ensures View() == Session.Settle(old(View()), false)
    {
      hide EventLoop.Apply, RestOf, OwnerOf, MaskOf, Cleared;
      ghost var v := loop.Snapshot();
      var pending := writeBuff.writerIndex - writeBuff.readerIndex > 0;
      if pending && !writeEnabled {
        loop.AddEvent(fd, XE_WRITABLE);
        OneEntry(v, AddEvent(fd, XE_WRITABLE), false);
        writeEnabled := true;
      }
      if !pending && writeEnabled {
        loop.RemoveEvent(fd, XE_WRITABLE);
        OneEntry(v, RemoveEvent(fd, XE_WRITABLE), false);
        writeEnabled := false;
      }
    }

    /** In a state with the interest invariant an enabled write event is one the kernel itself watches for. */
    lemma KernelWatches()
      requires Valid() && status == Connected && writeEnabled && Writing.Interest(View())
      ensures fd in loop.poller.interest && 2 in loop.poller.interest[fd]
    {
      assert fd in loop.register && Matches(loop.register[fd].mask, loop.poller.interest[fd]);
    }

    /** sendMsgToBuffer: the result of sendMsg is dropped. */
    method SendMsgToBuffer(msg: Bytes, reaction: Session.Reaction)
      requires Valid()
      modifies this`status, this`writeEnabled, this`reports, this`closeNotices, this`appended, this`torn
      modifies writeBuff, writeBuff.buffer, sock`departures, sock`accepted, loop`register, loop.poller`interest
      ensures Valid() && OthersKept() && (writeBuff.buffer == old(writeBuff.buffer) || fresh(writeBuff.buffer))
      ensures View() == Session.SendMsg(Session.Put(old(View()), msg), reaction, false).1
      decreases reaction, 3
    {
      hide Session.SendMsg;
      writeBuff.Append(msg);
      appended := appended + msg;
      assert View() == Session.Put(old(View()), msg);
      var _ := SendMsg(reaction);
    }

    /** sendMsg for a string, called on the loop thread. */
    method Send(msg: Bytes, reaction: Session.Reaction)
      requires Valid()
      modifies this`status, this`writeEnabled, this`reports, this`closeNotices, this`appended, this`torn
      modifies writeBuff, writeBuff.buffer, sock`departures, sock`accepted, loop`register, loop.poller`interest
      ensures Valid() && OthersKept() && (writeBuff.buffer == old(writeBuff.buffer) || fresh(writeBuff.buffer))
      ensures View() == Session.Send(old(View()), msg, reaction, false)
      decreases reaction, 4
    {
      if status == Connected {
        SendMsgToBuffer(msg, reaction);
      }
    }

    /** parseProtocol: commit what the decoder measures, keep the rest. */
    method ParseProtocol()
      requires Valid()
      modifies this`calls, this`committed, readBuff
      ensures Valid() && readBuff.buffer == old(readBuff.buffer)
      ensures var p := Parse(app, old(calls), old(readBuff.Contents()));
              && readBuff.Contents() == p.rest
              && calls == p.calls
              && committed == old(committed) + p.messages
    {
      ghost var whole := Parse(app, calls, readBuff.Contents());
      while readBuff.writerIndex - readBuff.readerIndex > 0
        invariant Valid() && readBuff.buffer == old(readBuff.buffer)
        invariant var p := Parse(app, calls, readBuff.Contents());
                  && committed + p.messages == old(committed) + whole.messages
                  && p.rest == whole.rest && p.calls == whole.calls
        decreases |readBuff.Contents()|
      {
        var window := readBuff.Contents();
        ghost var p := Parse(app, calls, window);
        var answer := app.decode(calls, window);
        var throws := app.commitThrows(calls);
        calls := calls + 1;
        if answer.Threw? || Clears(answer.value) {
          readBuff.Reset();
          break;
        }
        if answer.value == DECODE_NOT_ENOUGH {
          break;
        }
        var n := Min(answer.value, |window|);
        var commitBuffer := CommitBuffer(readBuff, n);
        assert commitBuffer.Contents() == window[..n] && readBuff.Contents() == window[n..];
        ghost var before := committed;
        committed := committed + [commitBuffer.Contents()];
        if throws {
          readBuff.Reset();
          break;
        }
        assert p.messages == [window[..n]] + Parse(app, calls, readBuff.Contents()).messages;
        Associate(before, [window[..n]], Parse(app, calls, readBuff.Contents()).messages);
      }
    }

    /** The while loop of readMsg: read until the kernel has nothing more, fails, or reports the end. */
    method Receive() returns (readSize: nat, failed: bool)
      requires Valid()
      modifies readBuff, readBuff.buffer, sock`arrivals
      ensures Valid() && (readBuff.buffer == old(readBuff.buffer) || fresh(readBuff.buffer))
      ensures var d := Drain(old(sock.arrivals));
              && readBuff.Contents() == old(readBuff.Contents()) + d.bytes
              && sock.arrivals == d.rest
              && readSize == |d.bytes|
              && (failed <==> d.ending != ReadFailed(WouldBlock))
    {
      hide Drain, NextRead;
      ghost var whole := Drain(sock.arrivals);
      ghost var received: Bytes := [];
      readSize := 0;
      while true
        invariant Valid() && (readBuff.buffer == old(readBuff.buffer) || fresh(readBuff.buffer))
        invariant readBuff.Contents() == old(readBuff.Contents()) + received && readSize == |received|
        invariant var d := Drain(sock.arrivals);
                  whole == Drained(received + d.bytes, d.ending, d.rest)
        decreases Backlog(sock.arrivals)
      {
        DrainStep(sock.arrivals, readBuff.Layout().Room());
        ghost var (a, rest) := NextRead(sock.arrivals, readBuff.Layout().Room());
        var n, errno := readBuff.FillFromFd(sock);
        if n < 0 {
          return readSize, errno != WouldBlock;
        }
        if n == 0 {
          return readSize, true;
        }
        Associate(old(readBuff.Contents()), received, a.bytes);
        Associate(received, a.bytes, Drain(rest).bytes);
        received := received + a.bytes;
        readSize := readSize + n;
      }
    }

    method ReadMsg() returns (ret: int)
      requires Valid()
      modifies this`calls, this`committed, readBuff, readBuff.buffer, sock`arrivals
      ensures Valid() && (readBuff.buffer == old(readBuff.buffer) || fresh(readBuff.buffer))
      ensures (ret, View()) == Session.ReadMsg(app, old(View()))
    {
      assert committed + [] == committed && readBuff.Contents() + [] == readBuff.Contents();
      var readSize, failed := Receive();
      if failed {
        return -1;
      }
      if readSize > 0 {
        ParseProtocol();
      }
      ret := readSize;
    }

    /** The read part of an event; `go` is whether the write part is due. */
    method HandleRead() returns (go: bool)
      requires Valid()
      modifies this`status, this`calls, this`committed, this`closeNotices
      modifies readBuff, readBuff.buffer, sock`arrivals, loop`register, loop.poller`interest
      ensures Valid() && OthersKept()
      ensures readBuff.buffer == old(readBuff.buffer) || fresh(readBuff.buffer)
      ensures var (ret, t) := Session.ReadMsg(app, old(View()));
              go == (ret >= 0) && View() == if go then t else Session.CloseConn(t)
    {
      hide Session.CloseConn, Session.ReadMsg, View, Valid, RestOf, OwnerOf, MaskOf;
      var ret := ReadMsg();
      go := ret >= 0;
      if !go {
        var _ := CloseConn();
      }
    }

    /** The write part. */
    method HandleWrite(reaction: Session.Reaction)
      requires Valid()
      modifies this`status, this`writeEnabled, this`reports, this`closeNotices, this`appended, this`torn
      modifies writeBuff, writeBuff.buffer, sock`departures, sock`accepted, loop`register, loop.poller`interest
      ensures Valid() && OthersKept()
      ensures writeBuff.buffer == old(writeBuff.buffer) || fresh(writeBuff.buffer)
      ensures var (ret, t) := Session.SendMsg(old(View()), reaction, false);
              View() == if ret >= 0 then t else Session.CloseConn(t)
    {
      hide Session.CloseConn, Session.SendMsg, View, Valid, RestOf, OwnerOf, MaskOf;
      var ret := SendMsg(reaction);
      if ret < 0 {
        var _ := CloseConn();
      }
    }

    method HandleEvent(mask: Mask, reaction: Session.Reaction)
      requires Valid()
      modifies this`status, this`writeEnabled, this`calls, this`committed, this`reports, this`closeNotices
      modifies this`appended, this`torn
      modifies readBuff, readBuff.buffer, writeBuff, writeBuff.buffer, sock, loop`register, loop.poller`interest
      ensures Valid() && OthersKept()
      ensures readBuff.buffer == old(readBuff.buffer) || fresh(readBuff.buffer)
      ensures writeBuff.buffer == old(writeBuff.buffer) || fresh(writeBuff.buffer)
      ensures View() == Session.HandleEvent(app, old(View()), mask, reaction, false)
    {
      hide Session.CloseConn, Session.SendMsg, Session.ReadMsg, View, Valid, RestOf, OwnerOf, MaskOf;
      if mask * XE_ERROR != {} || mask * XE_HUP != {} {
        var _ := CloseConn();
        return;
      }
      if mask * XE_READABLE != {} {
        var go := HandleRead();
        if !go {
          return;
        }
      }
      if mask * XE_WRITABLE != {} {
        HandleWrite(reaction);
      }
    }
  }

  /** The lines of parseProtocol that fill the buffer handed to the commit callback. */
  method CommitBuffer(readBuff: Buffer, n: nat) returns (b: Buffer)
    requires readBuff.Valid() && n <= |readBuff.Contents()|
    modifies readBuff
    ensures readBuff.Valid() && readBuff.buffer == old(readBuff.buffer)
    ensures fresh(b) && fresh(b.buffer) && b.Valid()
    ensures b.Contents() + readBuff.Contents() == old(readBuff.Contents()) && |b.Contents()| == n
    ensures b.readerIndex == DISCARDABLE_SIZE
  {
    hide Shape.MoveOver;
    ghost var content := readBuff.Contents();
    b := new Buffer(n);
    b.Append(readBuff.Contents()[..n]);
    readBuff.MoveOver(n);
    Halves(content, n);
  }

  lemma Halves(content: Bytes, n: nat)
    requires n <= |content|
    ensures [] + content[..n] == content[..n] && content[..n] + content[n..] == content
  {
  }
}
