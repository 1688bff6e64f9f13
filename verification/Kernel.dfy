/**
 The kernel side of a non-blocking stream socket, and the write loop of
 base/file_api.cpp.  What the kernel will answer is an arbitrary script, so a
 statement about every script is a statement about every behaviour of the
 kernel.  A script that has run out answers "would block".
 */
module Kernel {
  import opened Bytes

  datatype Errno = NoError | WouldBlock | Interrupted | Broken

  /** One answer to readv. `Data` may hold more than the caller asks for; the rest stays queued. */
  datatype Arrival = Data(bytes: Bytes) | Eof | ReadFailed(errno: Errno)

  /** One answer to write. `Took` is cut to what the caller offered. */
  datatype Departure = Took(count: nat) | WriteFailed(errno: Errno)

  function Min(a: int, b: int): int {
    if a < b then a else b
  }

  /** readv(2) with room for `room` octets; zero octets mean end of file. */
  function NextRead(arrivals: seq<Arrival>, room: nat): (r: (Arrival, seq<Arrival>))
    requires room > 0
    ensures r.0.Data? ==> 0 < |r.0.bytes| <= room
    ensures r.0.Data? ==> Backlog(r.1) < Backlog(arrivals)
  {
    if arrivals == [] then (ReadFailed(WouldBlock), [])
    else if !arrivals[0].Data? then (arrivals[0], arrivals[1..])
    else
      var bytes := arrivals[0].bytes;
      if bytes == [] then (Eof, arrivals[1..])
      else if |bytes| <= room then (arrivals[0], arrivals[1..])
      else (Data(bytes[..room]), [Data(bytes[room..])] + arrivals[1..])
  }

  /** How much the script can still deliver. */
  function Backlog(arrivals: seq<Arrival>): nat {
    if arrivals == [] then 0
    else (if arrivals[0].Data? then |arrivals[0].bytes| else 0) + Backlog(arrivals[1..])
  }

  datatype Drained = Drained(bytes: Bytes, ending: Arrival, rest: seq<Arrival>)

  /** Everything the script delivers before it first answers with something other than data. */
  function Drain(arrivals: seq<Arrival>): (d: Drained)
    ensures !d.ending.Data?
  {
    if arrivals == [] then Drained([], ReadFailed(WouldBlock), [])
    else if !arrivals[0].Data? then Drained([], arrivals[0], arrivals[1..])
    else if arrivals[0].bytes == [] then Drained([], Eof, arrivals[1..])
    else
      var d := Drain(arrivals[1..]);
      d.(bytes := arrivals[0].bytes + d.bytes)
  }

  /** How much room a read offers changes the cuts, never the stream. */
  lemma DrainStep(arrivals: seq<Arrival>, room: nat)
    requires room > 0
    ensures var (a, rest) := NextRead(arrivals, room);
            Drain(arrivals) == if a.Data? then Drain(rest).(bytes := a.bytes + Drain(rest).bytes)
                               else Drained([], a, rest)
  {
    hide Drain;
    if arrivals == [] || !arrivals[0].Data? || arrivals[0].bytes == [] {
      DrainStops(arrivals);
    } else {
      var bytes, tail := arrivals[0].bytes, arrivals[1..];
      assert arrivals == [Data(bytes)] + tail;
      if |bytes| <= room {
        DrainData(bytes, tail);
      } else {
        DrainCut(bytes, tail, room);
      }
    }
  }

  lemma DrainCut(bytes: Bytes, tail: seq<Arrival>, room: nat)
    requires 0 < room < |bytes|
    ensures var rest := Drain([Data(bytes[room..])] + tail);
            Drain([Data(bytes)] + tail) == rest.(bytes := bytes[..room] + rest.bytes)
  {
    hide Drain;
    DrainData(bytes, tail);
    DrainData(bytes[room..], tail);
    assert bytes[..room] + (bytes[room..] + Drain(tail).bytes) == bytes + Drain(tail).bytes;
  }

  lemma DrainStops(arrivals: seq<Arrival>)
    requires arrivals == [] || !arrivals[0].Data? || arrivals[0].bytes == []
    ensures Drain(arrivals) == if arrivals == [] then Drained([], ReadFailed(WouldBlock), [])
                               else Drained([], if arrivals[0].Data? then Eof else arrivals[0], arrivals[1..])
  {
  }

  lemma DrainData(bytes: Bytes, tail: seq<Arrival>)
    requires bytes != []
    ensures Drain([Data(bytes)] + tail) == Drain(tail).(bytes := bytes + Drain(tail).bytes)
  {
    assert ([Data(bytes)] + tail)[1..] == tail;
  }

  /** write(2) of `count` octets: how many were taken, or -1 and why not. */
  function NextWrite(departures: seq<Departure>, count: nat): (r: (int, Errno, seq<Departure>))
    ensures -1 <= r.0 <= count
    ensures r.0 >= 0 || r.1 != WouldBlock ==> |r.2| < |departures|
  {
    if departures == [] then (-1, WouldBlock, [])
    else
      match departures[0]
      case Took(k) => (Min(k, count), NoError, departures[1..])
      case WriteFailed(e) => (-1, e, departures[1..])
  }

  class Socket {
    const fd: int
    var arrivals: seq<Arrival>
    var departures: seq<Departure>
    var accepted: Bytes  // all octets the kernel ever took over from the process

    constructor (fd: int, arrivals: seq<Arrival>, departures: seq<Departure>)
      ensures this.fd == fd && this.arrivals == arrivals && this.departures == departures && accepted == []
    {
      this.fd, this.arrivals, this.departures, accepted := fd, arrivals, departures, [];
    }

    method Readv(room: nat) returns (a: Arrival)
      requires room > 0
      modifies this`arrivals
      ensures (a, arrivals) == NextRead(old(arrivals), room)
    {
      var (answer, rest) := NextRead(arrivals, room);
      a, arrivals := answer, rest;
    }

    method Write(data: Bytes) returns (n: int, errno: Errno)
      requires data != []
      modifies this`departures, this`accepted
      ensures (n, errno, departures) == NextWrite(old(departures), |data|)
      ensures accepted == old(accepted) + if n < 0 then [] else data[..n]
    {
      var (k, e, rest) := NextWrite(departures, |data|);
      n, errno, departures := k, e, rest;
      if n >= 0 {
        accepted := accepted + data[..n];
      }
    }
  }

  /** `taken` octets left the process; the caller is only told `ret` and `errno`. */
  datatype Written = Written(ret: int, errno: Errno, taken: nat, rest: seq<Departure>)

  /** writeFd: insist until `count` octets are out, the kernel takes none, or it fails. */
  function WriteAll(script: seq<Departure>, count: nat): (w: Written)
    ensures w.taken <= count
    ensures if w.ret >= 0 then w.ret == w.taken else w.ret == -1 && w.taken < count && w.errno != Interrupted
    ensures 0 <= w.ret < count ==> Took(0) in script
    ensures |w.rest| <= |script|
  {
    if count == 0 then Written(0, NoError, 0, script)
    else if script == [] then Written(-1, WouldBlock, 0, [])
    else
      match script[0]
      case WriteFailed(e) =>
        if e == Interrupted then WriteAll(script[1..], count) else Written(-1, e, 0, script[1..])
      case Took(k) =>
        var n := Min(k, count);
        if n == 0 then Written(0, NoError, 0, script[1..])
        else
          var w := WriteAll(script[1..], count - n);
          if w.ret < 0 then w.(taken := n + w.taken)
          else w.(ret := n + w.ret, taken := n + w.taken)
  }

  /** The outcome of the whole call when `sent` octets went out before the part `w` describes. */
  function After(w: Written, sent: nat): Written {
    Written(if w.ret < 0 then -1 else sent + w.ret, w.errno, sent + w.taken, w.rest)
  }

  lemma WriteAllStep(script: seq<Departure>, count: nat)
    requires count > 0
    ensures var (n, e, rest) := NextWrite(script, count);
            WriteAll(script, count) ==
              if n == 0 then Written(0, NoError, 0, rest)
              else if n > 0 then After(WriteAll(rest, count - n), n)
              else if e == Interrupted then WriteAll(rest, count)
              else Written(-1, e, 0, rest)
  {
  }

  lemma AfterNothing(w: Written)
    requires w.ret >= -1
    ensures After(w, 0) == w
  {
  }

  lemma AfterAll(script: seq<Departure>, sent: nat)
    ensures After(WriteAll(script, 0), sent) == Written(sent, NoError, sent, script)
  {
  }

  /** The rest of the call after one write that took `n` octets. */
  lemma AfterOne(script: seq<Departure>, sent: nat, count: nat)
    requires count > 0
    ensures var (n, e, rest) := NextWrite(script, count);
            After(WriteAll(script, count), sent) ==
              if n == 0 then Written(sent, NoError, sent, rest)
              else if n > 0 then After(WriteAll(rest, count - n), sent + n)
              else if e == Interrupted then After(WriteAll(rest, count), sent)
              else Written(-1, e, sent, rest)
  {
    hide WriteAll;
    WriteAllStep(script, count);
  }

  /** Answers after which the loop goes on: octets taken, or an interruption. */
  predicate GoesOn(script: seq<Departure>) {
    forall d :: d in script ==> (d.Took? && d.count > 0) || d == WriteFailed(Interrupted)
  }

  function TakenBy(script: seq<Departure>): nat {
    if script == [] then 0 else (if script[0].Took? then script[0].count else 0) + TakenBy(script[1..])
  }

  /**
   What one call comes to, for every script: the answers are used up to the first
   one that completes the count, takes nothing or fails; the failure's own reason is
   reported, and a call that finds no more answers has to wait.
   */
  lemma {:induction false} WriteCallIs(head: seq<Departure>, tail: seq<Departure>, count: nat)
    requires GoesOn(head) && TakenBy(head) < count
    requires tail == [] || !GoesOn([tail[0]]) || (tail[0].Took? && TakenBy(head) + tail[0].count >= count)
    ensures var n := TakenBy(head);
            WriteAll(head + tail, count) ==
              if tail == [] then Written(-1, WouldBlock, n, [])
              else
                match tail[0]
                case Took(k) => Written(if k == 0 then n else count, NoError, if k == 0 then n else count, tail[1..])
                case WriteFailed(e) => Written(-1, e, n, tail[1..])
    decreases |head|
  {
    hide WriteAll;
    var script := head + tail;
    WriteAllStep(script, count);
    if head == [] {
      assert script == tail;
      if tail != [] {
        assert tail[0] in [tail[0]];
        AfterAll(tail[1..], count);
      }
    } else {
      assert script[0] == head[0] && script[1..] == head[1..] + tail;
      assert head[0] in head && forall d :: d in head[1..] ==> d in head;
      WriteCallIs(head[1..], tail, if head[0].Took? then count - head[0].count else count);
    }
  }

  /** xFileApi::writeFd. The partial count is forgotten when a later write fails. */
  method WriteFd(sock: Socket, data: Bytes) returns (ret: int, errno: Errno)
    modifies sock`departures, sock`accepted
    ensures var w := WriteAll(old(sock.departures), |data|);
            && ret == w.ret
            && (ret < 0 ==> errno == w.errno)
            && sock.departures == w.rest
            && sock.accepted == old(sock.accepted) + data[..w.taken]
  {
    hide WriteAll, After, NextWrite;
    var totlen := 0;
    ghost var whole := WriteAll(sock.departures, |data|);
    AfterNothing(whole);
    while totlen != |data|
      invariant 0 <= totlen <= |data|
      invariant sock.accepted == old(sock.accepted) + data[..totlen]
      invariant whole == After(WriteAll(sock.departures, |data| - totlen), totlen)
      decreases |sock.departures|, |data| - totlen
    {
      AfterOne(sock.departures, totlen, |data| - totlen);
      var n, e := sock.Write(data[totlen..]);
      if n == 0 {
        return totlen, NoError;
      }
      if n == -1 {
        if e == Interrupted {
          continue;
        }
        return -1, e;
      }
      assert data[totlen..][..n] == data[totlen..totlen + n];
      assert data[..totlen] + data[totlen..totlen + n] == data[..totlen + n];
      totlen := totlen + n;
    }
    AfterAll(sock.departures, totlen);
    ret, errno := totlen, NoError;
  }
}
