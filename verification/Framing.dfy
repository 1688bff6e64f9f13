/**
 The incremental framer of net/connection.cpp: what parseProtocol commits and
 keeps, as a function of the buffered octets and the user's callbacks, and why
 the cuts the network makes in the stream do not matter.
 */
module Framing {
  import opened Bytes
  import opened Kernel

  const DECODE_ERR: int := -1
  const DECODE_NOT_ENOUGH: int := -2

  /**
   The answers that clear the read buffer: the error code, and numbers below -4,
   which as lengths of a commit buffer exceed what a block can hold, so that its
   constructor throws inside the try block.
   */
  predicate Clears(value: int) {
    value == DECODE_ERR || value < -4
  }

  /** What a user callback does: return a number or throw. */
  datatype Answer = Returned(value: int) | Threw

  /**
   The two user callbacks of the parse loop. The k-th call of the decoder may
   depend on k as well as on the octets, so any stateful decoder is covered;
   `commitThrows(k)` tells whether the commit that follows that call throws.
   */
  datatype Callbacks = Callbacks(decode: (nat, Bytes) -> Answer, commitThrows: nat -> bool)

  /** The decoder's contract: an error code or a positive length, for every non-empty input. */
  ghost predicate Progressing(app: Callbacks) {
    forall k: nat, b: Bytes :: b != [] ==>
      var a := app.decode(k, b);
      a.Threw? || Clears(a.value) || a.value == DECODE_NOT_ENOUGH || a.value > 0
  }

  datatype Parsed = Parsed(messages: seq<Bytes>, rest: Bytes, calls: nat)

  /** parseProtocol on buffered octets `b`, the decoder having been called `k` times before. */
  ghost function Parse(app: Callbacks, k: nat, b: Bytes): (p: Parsed)
    requires Progressing(app)
    decreases |b|
  {
    if b == [] then Parsed([], [], k)
    else
      match app.decode(k, b)
      case Threw => Parsed([], [], k + 1)
      case Returned(value) =>
        if Clears(value) then Parsed([], [], k + 1)
        else if value == DECODE_NOT_ENOUGH then Parsed([], b, k + 1)
        else
          var n := Min(value, |b|);
          if app.commitThrows(k) then Parsed([b[..n]], [], k + 1)
          else
            var p := Parse(app, k + 1, b[n..]);
            p.(messages := [b[..n]] + p.messages)
  }

  function Join(messages: seq<Bytes>): Bytes {
    if messages == [] then [] else messages[0] + Join(messages[1..])
  }

  lemma {:induction false} JoinAppend(a: seq<Bytes>, b: seq<Bytes>)
    ensures Join(a + b) == Join(a) + Join(b)
  {
    if a == [] {
      assert a + b == b;
    } else {
      assert (a + b)[1..] == a[1..] + b;
      JoinAppend(a[1..], b);
    }
  }

  lemma JoinCons(m: Bytes, rest: seq<Bytes>)
    ensures Join([m] + rest) == m + Join(rest)
  {
    assert ([m] + rest)[1..] == rest;
  }

  // ---------- conservation

  /** No callback throws and the decoder never clears the buffer; lengths may exceed it. */
  ghost predicate ErrorFree(app: Callbacks): (free: bool)
    ensures free ==> Progressing(app)
  {
    && Progressing(app)
    && (forall k: nat, b: Bytes :: b != [] ==> app.decode(k, b).Returned? && !Clears(app.decode(k, b).value))
    && (forall k: nat :: !app.commitThrows(k))
  }

  lemma {:induction false} ParseConserves(app: Callbacks, k: nat, b: Bytes)
    requires ErrorFree(app)
    ensures var p := Parse(app, k, b); Join(p.messages) + p.rest == b && NoneEmpty(p.messages)
    decreases |b|
  {
    hide Parse, Join, NoneEmpty;
    if b == [] || app.decode(k, b).value <= 0 {
      ParseWaits(app, k, b);
    } else {
      var n := Min(app.decode(k, b).value, |b|);
      var q := Parse(app, k + 1, b[n..]);
      ParseCommit(app, k, b);
      ParseConserves(app, k + 1, b[n..]);
      JoinCons(b[..n], q.messages);
      Associate(b[..n], Join(q.messages), q.rest);
      NoneEmptyCons(b[..n], q.messages);
    }
  }

  predicate NoneEmpty(messages: seq<Bytes>) {
    forall m :: m in messages ==> m != []
  }

  lemma NoneEmptyCons(m: Bytes, rest: seq<Bytes>)
    requires m != [] && NoneEmpty(rest)
    ensures NoneEmpty([m] + rest)
  {
  }

  lemma ParseWaits(app: Callbacks, k: nat, b: Bytes)
    requires ErrorFree(app) && (b == [] || app.decode(k, b).value <= 0)
    ensures var p := Parse(app, k, b); Join(p.messages) + p.rest == b && NoneEmpty(p.messages)
  {
    assert Join([]) + b == b;
  }

  lemma ParseCommit(app: Callbacks, k: nat, b: Bytes)
    requires ErrorFree(app) && b != [] && app.decode(k, b).value > 0
    ensures var n := Min(app.decode(k, b).value, |b|);
            var q := Parse(app, k + 1, b[n..]);
            Parse(app, k, b) == q.(messages := [b[..n]] + q.messages)
  {
  }

  // ---------- what a parse is

  /** This call of the decoder measured this message at the front of these octets. */
  predicate MeasuredBy(app: Callbacks, k: nat, octets: Bytes, m: Bytes) {
    octets != [] && app.decode(k, octets).Returned? &&
    var value := app.decode(k, octets).value;
    value > 0 && m == octets[..Min(value, |octets|)]
  }

  /** The i-th message stands behind the others, as long as the call made in front of it said. */
  predicate CutAt(app: Callbacks, k: nat, b: Bytes, messages: seq<Bytes>, i: nat)
    requires i < |messages|
  {
    && Join(messages[..i]) <= b
    && MeasuredBy(app, k + i, b[|Join(messages[..i])|..], messages[i])
    && (i < |messages| - 1 ==> !app.commitThrows(k + i))
  }

  /** How it ends, with `left` behind the n-th message. */
  predicate EndsWith(app: Callbacks, k: nat, n: nat, left: Bytes, p: Parsed) {
    if (n > 0 && app.commitThrows(k + n - 1)) || left == [] then p.calls == k + n && p.rest == []
    else
      && p.calls == k + n + 1
      && var a := app.decode(k + n, left);
         if a == Returned(DECODE_NOT_ENOUGH) then p.rest == left
         else (a.Threw? || Clears(a.value)) && p.rest == []
  }

  /**
   The messages stand in the octets one behind the other, each as long as the call
   made in front of it said, and no commit but the last one threw. Then either all
   octets are used up, or the last commit threw, and nothing is kept; or one more
   call was made on what was left: it stays buffered if that call said "not enough",
   and is thrown away if it reported an error or threw.
   */
  ghost predicate Explains(app: Callbacks, k: nat, b: Bytes, p: Parsed) {
    && Join(p.messages) <= b
    && (forall i :: 0 <= i < |p.messages| ==> CutAt(app, k, b, p.messages, i))
    && EndsWith(app, k, |p.messages|, b[|Join(p.messages)|..], p)
  }

  lemma JoinFront(m: Bytes, ms: seq<Bytes>, i: nat)
    requires i <= |ms|
    ensures Join(([m] + ms)[..i + 1]) == m + Join(ms[..i])
  {
    assert ([m] + ms)[..i + 1] == [m] + ms[..i];
    JoinCons(m, ms[..i]);
  }

  lemma CutFront(app: Callbacks, k: nat, b: Bytes, m: Bytes, ms: seq<Bytes>, i: nat)
    requires m <= b && i < |ms|
    ensures CutAt(app, k, b, [m] + ms, i + 1) <==> CutAt(app, k + 1, b[|m|..], ms, i)
  {
    hide MeasuredBy;
    var c := b[|m|..];
    assert b == m + c;
    JoinFront(m, ms, i);
    SamePrefix(m, Join(ms[..i]), c);
  }

  /** The first message in front of what explains the rest of the octets, and what is left without it. */
  lemma ExplainsCons(app: Callbacks, k: nat, b: Bytes, m: Bytes, q: Parsed)
    requires MeasuredBy(app, k, b, m) && !app.commitThrows(k)
    ensures Explains(app, k, b, q.(messages := [m] + q.messages)) <==> Explains(app, k + 1, b[|m|..], q)
  {
    hide CutAt, Join, Clears;
    var c, ms, j := b[|m|..], [m] + q.messages, k + 1;
    JoinCons(m, q.messages);
    assert b == m + c;
    SamePrefix(m, Join(q.messages), c);
    FirstCut(app, k, b, ms);
    if Explains(app, k, b, q.(messages := ms)) {
      forall i | 0 <= i < |q.messages| ensures CutAt(app, j, c, q.messages, i) {
        CutFront(app, k, b, m, q.messages, i);
      }
    }
    if Explains(app, j, c, q) {
      forall i | 0 <= i < |ms| ensures CutAt(app, k, b, ms, i) {
        if i > 0 {
          CutFront(app, k, b, m, q.messages, i - 1);
        }
      }
    }
  }

  lemma FirstCut(app: Callbacks, k: nat, b: Bytes, messages: seq<Bytes>)
    requires messages != []
    ensures CutAt(app, k, b, messages, 0) <==>
            MeasuredBy(app, k, b, messages[0]) && (|messages| > 1 ==> !app.commitThrows(k))
  {
    assert messages[..0] == [] && Join([]) == [] && b[0..] == b;
  }

  lemma SamePrefix(m: Bytes, a: Bytes, c: Bytes)
    ensures m + a <= m + c <==> a <= c
    ensures a <= c ==> (m + c)[|m + a|..] == c[|a|..]
  {
    if m + a <= m + c {
      assert a == (m + a)[|m|..] == (m + c)[|m|..][..|a|] == c[..|a|];
    }
  }

  /** A parse is the one outcome that the answers of the callbacks explain. */
  lemma {:induction false} ParseIffExplained(app: Callbacks, k: nat, b: Bytes, p: Parsed)
    requires Progressing(app)
    ensures p == Parse(app, k, b) <==> Explains(app, k, b, p)
    decreases |b|
  {
    hide Join, CutAt;
    if |p.messages| > 0 {
      FirstCut(app, k, b, p.messages);
    }
    if b != [] && app.decode(k, b).Returned? && app.decode(k, b).value > 0 {
      var m := b[..Min(app.decode(k, b).value, |b|)];
      NoMessages(app, k, b);
      if app.commitThrows(k) {
        OneMessage(app, k, b, m);
        assert |p.messages| == 1 ==> p.messages == [p.messages[0]];
      } else {
        var q := Parse(app, k + 1, b[|m|..]);
        assert ([m] + q.messages)[1..] == q.messages;
        if p.messages != [] {
          var tail := p.(messages := p.messages[1..]);
          assert p.messages == [p.messages[0]] + tail.messages;
          ParseIffExplained(app, k + 1, b[|m|..], tail);
          ExplainsCons(app, k, b, m, tail);
          assert p == Parse(app, k, b) <==> p.messages[0] == m && tail == q;
        }
      }
    } else {
      NoMessages(app, k, b);
    }
  }

  lemma NoMessages(app: Callbacks, k: nat, b: Bytes)
    ensures Join([]) == [] && [] <= b && b[0..] == b
  {
  }

  lemma OneMessage(app: Callbacks, k: nat, b: Bytes, m: Bytes)
    requires m <= b
    ensures Join([m]) == m && Join([m]) <= b
  {
    assert [m][1..] == [] && m + [] == m;
  }

  /** One readMsg call that ends in "would block", on what is already buffered and the octets it received. */
  ghost function ReadEvent(app: Callbacks, k: nat, buffered: Bytes, received: Bytes): Parsed
    requires Progressing(app)
  {
    if received == [] then Parsed([], buffered, k) else Parse(app, k, buffered + received)
  }

  /** A run of read events. */
  ghost function ReadEvents(app: Callbacks, k: nat, buffered: Bytes, events: seq<Bytes>): Parsed
    requires Progressing(app)
    decreases |events|
  {
    if events == [] then Parsed([], buffered, k)
    else
      var p := ReadEvent(app, k, buffered, events[0]);
      var q := ReadEvents(app, p.calls, p.rest, events[1..]);
      q.(messages := p.messages + q.messages)
  }

  /** Nothing is lost, duplicated or reordered between the socket and the committed messages. */
  lemma {:induction false} ReadConservation(app: Callbacks, k: nat, buffered: Bytes, events: seq<Bytes>)
    requires ErrorFree(app)
    ensures var p := ReadEvents(app, k, buffered, events);
            Join(p.messages) + p.rest == buffered + Join(events)
    decreases |events|
  {
    if events == [] {
      assert buffered + [] == buffered;
    } else {
      var p := ReadEvent(app, k, buffered, events[0]);
      var q := ReadEvents(app, p.calls, p.rest, events[1..]);
      ParseConserves(app, k, buffered + events[0]);
      assert Join(p.messages) + p.rest == buffered + events[0] by {
        if events[0] == [] { assert buffered + events[0] == buffered; }
      }
      ReadConservation(app, p.calls, p.rest, events[1..]);
      JoinAppend(p.messages, q.messages);
      Regroup(Join(p.messages), p.rest, Join(q.messages), q.rest, buffered, events[0], Join(events[1..]));
    }
  }

  lemma Regroup(m: Bytes, r: Bytes, n: Bytes, t: Bytes, b: Bytes, e: Bytes, f: Bytes)
    requires m + r == b + e && n + t == r + f
    ensures (m + n) + t == b + (e + f)
  {
    assert (m + n) + t == m + (n + t);
    assert m + (r + f) == (m + r) + f;
  }

  // ---------- chunking independence

  /** A decoder that measures: "not enough" or a length within its input, from the octets alone. */
  ghost predicate Measuring(app: Callbacks) {
    && ErrorFree(app)
    && (forall k: nat, b: Bytes :: app.decode(k, b) == app.decode(0, b))
    && (forall b: Bytes :: b != [] ==> app.decode(0, b).value <= |b|)
  }

  /** Octets that arrive later do not change a length once it is given. */
  ghost predicate Stable(app: Callbacks) {
    forall b: Bytes, c: Bytes :: b != [] && app.decode(0, b).Returned? && app.decode(0, b).value > 0
      ==> app.decode(0, b + c) == app.decode(0, b)
  }

  ghost predicate Framed(app: Callbacks): (framed: bool)
    ensures framed ==> Progressing(app)
  {
    Measuring(app) && Stable(app)
  }

  /** Parsing a prefix first and the remainder with the new octets later commits the same messages. */
  lemma {:induction false} ParseExtends(app: Callbacks, k: nat, j: nat, i: nat, b: Bytes, c: Bytes)
    requires Framed(app)
    ensures var p := Parse(app, k, b);
            var q := Parse(app, j, p.rest + c);
            var whole := Parse(app, i, b + c);
            whole.messages == p.messages + q.messages && whole.rest == q.rest
    decreases |b|
  {
    hide Parse, Stable, Clears;
    if b != [] && app.decode(0, b).value > 0 {
      var n := app.decode(0, b).value;
      ParseFirst(app, k, b);
      StableFor(app, b, c);
      ParseFirst(app, i, b + c);
      assert (b + c)[..n] == b[..n] && (b + c)[n..] == b[n..] + c;
      var tail := Parse(app, k + 1, b[n..]);
      ParseExtends(app, k + 1, j, i + 1, b[n..], c);
      Associate([b[..n]], tail.messages, Parse(app, j, tail.rest + c).messages);
    } else {
      ParseNothing(app, k, b);
      CallsDoNotMatter(app, i, j, b + c);
      assert [] + Parse(app, j, b + c).messages == Parse(app, j, b + c).messages;
    }
  }

  lemma Associate<T>(a: seq<T>, b: seq<T>, c: seq<T>)
    ensures (a + b) + c == a + (b + c)
  {
  }

  lemma StableFor(app: Callbacks, b: Bytes, c: Bytes)
    requires Framed(app) && b != [] && app.decode(0, b).value > 0
    ensures app.decode(0, b + c) == app.decode(0, b)
  {
  }

  lemma ParseFirst(app: Callbacks, k: nat, b: Bytes)
    requires Framed(app) && b != [] && app.decode(0, b).value > 0
    ensures var n := app.decode(0, b).value;
            n <= |b| && Parse(app, k, b) ==
            var p := Parse(app, k + 1, b[n..]); p.(messages := [b[..n]] + p.messages)
  {
    assert app.decode(k, b) == app.decode(0, b);
  }

  lemma ParseNothing(app: Callbacks, k: nat, b: Bytes)
    requires Framed(app) && (b == [] || app.decode(0, b).value <= 0)
    ensures Parse(app, k, b).messages == [] && Parse(app, k, b).rest == b
  {
    assert app.decode(k, b) == app.decode(0, b);
  }

  lemma {:induction false} CallsDoNotMatter(app: Callbacks, i: nat, j: nat, b: Bytes)
    requires Framed(app)
    ensures Parse(app, i, b).messages == Parse(app, j, b).messages
    ensures Parse(app, i, b).rest == Parse(app, j, b).rest
    decreases |b|
  {
    if b == [] {
    } else {
      assert app.decode(i, b) == app.decode(0, b) == app.decode(j, b);
      if app.decode(0, b).value > 0 {
        CallsDoNotMatter(app, i + 1, j + 1, b[app.decode(0, b).value..]);
      }
    }
  }

  /** However the stream is cut into read events, the messages and the remainder are those of one parse. */
  lemma {:induction false} ChunkingIndependence(app: Callbacks, k: nat, j: nat, buffered: Bytes, events: seq<Bytes>)
    requires Framed(app)
    requires var p := Parse(app, k, buffered); p == Parsed([], buffered, k) || p == Parsed([], buffered, k + 1)
    ensures var p := ReadEvents(app, k, buffered, events);
            var whole := Parse(app, j, buffered + Join(events));
            p.messages == whole.messages && p.rest == whole.rest
    decreases |events|
  {
    hide Parse, Framed, Progressing;
    if events == [] {
      assert buffered + Join(events) == buffered;
      CallsDoNotMatter(app, k, j, buffered);
    } else if events[0] == [] {
      assert buffered + Join(events) == buffered + Join(events[1..]);
      ChunkingIndependence(app, k, j, buffered, events[1..]);
      var q := ReadEvents(app, k, buffered, events[1..]);
      assert [] + q.messages == q.messages;
    } else {
      var b := buffered + events[0];
      var p := Parse(app, k, b);
      assert buffered + Join(events) == b + Join(events[1..]);
      ParseExtends(app, k, p.calls, j, b, Join(events[1..]));
      ParseSettles(app, k, p.calls, b);
      ChunkingIndependence(app, p.calls, p.calls, p.rest, events[1..]);
    }
  }

  /** Parsing again without new octets commits nothing. */
  lemma {:induction false} ParseSettles(app: Callbacks, k: nat, j: nat, b: Bytes)
    requires Framed(app)
    ensures var rest := Parse(app, k, b).rest;
            Parse(app, j, rest) == Parsed([], rest, j) || Parse(app, j, rest) == Parsed([], rest, j + 1)
    decreases |b|
  {
    if b == [] {
    } else {
      assert app.decode(k, b) == app.decode(0, b) == app.decode(j, b);
      if app.decode(0, b).value > 0 {
        ParseSettles(app, k + 1, j, b[app.decode(0, b).value..]);
      }
    }
  }

  /** Every cut of every stream commits what one parse of the whole stream does. */
  ghost predicate IndependentOfChunking(app: Callbacks)
    requires Progressing(app)
  {
    forall events: seq<Bytes> ::
      var p, whole := ReadEvents(app, 0, [], events), Parse(app, 0, Join(events));
      p.messages == whole.messages && p.rest == whole.rest
  }

  /** For a measuring decoder, the cuts the network makes are invisible exactly when it is stable. */
  lemma ChunkingIndependenceIff(app: Callbacks)
    requires Measuring(app)
    ensures IndependentOfChunking(app) <==> Stable(app)
  {
    if Stable(app) {
      forall events: seq<Bytes>
        ensures var p, whole := ReadEvents(app, 0, [], events), Parse(app, 0, Join(events));
                p.messages == whole.messages && p.rest == whole.rest
      {
        ChunkingIndependence(app, 0, 0, [], events);
        assert [] + Join(events) == Join(events);
      }
    }
    if IndependentOfChunking(app) {
      forall b: Bytes, c: Bytes | b != [] && app.decode(0, b).value > 0
        ensures app.decode(0, b + c) == app.decode(0, b)
      {
        TwoReads(app, b, c);
      }
    }
  }

  /** The decoder a server has when the user sets none: everything buffered is one message. */
  ghost const WHOLE_BUFFER := Callbacks((k, b) => Returned(|b|), k => false)

  lemma WholeBufferMeasures()
    ensures Measuring(WHOLE_BUFFER) && !Stable(WHOLE_BUFFER)
  {
    var a: Bytes, b: Bytes := [1], [2];
    assert WHOLE_BUFFER.decode(0, a + b) != WHOLE_BUFFER.decode(0, a);
  }

  /** It measures and is not stable: two octets are one message when they arrive together and two when they do not. */
  lemma WholeBufferWitness()
    ensures Measuring(WHOLE_BUFFER) && !Stable(WHOLE_BUFFER)
    ensures ReadEvents(WHOLE_BUFFER, 0, [], [[1], [2]]).messages == [[1], [2]]
    ensures ReadEvents(WHOLE_BUFFER, 0, [], [[1, 2]]).messages == [[1, 2]]
  {
    hide Measuring, Stable, ReadEvents;
    WholeBufferMeasures();
    var one: Bytes, two: Bytes, both: Bytes := [1], [2], [1, 2];
    FirstEvent(0, one, [two]);
    FirstEvent(1, two, []);
    FirstEvent(0, both, []);
    NoEvents(1);
    NoEvents(2);
    assert [one] + [two] == [one, two] && [two] + [] == [two] && [both] + [] == [both];
  }

  lemma NoEvents(k: nat)
    requires Progressing(WHOLE_BUFFER)
    ensures ReadEvents(WHOLE_BUFFER, k, [], []) == Parsed([], [], k)
  {
  }

  lemma FirstEvent(k: nat, b: Bytes, rest: seq<Bytes>)
    requires b != []
    ensures Progressing(WHOLE_BUFFER)
    ensures ReadEvents(WHOLE_BUFFER, k, [], [b] + rest) ==
            var q := ReadEvents(WHOLE_BUFFER, k + 1, [], rest); q.(messages := [b] + q.messages)
  {
    hide Parse;
    WholeBuffer(k, b);
    assert ([b] + rest)[1..] == rest && [] + b == b;
  }

  lemma WholeBuffer(k: nat, b: Bytes)
    requires b != []
    ensures Progressing(WHOLE_BUFFER) && Parse(WHOLE_BUFFER, k, b) == Parsed([b], [], k + 1)
  {
    assert b[..|b|] == b && b[|b|..] == [];
    assert Parse(WHOLE_BUFFER, k + 1, []) == Parsed([], [], k + 1);
  }

  /** The octets of a prefix of the messages are a prefix of their octets. */
  lemma JoinPrefix(a: seq<Bytes>, b: seq<Bytes>)
    requires a <= b
    ensures Join(a) <= Join(b)
  {
    JoinAppend(a, b[|a|..]);
    assert b == a + b[|a|..];
  }

  lemma TwoReads(app: Callbacks, b: Bytes, c: Bytes)
    requires Measuring(app) && IndependentOfChunking(app)
    requires b != [] && app.decode(0, b).value > 0
    ensures app.decode(0, b + c) == app.decode(0, b)
  {
    var events := [b, c];
    assert events[1..] == [c];
    assert Join(events[1..]) == c;
    assert Join(events) == b + c;
    assert [] + b == b;
    var first := Parse(app, 0, b);
    assert first.messages[0] == b[..app.decode(0, b).value];
    var p := ReadEvents(app, 0, [], events);
    assert p.messages[0] == first.messages[0];
    assert Parse(app, 0, b + c).messages[0] == (b + c)[..app.decode(0, b + c).value];
  }

  // ---------- termination

  datatype LoopState =
    | Running(k: nat, buffered: Bytes, messages: seq<Bytes>)
    | Stopped(messages: seq<Bytes>, rest: Bytes)

  /** Every decoder but for the answers -3 and -4; it may keep state and throw, and answer zero. */
  ghost predicate Answering(app: Callbacks) {
    forall k: nat, b: Bytes :: b != [] ==>
      var a := app.decode(k, b); a.Threw? || Clears(a.value) || a.value >= DECODE_NOT_ENOUGH
  }

  /** One turn of the while loop, the test included. */
  ghost function Turn(app: Callbacks, l: LoopState): LoopState
    requires Answering(app)
  {
    if l.Stopped? then l
    else if l.buffered == [] then Stopped(l.messages, [])
    else
      match app.decode(l.k, l.buffered)
      case Threw => Stopped(l.messages, [])
      case Returned(value) =>
        if Clears(value) then Stopped(l.messages, [])
        else if value == DECODE_NOT_ENOUGH then Stopped(l.messages, l.buffered)
        else
          var n := Min(value, |l.buffered|);
          if app.commitThrows(l.k) then Stopped(l.messages + [l.buffered[..n]], [])
          else Running(l.k + 1, l.buffered[n..], l.messages + [l.buffered[..n]])
  }

  ghost function Turns(app: Callbacks, l: LoopState, n: nat): LoopState
    requires Answering(app)
    decreases n
  {
    if n == 0 then l else Turns(app, Turn(app, l), n - 1)
  }

  /** The k-th call measures the octets as zero long and its commit returns. */
  predicate Idles(app: Callbacks, k: nat, b: Bytes) {
    app.decode(k, b) == Returned(0) && !app.commitThrows(k)
  }

  /** Octets are left and every call from now on measures them as zero long. */
  ghost predicate Stuck(app: Callbacks, l: LoopState) {
    l.Running? && l.buffered != [] && forall k: nat :: k >= l.k ==> Idles(app, k, l.buffered)
  }

  /** Idle turns commit empty messages and keep the octets. */
  lemma {:induction false} IdleTurns(app: Callbacks, l: LoopState, n: nat)
    requires Answering(app) && l.Running? && l.buffered != []
    requires forall k: nat :: l.k <= k < l.k + n ==> Idles(app, k, l.buffered)
    ensures var m := Turns(app, l, n); m.Running? && m.k == l.k + n && m.buffered == l.buffered
    ensures |Turns(app, l, n).messages| == |l.messages| + n
    decreases n
  {
    if n == 0 {
    } else {
      assert Idles(app, l.k, l.buffered);
      assert l.buffered[0..] == l.buffered;
      IdleTurns(app, Turn(app, l), n - 1);
    }
  }

  lemma {:induction false} StoppedStays(app: Callbacks, l: LoopState, n: nat)
    requires Answering(app) && l.Stopped?
    ensures Turns(app, l, n) == l
  {
    if n == 0 {
    } else {
      StoppedStays(app, l, n - 1);
    }
  }

  lemma {:induction false} TurnsAdd(app: Callbacks, l: LoopState, m: nat, n: nat)
    requires Answering(app)
    ensures Turns(app, l, m + n) == Turns(app, Turns(app, l, m), n)
    decreases m
  {
    if m == 0 {
    } else {
      TurnsAdd(app, Turn(app, l), m - 1, n);
    }
  }

  /** How long it takes until a turn that is not idle, given that one comes. */
  lemma {:induction false} FirstBusy(app: Callbacks, b: Bytes, k: nat, j: nat) returns (n: nat)
    requires k <= j && !Idles(app, j, b)
    ensures !Idles(app, k + n, b) && forall i: nat :: k <= i < k + n ==> Idles(app, i, b)
    decreases j - k
  {
    if !Idles(app, k, b) {
      n := 0;
    } else {
      var m := FirstBusy(app, b, k + 1, j);
      n := m + 1;
    }
  }

  lemma BusyTurn(app: Callbacks, l: LoopState)
    requires Answering(app) && l.Running? && l.buffered != [] && !Idles(app, l.k, l.buffered)
    ensures Turns(app, l, 1) == Turn(app, l)
    ensures Turn(app, l).Stopped? || |Turn(app, l).buffered| < |l.buffered|
  {
  }

  /** From octets the loop is not stuck on, it comes to stop or to fewer octets. */
  lemma UnstuckMoves(app: Callbacks, l: LoopState) returns (n: nat)
    requires Answering(app) && l.Running? && l.buffered != [] && !Stuck(app, l)
    ensures var m := Turns(app, l, n); m.Stopped? || |m.buffered| < |l.buffered|
  {
    hide Turn, Turns;
    var j: nat :| j >= l.k && !Idles(app, j, l.buffered);
    var i := FirstBusy(app, l.buffered, l.k, j);
    IdleTurns(app, l, i);
    BusyTurn(app, Turns(app, l, i));
    TurnsAdd(app, l, i, 1);
    n := i + 1;
  }

  lemma {:induction false} NeverStuckStops(app: Callbacks, l: LoopState) returns (n: nat)
    requires Answering(app) && forall m: nat :: !Stuck(app, Turns(app, l, m))
    ensures Turns(app, l, n).Stopped?
    decreases if l.Running? then |l.buffered| + 1 else 0
  {
    if l.Stopped? {
      n := 0;
    } else if l.buffered == [] {
      assert Turns(app, l, 1) == Turn(app, l);
      n := 1;
    } else {
      assert Turns(app, l, 0) == l;
      var i := UnstuckMoves(app, l);
      var t := Turns(app, l, i);
      forall m: nat ensures !Stuck(app, Turns(app, t, m)) {
        TurnsAdd(app, l, i, m);
      }
      var j := NeverStuckStops(app, t);
      TurnsAdd(app, l, i, j);
      n := i + j;
    }
  }

  lemma StuckSpins(app: Callbacks, l: LoopState, m: nat, n: nat)
    requires Answering(app) && Stuck(app, Turns(app, l, m))
    ensures Turns(app, l, n).Running?
  {
    var t := Turns(app, l, m);
    if n >= m {
      TurnsAdd(app, l, m, n - m);
      IdleTurns(app, t, n - m);
    } else if Turns(app, l, n).Stopped? {
      TurnsAdd(app, l, n, m - n);
      StoppedStays(app, Turns(app, l, n), m - n);
    }
  }

  ghost predicate Stops(app: Callbacks, l: LoopState)
    requires Answering(app)
  {
    exists n: nat :: Turns(app, l, n).Stopped?
  }

  ghost predicate GetsStuck(app: Callbacks, l: LoopState)
    requires Answering(app)
  {
    exists m: nat :: Stuck(app, Turns(app, l, m))
  }

  /** The parse loop stops exactly when it never comes to octets that every further call measures as zero long. */
  lemma ParseLoopStopsIff(app: Callbacks, l: LoopState)
    requires Answering(app)
    ensures Stops(app, l) <==> !GetsStuck(app, l)
  {
    if GetsStuck(app, l) {
      var m: nat :| Stuck(app, Turns(app, l, m));
      forall n: nat ensures Turns(app, l, n).Running? {
        StuckSpins(app, l, m, n);
      }
    } else {
      forall m: nat ensures !Stuck(app, Turns(app, l, m)) {
      }
      var n := NeverStuckStops(app, l);
    }
  }

  /** A decoder that looks at nothing but the octets. */
  ghost predicate Stateless(app: Callbacks) {
    && Answering(app)
    && (forall k: nat, b: Bytes :: app.decode(k, b) == app.decode(0, b))
    && (forall k: nat :: !app.commitThrows(k))
  }

  /** Its lengths lead to octets it measures as zero long. */
  predicate MeetsZero(app: Callbacks, b: Bytes)
    decreases |b|
  {
    b != [] && app.decode(0, b).Returned? &&
    var value := app.decode(0, b).value;
    value == 0 || (value > 0 && MeetsZero(app, b[Min(value, |b|)..]))
  }

  /** For such a decoder the lengths decide. */
  lemma {:induction false} StatelessStuckIff(app: Callbacks, l: LoopState)
    requires Stateless(app) && l.Running?
    ensures GetsStuck(app, l) <==> MeetsZero(app, l.buffered)
    decreases |l.buffered|
  {
    hide Turns;
    var b, t := l.buffered, Turn(app, l);
    assert app.decode(l.k, b) == app.decode(0, b);
    if b != [] && app.decode(0, b) == Returned(0) {
      assert forall k: nat :: Idles(app, k, b) <== app.decode(k, b) == app.decode(0, b);
      NoTurns(app, l);
      assert Stuck(app, Turns(app, l, 0));
    } else {
      if b != [] {
        assert !Idles(app, l.k, b);
      }
      StuckNext(app, l);
      if t.Running? {
        StatelessStuckIff(app, t);
      } else {
        forall m: nat ensures !Stuck(app, Turns(app, t, m)) {
          StoppedStays(app, t, m);
        }
      }
    }
  }

  lemma NoTurns(app: Callbacks, l: LoopState)
    requires Answering(app)
    ensures Turns(app, l, 0) == l
  {
  }

  lemma StuckNext(app: Callbacks, l: LoopState)
    requires Answering(app) && !Stuck(app, l)
    ensures GetsStuck(app, l) <==> GetsStuck(app, Turn(app, l))
  {
    if GetsStuck(app, l) {
      var m: nat :| Stuck(app, Turns(app, l, m));
      assert m > 0 && Stuck(app, Turns(app, Turn(app, l), m - 1));
    }
    if GetsStuck(app, Turn(app, l)) {
      var m: nat :| Stuck(app, Turns(app, Turn(app, l), m));
      assert Turns(app, l, m + 1) == Turns(app, Turn(app, l), m);
    }
  }

  /** A decoder that answers zero keeps the loop turning for ever, one empty message a turn. */
  lemma ZeroWitness(b: Bytes, n: nat) returns (app: Callbacks)
    requires b != []
    ensures Answering(app) && app.decode(0, b) == Returned(0)
    ensures var l := Turns(app, Running(0, b, []), n); l.Running? && l.buffered == b && |l.messages| == n
  {
    app := Callbacks((k, c) => Returned(0), k => false);
    IdleTurns(app, Running(0, b, []), n);
  }

  /** A parse is what the loop has done when it stops. */
  lemma {:induction false} ParseIsTurns(app: Callbacks, k: nat, b: Bytes, before: seq<Bytes>) returns (n: nat)
    requires Progressing(app)
    ensures Answering(app)
    ensures var p := Parse(app, k, b); Turns(app, Running(k, b, before), n) == Stopped(before + p.messages, p.rest)
    decreases |b|
  {
    var l := Running(k, b, before);
    var t := Turn(app, l);
    if t.Running? {
      var m := ParseIsTurns(app, t.k, t.buffered, t.messages);
      n := m + 1;
      Associate(before, [b[..|b| - |t.buffered|]], Parse(app, t.k, t.buffered).messages);
    } else {
      assert Turns(app, t, 0) == t;
      assert before + [] == before;
      n := 1;
    }
  }

  // ---------- the last read before the peer closes

  /** readMsg: `drained` is what the socket delivered during the call and how that ended. */
  ghost function ReadMsg(app: Callbacks, k: nat, buffered: Bytes, drained: Drained): (r: (int, Parsed))
    requires Progressing(app)
  {
    if drained.ending == ReadFailed(WouldBlock) then
      (|drained.bytes|, ReadEvent(app, k, buffered, drained.bytes))
    else
      (-1, Parsed([], buffered + drained.bytes, k))
  }

  /**
   When the peer closes in the same call that delivered octets, those octets are
   never parsed. Messages are lost exactly when something is buffered and the
   decoder, asked once, measures a message.
   */
  lemma MessagesLostAtEofIff(app: Callbacks, k: nat, buffered: Bytes, drained: Drained)
    requires Progressing(app) && drained.ending == Eof
    ensures ReadMsg(app, k, buffered, drained) == (-1, Parsed([], buffered + drained.bytes, k))
    ensures var b := buffered + drained.bytes;
            Parse(app, k, b).messages != [] <==> b != [] && app.decode(k, b).Returned? && app.decode(k, b).value > 0
  {
  }

  /** The same octets, delivered before the close rather than with it, are committed. */
  lemma EofWitness() returns (app: Callbacks)
    ensures Framed(app)
    ensures ReadMsg(app, 0, [], Drain([Data([7]), Eof])).1.messages == []
    ensures ReadMsg(app, 0, [], Drain([Data([7]), ReadFailed(WouldBlock), Eof])).1.messages == [[7]]
  {
    app := Callbacks((k, b) => Returned(1), k => false);
    var script := [Data([7]), ReadFailed(WouldBlock), Eof];
    assert script[1..] == [ReadFailed(WouldBlock), Eof];
    assert Drain(script[1..]).bytes == [];
    assert Drain(script).bytes == [7] && Drain(script).ending == ReadFailed(WouldBlock);
    var b: Bytes := [7];
    assert [] + b == b && b[..1] == b && b[1..] == [];
    ParseFirst(app, 0, b);
    assert Parse(app, 1, b[1..]).messages == [];
  }
}
