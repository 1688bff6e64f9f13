/**
 xBuffer (net/include/buffer.h, net/buffer.cpp): a growing byte queue kept
 between two indices of one storage block, with room reserved at the front.

   0 <= readerIndex <= writerIndex <= buffer.Length

 `Shape` is the arithmetic of the indices; `Buffer` is the class itself, whose
 visible content is the window between the indices.
 */
module ByteBuffer {
  import opened Bytes
  import opened Kernel

  const DISCARDABLE_SIZE: nat := 4
  const SPILL_SIZE: nat := 8192

  datatype Shape = Shape(size: nat, reader: nat, writer: nat) {

    predicate Valid() {
      DISCARDABLE_SIZE <= size && reader <= writer <= size
    }

    function Readable(): nat
      requires Valid()
    {
      writer - reader
    }

    function Writable(): nat
      requires Valid()
    {
      size - writer
    }

    /** ensureWritableBytes and makeSpace: nothing, grow, or move the content to the front. */
    function Reserve(len: nat): (s: Shape)
      requires Valid()
      ensures s.Valid() && s.Readable() == Readable() && s.Writable() >= len
      ensures s.size >= size
    {
      if Writable() >= len then this
      else if Writable() + reader < len + DISCARDABLE_SIZE then Shape(writer + len, reader, writer)
      else Shape(size, DISCARDABLE_SIZE, DISCARDABLE_SIZE + Readable())
    }

    function Append(len: nat): (s: Shape)
      requires Valid()
      ensures s.Valid() && s.Readable() == Readable() + len
    {
      var s := Reserve(len);
      s.(writer := s.writer + len)
    }

    function Prepend(len: nat): (s: Shape)
      requires Valid() && len <= reader
      ensures s.Valid() && s.Readable() == Readable() + len
    {
      this.(reader := reader - len)
    }

    function Reset(): (s: Shape)
      requires Valid()
      ensures s.Valid() && s.Readable() == 0
    {
      Shape(size, DISCARDABLE_SIZE, DISCARDABLE_SIZE)
    }

    function MoveOver(len: nat): (s: Shape)
      requires Valid() && len <= Readable()
      ensures s.Valid() && s.Readable() == Readable() - len
    {
      if len < Readable() then this.(reader := reader + len) else Reset()
    }

    function Unwrite(len: nat): (s: Shape)
      requires Valid() && len <= Readable()
      ensures s.Valid() && s.Readable() == Readable() - len
    {
      this.(writer := writer - len)
    }

    /** The room fillFromFd offers to readv: the tail, and the spill block when the tail is small. */
    function Room(): (room: nat)
      requires Valid()
      ensures room > 0
    {
      Writable() + if Writable() < SPILL_SIZE then SPILL_SIZE else 0
    }

    function Fill(len: nat): (s: Shape)
      requires Valid()
      ensures s.Valid() && s.Readable() == Readable() + len
    {
      if len <= Writable() then this.(writer := writer + len)
      else this.(writer := size).Append(len - Writable())
    }
  }

  lemma WindowMoves(before: Bytes, after: Bytes, from: nat, to: nat, n: nat)
    requires from + n <= |before| && to + n <= |after|
    requires forall j :: to <= j < to + n ==> after[j] == before[j - to + from]
    ensures after[to..to + n] == before[from..from + n]
  {
  }

  lemma WindowGrows(before: Bytes, after: Bytes, reader: nat, writer: nat, data: Bytes)
    requires reader <= writer && writer + |data| <= |before| == |after|
    requires forall i :: 0 <= i < writer ==> after[i] == before[i]
    requires forall i :: 0 <= i < |data| ==> after[writer + i] == data[i]
    ensures after[reader..writer + |data|] == before[reader..writer] + data
  {
  }

  class Buffer {
    var buffer: array<Byte>
    var readerIndex: nat
    var writerIndex: nat

    ghost predicate Valid()
      reads this
    {
      Layout().Valid()
    }

    ghost function Layout(): Shape
      reads this
    {
      Shape(buffer.Length, readerIndex, writerIndex)
    }

    /** toString: the readable window. */
    function Contents(): (s: Bytes)
      requires Valid()
      reads this, buffer
      ensures |s| == Layout().Readable()
    {
      buffer[readerIndex..writerIndex]
    }

    constructor (initialSize: nat)
      ensures Valid() && fresh(buffer)
      ensures Contents() == []
      ensures Layout() == Shape(DISCARDABLE_SIZE + initialSize, DISCARDABLE_SIZE, DISCARDABLE_SIZE)
    {
      buffer := new Byte[DISCARDABLE_SIZE + initialSize](_ => 0);
      readerIndex, writerIndex := DISCARDABLE_SIZE, DISCARDABLE_SIZE;
    }

    /** The implicit copy: its own storage with the same octets and indices. */
    constructor Copy(from: Buffer)
      requires from.Valid()
      ensures Valid() && fresh(buffer)
      ensures Layout() == from.Layout() && Contents() == from.Contents()
    {
      var source := from.buffer;
      var storage := new Byte[source.Length](_ => 0);
      forall i | 0 <= i < source.Length {
        storage[i] := source[i];
      }
      buffer := storage;
      readerIndex, writerIndex := from.readerIndex, from.writerIndex;
    }

    method Swap(rhs: Buffer)
      requires Valid() && rhs.Valid()
      modifies this, rhs
      ensures Valid() && rhs.Valid()
      ensures buffer == old(rhs.buffer) && rhs.buffer == old(buffer)
      ensures Layout() == old(rhs.Layout()) && rhs.Layout() == old(Layout())
      ensures Contents() == old(rhs.Contents()) && rhs.Contents() == old(Contents())
    {
      buffer, rhs.buffer := rhs.buffer, buffer;
      readerIndex, rhs.readerIndex := rhs.readerIndex, readerIndex;
      writerIndex, rhs.writerIndex := rhs.writerIndex, writerIndex;
    }

    method Reset()
      requires Valid()
      modifies this
      ensures Valid() && buffer == old(buffer)
      ensures Contents() == []
      ensures Layout() == old(Layout()).Reset()
    {
      readerIndex, writerIndex := DISCARDABLE_SIZE, DISCARDABLE_SIZE;
    }

    method MoveOver(len: nat)
      requires Valid() && len <= |Contents()|
      modifies this
      ensures Valid() && buffer == old(buffer)
      ensures Contents() == old(Contents())[len..]
      ensures Layout() == old(Layout()).MoveOver(len)
    {
      if len < writerIndex - readerIndex {
        readerIndex := readerIndex + len;
      } else {
        Reset();
      }
    }

    method ReadStr(len: nat) returns (result: Bytes)
      requires Valid() && len <= |Contents()|
      modifies this
      ensures Valid() && buffer == old(buffer)
      ensures result + Contents() == old(Contents()) && |result| == len
      ensures Layout() == old(Layout()).MoveOver(len)
    {
      ghost var content := Contents();
      result := buffer[readerIndex..readerIndex + len];
      assert result == content[..len];
      MoveOver(len);
      assert content[..len] + content[len..] == content;
    }

    method ReadAll() returns (result: Bytes)
      requires Valid()
      modifies this
      ensures Valid() && buffer == old(buffer)
      ensures result == old(Contents()) && Contents() == []
      ensures Layout() == old(Layout()).Reset()
    {
      result := ReadStr(writerIndex - readerIndex);
    }

    /** Called only when the tail is too small, which is what the assertion in the compacting branch rests on. */
    method MakeSpace(len: nat)
      requires Valid() && Layout().Writable() < len
      modifies this, buffer
      ensures Valid() && (buffer == old(buffer) || fresh(buffer))
      ensures Contents() == old(Contents())
      ensures Layout() == old(Layout()).Reserve(len)
    {
      hide Contents;
      if buffer.Length - writerIndex + readerIndex < len + DISCARDABLE_SIZE {
        Grow(writerIndex + len);
      } else {
        assert DISCARDABLE_SIZE < readerIndex;
        Compact();
      }
    }

    /** buffer_.resize to a larger size. */
    method Grow(size: nat)
      requires Valid() && buffer.Length <= size
      modifies this`buffer
      ensures Valid() && fresh(buffer)
      ensures Contents() == old(Contents()) && Layout() == old(Layout()).(size := size)
    {
      ghost var before := buffer[..];
      var storage := new Byte[size](_ => 0);
      forall i | 0 <= i < buffer.Length {
        storage[i] := buffer[i];
      }
      WindowMoves(before, storage[..], readerIndex, readerIndex, writerIndex - readerIndex);
      buffer := storage;
    }

    /** The window moves to the reserved front. */
    method Compact()
      requires Valid() && DISCARDABLE_SIZE < readerIndex
      modifies this`readerIndex, this`writerIndex, buffer
      ensures Valid() && Contents() == old(Contents())
      ensures Layout() == Shape(buffer.Length, DISCARDABLE_SIZE, DISCARDABLE_SIZE + old(Layout()).Readable())
    {
      ghost var before := buffer[..];
      var readable := writerIndex - readerIndex;
      var i := 0;
      while i < readable
        modifies buffer
        invariant i <= readable
        invariant forall j :: DISCARDABLE_SIZE <= j < DISCARDABLE_SIZE + i ==>
                    buffer[j] == before[j - DISCARDABLE_SIZE + readerIndex]
        invariant forall j :: DISCARDABLE_SIZE + i <= j < buffer.Length ==> buffer[j] == before[j]
      {
        buffer[DISCARDABLE_SIZE + i] := buffer[readerIndex + i];
        i := i + 1;
      }
      WindowMoves(before, buffer[..], readerIndex, DISCARDABLE_SIZE, readable);
      readerIndex := DISCARDABLE_SIZE;
      writerIndex := readerIndex + readable;
    }

    method EnsureWritableBytes(len: nat)
      requires Valid()
      modifies this, buffer
      ensures Valid() && (buffer == old(buffer) || fresh(buffer))
      ensures Contents() == old(Contents())
      ensures Layout() == old(Layout()).Reserve(len)
    {
      if buffer.Length - writerIndex < len {
        MakeSpace(len);
      }
    }

    /** Copy to beginWrite() and hasWritten(): the octets land behind the window, then join it. */
    method Place(data: Bytes)
      requires Valid() && |data| <= Layout().Writable()
      modifies this, buffer
      ensures Valid() && buffer == old(buffer)
      ensures Contents() == old(Contents()) + data
      ensures Layout() == old(Layout()).(writer := old(writerIndex) + |data|)
    {
      ghost var before := buffer[..];
      forall i | 0 <= i < |data| {
        buffer[writerIndex + i] := data[i];
      }
      WindowGrows(before, buffer[..], readerIndex, writerIndex, data);
      writerIndex := writerIndex + |data|;
    }

    method Append(data: Bytes)
      requires Valid()
      modifies this, buffer
      ensures Valid() && (buffer == old(buffer) || fresh(buffer))
      ensures Contents() == old(Contents()) + data
      ensures Layout() == old(Layout()).Append(|data|)
    {
      EnsureWritableBytes(|data|);
      Place(data);
    }

    method Unwrite(len: nat)
      requires Valid() && len <= |Contents()|
      modifies this
      ensures Valid() && buffer == old(buffer)
      ensures Contents() == old(Contents())[..|old(Contents())| - len]
      ensures Layout() == old(Layout()).Unwrite(len)
    {
      writerIndex := writerIndex - len;
    }

    method Prepend(data: Bytes)
      requires Valid() && |data| <= readerIndex
      modifies this, buffer
      ensures Valid() && buffer == old(buffer)
      ensures Contents() == data + old(Contents())
      ensures Layout() == old(Layout()).Prepend(|data|)
    {
      readerIndex := readerIndex - |data|;
      forall i | 0 <= i < |data| {
        buffer[readerIndex + i] := data[i];
      }
    }

    /** appendInt8, appendInt16, appendInt32 and appendInt64: widths 1, 2, 4 and 8. */
    method AppendInt(x: int, width: nat)
      requires Valid() && Fits(x, width)
      modifies this, buffer
      ensures Valid() && (buffer == old(buffer) || fresh(buffer))
      ensures Contents() == old(Contents()) + Encode(x, width)
      ensures Layout() == old(Layout()).Append(width)
    {
      Append(Encode(x, width));
    }

    method PrependInt(x: int, width: nat)
      requires Valid() && Fits(x, width) && width <= readerIndex
      modifies this, buffer
      ensures Valid() && buffer == old(buffer)
      ensures Contents() == Encode(x, width) + old(Contents())
      ensures Layout() == old(Layout()).Prepend(width)
    {
      Prepend(Encode(x, width));
    }

    method PeekInt(width: nat) returns (x: int)
      requires Valid() && width <= |Contents()|
      ensures Fits(x, width) && Encode(x, width) == Contents()[..width]
    {
      var window := buffer[readerIndex..readerIndex + width];
      assert window == Contents()[..width];
      x := Decode(window);
      EncodeDecode(window);
    }

    method ReadInt(width: nat) returns (x: int)
      requires Valid() && width <= |Contents()|
      modifies this
      ensures Valid() && buffer == old(buffer)
      ensures Fits(x, width) && Encode(x, width) + Contents() == old(Contents())
      ensures Layout() == old(Layout()).MoveOver(width)
    {
      x := PeekInt(width);
      MoveOver(width);
    }

    /** The part of fillFromFd after readv: octets in the tail, then the spill block appended. */
    method Absorb(bytes: Bytes)
      requires Valid()
      modifies this, buffer
      ensures Valid() && (buffer == old(buffer) || fresh(buffer))
      ensures Contents() == old(Contents()) + bytes
      ensures Layout() == old(Layout()).Fill(|bytes|)
    {
      hide Contents, Shape.Reserve, Shape.Append;
      var writable := buffer.Length - writerIndex;
      if |bytes| <= writable {
        Place(bytes);
      } else {
        ghost var content := Contents();
        Place(bytes[..writable]);
        Append(bytes[writable..]);
        assert (content + bytes[..writable]) + bytes[writable..] == content + bytes;
      }
    }

    /** fillFromFd: one scatter read into the tail and a spill block, the spill then appended. */
    method FillFromFd(sock: Socket) returns (n: int, errno: Errno)
      requires Valid()
      modifies this, buffer, sock`arrivals
      ensures Valid() && (buffer == old(buffer) || fresh(buffer))
      ensures var (a, rest) := NextRead(old(sock.arrivals), old(Layout()).Room());
              && sock.arrivals == rest
              && match a
                 case Data(bytes) =>
                   n == |bytes| && Contents() == old(Contents()) + bytes && Layout() == old(Layout()).Fill(n)
                 case Eof =>
                   n == 0 && Contents() == old(Contents()) && Layout() == old(Layout())
                 case ReadFailed(e) =>
                   n == -1 && errno == e && Contents() == old(Contents()) && Layout() == old(Layout())
    {
      var writable := buffer.Length - writerIndex;
      var a := sock.Readv(writable + if writable < SPILL_SIZE then SPILL_SIZE else 0);
      match a {
        case ReadFailed(e) => n, errno := -1, e;
        case Eof => n, errno := 0, NoError;
        case Data(bytes) =>
          n, errno := |bytes|, NoError;
          Absorb(bytes);
      }
    }
  }

  // ---------- whole runs

  datatype Op =
    | Append(data: Bytes) | Prepend(data: Bytes) | Fill(data: Bytes)
    | MoveOver(len: nat) | Unwrite(len: nat) | Reset

  /** The assertions each operation makes on entry. */
  predicate Allowed(s: Shape, op: Op)
    requires s.Valid()
  {
    match op
    case Prepend(data) => |data| <= s.reader
    case MoveOver(len) => len <= s.Readable()
    case Unwrite(len) => len <= s.Readable()
    case _ => true
  }

  function Apply(s: Shape, op: Op): (t: Shape)
    requires s.Valid() && Allowed(s, op)
    ensures t.Valid()
  {
    match op
    case Append(data) => s.Append(|data|)
    case Prepend(data) => s.Prepend(|data|)
    case Fill(data) => s.Fill(|data|)
    case MoveOver(len) => s.MoveOver(len)
    case Unwrite(len) => s.Unwrite(len)
    case Reset => s.Reset()
  }

  /** The run stays inside the assertions and never holds more than `peak` readable octets. */
  predicate RunsWithin(s: Shape, ops: seq<Op>, peak: nat)
    requires s.Valid()
    decreases |ops|
  {
    s.Readable() <= peak &&
    (ops != [] ==> Allowed(s, ops[0]) && RunsWithin(Apply(s, ops[0]), ops[1..], peak))
  }

  function Run(s: Shape, ops: seq<Op>, peak: nat): (t: Shape)
    requires s.Valid() && RunsWithin(s, ops, peak)
    ensures t.Valid()
    decreases |ops|
  {
    if ops == [] then s else Run(Apply(s, ops[0]), ops[1..], peak)
  }

  function Max(a: int, b: int): int {
    if a < b then b else a
  }

  /** An empty window never sits at the very end of a block that has been read from. */
  predicate Settled(s: Shape)
    requires s.Valid()
  {
    s.Readable() > 0 || s.reader <= DISCARDABLE_SIZE || s.Writable() > 0
  }

  /**
   The block never shrinks, and never grows past its first size or about twice
   the largest content. A new buffer is settled.
   */
  lemma {:induction false} SpaceBound(s: Shape, ops: seq<Op>, peak: nat)
    requires s.Valid() && Settled(s) && RunsWithin(s, ops, peak)
    ensures s.size <= Run(s, ops, peak).size <= Max(s.size, Max(2 * peak + 2, peak + 4))
    decreases |ops|
  {
    if ops == [] {
    } else {
      SpaceBoundStep(s, ops[0], peak);
      SpaceBound(Apply(s, ops[0]), ops[1..], peak);
    }
  }

  lemma SpaceBoundStep(s: Shape, op: Op, peak: nat)
    requires s.Valid() && Settled(s) && Allowed(s, op)
    requires s.Readable() <= peak && Apply(s, op).Readable() <= peak
    ensures Settled(Apply(s, op))
    ensures s.size <= Apply(s, op).size <= Max(s.size, Max(2 * peak + 2, peak + 4))
  {
  }

  // the class over whole runs

  /** What an operation does to a plain byte sequence. */
  function Result(content: Bytes, op: Op): Bytes {
    match op
    case Append(data) => content + data
    case Fill(data) => content + data
    case Prepend(data) => data + content
    case MoveOver(len) => if len <= |content| then content[len..] else []
    case Unwrite(len) => if len <= |content| then content[..|content| - len] else []
    case Reset => []
  }

  function Results(content: Bytes, ops: seq<Op>): Bytes
    decreases |ops|
  {
    if ops == [] then content else Results(Result(content, ops[0]), ops[1..])
  }

  method Perform(b: Buffer, op: Op)
    requires b.Valid() && Allowed(b.Layout(), op)
    modifies b, b.buffer
    ensures b.Valid() && (b.buffer == old(b.buffer) || fresh(b.buffer))
    ensures b.Layout() == Apply(old(b.Layout()), op) && b.Contents() == Result(old(b.Contents()), op)
  {
    hide Buffer.Contents, Shape.Append, Shape.Fill, Shape.MoveOver;
    match op {
      case Append(data) => b.Append(data);
      case Prepend(data) => b.Prepend(data);
      case Fill(data) => b.Absorb(data);
      case MoveOver(len) => b.MoveOver(len);
      case Unwrite(len) => b.Unwrite(len);
      case Reset => b.Reset();
    }
  }

  /**
   Any run of operations within their assertions: the buffer shows what a plain
   byte sequence would hold, and its block stays within the bound.
   */
  method PerformAll(b: Buffer, ops: seq<Op>, ghost peak: nat)
    requires b.Valid() && Settled(b.Layout()) && RunsWithin(b.Layout(), ops, peak)
    modifies b, b.buffer
    ensures b.Valid() && (b.buffer == old(b.buffer) || fresh(b.buffer))
    ensures b.Contents() == Results(old(b.Contents()), ops)
    ensures b.Layout() == Run(old(b.Layout()), ops, peak)
    ensures old(b.buffer.Length) <= b.buffer.Length <= Max(old(b.buffer.Length), Max(2 * peak + 2, peak + 4))
  {
    hide Buffer.Contents, Result, Apply, Allowed, Settled;
    SpaceBound(b.Layout(), ops, peak);
    ghost var s, content := b.Layout(), b.Contents();
    var i := 0;
    assert ops[0..] == ops;
    while i < |ops|
      invariant i <= |ops| && b.Valid() && (b.buffer == old(b.buffer) || fresh(b.buffer))
      invariant RunsWithin(b.Layout(), ops[i..], peak)
      invariant Run(s, ops, peak) == Run(b.Layout(), ops[i..], peak)
      invariant Results(content, ops) == Results(b.Contents(), ops[i..])
    {
      assert ops[i..][1..] == ops[i + 1..];
      Perform(b, ops[i]);
      i := i + 1;
    }
  }

  /** Two buffers, with swaps between them. */
  datatype PairOp = First(op: Op) | Second(op: Op) | Swapped

  predicate PairWithin(s: Shape, t: Shape, ops: seq<PairOp>, peak: nat)
    requires s.Valid() && t.Valid()
    decreases |ops|
  {
    s.Readable() <= peak && t.Readable() <= peak &&
    (ops != [] ==>
       match ops[0]
       case First(op) => Allowed(s, op) && PairWithin(Apply(s, op), t, ops[1..], peak)
       case Second(op) => Allowed(t, op) && PairWithin(s, Apply(t, op), ops[1..], peak)
       case Swapped => PairWithin(t, s, ops[1..], peak))
  }

  function PairRun(s: Shape, t: Shape, ops: seq<PairOp>, peak: nat): (r: (Shape, Shape))
    requires s.Valid() && t.Valid() && PairWithin(s, t, ops, peak)
    ensures r.0.Valid() && r.1.Valid()
    decreases |ops|
  {
    if ops == [] then (s, t)
    else
      match ops[0]
      case First(op) => PairRun(Apply(s, op), t, ops[1..], peak)
      case Second(op) => PairRun(s, Apply(t, op), ops[1..], peak)
      case Swapped => PairRun(t, s, ops[1..], peak)
  }

  /** With swaps, neither block grows past the larger first size or about twice the largest content of either. */
  lemma PairSpaceBound(s: Shape, t: Shape, ops: seq<PairOp>, peak: nat, bound: nat)
    requires s.Valid() && t.Valid() && Settled(s) && Settled(t) && PairWithin(s, t, ops, peak)
    requires bound == Max(Max(s.size, t.size), Max(2 * peak + 2, peak + 4))
    ensures var (u, v) := PairRun(s, t, ops, peak); u.size <= bound && v.size <= bound
  {
    PairBoundedBy(s, t, ops, peak, bound);
  }

  lemma {:induction false} PairBoundedBy(s: Shape, t: Shape, ops: seq<PairOp>, peak: nat, bound: nat)
    requires s.Valid() && t.Valid() && Settled(s) && Settled(t) && PairWithin(s, t, ops, peak)
    requires s.size <= bound && t.size <= bound && 2 * peak + 2 <= bound && peak + 4 <= bound
    ensures var (u, v) := PairRun(s, t, ops, peak); u.size <= bound && v.size <= bound
    decreases |ops|
  {
    hide Settled, Apply, Allowed;
    if ops == [] {
    } else {
      match ops[0] {
        case First(op) =>
          WithinNow(Apply(s, op), t, ops[1..], peak);
          SpaceBoundStep(s, op, peak);
          PairBoundedBy(Apply(s, op), t, ops[1..], peak, bound);
        case Second(op) =>
          WithinNow(s, Apply(t, op), ops[1..], peak);
          SpaceBoundStep(t, op, peak);
          PairBoundedBy(s, Apply(t, op), ops[1..], peak, bound);
        case Swapped => PairBoundedBy(t, s, ops[1..], peak, bound);
      }
    }
  }

  lemma WithinNow(s: Shape, t: Shape, ops: seq<PairOp>, peak: nat)
    requires s.Valid() && t.Valid() && PairWithin(s, t, ops, peak)
    ensures s.Readable() <= peak && t.Readable() <= peak
  {
  }

  /** No smaller multiple would do: content lying against the end forces growth to 2 * peak + 2. */
  lemma SpaceBoundIsTight(peak: nat) returns (s: Shape, ops: seq<Op>)
    requires peak > 2
    ensures s == Shape(peak + 3, DISCARDABLE_SIZE, DISCARDABLE_SIZE)
    ensures RunsWithin(s, ops, peak) && Run(s, ops, peak).size == 2 * peak + 2
  {
    s := Shape(peak + 3, 4, 4);
    var a := seq(peak - 1, _ => 0 as Byte);
    ops := [Op.Append(a), Op.MoveOver(peak - 2), Op.Append(a)];
    var s1 := Apply(s, ops[0]);
    var s2 := Apply(s1, ops[1]);
    var s3 := Apply(s2, ops[2]);
    assert s3 == Shape(2 * peak + 2, peak + 2, 2 * peak + 2);
    assert RunsWithin(s3, [], peak) && Run(s3, [], peak) == s3;
    assert ops[2..][1..] == [];
    assert RunsWithin(s2, ops[2..], peak) && Run(s2, ops[2..], peak) == s3;
    assert ops[1..][1..] == ops[2..];
    assert RunsWithin(s1, ops[1..], peak) && Run(s1, ops[1..], peak) == s3;
  }

  // ---------- typed lists

  datatype Item = Item(value: int, width: nat)

  predicate Representable(items: seq<Item>) {
    forall i | 0 <= i < |items| :: Fits(items[i].value, items[i].width)
  }

  /** The content after appending each item in turn. */
  function Serialize(items: seq<Item>): Bytes {
    if items == [] then [] else Encode(items[0].value, items[0].width) + Serialize(items[1..])
  }

  /** What reading with each item's width in turn yields, and the content it leaves. */
  function ReadBack(content: Bytes, widths: seq<nat>): (seq<int>, Bytes) {
    if widths == [] then ([], content)
    else if |content| < widths[0] then ([], content)
    else
      var (values, rest) := ReadBack(content[widths[0]..], widths[1..]);
      ([Decode(content[..widths[0]])] + values, rest)
  }

  function Widths(items: seq<Item>): seq<nat> {
    seq(|items|, i requires 0 <= i < |items| => items[i].width)
  }

  function Values(items: seq<Item>): seq<int> {
    seq(|items|, i requires 0 <= i < |items| => items[i].value)
  }

  /** The contract of `ReadInt` leaves no choice: after a prepend it yields what was prepended. */
  lemma PrependReadBack(v: int, x: int, width: nat, content: Bytes, rest: Bytes)
    requires Fits(v, width) && Fits(x, width)
    requires Encode(x, width) + rest == Encode(v, width) + content
    ensures x == v && rest == content
  {
    assert (Encode(x, width) + rest)[..width] == Encode(x, width);
    assert (Encode(x, width) + rest)[width..] == rest;
    DecodeEncode(v, width);
    DecodeEncode(x, width);
  }

  /** Matching reads give the list back and leave whatever followed it. */
  lemma {:induction false} TypedRoundTrip(items: seq<Item>, after: Bytes)
    requires Representable(items)
    ensures ReadBack(Serialize(items) + after, Widths(items)) == (Values(items), after)
  {
    if items == [] {
      assert Serialize(items) + after == after;
    } else {
      var head, tail := Encode(items[0].value, items[0].width), items[1..];
      var content := head + (Serialize(tail) + after);
      assert Serialize(items) + after == content;
      assert content[..items[0].width] == head && content[items[0].width..] == Serialize(tail) + after;
      assert Widths(items)[1..] == Widths(tail);
      assert Values(items) == [items[0].value] + Values(tail);
      DecodeEncode(items[0].value, items[0].width);
      TypedRoundTrip(tail, after);
    }
  }

  /** The typed appends, one after the other. */
  method AppendAll(b: Buffer, items: seq<Item>)
    requires b.Valid() && Representable(items)
    modifies b, b.buffer
    ensures b.Valid() && (b.buffer == old(b.buffer) || fresh(b.buffer))
    ensures b.Contents() == old(b.Contents()) + Serialize(items)
  {
    hide Encode, Serialize, Fits;
    ghost var before, done: Bytes := b.Contents(), [];
    ghost var whole := Serialize(items);
    assert items[0..] == items && before + [] == before && [] + whole == whole;
    for i := 0 to |items|
      invariant b.Valid() && (b.buffer == old(b.buffer) || fresh(b.buffer))
      invariant b.Contents() == before + done && whole == done + Serialize(items[i..])
    {
      var item := items[i];
      SerializeNext(items, i);
      ghost var octets := Encode(item.value, item.width);
      assert (done + octets) + Serialize(items[i + 1..]) == done + (octets + Serialize(items[i + 1..]));
      assert (before + done) + octets == before + (done + octets);
      b.AppendInt(item.value, item.width);
      done := done + octets;
    }
    SerializeNothing(items);
    assert done + [] == done;
  }

  lemma SerializeNothing(items: seq<Item>)
    ensures Serialize(items[|items|..]) == []
  {
  }

  lemma SerializeNext(items: seq<Item>, i: nat)
    requires i < |items|
    ensures Serialize(items[i..]) == Encode(items[i].value, items[i].width) + Serialize(items[i + 1..])
  {
    assert items[i..][1..] == items[i + 1..];
  }

  /** The typed reads, one after the other, until the content is too short for the next. */
  method ReadEach(b: Buffer, widths: seq<nat>) returns (values: seq<int>)
    requires b.Valid()
    modifies b
    ensures b.Valid() && b.buffer == old(b.buffer)
    ensures (values, b.Contents()) == ReadBack(old(b.Contents()), widths)
  {
    hide ReadBack, Encode, Decode, Fits;
    ghost var content := b.Contents();
    values := [];
    var i := 0;
    assert widths[0..] == widths && [] + ReadBack(content, widths).0 == ReadBack(content, widths).0;
    while i < |widths| && widths[i] <= b.writerIndex - b.readerIndex
      invariant i <= |widths| && b.Valid() && b.buffer == old(b.buffer)
      invariant ReadBack(content, widths).0 == values + ReadBack(b.Contents(), widths[i..]).0
      invariant ReadBack(content, widths).1 == ReadBack(b.Contents(), widths[i..]).1
    {
      ghost var before := b.Contents();
      ReadBackNext(before, widths, i);
      var x := b.ReadInt(widths[i]);
      HeadOf(before, x, widths[i], b.Contents());
      ghost var rest := ReadBack(b.Contents(), widths[i + 1..]).0;
      assert values + ([x] + rest) == (values + [x]) + rest;
      values := values + [x];
      i := i + 1;
    }
    ReadBackDone(b.Contents(), widths, i);
    assert values + [] == values;
  }

  lemma HeadOf(content: Bytes, x: int, width: nat, rest: Bytes)
    requires Fits(x, width) && Encode(x, width) + rest == content
    ensures |content| >= width && Decode(content[..width]) == x && content[width..] == rest
  {
    assert content[..width] == Encode(x, width);
    DecodeEncode(x, width);
  }

  lemma ReadBackNext(content: Bytes, widths: seq<nat>, i: nat)
    requires i < |widths| && widths[i] <= |content|
    ensures var (rest, left) := ReadBack(content[widths[i]..], widths[i + 1..]);
            ReadBack(content, widths[i..]) == ([Decode(content[..widths[i]])] + rest, left)
  {
    assert widths[i..][1..] == widths[i + 1..];
  }

  lemma ReadBackDone(content: Bytes, widths: seq<nat>, i: nat)
    requires i <= |widths| && (i < |widths| ==> |content| < widths[i])
    ensures ReadBack(content, widths[i..]) == ([], content)
  {
  }

  /** A list of integers appended to an empty buffer comes back from it, and leaves it empty. */
  method StoreAndLoad(b: Buffer, items: seq<Item>) returns (values: seq<int>)
    requires b.Valid() && b.Contents() == [] && Representable(items)
    modifies b, b.buffer
    ensures b.Valid() && b.Contents() == [] && values == Values(items)
  {
    AppendAll(b, items);
    TypedRoundTrip(items, []);
    assert b.Contents() == Serialize(items) + [];
    values := ReadEach(b, Widths(items));
  }
}
