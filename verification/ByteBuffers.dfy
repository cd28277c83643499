/** Bytes as the wire carries them. */
module Bytes {
  type byte = x: int | 0 <= x < 0x100

  /** All the pieces of a stream, one after the other. */
  function Joined(pieces: seq<seq<byte>>): seq<byte> {
    if pieces == [] then [] else pieces[0] + Joined(pieces[1..])
  }

  lemma Associated<T>(a: seq<T>, b: seq<T>, c: seq<T>)
    ensures a + (b + c) == a + b + c
  {
  }
}

/** The growable, compacting byte buffer.  Copies of a buffer share one block of private data, so an
    object of the class below is that block and a copy is another reference to it. */
module ByteBuffers {
  import opened Bytes
  import opened PowersOfTwo

  const MIN_CAPACITY: nat := 4096

  function Min(a: nat, b: nat): nat {
    if a < b then a else b
  }

  lemma SliceInTwo(block: seq<byte>, r: nat, k: nat, w: nat)
    requires r + k <= w <= |block|
    ensures block[r..w][..k] == block[r..r + k] && block[r..w][k..] == block[r + k..w]
  {
  }

  /** The last `n` bytes in front of the reader, and what comes before and after them. */
  lemma LastOfPast(block: seq<byte>, r: nat, n: nat, w: nat, past: seq<byte>)
    requires n <= r <= w <= |block| && r <= |past| && block[..r] == past[|past| - r..]
    ensures block[r - n..w] == past[|past| - n..] + block[r..w]
    ensures block[..r - n] == past[..|past| - n][|past| - r..]
    ensures past[..|past| - n] + past[|past| - n..] == past
  {
    assert block[r - n..w] == block[..r][r - n..] + block[r..w];
    assert past[|past| - r..][r - n..] == past[|past| - n..];
    assert block[..r - n] == block[..r][..r - n];
    assert past[|past| - r..][..r - n] == past[..|past| - n][|past| - r..];
  }

  lemma LongerSlice(block: seq<byte>, r: nat, a: nat, b: nat)
    requires r <= a <= b <= |block|
    ensures block[r..a] <= block[r..b]
  {
    assert block[r..b][..a - r] == block[r..a];
  }

  class ByteBuffer {
    var data: array<byte>
    var readerIndex: nat
    var writerIndex: nat
    var capacity: nat

    /** Bytes copied by `EnsureWritable` into larger blocks and within the block, and bytes that went
        in and out, since the buffer was made. */
    ghost var grown: nat
    ghost var moved: nat
    ghost var written: nat
    ghost var consumed: nat

    /** The bytes the reader has gone past, oldest first. */
    ghost var past: seq<byte>

    ghost predicate Valid()
      reads this
    {
      && readerIndex <= writerIndex <= capacity == data.Length
      && capacity >= MIN_CAPACITY && IsPowerOfTwo(capacity)
    }

    /** The bytes waiting to be read, oldest first. */
    ghost function Contents(): seq<byte>
      reads this, data
      requires Valid()
    {
      data[readerIndex..writerIndex]
    }

    /** The bytes in front of the reader are still the last it went past, so it can go back over them. */
    ghost predicate Remembers()
      reads this, data
      requires Valid()
    {
      readerIndex <= |past| && data[..readerIndex] == past[|past| - readerIndex..]
    }

    /** Everything that was ever written, as far as nobody moved the writer. */
    ghost function History(): seq<byte>
      reads this, data
      requires Valid()
    {
      past + Contents()
    }

    /** The copying done so far is paid for: what was moved within the block by bytes consumed before,
        what was copied into larger blocks by the growth itself, and the size of the block by bytes
        written, of which `coming` are still to arrive. */
    ghost predicate Economical(coming: nat)
      reads this
      requires Valid()
    {
      && writerIndex <= written
      && moved + readerIndex <= consumed
      && grown + MIN_CAPACITY <= capacity
      && (capacity > MIN_CAPACITY ==> capacity < 2 * (written + coming))
    }

    constructor (size: nat)
      requires size < 0x8000_0000_0000_0000
      ensures Valid() && fresh(data) && Contents() == [] && readerIndex == writerIndex == 0
      ensures capacity >= size
      ensures forall p: nat | IsPowerOfTwo(p) && p >= size && p >= MIN_CAPACITY :: capacity <= p
      ensures grown == moved == written == consumed == 0 && past == [] && Remembers()
      ensures size <= MIN_CAPACITY ==> Economical(0)
    {
      AdjustedCapacity(size);
      var c := if size < MIN_CAPACITY then MIN_CAPACITY else AdjustSize(size);
      data := new byte[c];
      capacity := c;
      readerIndex, writerIndex := 0, 0;
      grown, moved, written, consumed, past := 0, 0, 0, 0, [];
    }

    method NumReadableBytes() returns (n: nat)
      requires Valid()
      ensures n == |Contents()|
    {
      n := writerIndex - readerIndex;
    }

    /** Room for `len` bytes behind the writer, the contents as they were.  Nothing is touched if the
        room is there; a block is only ever replaced by a larger one. */
    method EnsureWritable(len: nat)
      requires Valid()
      modifies this`data, this`readerIndex, this`writerIndex, this`capacity, this`grown, this`moved, data
      ensures Valid() && (data == old(data) || fresh(data))
      ensures Contents() == old(Contents())
      ensures capacity - writerIndex >= len && capacity >= old(capacity)
      ensures old(capacity - writerIndex) >= len ==> unchanged(this)
      ensures old(readerIndex) == 0 ==> readerIndex == 0
      ensures old(Remembers()) ==> Remembers()
      ensures History() == old(History())
      ensures old(Economical(0)) ==> Economical(len)
    {
      var r := capacity - writerIndex;
      if r < len {
        var l := writerIndex - readerIndex;
        if readerIndex >= len && readerIndex > capacity / 2 {
          Compact(l);
        } else {
          Grow(l, len);
        }
        readerIndex := 0;
        writerIndex := l;
      }
    }

    /** The readable bytes move to the front of the block. */
    method Compact(l: nat)
      requires Valid() && l == writerIndex - readerIndex
      modifies this`moved, data
      ensures data[..l] == old(Contents()) && moved == old(moved) + l
    {
      forall i | 0 <= i < l {
        data[i] := data[readerIndex + i];
      }
      moved := moved + l;
    }

    /** The readable bytes move to the front of a new block of twice the capacity, or twice that,
        and so on until `len` more would have fit behind the writer. */
    method Grow(l: nat, len: nat)
      requires Valid() && l == writerIndex - readerIndex && capacity - writerIndex < len
      modifies this`data, this`capacity, this`grown
      ensures fresh(data) && data.Length == capacity && IsPowerOfTwo(capacity)
      ensures capacity >= 2 * old(capacity) && capacity >= writerIndex + len
      ensures capacity < 2 * (writerIndex + len)
      ensures data[..l] == old(Contents()) && grown == old(grown) + l
    {
      var c := LargerCapacity(len);
      var block := new byte[c];
      forall i | 0 <= i < l {
        block[i] := data[readerIndex + i];
      }
      data := block;
      capacity := c;
      grown := grown + l;
    }

    method LargerCapacity(len: nat) returns (c: nat)
      requires Valid() && capacity - writerIndex < len
      ensures c >= writerIndex + len && IsPowerOfTwo(c)
      ensures 2 * capacity <= c < 2 * (writerIndex + len)
    {
      c := 2 * capacity;
      DoubledPower(capacity);
      while c < writerIndex + len
        invariant 2 * capacity <= c < 2 * (writerIndex + len) && IsPowerOfTwo(c)
      {
        DoubledPower(c);
        c := 2 * c;
      }
    }

    /** Bytes are put behind the writer, where there is room for them. */
    method Put(bytes: seq<byte>)
      requires Valid() && capacity - writerIndex >= |bytes|
      modifies this`writerIndex, this`written, data
      ensures Valid() && Contents() == old(Contents()) + bytes
      ensures writerIndex == old(writerIndex) + |bytes| && written == old(written) + |bytes|
      ensures data[..readerIndex] == old(data[..readerIndex]) && History() == old(History()) + bytes
    {
      Associated(past, Contents(), bytes);
      forall i | 0 <= i < |bytes| {
        data[writerIndex + i] := bytes[i];
      }
      writerIndex := writerIndex + |bytes|;
      written := written + |bytes|;
    }

    method Write(bytes: seq<byte>)
      requires Valid()
      modifies this, data
      ensures Valid() && (data == old(data) || fresh(data))
      ensures Contents() == old(Contents()) + bytes
      ensures written == old(written) + |bytes| && consumed == old(consumed) && past == old(past)
      ensures History() == old(History()) + bytes
      ensures old(readerIndex) == 0 ==> readerIndex == 0
      ensures old(Remembers()) ==> Remembers()
      ensures old(Economical(0)) ==> Economical(0)
    {
      if |bytes| == 0 {
        assert History() + bytes == History();
        return;
      }
      EnsureWritable(|bytes|);
      assert Contents() == old(Contents());
      Put(bytes);
    }

    method Fill(c: byte, len: nat)
      requires Valid()
      modifies this, data
      ensures Valid() && (data == old(data) || fresh(data))
      ensures Contents() == old(Contents()) + seq(len, _ => c)
      ensures written == old(written) + len && consumed == old(consumed) && past == old(past)
      ensures History() == old(History()) + seq(len, _ => c)
      ensures old(readerIndex) == 0 ==> readerIndex == 0
      ensures old(Remembers()) ==> Remembers()
      ensures old(Economical(0)) ==> Economical(0)
    {
      if len == 0 {
        assert History() + seq(len, _ => c) == History();
        return;
      }
      EnsureWritable(len);
      var filling := seq(len, _ => c);
      Put(filling);
    }

    /** The reader goes on by `n` bytes. */
    method Advance(n: nat)
      requires Valid() && n <= writerIndex - readerIndex
      modifies this`readerIndex, this`consumed, this`past
      ensures Valid() && readerIndex == old(readerIndex) + n
      ensures Contents() == old(Contents())[n..] && past == old(past) + old(Contents())[..n]
      ensures consumed == old(consumed) + n && History() == old(History())
      ensures old(Remembers()) ==> Remembers()
      ensures old(Economical(0)) ==> Economical(0)
    {
      SliceInTwo(data[..], readerIndex, n, writerIndex);
      assert Contents() == Contents()[..n] + Contents()[n..];
      Associated(past, Contents()[..n], Contents()[n..]);
      past := past + Contents()[..n];
      assert data[..readerIndex] + data[readerIndex..readerIndex + n] == data[..readerIndex + n];
      consumed := consumed + n;
      readerIndex := readerIndex + n;
    }

    /** At the end of what there is to read the block is used from its front again. */
    method Rewind()
      requires Valid()
      modifies this`readerIndex, this`writerIndex
      ensures Valid() && Contents() == old(Contents()) && History() == old(History())
      ensures old(readerIndex) < old(writerIndex) ==> unchanged(this)
      ensures old(Contents()) == [] ==> readerIndex == writerIndex == 0
      ensures old(Remembers()) ==> Remembers()
      ensures old(Economical(0)) ==> Economical(0)
    {
      if readerIndex == writerIndex {
        readerIndex, writerIndex := 0, 0;
      }
    }

    /** `read` when `move` holds, `get` when it does not: at most `len` of the oldest bytes. */
    method Read(len: nat, move: bool) returns (bytes: seq<byte>)
      requires Valid()
      modifies this`readerIndex, this`writerIndex, this`consumed, this`past
      ensures Valid()
      ensures bytes == old(Contents())[..Min(len, |old(Contents())|)]
      ensures Contents() == if move then old(Contents())[|bytes|..] else old(Contents())
      ensures consumed == old(consumed) + if move then |bytes| else 0
      ensures History() == old(History())
      ensures !move ==> unchanged(this)
      ensures old(Remembers()) ==> Remembers()
      ensures old(Economical(0)) ==> Economical(0)
    {
      var ret := Min(len, writerIndex - readerIndex);
      bytes := data[readerIndex..readerIndex + ret];
      SliceInTwo(data[..], readerIndex, ret, writerIndex);
      hide Remembers, Economical, History;
      if ret > 0 && move {
        Advance(ret);
        Rewind();
      }
    }

    /** A negative length discards everything. */
    method DiscardReadBytes(len: int) returns (l: nat)
      requires Valid()
      modifies this`readerIndex, this`writerIndex, this`consumed, this`past
      ensures Valid()
      ensures l == if len < 0 then |old(Contents())| else Min(len, |old(Contents())|)
      ensures Contents() == old(Contents())[l..]
      ensures consumed == old(consumed) + l
      ensures History() == old(History())
      ensures old(Remembers()) ==> Remembers()
      ensures old(Economical(0)) ==> Economical(0)
    {
      hide Remembers, Economical, History;
      var l0: nat := if len < 0 then writerIndex - readerIndex else len;
      l := Min(l0, writerIndex - readerIndex);
      Advance(l);
      Rewind();
    }

    /** Clamped between zero and the writer.  Moving back undoes reading: as many of the bytes gone past
        come into view again as the block still holds. */
    method MoveReaderIndex(offset: int)
      requires Valid()
      modifies this`readerIndex, this`consumed, this`past
      ensures Valid()
      ensures offset >= 0 ==> Contents() == old(Contents())[Min(offset, |old(Contents())|)..]
      ensures offset >= 0 ==> consumed == old(consumed) + Min(offset, |old(Contents())|) && History() == old(History())
      ensures offset < 0 ==> readerIndex == if old(readerIndex) + offset < 0 then 0 else old(readerIndex) + offset
      ensures offset < 0 && old(Remembers()) ==>
                var back := old(readerIndex) - readerIndex;
                Contents() == old(past)[|old(past)| - back..] + old(Contents())
      ensures old(Remembers()) ==> Remembers() && History() == old(History())
      ensures offset >= 0 && old(Economical(0)) ==> Economical(0)
    {
      var index := readerIndex + offset;
      if index < 0 {
        GoBack(readerIndex);
      } else if index >= writerIndex {
        Advance(writerIndex - readerIndex);
      } else if offset < 0 {
        GoBack(-offset);
      } else {
        Advance(offset);
      }
    }

    method GoBack(n: nat)
      requires Valid() && n <= readerIndex
      modifies this`readerIndex, this`past
      ensures Valid() && readerIndex == old(readerIndex) - n
      ensures old(Remembers()) ==>
                && Contents() == old(past)[|old(past)| - n..] + old(Contents())
                && Remembers() && History() == old(History())
    {
      ghost var kept := if n <= |past| then |past| - n else 0;
      if Remembers() {
        LastOfPast(data[..], readerIndex, n, writerIndex, past);
        Associated(past[..kept], past[kept..], Contents());
      }
      past := past[..kept];
      readerIndex := readerIndex - n;
    }

    /** Clamped between zero and the capacity; the reader never stays behind the writer. */
    method MoveWriterIndex(offset: int)
      requires Valid()
      modifies this`readerIndex, this`writerIndex, this`past
      ensures Valid()
      ensures old(Remembers()) ==> Remembers()
      ensures 0 <= old(writerIndex) + offset <= capacity ==> writerIndex == old(writerIndex) + offset
      ensures old(writerIndex) + offset > capacity ==> writerIndex == capacity
      ensures old(writerIndex) + offset < 0 ==> writerIndex == 0
      ensures readerIndex == if old(readerIndex) <= writerIndex then old(readerIndex) else writerIndex
      ensures offset >= 0 ==> old(Contents()) <= Contents()
      ensures offset < 0 ==> Contents() <= old(Contents())
    {
      var index := writerIndex + offset;
      if offset >= 0 {
        LongerSlice(data[..], readerIndex, writerIndex, Min(index, capacity));
      } else if index >= readerIndex {
        LongerSlice(data[..], readerIndex, index, writerIndex);
      }
      if index < 0 {
        readerIndex, writerIndex := 0, 0;
      } else if index < readerIndex {
        GoBack(readerIndex - index);
        writerIndex := index;
      } else if index >= capacity {
        writerIndex := capacity;
      } else {
        writerIndex := index;
      }
    }

    /** Everything there is to read is given up. */
    method Clear()
      requires Valid()
      modifies this`readerIndex, this`writerIndex, this`consumed, this`past
      ensures Valid() && Contents() == [] && readerIndex == writerIndex == 0
      ensures History() == old(History()) && consumed == old(consumed) + |old(Contents())|
      ensures Remembers()
      ensures old(Economical(0)) ==> Economical(0)
    {
      past, consumed := past + Contents(), consumed + |Contents()|;
      readerIndex, writerIndex := 0, 0;
      assert past + [] == past;
    }

    /** Appends the contents of a buffer, and takes them off that one if asked to.  A buffer can be
        appended to itself if there is room for it: otherwise its block would be replaced, or moved,
        between finding the bytes and copying them. */
    method WriteBuffer(other: ByteBuffer, discard: bool)
      requires Valid() && other.Valid()
      requires if other == this then capacity - writerIndex >= |Contents()| else other.data != data
      modifies this, data, other`readerIndex, other`writerIndex, other`consumed, other`past
      ensures Valid() && other.Valid() && (data == old(data) || fresh(data))
      ensures other != this ==> Contents() == old(Contents()) + old(other.Contents())
      ensures other != this ==> other.Contents() == if discard then [] else old(other.Contents())
      ensures other == this ==> Contents() == old(Contents()) + (if discard then [] else old(Contents()))
      ensures old(Economical(0)) ==> Economical(0)
    {
      var l := other.NumReadableBytes();
      if l == 0 {
        return;
      }
      Write(other.data[other.readerIndex..other.writerIndex]);
      if discard {
        var n := other.DiscardReadBytes(l);
      }
    }

    /** The amortised bound on copying. */
    lemma RelocationBound()
      requires Valid() && Economical(0)
      ensures grown + moved <= 2 * written + consumed
    {
    }
  }

  lemma DoubledPower(c: nat)
    requires IsPowerOfTwo(c)
    ensures IsPowerOfTwo(2 * c)
  {
    var k: nat :| c == Pow2(k);
    assert 2 * c == Pow2(k + 1);
  }

  lemma AdjustedCapacity(size: nat)
    requires size < 0x8000_0000_0000_0000
    ensures IsPowerOfTwo(MIN_CAPACITY)
    ensures size >= MIN_CAPACITY ==>
              && IsPowerOfTwo(AdjustSize(size)) && AdjustSize(size) >= size
              && forall p: nat | IsPowerOfTwo(p) && p >= size :: AdjustSize(size) <= p
  {
    assert Pow2(12) == MIN_CAPACITY by {
      Pow2Sum(6, 6);
      assert Pow2(6) == 64;
    }
    if size >= MIN_CAPACITY {
      AdjustSizeIsLeast(size);
    }
  }

  /** What a client may do with a buffer of its own. */
  datatype Use =
    | PutAll(bytes: seq<byte>) | FillUp(c: byte, len: nat)
    | Take(len: nat) | Look(len: nat) | Discard(most: int) | Skip(len: nat) | Wipe

  /** All bytes put in. */
  function PutIn(uses: seq<Use>): seq<byte> {
    if uses == [] then []
    else
      PutIn(uses[..|uses| - 1])
      + (match uses[|uses| - 1] case PutAll(bytes) => bytes case FillUp(c, len) => seq(len, _ => c) case _ => [])
  }

  /** The queue of bytes a client should find. */
  function Queued(uses: seq<Use>): seq<byte> {
    if uses == [] then []
    else
      var q := Queued(uses[..|uses| - 1]);
      match uses[|uses| - 1]
      case PutAll(bytes) => q + bytes
      case FillUp(c, len) => q + seq(len, _ => c)
      case Take(len) => q[Min(len, |q|)..]
      case Look(_) => q
      case Discard(most) => if most < 0 then [] else q[Min(most, |q|)..]
      case Skip(len) => q[Min(len, |q|)..]
      case Wipe => []
  }

  /** What its reads should return. */
  function Answers(uses: seq<Use>): seq<seq<byte>> {
    if uses == [] then []
    else
      var q := Queued(uses[..|uses| - 1]);
      Answers(uses[..|uses| - 1])
      + (match uses[|uses| - 1]
         case Take(len) => [q[..Min(len, |q|)]]
         case Look(len) => [q[..Min(len, |q|)]]
         case _ => [])
  }

  /** A run so far: the buffer is the queue, nothing that was put in is lost but what was taken out from
      its front, and the copying is paid for. */
  ghost predicate InRun(b: ByteBuffer, uses: seq<Use>, answers: seq<seq<byte>>)
    reads b, b.data
  {
    && b.Valid() && b.Economical(0)
    && b.Contents() == Queued(uses) && b.History() == PutIn(uses) && answers == Answers(uses)
    && b.written == |PutIn(uses)| && b.consumed == |PutIn(uses)| - |Queued(uses)|
  }

  method OneUse(b: ByteBuffer, use: Use, ghost before: seq<Use>, answers: seq<seq<byte>>) returns (more: seq<seq<byte>>)
    requires InRun(b, before, answers)
    modifies b, b.data
    ensures InRun(b, before + [use], answers + more) && (b.data == old(b.data) || fresh(b.data))
  {
    more := [];
    assert (before + [use])[..|before|] == before;
    assert answers + [] == answers && PutIn(before) + [] == PutIn(before);
    hide ByteBuffer.Valid, ByteBuffer.Economical, ByteBuffer.History, ByteBuffer.Contents;
    match use {
      case PutAll(bytes) =>
        b.Write(bytes);
      case FillUp(c, len) =>
        b.Fill(c, len);
      case Take(len) =>
        var bytes := b.Read(len, true);
        more := [bytes];
      case Look(len) =>
        var bytes := b.Read(len, false);
        more := [bytes];
      case Discard(most) =>
        var l := b.DiscardReadBytes(most);
      case Skip(len) =>
        b.MoveReaderIndex(len);
      case Wipe =>
        b.Clear();
    }
  }

  /** Over any run of writes and reads a fresh buffer is a queue of bytes: every read returns the oldest
      bytes there are, what has gone from the front and what is there are together all that was put in,
      and all in all at most twice the bytes put in plus the bytes taken out are copied. */
  method AnyRun(uses: seq<Use>) returns (b: ByteBuffer, answers: seq<seq<byte>>)
    ensures fresh(b) && fresh(b.data) && b.Valid()
    ensures b.Contents() == Queued(uses) && answers == Answers(uses)
    ensures b.past + b.Contents() == PutIn(uses)
    ensures b.grown + b.moved <= 2 * |PutIn(uses)| + |b.past|
  {
    b, answers := StartRun();
    var i := 0;
    assert uses[..0] == [];
    hide InRun;
    while i < |uses|
      invariant i <= |uses| && fresh(b) && fresh(b.data) && InRun(b, uses[..i], answers)
    {
      assert uses[..i + 1] == uses[..i] + [uses[i]];
      var more := OneUse(b, uses[i], uses[..i], answers);
      answers := answers + more;
      i := i + 1;
    }
    assert uses[..i] == uses;
    RunHasBound(b, uses, answers);
  }

  method StartRun() returns (b: ByteBuffer, answers: seq<seq<byte>>)
    ensures fresh(b) && fresh(b.data) && InRun(b, [], answers)
  {
    b := new ByteBuffer(MIN_CAPACITY);
    answers := [];
  }

  lemma RunHasBound(b: ByteBuffer, uses: seq<Use>, answers: seq<seq<byte>>)
    requires InRun(b, uses, answers)
    ensures b.Valid() && b.Contents() == Queued(uses) && answers == Answers(uses)
    ensures b.past + b.Contents() == PutIn(uses)
    ensures b.grown + b.moved <= 2 * |PutIn(uses)| + |b.past|
  {
    b.RelocationBound();
    assert |b.past| + |b.Contents()| == |PutIn(uses)|;
  }
}
