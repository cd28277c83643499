/** The length-prefixed frames of the wire: tag and body length as little-endian 32-bit words, then
    the body.  The macros that write them and the receive loops that take them apart. */
module Framing {
  import opened Bytes
  import opened ByteBuffers

  const MAX_LEN: nat := 1048576
  const WORD: nat := 0x1_0000_0000

  function Word(n: nat): (w: seq<byte>)
    ensures |w| == 4
  {
    var n1 := n / 0x100;
    var n2 := n1 / 0x100;
    [n % 0x100, n1 % 0x100, n2 % 0x100, n2 / 0x100 % 0x100]
  }

  function Value(w: seq<byte>): (n: nat)
    requires |w| >= 4
    ensures n < WORD
  {
    var w0: nat, w1: nat, w2: nat, w3: nat := w[0], w[1], w[2], w[3];
    w0 + 0x100 * (w1 + 0x100 * (w2 + 0x100 * w3))
  }

  lemma WordValue(n: nat, rest: seq<byte>)
    ensures Value(Word(n) + rest) == n % WORD
  {
    var n1 := n / 0x100;
    var n2 := n1 / 0x100;
    var n3 := n2 / 0x100;
    var v := Value(Word(n) + rest);
    assert v == n % 0x100 + 0x100 * (n1 % 0x100 + 0x100 * (n2 % 0x100 + 0x100 * (n3 % 0x100)));
    assert n == v + WORD * (n3 / 0x100);
  }

  lemma ValueWord(w: seq<byte>)
    requires |w| >= 4
    ensures Word(Value(w)) == w[..4]
  {
    var w0: nat, w1: nat, w2: nat, w3: nat := w[0], w[1], w[2], w[3];
    var v1 := w1 + 0x100 * (w2 + 0x100 * w3);
    Digits(w0, v1);
    Digits(w1, w2 + 0x100 * w3);
    Digits(w2, w3);
    assert Word(Value(w)) == [w[0], w[1], w[2], w[3]];
  }

  lemma Digits(d: nat, n: nat)
    requires d < 0x100
    ensures (d + 0x100 * n) % 0x100 == d && (d + 0x100 * n) / 0x100 == n
  {
  }

  const RESPONSE_LOGIN: nat := 102
  const ANY_TAG: nat -> bool := t => true

  datatype Frame = Frame(tag: nat, body: seq<byte>)

  function Encoded(f: Frame): seq<byte> {
    Word(f.tag) + Word(|f.body|) + f.body
  }

  function EncodedAll(fs: seq<Frame>): seq<byte> {
    if fs == [] then [] else Encoded(fs[0]) + EncodedAll(fs[1..])
  }

  /** One look at the front of the buffer. */
  datatype Look = NeedMore | TooLong | Got(frame: Frame, rest: seq<byte>)

  function LookAt(buf: seq<byte>): Look {
    if |buf| < 8 then NeedMore
    else
      var l := Value(buf[4..]);
      if l > MAX_LEN then TooLong
      else if |buf| - 8 < l then NeedMore
      else Got(Frame(Value(buf), buf[8..8 + l]), buf[8 + l..])
  }

  /** Would the loop go on past the front of `buf`, and if so over which frame? */
  predicate GoesOn(buf: seq<byte>, known: nat -> bool) {
    LookAt(buf).Got? && known(LookAt(buf).frame.tag)
  }

  /** What a receive loop delivers from a buffer, and what it leaves in it.  The server stops at a tag
      no handler is known for; the clients go on, which is the case of `known` holding of every tag. */
  function Parsed(buf: seq<byte>, known: nat -> bool): (r: (seq<Frame>, seq<byte>))
    ensures |r.1| <= |buf|
    decreases |buf|
  {
    if GoesOn(buf, known) then
      var Got(f, rest) := LookAt(buf);
      var (fs, left) := Parsed(rest, known);
      ([f] + fs, left)
    else ([], buf)
  }

  /** More bytes do not change a look that found a whole frame or a length out of bounds. */
  lemma LookIsStable(a: seq<byte>, b: seq<byte>)
    requires !LookAt(a).NeedMore?
    ensures LookAt(a + b) == match LookAt(a)
                             case TooLong => TooLong
                             case Got(f, rest) => Got(f, rest + b)
  {
    assert (a + b)[4..] == a[4..] + b;
    if LookAt(a).Got? {
      var l := Value(a[4..]);
      assert (a + b)[8..8 + l] == a[8..8 + l];
      assert (a + b)[8 + l..] == a[8 + l..] + b;
    }
  }

  /** Parsing what has come and then, with what it left, what comes later is parsing it all. */
  lemma {:induction false} ParsedInTwo(a: seq<byte>, b: seq<byte>, known: nat -> bool)
    ensures var (fs, left) := Parsed(a, known);
            var (gs, end) := Parsed(left + b, known);
            Parsed(a + b, known) == (fs + gs, end)
    decreases |a|
  {
    if GoesOn(a, known) {
      LookIsStable(a, b);
      LookShortens(a);
      hide LookAt;
      var Got(f, rest) := LookAt(a);
      ParsedInTwo(rest, b, known);
      var (fs, left) := Parsed(rest, known);
      var (gs, end) := Parsed(left + b, known);
      assert Parsed(a, known) == ([f] + fs, left);
      assert Parsed(a + b, known) == ([f] + (fs + gs), end);
      Associated([f], fs, gs);
    } else {
      assert Parsed(a, known) == ([], a);
      hide LookAt, Parsed;
      assert [] + Parsed(a + b, known).0 == Parsed(a + b, known).0;
    }
  }

  /** The delivered frames and the bytes left when the chunks are fed one by one. */
  function FedAll(left: seq<byte>, chunks: seq<seq<byte>>, known: nat -> bool): (seq<Frame>, seq<byte>)
    decreases |chunks|
  {
    if chunks == [] then ([], left)
    else
      var (fs, left') := Parsed(left + chunks[0], known);
      var (gs, end) := FedAll(left', chunks[1..], known);
      (fs + gs, end)
  }

  /** Chunking does not matter: whatever the pieces the stream comes in, what is delivered, and what
      is left, depend on their concatenation only. */
  lemma {:induction false} ChunkingIsInvisible(chunks: seq<seq<byte>>, known: nat -> bool)
    requires chunks != []
    ensures FedAll([], chunks, known) == Parsed(Joined(chunks), known)
  {
    ChunkingFrom([], chunks, known);
    assert [] + Joined(chunks) == Joined(chunks);
  }

  lemma {:induction false} ChunkingFrom(left: seq<byte>, chunks: seq<seq<byte>>, known: nat -> bool)
    requires chunks != []
    ensures FedAll(left, chunks, known) == Parsed(left + Joined(chunks), known)
    decreases |chunks|
  {
    var first, later := chunks[0], Joined(chunks[1..]);
    assert left + Joined(chunks) == (left + first) + later;
    var (fs, left') := Parsed(left + first, known);
    ParsedInTwo(left + first, later, known);
    if |chunks| == 1 {
      assert left + Joined(chunks) == left + first;
      assert fs + [] == fs;
    } else {
      ChunkingFrom(left', chunks[1..], known);
    }
  }

  predicate Sendable(f: Frame) {
    f.tag < WORD && |f.body| <= MAX_LEN
  }

  lemma LookAtEncoded(f: Frame, rest: seq<byte>)
    requires Sendable(f)
    ensures LookAt(Encoded(f) + rest) == Got(f, rest)
  {
    hide Word, Value;
    var buf := Encoded(f) + rest;
    assert buf == Word(f.tag) + (Word(|f.body|) + f.body + rest);
    WordValue(f.tag, Word(|f.body|) + f.body + rest);
    assert buf[4..] == Word(|f.body|) + (f.body + rest);
    WordValue(|f.body|, f.body + rest);
    assert buf[8..8 + |f.body|] == f.body;
    assert buf[8 + |f.body|..] == rest;
  }

  /** Parsing inverts writing: frames that were written one after the other, with tags the loop
      knows and bodies of up to 1 MiB, come out as they went in, whatever follows them. */
  lemma {:induction false} ParsedEncoded(fs: seq<Frame>, rest: seq<byte>, known: nat -> bool)
    requires forall f | f in fs :: Sendable(f) && known(f.tag)
    ensures Parsed(EncodedAll(fs) + rest, known).0 == fs + Parsed(rest, known).0
    ensures Parsed(EncodedAll(fs) + rest, known).1 == Parsed(rest, known).1
    decreases fs
  {
    if fs == [] {
      assert EncodedAll(fs) + rest == rest;
      assert fs + Parsed(rest, known).0 == Parsed(rest, known).0;
    } else {
      var f, later := fs[0], EncodedAll(fs[1..]) + rest;
      assert EncodedAll(fs) + rest == Encoded(f) + later;
      hide LookAt, Encoded, EncodedAll, Parsed;
      LookAtEncoded(f, later);
      ParsedEncoded(fs[1..], rest, known);
      ParsedOneMore([], Encoded(f) + later, known);
      Associated([f], fs[1..], Parsed(rest, known).0);
      assert [f] + fs[1..] == fs;
    }
  }

  lemma LookShortens(buf: seq<byte>)
    requires LookAt(buf).Got?
    ensures |LookAt(buf).rest| < |buf|
  {
  }

  /** One turn of a loop, seen from the frames it has delivered so far. */
  lemma ParsedOneMore(done: seq<Frame>, buf: seq<byte>, known: nat -> bool)
    requires GoesOn(buf, known)
    ensures var Got(f, rest) := LookAt(buf);
            && done + Parsed(buf, known).0 == done + [f] + Parsed(rest, known).0
            && Parsed(buf, known).0 == [f] + Parsed(rest, known).0
            && Parsed(buf, known).1 == Parsed(rest, known).1
            && |rest| < |buf|
  {
    LookShortens(buf);
    hide LookAt;
    var Got(f, rest) := LookAt(buf);
    Associated(done, [f], Parsed(rest, known).0);
  }

  lemma ParsedNoMore(done: seq<Frame>, buf: seq<byte>, known: nat -> bool)
    requires !GoesOn(buf, known)
    ensures done + Parsed(buf, known).0 == done && Parsed(buf, known).1 == buf
  {
    assert done + [] == done;
  }

  lemma LookTakesAnEncoding(buf: seq<byte>)
    requires LookAt(buf).Got?
    ensures Sendable(LookAt(buf).frame) && buf == Encoded(LookAt(buf).frame) + LookAt(buf).rest
  {
    var l := Value(buf[4..]);
    ValueWord(buf);
    ValueWord(buf[4..]);
    assert buf == buf[..4] + buf[4..8] + buf[8..8 + l] + buf[8 + l..];
  }

  /** Nothing is lost or made up: the bytes of a buffer are the encodings of the frames delivered
      from it, followed by what is left; every delivered frame is one the writers could have sent and
      has a known tag. */
  lemma {:induction false} ParsedConserves(buf: seq<byte>, known: nat -> bool)
    ensures buf == EncodedAll(Parsed(buf, known).0) + Parsed(buf, known).1
    ensures forall f | f in Parsed(buf, known).0 :: Sendable(f) && known(f.tag)
    ensures !GoesOn(Parsed(buf, known).1, known)
    decreases |buf|
  {
    if GoesOn(buf, known) {
      LookTakesAnEncoding(buf);
      var Got(f, rest) := LookAt(buf);
      ParsedConserves(rest, known);
      var (fs, left) := Parsed(rest, known);
      assert ([f] + fs)[1..] == fs;
    }
  }

  /** The loop leaves less than a longest frame, unless it stopped at a bad one. */
  lemma LeftoverIsShort(buf: seq<byte>, known: nat -> bool)
    ensures var left := Parsed(buf, known).1;
            || |left| < MAX_LEN + 8
            || LookAt(left).TooLong?
            || (LookAt(left).Got? && !known(LookAt(left).frame.tag))
  {
    ParsedConserves(buf, known);
  }

  /** No ability of a client takes the frame, and it is not the login response. */
  predicate Unhandled(f: Frame, known: nat -> bool) {
    f.tag != RESPONSE_LOGIN && !known(f.tag)
  }

  predicate SomeUnhandled(fs: seq<Frame>, known: nat -> bool) {
    exists k | 0 <= k < |fs| :: Unhandled(fs[k], known)
  }

  lemma UnhandledSoFar(fs: seq<Frame>, f: Frame, known: nat -> bool)
    ensures SomeUnhandled(fs + [f], known) <==> SomeUnhandled(fs, known) || Unhandled(f, known)
  {
    var all := fs + [f];
    assert all[|fs|] == f;
    if k :| 0 <= k < |fs| && Unhandled(fs[k], known) {
      assert Unhandled(all[k], known);
    }
  }

  /** The scheduler refused one of the first `n` frames handed to it. */
  predicate SomeRefused(n: nat, takes: nat -> bool) {
    exists k | 0 <= k < n :: !takes(k)
  }

  lemma RefusedSoFar(n: nat, takes: nat -> bool)
    ensures SomeRefused(n + 1, takes) <==> SomeRefused(n, takes) || !takes(n)
  {
  }

  /** The receiving half of a connection: the server's, a viewer's or a guard's. */
  class FrameReader {
    const buffer: ByteBuffer

    constructor ()
      ensures fresh(buffer) && fresh(buffer.data) && buffer.Valid() && buffer.Contents() == []
    {
      assert MIN_CAPACITY < 0x8000_0000_0000_0000;
      hide *;
      var b := new ByteBuffer(MIN_CAPACITY);
      buffer := b;
    }

    /** The checks at the top of the loops, on the eight bytes of a header and the body's length. */
    method Peek() returns (look: Look)
      requires buffer.Valid()
      ensures look == LookAt(buffer.Contents())
    {
      var n := buffer.NumReadableBytes();
      if n < 8 {
        return NeedMore;
      }
      var bytes := buffer.data[buffer.readerIndex..buffer.writerIndex];
      var t, l := Value(bytes), Value(bytes[4..]);
      if l > MAX_LEN {
        return TooLong;
      }
      if n - 8 < l {
        return NeedMore;
      }
      look := Got(Frame(t, bytes[8..8 + l]), bytes[8 + l..]);
    }

    /** The server's loop: frames are handed on in order until the bytes run out, a length is out of
        bounds or a tag has no handler.  In the last two cases the connection is dropped, and also if
        the scheduler does not take one of the frames; `takes` says which of them it takes. */
    method HandleReceivedData(chunk: seq<byte>, known: nat -> bool, takes: nat -> bool)
      returns (frames: seq<Frame>, drop: bool)
      requires buffer.Valid()
      modifies buffer, buffer.data
      ensures buffer.Valid() && (buffer.data == old(buffer.data) || fresh(buffer.data))
      ensures (frames, buffer.Contents()) == Parsed(old(buffer.Contents()) + chunk, known)
      ensures drop <==> !LookAt(buffer.Contents()).NeedMore? || SomeRefused(|frames|, takes)
    {
      buffer.Write(chunk);
      hide *;
      frames, drop := DeliverKnown(known, takes);
    }

    method DeliverKnown(known: nat -> bool, takes: nat -> bool) returns (frames: seq<Frame>, drop: bool)
      requires buffer.Valid()
      modifies buffer`readerIndex, buffer`consumed, buffer`past
      ensures buffer.Valid()
      ensures (frames, buffer.Contents()) == Parsed(old(buffer.Contents()), known)
      ensures drop <==> !LookAt(buffer.Contents()).NeedMore? || SomeRefused(|frames|, takes)
    {
      hide LookAt, ByteBuffer.Valid;
      frames, drop := [], false;
      assert !SomeRefused(0, takes);
      ghost var all := buffer.Contents();
      assert [] + Parsed(all, known).0 == Parsed(all, known).0;
      hide Parsed, SomeRefused;
      while true
        invariant buffer.Valid()
        invariant Parsed(all, known).0 == frames + Parsed(buffer.Contents(), known).0
        invariant Parsed(all, known).1 == Parsed(buffer.Contents(), known).1
        invariant drop <==> SomeRefused(|frames|, takes)
        decreases |buffer.Contents()|
      {
        ghost var before := buffer.Contents();
        var look := NextKnown(known);
        if !look.Got? || !known(look.frame.tag) {
          ParsedNoMore(frames, before, known);
          return frames, drop || !look.NeedMore?;
        }
        if !takes(|frames|) {
          drop := true;
        }
        RefusedSoFar(|frames|, takes);
        ParsedOneMore(frames, before, known);
        frames := frames + [look.frame];
      }
    }

    /** A frame is looked at, and consumed if there is a whole one with a known tag. */
    method NextKnown(known: nat -> bool) returns (look: Look)
      requires buffer.Valid()
      modifies buffer`readerIndex, buffer`consumed, buffer`past
      ensures buffer.Valid() && look == LookAt(old(buffer.Contents()))
      ensures buffer.Contents() == if look.Got? && known(look.frame.tag) then look.rest else old(buffer.Contents())
    {
      look := Peek();
      if look.Got? && known(look.frame.tag) {
        Consume(look);
      }
    }

    /** The loop of a viewer and of a guard: a frame with a tag nobody handles drops the connection,
        but it is consumed and the loop goes on; only a length out of bounds stops it. */
    method HandleClientData(chunk: seq<byte>, known: nat -> bool) returns (frames: seq<Frame>, drop: bool)
      requires buffer.Valid()
      modifies buffer, buffer.data
      ensures buffer.Valid() && (buffer.data == old(buffer.data) || fresh(buffer.data))
      ensures (frames, buffer.Contents()) == Parsed(old(buffer.Contents()) + chunk, ANY_TAG)
      ensures drop <==> LookAt(buffer.Contents()).TooLong? || SomeUnhandled(frames, known)
    {
      buffer.Write(chunk);
      hide *;
      frames, drop := DeliverAll(known);
    }

    method DeliverAll(known: nat -> bool) returns (frames: seq<Frame>, drop: bool)
      requires buffer.Valid()
      modifies buffer`readerIndex, buffer`consumed, buffer`past
      ensures buffer.Valid()
      ensures (frames, buffer.Contents()) == Parsed(old(buffer.Contents()), ANY_TAG)
      ensures drop <==> LookAt(buffer.Contents()).TooLong? || SomeUnhandled(frames, known)
    {
      hide LookAt, ByteBuffer.Valid, Unhandled;
      frames, drop := [], false;
      assert !SomeUnhandled(frames, known);
      ghost var all := buffer.Contents();
      assert [] + Parsed(all, ANY_TAG).0 == Parsed(all, ANY_TAG).0;
      hide SomeUnhandled, Parsed;
      while true
        invariant buffer.Valid()
        invariant Parsed(all, ANY_TAG).0 == frames + Parsed(buffer.Contents(), ANY_TAG).0
        invariant Parsed(all, ANY_TAG).1 == Parsed(buffer.Contents(), ANY_TAG).1
        invariant drop <==> SomeUnhandled(frames, known)
        decreases |buffer.Contents()|
      {
        ghost var before := buffer.Contents();
        var look := Next();
        if !look.Got? {
          ParsedNoMore(frames, before, ANY_TAG);
          return frames, drop || look.TooLong?;
        }
        if Unhandled(look.frame, known) {
          drop := true;
        }
        UnhandledSoFar(frames, look.frame, known);
        ParsedOneMore(frames, before, ANY_TAG);
        frames := frames + [look.frame];
      }
    }

    /** A frame is looked at and consumed, if there is a whole one. */
    method Next() returns (look: Look)
      requires buffer.Valid()
      modifies buffer`readerIndex, buffer`consumed, buffer`past
      ensures buffer.Valid() && look == LookAt(old(buffer.Contents()))
      ensures buffer.Contents() == if look.Got? then look.rest else old(buffer.Contents())
    {
      look := Peek();
      if look.Got? {
        Consume(look);
      }
    }

    method Consume(look: Look)
      requires buffer.Valid() && look.Got? && look == LookAt(buffer.Contents())
      modifies buffer`readerIndex, buffer`consumed, buffer`past
      ensures buffer.Valid() && buffer.Contents() == look.rest
    {
      buffer.MoveReaderIndex(|look.frame.body| + 8);
    }
  }

  /** Overwrites `bytes` at `offset` from the front of what is readable. */
  method Patch(dst: ByteBuffer, offset: nat, bytes: seq<byte>)
    requires dst.Valid() && offset + |bytes| <= |dst.Contents()|
    modifies dst.data
    ensures dst.Valid()
    ensures dst.Contents() == old(dst.Contents())[..offset] + bytes + old(dst.Contents())[offset + |bytes|..]
  {
    forall i | 0 <= i < |bytes| {
      dst.data[dst.readerIndex + offset + i] := bytes[i];
    }
  }

  /** Overwrites the block of a buffer from `at` on, wherever its reader is. */
  method PatchBlock(dst: ByteBuffer, at: nat, bytes: seq<byte>)
    requires dst.Valid() && at + |bytes| <= dst.capacity
    modifies dst.data
    ensures dst.Valid() && |dst.Contents()| == |old(dst.Contents())|
    ensures forall i | 0 <= i < |dst.Contents()| ::
              dst.Contents()[i] == if at <= dst.readerIndex + i < at + |bytes| then bytes[dst.readerIndex + i - at]
                                   else old(dst.Contents())[i]
  {
    forall i | 0 <= i < |bytes| {
      dst.data[at + i] := bytes[i];
    }
  }

  /** A header and zeros in the place of the body. */
  method WriteHeader(tag: nat, n: nat, dst: ByteBuffer)
    requires dst.Valid()
    modifies dst, dst.data
    ensures dst.Valid() && (dst.data == old(dst.data) || fresh(dst.data))
    ensures dst.Contents() == old(dst.Contents()) + Word(tag) + Word(n) + seq(n, _ => 0)
    ensures old(dst.readerIndex) == 0 ==> dst.readerIndex == 0
  {
    hide ByteBuffer.Economical, ByteBuffer.Remembers, ByteBuffer.History, Word;
    dst.Write(Word(tag));
    dst.Write(Word(n));
    dst.Fill(0, n);
  }

  predicate AllZero(bytes: seq<byte>) {
    forall i | 0 <= i < |bytes| :: bytes[i] == 0
  }

  /** Of the bytes in front of the body those that lie where the plain macro puts it are zeros: `r` is where in
      the block they begin, and `n` how long the body is. */
  predicate ZeroBeneath(front: seq<byte>, r: nat, n: nat) {
    forall i | 0 <= i < |front| && 8 <= r + i < 8 + n :: front[i] == 0
  }

  /** The plain macro: header, zeros in the place of the body, then the body, from the ninth byte of the
      block on.  That is its place in a new buffer.  In any other the frame comes out right exactly when the
      body is all zeros, and so is all that it is written over. */
  method WrapPlain(tag: nat, body: seq<byte>, dst: ByteBuffer)
    requires dst.Valid()
    modifies dst, dst.data
    ensures dst.Valid() && (dst.data == old(dst.data) || fresh(dst.data))
    ensures old(dst.Contents()) == [] && old(dst.readerIndex) == 0 ==> dst.Contents() == Encoded(Frame(tag, body))
    ensures dst.Contents() == old(dst.Contents()) + Encoded(Frame(tag, body))
            <==> || |old(dst.Contents())| + dst.readerIndex == 0
                 || (&& AllZero(body)
                     && ZeroBeneath(old(dst.Contents()) + Word(tag) + Word(|body|), dst.readerIndex, |body|))
  {
    ghost var before := dst.Contents();
    WriteHeader(tag, |body|, dst);
    ghost var all, r := dst.Contents(), dst.readerIndex;
    PatchBlock(dst, 8, body);
    hide *;
    WrappedPlain(before, tag, body, all, r, dst.Contents());
  }

  lemma WrappedPlain(before: seq<byte>, tag: nat, body: seq<byte>, all: seq<byte>, r: nat, got: seq<byte>)
    requires all == before + Word(tag) + Word(|body|) + seq(|body|, _ => 0) && |got| == |all|
    requires forall i | 0 <= i < |all| :: got[i] == if 8 <= r + i < 8 + |body| then body[r + i - 8] else all[i]
    ensures before == [] && r == 0 ==> got == Encoded(Frame(tag, body))
    ensures got == before + Encoded(Frame(tag, body))
            <==> |before| + r == 0 || (AllZero(body) && ZeroBeneath(before + Word(tag) + Word(|body|), r, |body|))
  {
    hide Word, AllZero, ZeroBeneath;
    var front := before + Word(tag) + Word(|body|);
    assert before + Encoded(Frame(tag, body)) == front + body;
    if |before| + r == 0 || (AllZero(body) && ZeroBeneath(front, r, |body|)) {
      RightlyPatched(front, body, r, got);
    }
    if got == front + body && |before| + r > 0 {
      WronglyPatched(front, body, r, got);
    }
  }

  /** What the macro makes of the bytes in front of the body and of the zeros in its place. */
  ghost predicate Patched(front: seq<byte>, body: seq<byte>, r: nat, got: seq<byte>) {
    && |got| == |front| + |body|
    && (forall i | 0 <= i < |front| :: got[i] == if 8 <= r + i < 8 + |body| then body[r + i - 8] else front[i])
    && (forall i | |front| <= i < |got| :: got[i] == if 8 <= r + i < 8 + |body| then body[r + i - 8] else 0)
  }

  lemma RightlyPatched(front: seq<byte>, body: seq<byte>, r: nat, got: seq<byte>)
    requires Patched(front, body, r, got) && |front| >= 8
    requires r + |front| == 8 || (AllZero(body) && ZeroBeneath(front, r, |body|))
    ensures got == front + body
  {
  }

  lemma WronglyPatched(front: seq<byte>, body: seq<byte>, r: nat, got: seq<byte>)
    requires Patched(front, body, r, got) && |front| >= 8 && r + |front| > 8 && got == front + body
    ensures AllZero(body) && ZeroBeneath(front, r, |body|)
  {
    var d := r + |front| - 8;
    forall j | 0 <= j < |body|
      ensures body[j] == if d + j < |body| then body[d + j] else 0
    {
      assert got[|front| + j] == body[j];
    }
    ShiftedIsZero(body, d, 0);
    assert body[0..] == body;
    forall i | 0 <= i < |front| && 8 <= r + i < 8 + |body|
      ensures front[i] == 0
    {
      assert got[i] == body[r + i - 8];
    }
  }

  /** Bytes that are the same when they are shifted, and zeros shifted in, are zeros: the last are. */
  lemma {:induction false} ShiftedIsZero(bytes: seq<byte>, d: nat, from: nat)
    requires d > 0 && from <= |bytes|
    requires forall j | 0 <= j < |bytes| :: bytes[j] == if d + j < |bytes| then bytes[d + j] else 0
    ensures AllZero(bytes[from..])
    decreases |bytes| - from
  {
    if from < |bytes| {
      ShiftedIsZero(bytes, d, from + 1);
      if d + from < |bytes| {
        assert bytes[from + 1..][d - 1] == bytes[d + from];
      }
      assert bytes[from] == 0;
      forall i | 0 <= i < |bytes[from..]|
        ensures bytes[from..][i] == 0
      {
        if i > 0 {
          assert bytes[from..][i] == bytes[from + 1..][i - 1];
        }
      }
    }
  }

  /** The encrypting macro: the length is only known, and put in, once the cipher text is there.  It goes
      behind the first word of the buffer, which is the tag's in an empty one. */
  method WrapEncrypted(tag: nat, cipher: seq<byte>, dst: ByteBuffer)
    requires dst.Valid()
    modifies dst, dst.data
    ensures dst.Valid() && (dst.data == old(dst.data) || fresh(dst.data))
    ensures old(dst.Contents()) == [] ==> dst.Contents() == Encoded(Frame(tag, cipher))
    ensures var all := old(dst.Contents()) + Word(tag) + seq(4, _ => 0) + cipher;
            dst.Contents() == all[..4] + Word(|all| - 8) + all[8..]
  {
    ghost var before := dst.Contents();
    WriteUnsized(tag, cipher, dst);
    ghost var all := dst.Contents();
    var n := dst.NumReadableBytes();
    Patch(dst, 4, Word(n - 8));
    hide Word, ByteBuffer.Valid;
    if before == [] {
      var zeros := seq(4, _ => 0);
      assert all == Word(tag) + zeros + cipher;
      assert all[..4] == Word(tag) && all[8..] == cipher;
    }
  }

  /** The tag's word, zeros in the place of the length, and the cipher text. */
  method WriteUnsized(tag: nat, cipher: seq<byte>, dst: ByteBuffer)
    requires dst.Valid()
    modifies dst, dst.data
    ensures dst.Valid() && (dst.data == old(dst.data) || fresh(dst.data))
    ensures dst.Contents() == old(dst.Contents()) + Word(tag) + seq(4, _ => 0) + cipher
  {
    hide ByteBuffer.Valid, ByteBuffer.Economical, ByteBuffer.Remembers, ByteBuffer.History, ByteBuffer.Contents, Word;
    dst.Write(Word(tag));
    dst.Fill(0, 4);
    dst.Write(cipher);
  }

  /** The macro for a body that is already bytes, after whatever the buffer holds. */
  method WrapBytes(tag: nat, body: seq<byte>, dst: ByteBuffer)
    requires dst.Valid()
    modifies dst, dst.data
    ensures dst.Valid() && (dst.data == old(dst.data) || fresh(dst.data))
    ensures dst.Contents() == old(dst.Contents()) + Encoded(Frame(tag, body))
  {
    hide ByteBuffer.Economical, ByteBuffer.Remembers, ByteBuffer.History, Word;
    dst.Write(Word(tag));
    dst.Write(Word(|body|));
    dst.Write(body);
    assert dst.Contents() == old(dst.Contents()) + (Word(tag) + Word(|body|) + body);
  }
}
