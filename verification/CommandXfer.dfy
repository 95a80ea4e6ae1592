/**
 Cutting a byte stream into commands: the header/payload state machine both ends of the
 publish-subscribe socket use, and why the sizes of the reads do not matter.
 */
module CommandXfer {
  import opened Machine
  import opened Sequences
  import opened Memory
  import opened CommandCodec

  const BUF_LEN := 8192   // ATLAS_PUB_SUB_AGENT_BUF_LEN

  // ---------------------------------------------------------------- the state machine

  /** The bytes of the current command so far, the phase, and the bytes still to come in this phase. */
  datatype Xfer = Xfer(buf: Bytes, inHeader: bool, remaining: nat)

  const START := Xfer([], true, HEADER_LEN)

  /** One read of `chunk`: the next state and the command it completes, if any. */
  function Arrived(x: Xfer, chunk: Bytes): (Xfer, Option<Bytes>)
    requires |chunk| <= x.remaining
    requires x.inHeader && |chunk| == x.remaining ==> |x.buf| + |chunk| >= HEADER_LEN
  {
    var buf, left := x.buf + chunk, x.remaining - |chunk|;
    if x.inHeader && left == 0 then
      if DeclaredLen(buf) == 0 then (START, Some(buf)) else (Xfer(buf, false, DeclaredLen(buf)), None)
    else if !x.inHeader && left == 0 then (START, Some(buf))
    else (Xfer(buf, x.inHeader, left), None)
  }

  /** Every state between two reads. */
  predicate Between(x: Xfer)
  {
    && x.remaining > 0
    && if x.inHeader then |x.buf| + x.remaining == HEADER_LEN
       else |x.buf| >= HEADER_LEN && |x.buf| + x.remaining == HEADER_LEN + DeclaredLen(x.buf)
  }

  /** A read of at most the remaining length stays inside the buffer. */
  predicate InBounds(x: Xfer)
  {
    |x.buf| + x.remaining <= BUF_LEN
  }

  // ---------------------------------------------------------------- the reference: cutting the whole stream

  /** The complete commands at the start of the stream, as byte strings. */
  function Frames(b: Bytes): seq<Bytes>
  {
    if Complete(b) then [b[..HEADER_LEN + DeclaredLen(b)]] + Frames(AfterFirst(b)) else []
  }

  function Concat(bs: seq<Bytes>): Bytes
  {
    if bs == [] then [] else Concat(bs[..|bs| - 1]) + bs[|bs| - 1]
  }

  lemma {:induction false} CompleteExtends(b: Bytes, c: Bytes)
    requires Complete(b)
    ensures Complete(b + c) && DeclaredLen(b + c) == DeclaredLen(b)
    ensures AfterFirst(b + c) == AfterFirst(b) + c
    ensures (b + c)[..HEADER_LEN + DeclaredLen(b)] == b[..HEADER_LEN + DeclaredLen(b)]
  {
  }

  /** Cutting `b + c` is cutting `b`, then what `b` left together with `c`. */
  lemma {:induction false} CutConcat(b: Bytes, c: Bytes)
    ensures Frames(b + c) == Frames(b) + Frames(Rest(b) + c)
    ensures Rest(b + c) == Rest(Rest(b) + c)
    decreases |b|
  {
    if Complete(b) {
      CompleteExtends(b, c);
      CutConcat(AfterFirst(b), c);
      Assoc([b[..HEADER_LEN + DeclaredLen(b)]], Frames(AfterFirst(b)), Frames(Rest(AfterFirst(b)) + c));
    } else {
      assert Frames(b) + Frames(b + c) == Frames(b + c);
    }
  }

  /** One read cuts exactly what the reference cuts from the partial command and the new bytes. */
  lemma {:induction false} ArrivedCuts(x: Xfer, chunk: Bytes)
    requires Between(x) && |chunk| <= x.remaining
    ensures var r := Arrived(x, chunk);
            && Between(r.0)
            && r.0.buf == Rest(x.buf + chunk)
            && Frames(x.buf + chunk) == if r.1.Some? then [r.1.value] else []
  {
    var buf := x.buf + chunk;
    assert !x.inHeader ==> DeclaredLen(buf) == DeclaredLen(x.buf);
    if Complete(buf) {
      assert |buf| == HEADER_LEN + DeclaredLen(buf);
      assert AfterFirst(buf) == [] && buf[..HEADER_LEN + DeclaredLen(buf)] == buf;
      assert Rest([]) == [] && Frames([]) == [];
    }
  }

  // ---------------------------------------------------------------- whole runs

  /** The reads respect the remaining length the state machine asks for. */
  predicate ValidReads(chunks: seq<Bytes>)
    decreases |chunks|, 0
  {
    chunks != [] ==>
      var init, last := chunks[..|chunks| - 1], chunks[|chunks| - 1];
      ValidReads(init) && |last| <= Feed(init).0.remaining
  }

  /** All reads from the start: the last state and the commands delivered, in order. */
  function Feed(chunks: seq<Bytes>): (r: (Xfer, seq<Bytes>))
    requires ValidReads(chunks)
    ensures Between(r.0)
    decreases |chunks|, 1
  {
    if chunks == [] then (START, [])
    else
      var init, last := chunks[..|chunks| - 1], chunks[|chunks| - 1];
      var before := Feed(init);
      ArrivedCuts(before.0, last);
      var r := Arrived(before.0, last);
      (r.0, before.1 + if r.1.Some? then [r.1.value] else [])
  }

  /**
   Chunking independence: however the stream is split into reads, exactly its complete commands are
   delivered, once each and in order, and the buffer holds exactly the incomplete rest.
   */
  lemma {:induction false} ChunkingIndependence(chunks: seq<Bytes>)
    requires ValidReads(chunks)
    ensures Feed(chunks).1 == Frames(Concat(chunks))
    ensures Feed(chunks).0.buf == Rest(Concat(chunks))
  {
    if chunks != [] {
      var init, last := chunks[..|chunks| - 1], chunks[|chunks| - 1];
      ChunkingIndependence(init);
      ArrivedCuts(Feed(init).0, last);
      CutConcat(Concat(init), last);
    }
  }

  lemma {:induction false} ConcatCons(b: Bytes, bs: seq<Bytes>)
    ensures Concat([b] + bs) == b + Concat(bs)
  {
    if bs == [] {
      assert [b] + bs == [b] && [b][..0] == [];
      Empty(b);
    } else {
      var init, last := bs[..|bs| - 1], bs[|bs| - 1];
      ConcatCons(b, init);
      assert ([b] + bs)[..|bs|] == [b] + init;
      Assoc(b, Concat(init), last);
    }
  }

  lemma {:induction false} FramesCover(b: Bytes)
    ensures Concat(Frames(b)) + Rest(b) == b
    decreases |b|
  {
    if Complete(b) {
      var k := HEADER_LEN + DeclaredLen(b);
      Rejoin(b, k);
      hide Concat, Complete, DeclaredLen;
      FramesCover(AfterFirst(b));
      ConcatCons(b[..k], Frames(AfterFirst(b)));
      Assoc(b[..k], Concat(Frames(AfterFirst(b))), Rest(AfterFirst(b)));
    } else {
      Empty(b);
    }
  }

  /** No byte is lost: what was delivered, followed by the partial command, is what was received. */
  lemma {:induction false} BytesConserved(chunks: seq<Bytes>)
    requires ValidReads(chunks)
    ensures Concat(Feed(chunks).1) + Feed(chunks).0.buf == Concat(chunks)
  {
    ChunkingIndependence(chunks);
    FramesCover(Concat(chunks));
  }

  /** Every command delivered is one complete command: its header declares its size. */
  lemma {:induction false} FramesWhole(b: Bytes, i: nat)
    requires i < |Frames(b)|
    ensures |Frames(b)[i]| >= HEADER_LEN && |Frames(b)[i]| == HEADER_LEN + DeclaredLen(Frames(b)[i])
    decreases |b|
  {
    if i > 0 { FramesWhole(AfterFirst(b), i - 1); }
  }

  // ---------------------------------------------------------------- the buffer bound

  ghost predicate AlwaysInBounds(chunks: seq<Bytes>)
    requires ValidReads(chunks)
  {
    InBounds(Feed(chunks).0) && (chunks != [] ==> AlwaysInBounds(chunks[..|chunks| - 1]))
  }

  predicate HeaderFits(b: Bytes)
  {
    |b| >= HEADER_LEN ==> HEADER_LEN + DeclaredLen(b) <= BUF_LEN
  }

  ghost predicate AllHeadersFit(fs: seq<Bytes>)
  {
    forall i :: 0 <= i < |fs| ==> HeaderFits(fs[i])
  }

  /** No header in the stream, not even of the last, partial command, declares more than 8188 bytes. */
  ghost predicate HeadersFit(b: Bytes)
  {
    AllHeadersFit(Frames(b)) && HeaderFits(Rest(b))
  }

  /** One read keeps within bounds exactly when no header it completes is too large. */
  lemma {:induction false} ArrivedBounds(x: Xfer, chunk: Bytes)
    requires Between(x) && InBounds(x) && |chunk| <= x.remaining
    ensures var r := Arrived(x, chunk);
            && (InBounds(r.0) <==> HeaderFits(r.0.buf))
            && (r.1.Some? ==> HeaderFits(r.1.value))
  {
    var buf := x.buf + chunk;
    assert !x.inHeader ==> DeclaredLen(buf) == DeclaredLen(x.buf);
  }

  /** A header that is too large is still there after the next read, in a command or in the rest. */
  lemma {:induction false} LargeHeaderStays(b: Bytes, c: Bytes)
    requires !HeaderFits(b) && !Complete(b)
    ensures Frames(b + c) == [] ==> !HeaderFits(Rest(b + c))
    ensures Frames(b + c) != [] ==> !HeaderFits(Frames(b + c)[0])
  {
    assert DeclaredLen(b + c) == DeclaredLen(b);
  }

  /** The headers of a stream that grows by one read. */
  lemma {:induction false} HeadersGrow(b: Bytes, c: Bytes)
    ensures HeadersFit(b + c) <==> AllHeadersFit(Frames(b)) && HeadersFit(Rest(b) + c)
    ensures HeadersFit(b + c) ==> HeadersFit(b)
  {
    CutConcat(b, c);
    var f, g := Frames(b), Frames(Rest(b) + c);
    assert forall i :: 0 <= i < |f| ==> (f + g)[i] == f[i];
    assert forall i :: 0 <= i < |g| ==> (f + g)[|f| + i] == g[i];
    if !HeaderFits(Rest(b)) {
      RestIncomplete(b);
      LargeHeaderStays(Rest(b), c);
    }
  }

  /**
   The 8192-byte buffer is never overrun by a read of the remaining length if and only if no header
   received declares a payload of more than 8188 bytes.
   */
  lemma {:induction false} BoundsExact(chunks: seq<Bytes>)
    requires ValidReads(chunks)
    ensures AlwaysInBounds(chunks) <==> HeadersFit(Concat(chunks))
  {
    if chunks != [] {
      var init, last := chunks[..|chunks| - 1], chunks[|chunks| - 1];
      var x := Feed(init).0;
      BoundsExact(init);
      HeadersGrow(Concat(init), last);
      if AlwaysInBounds(init) {
        assert x.buf == Rest(Concat(init)) by { ChunkingIndependence(init); }
        ArrivedCuts(x, last);
        ArrivedBounds(x, last);
      }
    }
  }

  // ---------------------------------------------------------------- the object

  class CommandTransfer {
    const data: array<u8>
    var inHeader: bool
    var cmdLen: nat
    var remainingLen: nat

    ghost predicate Valid()
      reads this, data
    {
      && data.Length == BUF_LEN && cmdLen <= BUF_LEN
      && Between(Abs())
    }

    ghost function Abs(): Xfer
      requires data.Length == BUF_LEN && cmdLen <= BUF_LEN
      reads this, data
    {
      Xfer(data[..cmdLen], inHeader, remainingLen)
    }

    constructor ()
      ensures Valid() && fresh(data) && Abs() == START
    {
      data := new u8[BUF_LEN](_ => 0);
      inHeader, cmdLen, remainingLen := true, 0, HEADER_LEN;
    }

    method Init()
      requires data.Length == BUF_LEN
      modifies this
      ensures Valid() && Abs() == START
    {
      inHeader := true;
      cmdLen := 0;
      remainingLen := HEADER_LEN;
    }

    /** handleArrivedData, after `n` bytes have been read to the read position. */
    method HandleArrivedData(n: nat)
      requires data.Length == BUF_LEN && n <= remainingLen && cmdLen + n <= BUF_LEN
      requires inHeader ==> cmdLen + remainingLen == HEADER_LEN
      modifies this
      ensures cmdLen == old(cmdLen) + n
      ensures if old(inHeader) && n == old(remainingLen)
              then !inHeader && remainingLen == U16(data[2], data[3])
              else inHeader == old(inHeader) && remainingLen == old(remainingLen) - n
    {
      remainingLen := remainingLen - n;
      cmdLen := cmdLen + n;
      if inHeader && remainingLen == 0 {
        remainingLen := U16(data[2], data[3]);
        inHeader := false;
      }
    }

    /**
     handleRead: the socket has put `chunk` at the read position; run the state machine and hand out
     the command if it is complete.
     */
    method HandleRead(chunk: Bytes) returns (cmd: Option<Bytes>)
      requires Valid() && InBounds(Abs()) && |chunk| <= remainingLen
      modifies this, data
      ensures Valid()
      ensures (Abs(), cmd) == Arrived(old(Abs()), chunk)
    {
      ghost var x := Abs();
      Memcpy(data, cmdLen, chunk);
      assert data[..cmdLen + |chunk|] == x.buf + chunk;
      HandleArrivedData(|chunk|);
      ArrivedCuts(x, chunk);
      if !inHeader && remainingLen == 0 {
        cmd := Some(data[..cmdLen]);
        Init();
      } else {
        cmd := None;
      }
    }
  }
}
