/**
 The C client's command batch: a growing byte buffer, a validator, and an iterator that swaps the
 header of each command from network to host order inside the buffer when it first reaches it.
 The host is little-endian, so the swap exchanges the two bytes of each header field.
 */
module ClientCodec {
  import opened Machine
  import opened Sequences
  import opened Memory
  import opened CommandCodec

  datatype Status = AtlasOk | InvalidInput | CorruptedCommand

  // ---------------------------------------------------------------- host order

  function HostRead(b0: u8, b1: u8): u16
  {
    U16(b1, b0)
  }

  function HostEncode(c: Tlv): (b: Bytes)
    requires Fits(c)
    ensures |b| == HEADER_LEN + |c.val|
  {
    [c.typ % 256, c.typ / 256, |c.val| % 256, |c.val| / 256] + c.val
  }

  /** A batch after the iterator has passed over it. */
  function HostSerialize(cs: seq<Tlv>): Bytes
    requires AllFit(cs)
  {
    if cs == [] then [] else HostSerialize(cs[..|cs| - 1]) + HostEncode(cs[|cs| - 1])
  }

  /** A batch of which the iterator has passed over the first `k` commands. */
  function Walked(cs: seq<Tlv>, k: nat): Bytes
    requires AllFit(cs) && k <= |cs|
  {
    HostSerialize(cs[..k]) + Serialize(cs[k..])
  }

  function Offset(cs: seq<Tlv>, k: nat): nat
    requires AllFit(cs) && k <= |cs|
  {
    |HostSerialize(cs[..k])|
  }

  lemma {:induction false} HostLength(cs: seq<Tlv>)
    requires AllFit(cs)
    ensures |HostSerialize(cs)| == |Serialize(cs)|
  {
    if cs != [] {
      var init, last := cs[..|cs| - 1], cs[|cs| - 1];
      HostLength(init);
      SerializeAppend(init, last);
      assert init + [last] == cs;
    }
  }

  /** The buffer around the command the iterator reaches next. */
  lemma {:induction false} NextCommand(cs: seq<Tlv>, k: nat)
    requires AllFit(cs) && k < |cs|
    ensures Walked(cs, k) == HostSerialize(cs[..k]) + Encode(cs[k]) + Serialize(cs[k + 1..])
    ensures Walked(cs, k + 1) == HostSerialize(cs[..k]) + HostEncode(cs[k]) + Serialize(cs[k + 1..])
    ensures Offset(cs, k + 1) == Offset(cs, k) + HEADER_LEN + |cs[k].val|
  {
    assert cs[k..] == [cs[k]] + cs[k + 1..];
    SerializeCons(cs[k], cs[k + 1..]);
    assert cs[..k + 1][..k] == cs[..k];
    assert HostSerialize(cs[..k + 1]) == HostSerialize(cs[..k]) + HostEncode(cs[k]);
    Assoc(HostSerialize(cs[..k]), Encode(cs[k]), Serialize(cs[k + 1..]));
  }

  /** The iterator is at the end exactly after the last command. */
  lemma {:induction false} OffsetEnd(cs: seq<Tlv>, k: nat)
    requires AllFit(cs) && k <= |cs|
    ensures |Walked(cs, k)| == |Serialize(cs)|
    ensures Offset(cs, k) >= |Serialize(cs)| <==> k == |cs|
  {
    assert cs[..k] + cs[k..] == cs;
    SerializeConcat(cs[..k], cs[k..]);
    HostLength(cs[..k]);
  }

  /** Swapping the two header fields at position `p`. */
  function SwapHeader(b: Bytes, p: nat): Bytes
    requires p + HEADER_LEN <= |b|
  {
    Splice(b, p, [b[p + 1], b[p], b[p + 3], b[p + 2]])
  }

  lemma {:induction false} SwapMiddle(a: Bytes, c: Tlv, z: Bytes)
    requires Fits(c)
    ensures SwapHeader(a + Encode(c) + z, |a|) == a + HostEncode(c) + z
  {
    var b := a + Encode(c) + z;
    var p := |a|;
    assert b[p] == c.typ / 256 && b[p + 1] == c.typ % 256 && b[p + 2] == |c.val| / 256 && b[p + 3] == |c.val| % 256;
    assert b[..p] == a;
    assert b[p + HEADER_LEN..] == c.val + z;
    var h := [c.typ % 256, c.typ / 256, |c.val| % 256, |c.val| / 256];
    assert a + h + (c.val + z) == a + (h + c.val) + z;
  }

  lemma {:induction false} SwapNext(cs: seq<Tlv>, k: nat)
    requires AllFit(cs) && k < |cs|
    ensures Offset(cs, k) + HEADER_LEN + |cs[k].val| <= |Walked(cs, k)|
    ensures SwapHeader(Walked(cs, k), Offset(cs, k)) == Walked(cs, k + 1)
  {
    NextCommand(cs, k);
    SwapMiddle(HostSerialize(cs[..k]), cs[k], Serialize(cs[k + 1..]));
  }

  /** What a caller reads through the struct of a command the iterator has passed over. */
  lemma {:induction false} ReadBack(cs: seq<Tlv>, k: nat)
    requires AllFit(cs) && k < |cs|
    ensures var b, p := Walked(cs, k + 1), Offset(cs, k);
            && p + HEADER_LEN + |cs[k].val| <= |b|
            && HostRead(b[p], b[p + 1]) == cs[k].typ
            && HostRead(b[p + 2], b[p + 3]) == |cs[k].val|
            && b[p + HEADER_LEN..p + HEADER_LEN + |cs[k].val|] == cs[k].val
  {
    NextCommand(cs, k);
    var a, z, c := HostSerialize(cs[..k]), Serialize(cs[k + 1..]), cs[k];
    var b := a + HostEncode(c) + z;
    assert b[|a|] == c.typ % 256 && b[|a| + 1] == c.typ / 256;
    assert b[|a| + 2] == |c.val| % 256 && b[|a| + 3] == |c.val| / 256;
    assert b[|a| + HEADER_LEN..|a| + HEADER_LEN + |c.val|] == c.val;
  }

  // ---------------------------------------------------------------- walks

  /** What a caller reads of a command: its type and length, through the struct. */
  datatype Header = Header(typ: u16, len: u16)

  function HeaderAt(b: Bytes, p: nat): Header
    requires p + HEADER_LEN <= |b|
  {
    Header(HostRead(b[p], b[p + 1]), HostRead(b[p + 2], b[p + 3]))
  }

  /**
   A walk of the iterator over any buffer, from position `p` on: the headers the caller reads, each after
   the swap in place, jumping by the lengths read; and whether every header was inside the buffer.
   */
  function Visit(b: Bytes, p: nat): (seq<Header>, bool)
    decreases |b| - p
  {
    if p >= |b| then ([], true)
    else if p + HEADER_LEN > |b| then ([], false)
    else
      var c := SwapHeader(b, p);
      var h := HeaderAt(c, p);
      var rest := Visit(c, p + HEADER_LEN + h.len);
      ([h] + rest.0, rest.1)
  }

  function Headers(cs: seq<Tlv>): seq<Header>
    requires AllFit(cs)
  {
    if cs == [] then [] else [Header(cs[0].typ, |cs[0].val|)] + Headers(cs[1..])
  }

  /** The walk does not look at what is before its position. */
  lemma {:induction false} VisitSuffix(a: Bytes, z: Bytes)
    ensures Visit(a + z, |a|) == Visit(z, 0)
    decreases |z|
  {
    hide SwapHeader, HeaderAt;
    if |z| >= HEADER_LEN {
      var c := SwapHeader(z, 0);
      SwapSuffix(a, z);
      var k := HEADER_LEN + HeaderAt(c, 0).len;
      if k <= |c| {
        VisitSuffix(a + c[..k], c[k..]);
        VisitSuffix(c[..k], c[k..]);
        Rejoin(c, k);
        Assoc(a, c[..k], c[k..]);
      }
    }
  }

  lemma {:induction false} SwapSuffix(a: Bytes, z: Bytes)
    requires |z| >= HEADER_LEN
    ensures |SwapHeader(z, 0)| == |z| && SwapHeader(a + z, |a|) == a + SwapHeader(z, 0)
    ensures HeaderAt(a + SwapHeader(z, 0), |a|) == HeaderAt(SwapHeader(z, 0), 0)
  {
  }

  /** One command of the walk: the header read, and where it goes on. */
  lemma {:induction false} VisitCons(b: Bytes, h: Header)
    requires |b| >= HEADER_LEN && HeaderAt(SwapHeader(b, 0), 0) == h && HEADER_LEN + h.len <= |b|
    ensures Visit(b, 0) == ([h] + Visit(b[HEADER_LEN + h.len..], 0).0, Visit(b[HEADER_LEN + h.len..], 0).1)
  {
    var c, k := SwapHeader(b, 0), HEADER_LEN + h.len;
    assert c[..k] + c[k..] == c && c[k..] == b[k..];
    VisitSuffix(c[..k], c[k..]);
  }

  /** The first walk over a batch reads its headers. */
  lemma {:induction false} FirstWalk(cs: seq<Tlv>)
    requires AllFit(cs)
    ensures Visit(Serialize(cs), 0) == (Headers(cs), true)
  {
    if cs != [] {
      var c, t := cs[0], Serialize(cs[1..]);
      var b := Encode(c) + t;
      FirstWalk(cs[1..]);
      assert b[0] == c.typ / 256 && b[1] == c.typ % 256 && b[2] == |c.val| / 256 && b[3] == |c.val| % 256;
      VisitCons(b, Header(c.typ, |c.val|));
      assert b[HEADER_LEN + |c.val|..] == t;
    }
  }

  lemma {:induction false} HostCons(c: Tlv, cs: seq<Tlv>)
    requires Fits(c) && AllFit(cs)
    ensures AllFit([c] + cs) && HostSerialize([c] + cs) == HostEncode(c) + HostSerialize(cs)
  {
    hide HostEncode;
    if cs == [] {
      Empty([c]);
      assert [c][..0] == [];
      Empty(HostEncode(c));
    } else {
      var init, last := cs[..|cs| - 1], cs[|cs| - 1];
      HostCons(c, init);
      assert ([c] + cs)[..|cs|] == [c] + init;
      Assoc(HostEncode(c), HostSerialize(init), HostEncode(last));
    }
  }

  /** Both bytes of the number are the same, so exchanging them changes nothing. */
  predicate Symmetric(n: u16)
  {
    n / 256 == n % 256
  }

  ghost predicate AllSymmetric(cs: seq<Tlv>)
    requires AllFit(cs)
  {
    forall i :: 0 <= i < |cs| ==> Symmetric(cs[i].typ) && Symmetric(|cs[i].val|)
  }

  /** What a walk reads at the start of a batch that has been walked before. */
  lemma {:induction false} SwappedBack(c: Tlv, t: Bytes)
    requires Fits(c)
    ensures HeaderAt(SwapHeader(HostEncode(c) + t, 0), 0) ==
            Header(U16(c.typ % 256, c.typ / 256), U16(|c.val| % 256, |c.val| / 256))
    ensures HeaderAt(SwapHeader(HostEncode(c) + t, 0), 0) == Header(c.typ, |c.val|)
       <==> Symmetric(c.typ) && Symmetric(|c.val|)
  {
    var b := HostEncode(c) + t;
    assert b[0] == c.typ % 256 && b[1] == c.typ / 256 && b[2] == |c.val| % 256 && b[3] == |c.val| / 256;
    ExchangeExact(c.typ);
    ExchangeExact(|c.val|);
  }

  lemma ExchangeExact(n: u16)
    ensures U16(n % 256, n / 256) == n <==> Symmetric(n)
  {
  }

  /**
   The iterator is right for one walk only: a second walk over the same batch reads its headers if and
   only if the two bytes of every type and every length are equal.
   */
  lemma {:induction false} SecondWalk(cs: seq<Tlv>)
    requires AllFit(cs)
    ensures Visit(HostSerialize(cs), 0) == (Headers(cs), true) <==> AllSymmetric(cs)
  {
    if cs != [] {
      var c, t := cs[0], HostSerialize(cs[1..]);
      assert [c] + cs[1..] == cs;
      hide HostSerialize, HostEncode, SwapHeader, HeaderAt, Symmetric, Visit;
      HostCons(c, cs[1..]);
      SecondWalk(cs[1..]);
      SymmetricCons(cs);
      FirstOfSecond(c, t, Headers(cs[1..]));
    }
  }

  /** The second walk gets through the first command if and only if that command is symmetric. */
  lemma {:induction false} FirstOfSecond(c: Tlv, t: Bytes, hs: seq<Header>)
    requires Fits(c)
    ensures Visit(HostEncode(c) + t, 0) == ([Header(c.typ, |c.val|)] + hs, true)
       <==> Symmetric(c.typ) && Symmetric(|c.val|) && Visit(t, 0) == (hs, true)
  {
    var b, h := HostEncode(c) + t, Header(c.typ, |c.val|);
    SwappedBack(c, t);
    if HeaderAt(SwapHeader(b, 0), 0) == h {
      assert b[HEADER_LEN + h.len..] == t;
      hide Visit, SwapHeader, HeaderAt, HostEncode, Symmetric;
      VisitCons(b, h);
      ConsEqual(h, Visit(t, 0).0, hs);
    } else {
      assert Visit(b, 0).0[0] != h;
      assert ([h] + hs)[0] == h;
    }
  }

  lemma {:induction false} SymmetricCons(cs: seq<Tlv>)
    requires AllFit(cs) && cs != []
    ensures AllSymmetric(cs) <==> Symmetric(cs[0].typ) && Symmetric(|cs[0].val|) && AllSymmetric(cs[1..])
  {
    if AllSymmetric(cs[1..]) {
      forall i | 1 <= i < |cs| ensures Symmetric(cs[i].typ) && Symmetric(|cs[i].val|) {
        assert cs[i] == cs[1..][i - 1];
      }
    }
  }

  lemma {:induction false} SecondWalkOne(typ: u16)
    ensures Visit(HostSerialize([Tlv(typ, [])]), 0) == ([Header(U16(typ % 256, typ / 256), 0)], true)
  {
    var c := Tlv(typ, []);
    var h := Header(U16(typ % 256, typ / 256), 0);
    HostCons(c, []);
    Empty([c]);
    SwappedBack(c, []);
    Empty(HostEncode(c));
    VisitCons(HostEncode(c), h);
    assert HostEncode(c)[HEADER_LEN..] == [];
    assert Visit([], 0) == ([], true);
    Empty([h]);
  }

  /** A failing batch: type 1000 with an empty value is read as type 59395 the second time. */
  lemma {:induction false} SecondWalkExample()
    ensures Visit(HostSerialize([Tlv(1000, [])]), 0) == ([Header(59395, 0)], true)
  {
    SecondWalkOne(1000);
  }

  // ---------------------------------------------------------------- the batch object

  /** The 16-bit length wraps, and with it the size of the reallocated buffer. */
  function NewLength(length: u16, valueLen: u16): u16
  {
    (length + HEADER_LEN + valueLen) % 0x1_0000
  }

  /** The command fits into the reallocated buffer exactly when the length does not wrap. */
  lemma AddInBounds(length: u16, valueLen: u16)
    ensures length + HEADER_LEN + valueLen <= NewLength(length, valueLen) <==> length + HEADER_LEN + valueLen < 0x1_0000
  {
  }

  /** One command can fill the batch; after it, the next one is written behind a buffer of three bytes. */
  lemma {:induction false} AddOverflowExample(c: Tlv)
    requires |c.val| == 65531
    ensures |Serialize([c])| == 65535 && NewLength(65535, 0) == 3
  {
    SerializeOne(c);
  }

  class ClientBatch {
    var buf: array?<u8>
    var length: u16

    ghost predicate Valid()
      reads this
    {
      length == if buf == null then 0 else buf.Length
    }

    ghost function Contents(): Bytes
      requires Valid()
      reads this, buf
    {
      if buf == null then [] else buf[..]
    }

    constructor ()
      ensures Valid() && buf == null && Contents() == []
    {
      length, buf := 0, null;
    }

    /** atlas_cmd_batch_add, on the condition of `AddInBounds`. */
    method Add(typ: u16, value: Bytes)
      requires Valid() && length + HEADER_LEN + |value| < 0x1_0000
      modifies this
      ensures Valid() && buf != null && fresh(buf)
      ensures Contents() == old(Contents()) + Encode(Tlv(typ, value))
    {
      var newLen := NewLength(length, |value|);
      var grown := Realloc(buf, newLen);
      assert grown[..length] == Contents();
      WriteCommand(grown, length, typ, value);
      buf, length := grown, newLen;
    }

    /** atlas_cmd_batch_set_raw: walk the headers; copy the buffer only if it ends with a command. */
    method SetRaw(raw: Option<Bytes>) returns (status: Status)
      requires Valid()
      requires raw.Some? ==> |raw.value| < 0x1_0000
      modifies this
      ensures Valid()
      ensures status == InvalidInput <==> raw.None? || raw.value == []
      ensures raw.Some? && raw.value != [] ==> (status == AtlasOk <==> Rest(raw.value) == [])
      ensures status == AtlasOk ==> buf != null && fresh(buf) && Contents() == raw.value
      ensures status != AtlasOk ==> buf == old(buf) && length == old(length)
    {
      if raw.None? || |raw.value| == 0 {
        return InvalidInput;
      }
      var b := raw.value;
      var valid := ValidateBuffer(b);
      if !valid {
        return CorruptedCommand;
      }
      var copy := new u8[|b|](i requires 0 <= i < |b| => b[i]);
      assert copy[..] == b;
      buf, length := copy, |b|;
      return AtlasOk;
    }

    /**
     atlas_cmd_batch_get, over any buffer: from the start, or behind the current command by the length its
     header holds now.  All it asks is that the header it goes to is inside the buffer.
     */
    method Get(current: Option<nat>) returns (cmd: Option<nat>)
      requires Valid() && buf != null && (current.Some? ==> current.value + HEADER_LEN <= buf.Length)
      requires NextAt(Contents(), current) >= buf.Length ==> current.Some?
      requires NextAt(Contents(), current) < buf.Length ==> NextAt(Contents(), current) + HEADER_LEN <= buf.Length
      modifies buf
      ensures var b, p := old(Contents()), NextAt(old(Contents()), current);
              if p >= |b| then cmd.None? && Contents() == b
              else cmd == Some(p) && Contents() == SwapHeader(b, p)
    {
      var p := 0;
      if current.Some? {
        p := current.value + HEADER_LEN + HostRead(buf[current.value + 2], buf[current.value + 3]);
        if p >= length {
          return None;
        }
      }
      SwapInPlace(buf, p);
      return Some(p);
    }

    /** The loop of a caller, over any buffer whose headers stay inside it: first, second or later walk. */
    method ReadHeaders() returns (hs: seq<Header>)
      requires Valid() && buf != null && length > 0 && Visit(Contents(), 0).1
      modifies buf
      ensures hs == Visit(old(Contents()), 0).0
    {
      hide Visit, StillToRead, SwapHeader;
      ghost var all := Visit(Contents(), 0).0;
      hs := [];
      Empty(all);
      VisitStep(Contents(), 0, hs, all);
      var cmd := Get(None);
      while cmd.Some?
        invariant cmd.None? ==> hs == all
        invariant cmd.Some? ==> StillToRead(Contents(), cmd.value, hs, all)
        decreases if cmd.Some? then length - cmd.value else -1
      {
        ReadOn(Contents(), cmd.value, hs, all);
        var p := cmd.value;
        hs := hs + [Header(HostRead(buf[p], buf[p + 1]), HostRead(buf[p + 2], buf[p + 3]))];
        cmd := Get(cmd);
      }
    }

    /** The loop every caller of the iterator runs: one walk, reading each command it gets. */
    method Walk(ghost cs: seq<Tlv>) returns (out: seq<Tlv>)
      requires Valid() && AllFit(cs) && cs != []
      requires buf != null && Contents() == Serialize(cs)
      modifies buf
      ensures out == cs
      ensures Contents() == HostSerialize(cs)
    {
      hide Serialize, HostSerialize, SwapHeader, HeaderAt, Walked, Offset;
      WalkedEnds(cs);
      out := [];
      ghost var k := 0;
      IteratorStarts(cs);
      var cmd := Get(None);
      while cmd.Some?
        invariant k <= |cs| && out == cs[..k]
        invariant IteratorAt(Contents(), cmd, cs, k)
        decreases |cs| - k, if cmd.Some? then 1 else 0
      {
        var c := ReadCommand(buf, cmd.value, cs, k);
        out := out + [c];
        TakeNext(cs, k);
        IteratorNext(cs, k);
        cmd := Get(cmd);
        k := k + 1;
      }
      TakeDrop(cs);
    }
  }

  /** The command at `p` has just been returned; reading it and walking on gives the rest of `all`. */
  ghost predicate StillToRead(b: Bytes, p: nat, hs: seq<Header>, all: seq<Header>)
  {
    && p + HEADER_LEN <= |b|
    && var rest := Visit(b, p + HEADER_LEN + HeaderAt(b, p).len);
       rest.1 && (hs + [HeaderAt(b, p)]) + rest.0 == all
  }

  lemma {:induction false} VisitStep(b: Bytes, p: nat, hs: seq<Header>, all: seq<Header>)
    requires p < |b| && Visit(b, p).1 && hs + Visit(b, p).0 == all
    ensures p + HEADER_LEN <= |b| && StillToRead(SwapHeader(b, p), p, hs, all)
  {
    hide SwapHeader, HeaderAt;
    var c := SwapHeader(b, p);
    assert |c| == |b| by { SwapLength(b, p); }
    Assoc(hs, [HeaderAt(c, p)], Visit(c, p + HEADER_LEN + HeaderAt(c, p).len).0);
  }

  lemma {:induction false} SwapLength(b: Bytes, p: nat)
    requires p + HEADER_LEN <= |b|
    ensures |SwapHeader(b, p)| == |b|
  {
  }

  /** Read the command at `p` and go on to the next one. */
  lemma {:induction false} ReadOn(b: Bytes, p: nat, hs: seq<Header>, all: seq<Header>)
    requires StillToRead(b, p, hs, all)
    ensures p + HEADER_LEN <= |b|
    ensures var q, read := NextAt(b, Some(p)), hs + [HeaderAt(b, p)];
            if q >= |b| then read == all
            else q + HEADER_LEN <= |b| && StillToRead(SwapHeader(b, q), q, read, all)
  {
    var q, read := NextAt(b, Some(p)), hs + [HeaderAt(b, p)];
    if q >= |b| {
      assert Visit(b, q) == ([], true);
      Empty(read);
    } else {
      hide Visit, SwapHeader, HeaderAt;
      VisitStep(b, q, read, all);
    }
  }

  /** Where the iterator goes next. */
  function NextAt(b: Bytes, current: Option<nat>): nat
    requires current.Some? ==> current.value + HEADER_LEN <= |b|
  {
    if current.None? then 0 else current.value + HEADER_LEN + HeaderAt(b, current.value).len
  }

  lemma {:induction false} IteratorStarts(cs: seq<Tlv>)
    requires AllFit(cs) && cs != []
    ensures HEADER_LEN <= |Serialize(cs)| && SwapHeader(Serialize(cs), 0) == Walked(cs, 1) && Offset(cs, 0) == 0
  {
    WalkedEnds(cs);
    SwapNext(cs, 0);
    assert cs[..0] == [];
  }

  /** Behind command `k` of a walk the iterator finds command `k + 1`, or the end. */
  lemma {:induction false} IteratorNext(cs: seq<Tlv>, k: nat)
    requires AllFit(cs) && k < |cs|
    ensures var b, p := Walked(cs, k + 1), Offset(cs, k);
            && p + HEADER_LEN <= |b|
            && NextAt(b, Some(p)) == Offset(cs, k + 1)
            && (Offset(cs, k + 1) >= |b| <==> k + 1 == |cs|)
            && (k + 1 < |cs| ==>
                  Offset(cs, k + 1) + HEADER_LEN <= |b| && SwapHeader(b, Offset(cs, k + 1)) == Walked(cs, k + 2))
  {
    ReadBack(cs, k);
    NextCommand(cs, k);
    OffsetEnd(cs, k + 1);
    if k + 1 < |cs| { SwapNext(cs, k + 1); }
  }

  /** The iterator has just returned command `k`, or null behind the last one. */
  ghost predicate IteratorAt(b: Bytes, cmd: Option<nat>, cs: seq<Tlv>, k: nat)
    requires AllFit(cs) && k <= |cs|
  {
    if cmd.Some? then k < |cs| && cmd.value == Offset(cs, k) && b == Walked(cs, k + 1)
    else k == |cs| && b == Walked(cs, |cs|)
  }

  lemma {:induction false} WalkedEnds(cs: seq<Tlv>)
    requires AllFit(cs)
    ensures Walked(cs, 0) == Serialize(cs) && Walked(cs, |cs|) == HostSerialize(cs)
  {
    assert cs[..0] == [] && cs[0..] == cs && cs[..|cs|] == cs && cs[|cs|..] == [];
    assert HostSerialize(cs) + [] == HostSerialize(cs);
  }

  method Realloc(b: array?<u8>, n: nat) returns (grown: array<u8>)
    requires b != null ==> b.Length <= n
    ensures fresh(grown) && grown.Length == n
    ensures b != null ==> grown[..b.Length] == b[..]
  {
    grown := new u8[n](_ => 0);
    if b != null {
      Memcpy(grown, 0, b[..]);
    }
  }

  /** Value first, then type and length, behind the first `at` bytes. */
  method WriteCommand(b: array<u8>, at: nat, typ: u16, value: Bytes)
    requires |value| < 0x1_0000 && b.Length == at + HEADER_LEN + |value|
    modifies b
    ensures b[..] == old(b[..at]) + Encode(Tlv(typ, value))
  {
    ghost var was := b[..];
    Memcpy(b, at + HEADER_LEN, value);
    Memcpy(b, at, Be16(typ));
    Memcpy(b, at + 2, Be16(|value|));
    AddBytes(was, at, typ, value);
  }

  /** The bytes `WriteCommand` leaves behind. */
  lemma {:induction false} AddBytes(was: Bytes, at: nat, typ: u16, value: Bytes)
    requires |value| < 0x1_0000 && |was| == at + HEADER_LEN + |value|
    ensures Splice(Splice(Splice(was, at + HEADER_LEN, value), at, Be16(typ)), at + 2, Be16(|value|))
         == was[..at] + Encode(Tlv(typ, value))
  {
    var b := Splice(was, at + HEADER_LEN, value);
    assert b[..at] == was[..at] && b[at + HEADER_LEN..] == value;
    SpliceTwice(b, at, Be16(typ), Be16(|value|));
    Assoc(was[..at], Be16(typ) + Be16(|value|), value);
  }

  /** The validation loop of atlas_cmd_batch_set_raw. */
  method ValidateBuffer(b: Bytes) returns (valid: bool)
    ensures valid <==> Rest(b) == []
  {
    hide Rest;
    var p, left := 0, |b|;
    TakeDrop(b);
    while left > 0
      invariant 0 <= p <= |b| && p + left == |b|
      invariant Rest(b[p..]) == Rest(b)
    {
      RestAt(b, p);
      if left < 2 {
        return false;
      }
      if left - 2 < 2 {
        return false;
      }
      var cmdLen := U16(b[p + 2], b[p + 3]);
      if left - HEADER_LEN < cmdLen {
        return false;
      }
      p, left := p + HEADER_LEN + cmdLen, left - HEADER_LEN - cmdLen;
    }
    RestAt(b, p);
    return true;
  }

  /** The two in-place ntohs assignments of the iterator. */
  method SwapInPlace(b: array<u8>, p: nat)
    requires p + HEADER_LEN <= b.Length
    modifies b
    ensures b[..] == SwapHeader(old(b[..]), p)
  {
    b[p], b[p + 1] := b[p + 1], b[p];
    b[p + 2], b[p + 3] := b[p + 3], b[p + 2];
  }

  /** The fields of the struct at position `p`, as the caller sees them. */
  method ReadCommand(b: array<u8>, p: nat, ghost cs: seq<Tlv>, ghost k: nat) returns (c: Tlv)
    requires AllFit(cs) && k < |cs| && b[..] == Walked(cs, k + 1) && p == Offset(cs, k)
    ensures c == cs[k]
  {
    ReadBack(cs, k);
    assert b.Length == |b[..]|;
    var len := HostRead(b[..][p + 2], b[..][p + 3]);
    c := Tlv(HostRead(b[..][p], b[..][p + 1]), b[..][p + HEADER_LEN..p + HEADER_LEN + len]);
  }

  /** The unread rest at position `p`. */
  lemma {:induction false} RestAt(b: Bytes, p: nat)
    requires p <= |b|
    ensures p == |b| ==> Rest(b[p..]) == []
    ensures p < |b| < p + HEADER_LEN ==> Rest(b[p..]) != []
    ensures p + HEADER_LEN <= |b| ==>
              var q := p + HEADER_LEN + U16(b[p + 2], b[p + 3]);
              if q > |b| then Rest(b[p..]) != [] else Rest(b[p..]) == Rest(b[q..])
  {
    var tail := b[p..];
    if Complete(tail) { assert AfterFirst(tail) == b[p + HEADER_LEN + DeclaredLen(tail)..]; }
  }

  // ---------------------------------------------------------------- both sides together

  /** Building with repeated `Add` gives the bytes of the gateway's serializer. */
  method BuildBatch(cs: seq<Tlv>) returns (batch: ClientBatch)
    requires AllFit(cs) && |Serialize(cs)| < 0x1_0000
    ensures fresh(batch) && batch.Valid() && batch.Contents() == Serialize(cs)
  {
    batch := new ClientBatch();
    for i := 0 to |cs|
      invariant fresh(batch) && (batch.buf != null ==> fresh(batch.buf))
      invariant batch.Valid() && batch.Contents() == Serialize(cs[..i])
    {
      SerializePrefix(cs, i);
      batch.Add(cs[i].typ, cs[i].val);
    }
    assert cs[..|cs|] == cs;
  }

  /**
   The client accepts a buffer exactly when the gateway's parser consumes it entirely, and one walk
   then returns the same commands as the gateway's parser.
   */
  method ReceiveBatch(raw: Bytes) returns (status: Status, out: seq<Tlv>)
    requires 1 <= |raw| < 0x1_0000
    ensures status == AtlasOk <==> Rest(raw) == []
    ensures status == AtlasOk ==> out == Parse(raw)
  {
    var batch := new ClientBatch();
    out := [];
    status := batch.SetRaw(Some(raw));
    if status == AtlasOk {
      SerializeParse(raw);
      assert Serialize(Parse(raw)) + [] == Serialize(Parse(raw));
      out := batch.Walk(Parse(raw));
    }
  }
}
