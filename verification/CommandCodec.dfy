/**
 The type-length-value format of the commands, and the gateway's serializer and parser.

 A command is a 16-bit type, a 16-bit length and that many bytes, all numbers in network order; a
 batch is a concatenation of commands.
 */
module CommandCodec {
  import opened Machine
  import opened Memory
  import opened Sequences

  /** A command as it travels: the length field is the length of the value. */
  datatype Tlv = Tlv(typ: u16, val: Bytes)

  const HEADER_LEN := 4

  // ---------------------------------------------------------------- the format

  function Be16(n: u16): Bytes
  {
    [n / 256, n % 256]
  }

  function U16(hi: u8, lo: u8): u16
  {
    hi * 256 + lo
  }

  predicate Fits(c: Tlv)
  {
    |c.val| < 0x1_0000
  }

  ghost predicate AllFit(cs: seq<Tlv>)
  {
    forall i :: 0 <= i < |cs| ==> Fits(cs[i])
  }

  function Encode(c: Tlv): (b: Bytes)
    requires Fits(c)
    ensures |b| == HEADER_LEN + |c.val|
  {
    Be16(c.typ) + Be16(|c.val|) + c.val
  }

  function Serialize(cs: seq<Tlv>): (b: Bytes)
    requires AllFit(cs)
  {
    if cs == [] then [] else Encode(cs[0]) + Serialize(cs[1..])
  }

  /** The declared length of the command at the start of the buffer. */
  function DeclaredLen(b: Bytes): u16
    requires |b| >= HEADER_LEN
  {
    U16(b[2], b[3])
  }

  /** The buffer starts with a complete command. */
  predicate Complete(b: Bytes)
  {
    |b| >= HEADER_LEN && |b| >= HEADER_LEN + DeclaredLen(b)
  }

  function First(b: Bytes): (c: Tlv)
    requires Complete(b)
    ensures Fits(c)
  {
    Tlv(U16(b[0], b[1]), b[HEADER_LEN..HEADER_LEN + DeclaredLen(b)])
  }

  function AfterFirst(b: Bytes): Bytes
    requires Complete(b)
  {
    b[HEADER_LEN + DeclaredLen(b)..]
  }

  /** parseCommands: the commands before the first incomplete one. */
  function Parse(b: Bytes): (cs: seq<Tlv>)
    ensures AllFit(cs)
  {
    if Complete(b) then [First(b)] + Parse(AfterFirst(b)) else []
  }

  /** What the parser leaves unread. */
  function Rest(b: Bytes): Bytes
  {
    if Complete(b) then Rest(AfterFirst(b)) else b
  }

  // ---------------------------------------------------------------- round trips

  lemma {:induction false} FirstOfEncode(c: Tlv, tail: Bytes)
    requires Fits(c)
    ensures Complete(Encode(c) + tail)
    ensures First(Encode(c) + tail) == c
    ensures AfterFirst(Encode(c) + tail) == tail
  {
    var b := Encode(c) + tail;
    assert b[0] == c.typ / 256 && b[1] == c.typ % 256 && b[2] == |c.val| / 256 && b[3] == |c.val| % 256;
    assert b[HEADER_LEN..HEADER_LEN + |c.val|] == c.val;
  }

  lemma {:induction false} EncodeFirst(b: Bytes)
    requires Complete(b)
    ensures Encode(First(b)) + AfterFirst(b) == b
  {
    var n := DeclaredLen(b);
    assert U16(b[0], b[1]) / 256 == b[0] && U16(b[0], b[1]) % 256 == b[1];
    assert n / 256 == b[2] && n % 256 == b[3];
    assert Encode(First(b)) == b[..HEADER_LEN + n];
  }

  lemma {:induction false} ParseCons(c: Tlv, tail: Bytes)
    requires Fits(c)
    ensures Parse(Encode(c) + tail) == [c] + Parse(tail)
    ensures Rest(Encode(c) + tail) == Rest(tail)
  {
    FirstOfEncode(c, tail);
  }

  /** Parsing a serialized batch, with anything behind it, gives back the batch first. */
  lemma {:induction false} ParseSerialize(cs: seq<Tlv>, tail: Bytes)
    requires AllFit(cs)
    ensures Parse(Serialize(cs) + tail) == cs + Parse(tail)
    ensures Rest(Serialize(cs) + tail) == Rest(tail)
    decreases |cs|
  {
    if cs == [] {
      assert Serialize(cs) + tail == tail;
    } else {
      Assoc(Encode(cs[0]), Serialize(cs[1..]), tail);
      ParseCons(cs[0], Serialize(cs[1..]) + tail);
      ParseSerialize(cs[1..], tail);
      Assoc([cs[0]], cs[1..], Parse(tail));
      assert [cs[0]] + cs[1..] == cs;
    }
  }

  /** Round trip: parsing what was serialized returns exactly the commands and leaves nothing over. */
  lemma {:induction false} RoundTrip(cs: seq<Tlv>)
    requires AllFit(cs)
    ensures Parse(Serialize(cs)) == cs
    ensures Rest(Serialize(cs)) == []
  {
    ParseSerialize(cs, []);
    assert Serialize(cs) + [] == Serialize(cs) && cs + Parse([]) == cs;
  }

  lemma {:induction false} SerializeCons(c: Tlv, cs: seq<Tlv>)
    requires Fits(c) && AllFit(cs)
    ensures AllFit([c] + cs) && Serialize([c] + cs) == Encode(c) + Serialize(cs)
  {
    assert ([c] + cs)[1..] == cs;
  }

  /** Every buffer is what the parser read, serialized again, followed by what it left. */
  lemma {:induction false} SerializeParse(b: Bytes)
    ensures Serialize(Parse(b)) + Rest(b) == b
    decreases |b|
  {
    if Complete(b) {
      var c, t := First(b), AfterFirst(b);
      SerializeParse(t);
      SerializeCons(c, Parse(t));
      Assoc(Encode(c), Serialize(Parse(t)), Rest(t));
      assert Encode(c) + t == b by { EncodeFirst(b); }
    } else {
      assert Serialize(Parse(b)) == [];
    }
  }

  /** The parser stops only at an incomplete command. */
  lemma {:induction false} RestIncomplete(b: Bytes)
    ensures !Complete(Rest(b))
    decreases |b|
  {
    if Complete(b) { RestIncomplete(AfterFirst(b)); }
  }

  lemma {:induction false} SerializeConcat(cs: seq<Tlv>, ds: seq<Tlv>)
    requires AllFit(cs) && AllFit(ds)
    ensures AllFit(cs + ds) && Serialize(cs + ds) == Serialize(cs) + Serialize(ds)
    decreases |cs|
  {
    hide Encode;
    if cs == [] {
      Empty(ds);
      Empty(Serialize(ds));
    } else {
      SerializeConcat(cs[1..], ds);
      assert (cs + ds)[1..] == cs[1..] + ds && (cs + ds)[0] == cs[0];
      Assoc(Encode(cs[0]), Serialize(cs[1..]), Serialize(ds));
    }
  }

  lemma {:induction false} SerializeOne(c: Tlv)
    requires Fits(c)
    ensures Serialize([c]) == Encode(c)
  {
    assert Serialize([c]) == Encode(c) + Serialize([]);
  }

  lemma {:induction false} SerializeAppend(cs: seq<Tlv>, c: Tlv)
    requires AllFit(cs) && Fits(c)
    ensures AllFit(cs + [c]) && Serialize(cs + [c]) == Serialize(cs) + Encode(c)
  {
    SerializeConcat(cs, [c]);
    SerializeOne(c);
  }

  lemma {:induction false} SerializePrefix(cs: seq<Tlv>, i: nat)
    requires AllFit(cs) && i < |cs|
    ensures Serialize(cs[..i + 1]) == Serialize(cs[..i]) + Encode(cs[i])
    ensures |Serialize(cs[..i + 1])| <= |Serialize(cs)|
  {
    assert cs[..i + 1] == cs[..i] + [cs[i]];
    SerializeAppend(cs[..i], cs[i]);
    assert cs == cs[..i + 1] + cs[i + 1..];
    SerializeConcat(cs[..i + 1], cs[i + 1..]);
  }

  // ---------------------------------------------------------------- the gateway's batch object

  /** A command given to the serializer: a null value stands for `len` zero bytes. */
  datatype Added = Added(typ: u16, len: u16, val: Option<Bytes>)
  {
    ghost predicate Valid()
    {
      val.Some? ==> |val.value| == len
    }

    function ToTlv(): (c: Tlv)
      requires Valid()
      ensures Fits(c)
    {
      Tlv(typ, if val.Some? then val.value else Zeros(len))
    }
  }

  ghost predicate AllValid(added: seq<Added>)
  {
    forall i :: 0 <= i < |added| ==> added[i].Valid()
  }

  function Tlvs(added: seq<Added>): (cs: seq<Tlv>)
    requires AllValid(added)
    ensures |cs| == |added| && AllFit(cs)
  {
    seq(|added|, i requires 0 <= i < |added| => added[i].ToTlv())
  }

  class CommandBatch {
    var addedCmd: seq<Added>
    var parsedCmd: seq<Tlv>

    constructor ()
      ensures addedCmd == [] && parsedCmd == []
    {
      addedCmd, parsedCmd := [], [];
    }

    method AddCommand(cmd: Added)
      modifies this`addedCmd
      ensures addedCmd == old(addedCmd) + [cmd]
    {
      addedCmd := addedCmd + [cmd];
    }

    /** Null stands for the (nullptr, 0) pair of an empty batch. */
    method GetSerializedAddedCommands() returns (buf: array?<u8>)
      requires AllValid(addedCmd)
      ensures buf == null <==> addedCmd == []
      ensures buf != null ==> fresh(buf) && buf[..] == Serialize(Tlvs(addedCmd))
    {
      if addedCmd == [] {
        return null;
      }
      var totalLen := TotalLen(addedCmd);
      buf := new u8[totalLen](_ => 0);
      assert buf[..] == Zeros(totalLen);
      WriteAll(buf, addedCmd);
    }

    /** setRawCommands: a missing or empty buffer leaves the earlier commands in place. */
    method SetRawCommands(raw: Option<Bytes>)
      modifies this`parsedCmd
      ensures parsedCmd == if raw.Some? && raw.value != [] then Parse(raw.value) else old(parsedCmd)
    {
      if raw.None? || |raw.value| == 0 {
        return;
      }
      parsedCmd := ParseCommands(raw.value);
    }
  }

  method TotalLen(added: seq<Added>) returns (totalLen: nat)
    requires AllValid(added)
    ensures totalLen == |Serialize(Tlvs(added))|
  {
    ghost var cs := Tlvs(added);
    totalLen := 0;
    for i := 0 to |added|
      invariant totalLen == |Serialize(cs[..i])|
    {
      SerializePrefix(cs, i);
      totalLen := totalLen + HEADER_LEN + added[i].len;
    }
    assert cs[..|added|] == cs;
  }

  function Zeros(n: nat): (z: Bytes)
    ensures |z| == n
  {
    seq(n, _ => 0)
  }

  /** A command added without a value is sent with that many zeros, one with a value as it is. */
  lemma {:induction false} MissingIsZeros(a: Added)
    requires a.Valid()
    ensures a.ToTlv().typ == a.typ && |a.ToTlv().val| == a.len
    ensures a.val == None ==> forall i :: 0 <= i < a.len ==> a.ToTlv().val[i] == 0
    ensures a.val.Some? ==> a.ToTlv().val == a.val.value
  {
  }

  /** Writing right behind what is there, into zeros, appends. */
  lemma {:induction false} SpliceAppends(s: Bytes, written: Bytes, v: Bytes)
    requires |written| + |v| <= |s| && s == written + Zeros(|s| - |written|)
    ensures Splice(s, |written|, v) == (written + v) + Zeros(|s| - |written| - |v|)
  {
    var q := |written| + |v|;
    assert s[..|written|] == written && s[q..] == Zeros(|s| - q);
  }

  /** Write the commands one behind the other into a zeroed buffer of the right size. */
  method WriteAll(out: array<u8>, added: seq<Added>)
    requires AllValid(added) && out.Length == |Serialize(Tlvs(added))|
    requires out[..] == Zeros(out.Length)
    modifies out
    ensures out[..] == Serialize(Tlvs(added))
  {
    ghost var cs := Tlvs(added);
    var p := 0;
    for i := 0 to |added|
      invariant p == |Serialize(cs[..i])| <= out.Length
      invariant out[..] == Serialize(cs[..i]) + Zeros(out.Length - p)
    {
      SerializePrefix(cs, i);
      ghost var before := out[..];
      assert before[p..] == Zeros(out.Length - p);
      PutCommand(out, p, added[i]);
      SpliceAppends(before, Serialize(cs[..i]), Encode(cs[i]));
      p := p + HEADER_LEN + added[i].len;
    }
    assert cs[..|added|] == cs;
  }

  /** Write one command at position `p` of a buffer that is zero from there on. */
  method PutCommand(out: array<u8>, p: nat, cmd: Added)
    requires cmd.Valid() && p + HEADER_LEN + cmd.len <= out.Length
    requires out[p..] == Zeros(out.Length - p)
    modifies out
    ensures out[..] == Splice(old(out[..]), p, Encode(cmd.ToTlv()))
  {
    ghost var was := out[..];
    Memcpy(out, p, Be16(cmd.typ));
    Memcpy(out, p + 2, Be16(cmd.len));
    SpliceTwice(was, p, Be16(cmd.typ), Be16(cmd.len));
    var header := Be16(cmd.typ) + Be16(cmd.len);
    SpliceTwice(was, p, header, cmd.ToTlv().val);
    if cmd.val.Some? {
      Memcpy(out, p + HEADER_LEN, cmd.val.value);
    } else {
      SpliceZeros(was, p, header, cmd.len);
    }
  }

  /** Not writing a value of zeros into a zeroed buffer is writing it. */
  lemma {:induction false} SpliceZeros(s: Bytes, p: nat, header: Bytes, n: nat)
    requires p + |header| + n <= |s| && s[p..] == Zeros(|s| - p)
    ensures Splice(s, p, header) == Splice(s, p, header + Zeros(n))
  {
    var q := p + |header|;
    assert s[q..] == s[p..][|header|..] == Zeros(|s| - q);
    assert s[q..] == Zeros(n) + s[q + n..];
    assert s[..p] + header + s[q..] == s[..p] + (header + Zeros(n)) + s[q + n..];
  }

  /** The parser at position `p`: it reads the command there if it is complete, otherwise it stops. */
  lemma {:induction false} ParseAt(b: Bytes, p: nat)
    requires p <= |b|
    ensures p + HEADER_LEN > |b| ==> Parse(b[p..]) == []
    ensures p + HEADER_LEN <= |b| ==>
              var q := p + HEADER_LEN + U16(b[p + 2], b[p + 3]);
              Parse(b[p..]) == if q > |b| then []
                               else [Tlv(U16(b[p], b[p + 1]), b[p + HEADER_LEN..q])] + Parse(b[q..])
  {
    var tail := b[p..];
    if Complete(tail) {
      var n := DeclaredLen(tail);
      assert tail[HEADER_LEN..HEADER_LEN + n] == b[p + HEADER_LEN..p + HEADER_LEN + n];
      assert tail[HEADER_LEN + n..] == b[p + HEADER_LEN + n..];
    }
  }

  /** parseCommands: walk the buffer, pushing each complete command. */
  method ParseCommands(b: Bytes) returns (cs: seq<Tlv>)
    ensures cs == Parse(b)
  {
    hide Parse, U16;
    cs := [];
    var p, left := 0, |b|;
    TakeDrop(b);
    Empty(Parse(b));
    while left > 0
      invariant 0 <= p <= |b| && p + left == |b|
      invariant cs + Parse(b[p..]) == Parse(b)
    {
      ParseAt(b, p);
      Empty(cs);
      if left < 2 {
        return;
      }
      var typ := U16(b[p], b[p + 1]);
      if left - 2 < 2 {
        return;
      }
      var len := U16(b[p + 2], b[p + 3]);
      if left - HEADER_LEN < len {
        return;
      }
      var c := Tlv(typ, b[p + HEADER_LEN..p + HEADER_LEN + len]);
      Assoc(cs, [c], Parse(b[p + HEADER_LEN + len..]));
      cs := cs + [c];
      p, left := p + HEADER_LEN + len, left - HEADER_LEN - len;
    }
    ParseAt(b, p);
    Empty(cs);
  }
}
