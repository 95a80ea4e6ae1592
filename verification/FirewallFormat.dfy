/**
 The fields of the firewall messages, byte by byte, and which field lists the two sides accept.
 */
module FirewallFormat {
  import opened Machine
  import opened Sequences
  import opened Memory
  import opened CommandCodec
  import opened FirewallModel
  import opened FirewallWire
  import opened FirewallGateway

  // ---------------------------------------------------------------- the last field of a kind

  predicate Sized(c: Tlv, typ: u16, n: nat)
  {
    c.typ == typ && |c.val| == n
  }

  ghost predicate HasSized(cs: seq<Tlv>, typ: u16, n: nat)
  {
    exists i :: 0 <= i < |cs| && Sized(cs[i], typ, n)
  }

  /** The field at `i` is the last one of its type and size. */
  ghost predicate LastSizedAt(cs: seq<Tlv>, typ: u16, n: nat, i: nat)
  {
    i < |cs| && Sized(cs[i], typ, n) && forall j :: i < j < |cs| ==> !Sized(cs[j], typ, n)
  }

  ghost predicate LastAt(cs: seq<Tlv>, typ: u16, i: nat)
  {
    i < |cs| && cs[i].typ == typ && forall j :: i < j < |cs| ==> cs[j].typ != typ
  }

  lemma {:induction false} LastSizedIs(cs: seq<Tlv>, typ: u16, n: nat, i: nat)
    requires LastSizedAt(cs, typ, n, i)
    ensures LastSized(cs, typ, n) == Some(cs[i].val)
  {
    if i < |cs| - 1 {
      assert !Sized(cs[|cs| - 1], typ, n);
      LastSizedIs(cs[..|cs| - 1], typ, n, i);
    }
  }

  lemma {:induction false} LastSizedNone(cs: seq<Tlv>, typ: u16, n: nat)
    ensures LastSized(cs, typ, n).Some? <==> HasSized(cs, typ, n)
  {
    if cs != [] {
      var init := cs[..|cs| - 1];
      LastSizedNone(init, typ, n);
      if HasSized(init, typ, n) {
        var i :| 0 <= i < |init| && Sized(init[i], typ, n);
        assert Sized(cs[i], typ, n);
      }
      if Sized(cs[|cs| - 1], typ, n) { assert HasSized(cs, typ, n); }
      if HasSized(cs, typ, n) && !Sized(cs[|cs| - 1], typ, n) {
        var i :| 0 <= i < |cs| && Sized(cs[i], typ, n);
        assert Sized(init[i], typ, n);
      }
    }
  }

  lemma {:induction false} LastIs(cs: seq<Tlv>, typ: u16, i: nat)
    requires LastAt(cs, typ, i)
    ensures Last(cs, typ) == Some(cs[i].val)
  {
    if i < |cs| - 1 { LastIs(cs[..|cs| - 1], typ, i); }
  }

  lemma {:induction false} LastNone(cs: seq<Tlv>, typ: u16)
    requires forall i :: 0 <= i < |cs| ==> cs[i].typ != typ
    ensures Last(cs, typ) == None
  {
    if cs != [] { LastNone(cs[..|cs| - 1], typ); }
  }

  // ---------------------------------------------------------------- what is accepted

  /**
   The plug-in installs a rule from a field list if and only if the last identity in it is not empty and each of
   the three numbers occurs in two bytes; fields of other types and sizes are passed over.
   */
  lemma {:induction false} RuleAcceptedExactly(cs: seq<Tlv>, i: nat)
    requires LastAt(cs, 1005, i)
    ensures DecodePolicy(cs).Some? <==>
              cs[i].val != [] && HasSized(cs, 1006, 2) && HasSized(cs, 1007, 2) && HasSized(cs, 1008, 2)
  {
    hide Last, LastSized, HasSized;
    LastIs(cs, 1005, i);
    LastSizedNone(cs, 1006, 2);
    LastSizedNone(cs, 1007, 2);
    LastSizedNone(cs, 1008, 2);
  }

  /** Without an identity there is no rule, no removal, no statistics and no report. */
  lemma {:induction false} NamelessRefused(c: Tlv)
    requires forall i :: 0 <= i < |Parse(c.val)| ==> Parse(c.val)[i].typ != 1005
    ensures DecodeRequest(c) == None
    ensures c.typ != 1000 ==> DecodeReport(c) == None
  {
    hide Parse, Last, LastSized;
    LastNone(Parse(c.val), 1005);
  }

  /** What the rule says: the last identity, and the last two-byte field of each kind, high byte first. */
  lemma {:induction false} RuleRead(cs: seq<Tlv>, i: nat, q: nat, p: nat, l: nat)
    requires LastAt(cs, 1005, i) && cs[i].val != []
    requires LastSizedAt(cs, 1006, 2, q) && LastSizedAt(cs, 1007, 2, p) && LastSizedAt(cs, 1008, 2, l)
    ensures DecodePolicy(cs) ==
            Some(Policy(Id(cs[i].val), U16(cs[q].val[0], cs[q].val[1]), U16(cs[p].val[0], cs[p].val[1]),
                        U16(cs[l].val[0], cs[l].val[1])))
  {
    LastIs(cs, 1005, i);
    LastSizedIs(cs, 1006, 2, q);
    LastSizedIs(cs, 1007, 2, p);
    LastSizedIs(cs, 1008, 2, l);
    hide Last, LastSized;
  }

  /** The gateway adds a report if and only if it names a client and has all four counts in four bytes. */
  lemma {:induction false} ReportAcceptedExactly(c: Tlv, i: nat)
    requires c.typ == 1004 && LastAt(Parse(c.val), 1005, i)
    ensures var cs := Parse(c.val);
            DecodeReport(c).Some? <==>
              && cs[i].val != [] && HasSized(cs, 1009, 4) && HasSized(cs, 1010, 4)
              && HasSized(cs, 1011, 4) && HasSized(cs, 1012, 4)
  {
    hide Parse, Last, LastSized, HasSized, U32;
    var cs := Parse(c.val);
    LastIs(cs, 1005, i);
    LastSizedNone(cs, 1009, 4);
    LastSizedNone(cs, 1010, 4);
    LastSizedNone(cs, 1011, 4);
    LastSizedNone(cs, 1012, 4);
  }

  /**
   The gateway accepts a client's policy request if and only if each of the three fields occurs and none of them
   occurs in another size than two bytes, however often and among whatever else.
   */
  lemma {:induction false} RequestAcceptedExactly(id: Id, cs: seq<Tlv>)
    ensures DecodePolicyRequest(id, cs).Some? <==>
              && (forall i :: 0 <= i < |cs| && 1100 <= cs[i].typ <= 1102 ==> |cs[i].val| == 2)
              && HasSized(cs, 1100, 2) && HasSized(cs, 1101, 2) && HasSized(cs, 1102, 2)
  {
    hide LastSized, HasSized;
    LastSizedNone(cs, 1100, 2);
    LastSizedNone(cs, 1101, 2);
    LastSizedNone(cs, 1102, 2);
  }

  // ---------------------------------------------------------------- the bytes

  /** The field of a client identity, and of numbers in two and in four bytes. */
  function Name(v: Bytes): Bytes
    requires |v| < 0x1_0000
  {
    [3, 237] + Be16(|v|) + v
  }

  function Short(low: u8, n: u16): Bytes
  {
    [3, low, 0, 2] + Be16(n)
  }

  function Long(low: u8, n: u32): Bytes
  {
    [3, low, 0, 4] + Be32(n)
  }

  lemma {:induction false} FieldBytes(v: Bytes, low: u8, n: u16, k: u32)
    requires |v| < 0x1_0000
    ensures Encode(Field(1005, v)) == Name(v)
    ensures Encode(Tlv(768 + low, Be16(n))) == Short(low, n) && Encode(Tlv(768 + low, Be32(k))) == Long(low, k)
  {
    assert (768 + low) / 256 == 3 && (768 + low) % 256 == low;
  }

  /** The command types and the order of the fields on the wire, for every policy that fits. */
  lemma {:induction false} InstallBytes(p: Policy)
    requires |p.clientId.name| <= 65513
    ensures Encode(RequestCommand(InstallRequest(p))) ==
            [3, 233] + Be16(|p.clientId.name| + 22) +
            (Name(p.clientId.name) + Short(238, p.qos) + Short(239, p.ppm) + Short(240, p.payloadLen))
  {
    var cs := PolicyFields(p);
    PolicyFieldsLength(p);
    FourEncoded(cs[0], cs[1], cs[2], cs[3]);
    FieldBytes(p.clientId.name, 238, p.qos, 0);
    FieldBytes(p.clientId.name, 239, p.ppm, 0);
    FieldBytes(p.clientId.name, 240, p.payloadLen, 0);
    assert Be16(1001) == [3, 233];
    hide Serialize, Name, Short, Long, Be16;
  }

  lemma {:induction false} FourEncoded(a: Tlv, b: Tlv, c: Tlv, d: Tlv)
    requires Fits(a) && Fits(b) && Fits(c) && Fits(d)
    ensures AllFit([a, b, c, d]) && Serialize([a, b, c, d]) == Encode(a) + Encode(b) + Encode(c) + Encode(d)
  {
    hide Encode, Serialize;
    SerializeOne(d);
    SerializeCons(c, [d]);
    SerializeCons(b, [c, d]);
    SerializeCons(a, [b, c, d]);
    assert [c] + [d] == [c, d] && [b] + [c, d] == [b, c, d] && [a] + [b, c, d] == [a, b, c, d];
  }

  /** Removals and statistics requests. */
  lemma {:induction false} IdentityBytes(id: Id)
    requires |id.name| <= 65531
    ensures var rest := Be16(|id.name| + 4) + [3, 237] + Be16(|id.name|) + id.name;
            && Encode(RequestCommand(RemoveRequest(id))) == [3, 234] + rest
            && Encode(RequestCommand(StatRequest(id))) == [3, 235] + rest
  {
    var f := Field(CLIENT_ID, id.name);
    SerializeOne(f);
    assert Encode(f) == [3, 237] + Be16(|id.name|) + id.name;
  }

  /** The request for all rules. */
  lemma GetAllBytes()
    ensures Encode(ReportCommand(GetAll)) == [3, 232, 0, 0]
  {
  }

  /** Reports. */
  lemma {:induction false} ReportBytesAre(id: Id, c: Counts)
    requires |id.name| <= 65499 && Counters(c)
    ensures Encode(ReportCommand(PutStat(id, c))) ==
            [3, 236] + Be16(|id.name| + 36) +
            (Name(id.name) +
             (Long(241, c.ruleDropped) + Long(242, c.rulePassed) + Long(243, c.txDropped) + Long(244, c.txPassed)))
  {
    var cs := StatFields(id, c);
    StatFieldsLength(id, c);
    FourEncoded(cs[1], cs[2], cs[3], cs[4]);
    SerializeCons(cs[0], [cs[1], cs[2], cs[3], cs[4]]);
    assert [cs[0]] + [cs[1], cs[2], cs[3], cs[4]] == cs;
    FieldBytes(id.name, 241, 0, c.ruleDropped);
    FieldBytes(id.name, 242, 0, c.rulePassed);
    FieldBytes(id.name, 243, 0, c.txDropped);
    FieldBytes(id.name, 244, 0, c.txPassed);
    assert Be16(1004) == [3, 236];
    hide Serialize, Name, Short, Long, Be16, Be32;
  }

  /** Numbers go high byte first. */
  lemma NetworkOrder()
    ensures Be16(0x0102) == [1, 2] && U16(1, 2) == 0x0102
    ensures Be32(0x0102_0304) == [1, 2, 3, 4] && Quad(1, 2, 3, 4) == 0x0102_0304
  {
  }
}
