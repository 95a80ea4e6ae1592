/**
 The firewall messages on the wire: a batch of fields nested inside one command, sent over a stream
 that is cut into commands again and parsed at two levels.
 */
module FirewallWire {
  import opened Machine
  import opened Sequences
  import opened Memory
  import opened CommandCodec
  import opened CommandXfer
  import opened FirewallModel

  // AtlasCommandType.h
  const GET_ALL: u16 := 1000
  const INSTALL: u16 := 1001
  const REMOVE: u16 := 1002
  const GET_STAT: u16 := 1003
  const PUT_STAT: u16 := 1004
  const CLIENT_ID: u16 := 1005
  const MAX_QOS: u16 := 1006
  const PPM: u16 := 1007
  const MAX_PAYLOAD_LEN: u16 := 1008
  const PKT_DROP: u16 := 1009
  const PKT_PASS: u16 := 1010
  const TX_PKT_DROP: u16 := 1011
  const TX_PKT_PASS: u16 := 1012

  // ---------------------------------------------------------------- fields

  function Be32(n: u32): Bytes
  {
    [n / 0x100_0000, n / 0x1_0000 % 256, n / 256 % 256, n % 256]
  }

  function Quad(a: u8, b: u8, c: u8, d: u8): u32
  {
    a * 0x100_0000 + b * 0x1_0000 + c * 256 + d
  }

  function U32(b: Bytes): u32
    requires |b| == 4
  {
    Quad(b[0], b[1], b[2], b[3])
  }

  function ToU16(b: Bytes): u16
    requires |b| == 2
  {
    U16(b[0], b[1])
  }

  lemma U32Be32(n: u32)
    ensures U32(Be32(n)) == n
  {
    var m := n / 256;
    var k := m / 256;
    assert n / 0x1_0000 == k && n / 0x100_0000 == k / 256;
    assert n == m * 256 + n % 256 && m == k * 256 + m % 256 && k == k / 256 * 256 + k % 256;
  }

  /** A command object holds its length in 16 bits: a longer value is cut. */
  function Cut(v: Bytes): (r: Bytes)
    ensures |r| < 0x1_0000 && r <= v
  {
    if |v| < 0x1_0000 then v else v[..|v| % 0x1_0000]
  }

  function Field(typ: u16, v: Bytes): (c: Tlv)
    ensures Fits(c)
    ensures |v| < 0x1_0000 ==> c.val == v
  {
    Tlv(typ, Cut(v))
  }

  function Nested(typ: u16, fields: seq<Tlv>): (c: Tlv)
    requires AllFit(fields)
    ensures Fits(c)
  {
    Field(typ, Serialize(fields))
  }

  // ---------------------------------------------------------------- gateway to plug-in

  /** What a message to the plug-in says on the wire. */
  datatype Request = InstallRequest(policy: Policy) | RemoveRequest(id: Id) | StatRequest(id: Id)

  function OnWire(m: ToPlugin): Request
  {
    match m
    case Install(p) => InstallRequest(p)
    case Remove(id) => RemoveRequest(id)
    case GetStat(id, _, _) => StatRequest(id)
  }

  function IdOf(r: Request): Id
  {
    match r
    case InstallRequest(p) => p.clientId
    case RemoveRequest(id) => id
    case StatRequest(id) => id
  }

  function WithId(r: Request, id: Id): Request
  {
    match r
    case InstallRequest(p) => InstallRequest(p.(clientId := id))
    case RemoveRequest(_) => RemoveRequest(id)
    case StatRequest(_) => StatRequest(id)
  }

  /** The longest identity whose nested batch fits a 16-bit length. */
  function Limit(r: Request): nat
  {
    if r.InstallRequest? then 65513 else 65531
  }

  function PolicyFields(p: Policy): (cs: seq<Tlv>)
    ensures AllFit(cs)
  {
    [Field(CLIENT_ID, p.clientId.name), Tlv(MAX_QOS, Be16(p.qos)),
     Tlv(PPM, Be16(p.ppm)), Tlv(MAX_PAYLOAD_LEN, Be16(p.payloadLen))]
  }

  function RequestCommand(r: Request): (c: Tlv)
    ensures Fits(c)
  {
    match r
    case InstallRequest(p) => Nested(INSTALL, PolicyFields(p))
    case RemoveRequest(id) => Nested(REMOVE, [Field(CLIENT_ID, id.name)])
    case StatRequest(id) => Nested(GET_STAT, [Field(CLIENT_ID, id.name)])
  }

  // ---------------------------------------------------------------- plug-in to gateway

  function StatFields(id: Id, c: Counts): (cs: seq<Tlv>)
    requires Counters(c)
    ensures AllFit(cs)
  {
    [Field(CLIENT_ID, id.name), Tlv(PKT_DROP, Be32(c.ruleDropped)), Tlv(PKT_PASS, Be32(c.rulePassed)),
     Tlv(TX_PKT_DROP, Be32(c.txDropped)), Tlv(TX_PKT_PASS, Be32(c.txPassed))]
  }

  /** The four counts are 32-bit numbers. */
  predicate Counters(c: Counts)
  {
    && 0 <= c.ruleDropped < 0x1_0000_0000 && 0 <= c.rulePassed < 0x1_0000_0000
    && 0 <= c.txDropped < 0x1_0000_0000 && 0 <= c.txPassed < 0x1_0000_0000
  }

  predicate Sendable(m: ToGateway)
  {
    m.PutStat? ==> Counters(m.counts)
  }

  function ReportCommand(m: ToGateway): (c: Tlv)
    requires Sendable(m)
    ensures Fits(c)
  {
    match m
    case GetAll => Tlv(GET_ALL, [])
    case PutStat(id, c) => Nested(PUT_STAT, StatFields(id, c))
  }

  // ---------------------------------------------------------------- decoding

  /** The value of the last command of a type. */
  function Last(cs: seq<Tlv>, typ: u16): Option<Bytes>
  {
    if cs == [] then None
    else if cs[|cs| - 1].typ == typ then Some(cs[|cs| - 1].val)
    else Last(cs[..|cs| - 1], typ)
  }

  /** The value of the last command of a type that has the right length. */
  function LastSized(cs: seq<Tlv>, typ: u16, n: nat): (v: Option<Bytes>)
    ensures v.Some? ==> |v.value| == n
  {
    if cs == [] then None
    else if cs[|cs| - 1].typ == typ && |cs[|cs| - 1].val| == n then Some(cs[|cs| - 1].val)
    else LastSized(cs[..|cs| - 1], typ, n)
  }

  function ClientIdOf(cs: seq<Tlv>): Id
  {
    match Last(cs, CLIENT_ID) { case None => Id([]) case Some(v) => Id(v) }
  }

  /** installFirewallRule of the plug-in up to the point where it has a complete rule. */
  function DecodePolicy(cs: seq<Tlv>): Option<Policy>
  {
    var qos, ppm, len := LastSized(cs, MAX_QOS, 2), LastSized(cs, PPM, 2), LastSized(cs, MAX_PAYLOAD_LEN, 2);
    if ClientIdOf(cs).name == [] || qos.None? || ppm.None? || len.None? then None
    else Some(Policy(ClientIdOf(cs), ToU16(qos.value), ToU16(ppm.value), ToU16(len.value)))
  }

  function DecodeRequest(c: Tlv): Option<Request>
  {
    var cs := Parse(c.val);
    if c.typ == INSTALL then (if DecodePolicy(cs).None? then None else Some(InstallRequest(DecodePolicy(cs).value)))
    else if c.typ == REMOVE then (if ClientIdOf(cs).name == [] then None else Some(RemoveRequest(ClientIdOf(cs))))
    else if c.typ == GET_STAT then (if ClientIdOf(cs).name == [] then None else Some(StatRequest(ClientIdOf(cs))))
    else None
  }

  /** processCommand of the plug-in: the requests in a command buffer. */
  function DecodeRequests(cs: seq<Tlv>): seq<Request>
  {
    if cs == [] then []
    else
      var r := DecodeRequest(cs[|cs| - 1]);
      DecodeRequests(cs[..|cs| - 1]) + if r.Some? then [r.value] else []
  }

  function DecodeStats(cs: seq<Tlv>): (c: Option<Counts>)
    ensures c.Some? ==> Counters(c.value)
  {
    var a, b := LastSized(cs, PKT_DROP, 4), LastSized(cs, PKT_PASS, 4);
    var c, d := LastSized(cs, TX_PKT_DROP, 4), LastSized(cs, TX_PKT_PASS, 4);
    if a.None? || b.None? || c.None? || d.None? then None
    else Some(Counts(U32(a.value), U32(b.value), U32(c.value), U32(d.value)))
  }

  function DecodeReport(c: Tlv): Option<ToGateway>
  {
    var cs := Parse(c.val);
    if c.typ == GET_ALL then Some(GetAll)
    else if c.typ == PUT_STAT && ClientIdOf(cs).name != [] && DecodeStats(cs).Some? then
      Some(PutStat(ClientIdOf(cs), DecodeStats(cs).value))
    else None
  }

  // ---------------------------------------------------------------- nested round trips

  lemma {:induction false} SkipLast(cs: seq<Tlv>, c: Tlv, typ: u16, n: nat)
    ensures c.typ != typ ==> Last(cs + [c], typ) == Last(cs, typ)
    ensures c.typ != typ ==> LastSized(cs + [c], typ, n) == LastSized(cs, typ, n)
    ensures c.typ == typ ==> Last(cs + [c], typ) == Some(c.val)
    ensures c.typ == typ && |c.val| == n ==> LastSized(cs + [c], typ, n) == Some(c.val)
  {
    assert (cs + [c])[..|cs|] == cs;
  }

  lemma {:induction false} NestedParses(typ: u16, fields: seq<Tlv>)
    requires AllFit(fields) && |Serialize(fields)| < 0x1_0000
    ensures Parse(Nested(typ, fields).val) == fields
  {
    RoundTrip(fields);
  }

  lemma {:induction false} IdFieldDecodes(id: Id, others: seq<Tlv>)
    requires |id.name| < 0x1_0000
    requires forall i :: 0 <= i < |others| ==> others[i].typ != CLIENT_ID
    ensures ClientIdOf([Field(CLIENT_ID, id.name)] + others) == id
  {
    var first := [Field(CLIENT_ID, id.name)];
    if others == [] {
      assert first + others == first;
    } else {
      var init, last := others[..|others| - 1], others[|others| - 1];
      IdFieldDecodes(id, init);
      SkipLast(first + init, last, CLIENT_ID, 0);
      assert first + others == (first + init) + [last];
    }
  }

  lemma {:induction false} PolicyFieldsLength(p: Policy)
    requires |p.clientId.name| < 0x1_0000
    ensures |Serialize(PolicyFields(p))| == |p.clientId.name| + 22
  {
    var cs := PolicyFields(p);
    SerializeFour(cs[0], cs[1], cs[2], cs[3]);
  }

  lemma {:induction false} SerializeFour(a: Tlv, b: Tlv, c: Tlv, d: Tlv)
    requires Fits(a) && Fits(b) && Fits(c) && Fits(d)
    ensures AllFit([a, b, c, d]) && |Serialize([a, b, c, d])| == 16 + |a.val| + |b.val| + |c.val| + |d.val|
  {
    SerializeOne(d);
    SerializeCons(c, [d]);
    SerializeCons(b, [c, d]);
    SerializeCons(a, [b, c, d]);
    assert [c] + [d] == [c, d] && [b] + [c, d] == [b, c, d] && [a] + [b, c, d] == [a, b, c, d];
  }

  lemma {:induction false} PolicyFieldsDecode(p: Policy)
    requires 0 < |p.clientId.name| < 0x1_0000
    ensures DecodePolicy(PolicyFields(p)) == Some(p)
  {
    var cs := PolicyFields(p);
    IdFieldDecodes(p.clientId, cs[1..]);
    assert [cs[0]] + cs[1..] == cs;
    var one, two, three := [cs[0], cs[1]], [cs[0], cs[1], cs[2]], cs;
    SkipLast([cs[0]], cs[1], MAX_QOS, 2);
    SkipLast(one, cs[2], MAX_QOS, 2);
    SkipLast(two, cs[3], MAX_QOS, 2);
    SkipLast(one, cs[2], PPM, 2);
    SkipLast(two, cs[3], PPM, 2);
    SkipLast(two, cs[3], MAX_PAYLOAD_LEN, 2);
    assert [cs[0]] + [cs[1]] == one && one + [cs[2]] == two && two + [cs[3]] == cs;
  }

  /** Nested round trip, as long as the nested batch fits; a request for the empty identity is dropped. */
  lemma {:induction false} RequestRoundTrip(r: Request)
    requires |IdOf(r).name| <= Limit(r)
    ensures DecodeRequest(RequestCommand(r)) == if IdOf(r).name == [] then None else Some(r)
  {
    match r
    case InstallRequest(p) => InstallRoundTrip(p);
    case RemoveRequest(id) => IdOnly(REMOVE, id);
    case StatRequest(id) => IdOnly(GET_STAT, id);
  }

  lemma {:induction false} InstallRoundTrip(p: Policy)
    requires |p.clientId.name| <= 65513
    ensures DecodeRequest(RequestCommand(InstallRequest(p))) ==
            if p.clientId.name == [] then None else Some(InstallRequest(p))
  {
    PolicyFieldsLength(p);
    NestedParses(INSTALL, PolicyFields(p));
    if p.clientId.name != [] {
      PolicyFieldsDecode(p);
    } else {
      IdFieldDecodes(p.clientId, PolicyFields(p)[1..]);
      assert [PolicyFields(p)[0]] + PolicyFields(p)[1..] == PolicyFields(p);
    }
  }

  lemma {:induction false} IdOnly(typ: u16, id: Id)
    requires |id.name| + 4 < 0x1_0000
    ensures |Serialize([Field(CLIENT_ID, id.name)])| == |id.name| + 4
    ensures ClientIdOf(Parse(Nested(typ, [Field(CLIENT_ID, id.name)]).val)) == id
  {
    var f := Field(CLIENT_ID, id.name);
    SerializeOne(f);
    NestedParses(typ, [f]);
    IdFieldDecodes(id, []);
    assert [f] + [] == [f];
  }

  lemma {:induction false} NestedLength(typ: u16, fields: seq<Tlv>)
    requires AllFit(fields)
    ensures |Nested(typ, fields).val| == |Serialize(fields)| % 0x1_0000
  {
  }

  /** What a request adds to its identity on the wire, without its own header. */
  function Overhead(r: Request): nat
  {
    if r.InstallRequest? then 22 else 4
  }

  lemma {:induction false} RequestLength(r: Request)
    requires |IdOf(r).name| < 0x1_0000
    ensures |RequestCommand(r).val| == (|IdOf(r).name| + Overhead(r)) % 0x1_0000
  {
    match r
    case InstallRequest(p) =>
      PolicyFieldsLength(p);
      NestedLength(INSTALL, PolicyFields(p));
    case RemoveRequest(id) =>
      SerializeOne(Field(CLIENT_ID, id.name));
      NestedLength(REMOVE, [Field(CLIENT_ID, id.name)]);
    case StatRequest(id) =>
      SerializeOne(Field(CLIENT_ID, id.name));
      NestedLength(GET_STAT, [Field(CLIENT_ID, id.name)]);
  }

  /** The longest identity whose request the receiver's buffer holds. */
  function BufferLimit(r: Request): nat
  {
    if r.InstallRequest? then 8166 else 8184
  }

  /**
   The receiver's buffer holds a request, whatever its identity, exactly when the identity on the wire is
   at most `BufferLimit` long, or so long that the nested length wraps.
   */
  lemma {:induction false} RequestFitsExactly(r: Request)
    ensures var id := Cut(IdOf(r).name);
            HeaderFits(Encode(RequestCommand(r))) <==> |id| <= BufferLimit(r) || |id| > Limit(r)
  {
    var s := WithId(r, Id(Cut(IdOf(r).name)));
    assert RequestCommand(r) == RequestCommand(s);
    hide RequestCommand, Encode, Cut;
    RequestLength(s);
    EncodedLength(RequestCommand(s));
    WrapOnce(|IdOf(s).name|, Overhead(s));
  }

  lemma WrapOnce(n: nat, more: nat)
    requires n < 0x1_0000 && more < 0x1_0000
    ensures (n + more) % 0x1_0000 == if n + more < 0x1_0000 then n + more else n + more - 0x1_0000
  {
  }

  lemma {:induction false} EncodedLength(c: Tlv)
    requires Fits(c)
    ensures DeclaredLen(Encode(c)) == |c.val|
  {
    FirstOfEncode(c, []);
    assert Encode(c) + [] == Encode(c);
  }

  /** A nested batch that does not fit 16 bits is cut inside its first field, and nothing of it is read. */
  lemma {:induction false} NestedCut(typ: u16, f: Tlv, others: seq<Tlv>)
    requires Fits(f) && AllFit(others) && |Serialize(others)| < 0x1_0000
    requires HEADER_LEN + |f.val| + |Serialize(others)| >= 0x1_0000
    ensures AllFit([f] + others) && Parse(Nested(typ, [f] + others).val) == []
  {
    SerializeCons(f, others);
    var inner := Serialize([f] + others);
    var cut := Cut(inner);
    assert |cut| <= |inner| - 0x1_0000 < HEADER_LEN + |f.val|;
    FirstOfEncode(f, Serialize(others));
    assert DeclaredLen(inner) == |First(inner).val| == |f.val|;
    if |cut| >= HEADER_LEN { assert cut[2] == inner[2] && cut[3] == inner[3]; }
  }

  lemma {:induction false} LongInstall(p: Policy)
    requires 65513 < |p.clientId.name| < 0x1_0000
    ensures DecodeRequest(RequestCommand(InstallRequest(p))) == None
  {
    PolicyFieldsLength(p);
    var f, others := Field(CLIENT_ID, p.clientId.name), PolicyFields(p)[1..];
    assert [f] + others == PolicyFields(p);
    SerializeCons(f, others);
    NestedCut(INSTALL, f, others);
  }

  lemma {:induction false} LongIdOnly(typ: u16, id: Id)
    requires 65531 < |id.name| < 0x1_0000
    ensures Parse(Nested(typ, [Field(CLIENT_ID, id.name)]).val) == []
  {
    var f := Field(CLIENT_ID, id.name);
    Empty([f]);
    NestedCut(typ, f, []);
  }

  lemma {:induction false} LongRequest(r: Request)
    requires Limit(r) < |IdOf(r).name| < 0x1_0000
    ensures DecodeRequest(RequestCommand(r)) == None
  {
    match r
    case InstallRequest(p) => LongInstall(p);
    case RemoveRequest(id) => LongIdOnly(REMOVE, id);
    case StatRequest(id) => LongIdOnly(GET_STAT, id);
  }

  /**
   What becomes of every request: it arrives with its identity cut to 16 bits of length, unless that
   leaves nothing or is too long for the nested batch, in which case the plug-in drops it.
   */
  lemma {:induction false} RequestDecodes(r: Request)
    ensures var id := Id(Cut(IdOf(r).name));
            DecodeRequest(RequestCommand(r)) == if 0 < |id.name| <= Limit(r) then Some(WithId(r, id)) else None
  {
    var s := WithId(r, Id(Cut(IdOf(r).name)));
    assert RequestCommand(r) == RequestCommand(s);
    if |IdOf(s).name| <= Limit(s) { RequestRoundTrip(s); } else { LongRequest(s); }
  }

  /** A request decodes to itself exactly for identities of 1 byte up to the limit of its kind. */
  lemma {:induction false} RequestDecodesExactly(r: Request)
    ensures DecodeRequest(RequestCommand(r)) == Some(r) <==> 0 < |IdOf(r).name| <= Limit(r)
  {
    RequestDecodes(r);
    if |IdOf(r).name| >= 0x1_0000 { assert IdOf(WithId(r, Id(Cut(IdOf(r).name)))) != IdOf(r); }
  }

  /** A removal for an identity with 65536 bytes behind it removes the rule of the shorter one. */
  lemma {:induction false} LongIdentityExample(name: Bytes, more: Bytes)
    requires 0 < |name| <= 65531 && |more| == 0x1_0000
    ensures DecodeRequest(RequestCommand(RemoveRequest(Id(name + more)))) == Some(RemoveRequest(Id(name)))
  {
    hide DecodeRequest, RequestCommand;
    RequestDecodes(RemoveRequest(Id(name + more)));
    assert |name + more| % 0x1_0000 == |name|;
    assert Cut(name + more) == name;
  }

  lemma {:induction false} StatFieldsLength(id: Id, c: Counts)
    requires Counters(c) && |id.name| < 0x1_0000
    ensures |Serialize(StatFields(id, c))| == |id.name| + 36
  {
    var cs := StatFields(id, c);
    SerializeFour(cs[1], cs[2], cs[3], cs[4]);
    SerializeCons(cs[0], [cs[1], cs[2], cs[3], cs[4]]);
    assert [cs[0]] + [cs[1], cs[2], cs[3], cs[4]] == cs;
  }

  lemma {:induction false} StatFieldsDecode(id: Id, c: Counts)
    requires Counters(c)
    ensures DecodeStats(StatFields(id, c)) == Some(c)
  {
    var cs := StatFields(id, c);
    var a, b, d := [cs[0], cs[1]], [cs[0], cs[1], cs[2]], [cs[0], cs[1], cs[2], cs[3]];
    assert [cs[0]] + [cs[1]] == a && a + [cs[2]] == b && b + [cs[3]] == d && d + [cs[4]] == cs;
    SkipLast([cs[0]], cs[1], PKT_DROP, 4);
    SkipLast(a, cs[2], PKT_DROP, 4);
    SkipLast(b, cs[3], PKT_DROP, 4);
    SkipLast(d, cs[4], PKT_DROP, 4);
    SkipLast(a, cs[2], PKT_PASS, 4);
    SkipLast(b, cs[3], PKT_PASS, 4);
    SkipLast(d, cs[4], PKT_PASS, 4);
    SkipLast(b, cs[3], TX_PKT_DROP, 4);
    SkipLast(d, cs[4], TX_PKT_DROP, 4);
    SkipLast(d, cs[4], TX_PKT_PASS, 4);
    U32Be32(c.ruleDropped);
    U32Be32(c.rulePassed);
    U32Be32(c.txDropped);
    U32Be32(c.txPassed);
  }

  lemma {:induction false} ReportRoundTrip(m: ToGateway)
    requires Sendable(m) && (m.PutStat? ==> 0 < |m.id.name| <= 65499)
    ensures DecodeReport(ReportCommand(m)) == Some(m)
  {
    if m.PutStat? {
      var cs := StatFields(m.id, m.counts);
      StatFieldsLength(m.id, m.counts);
      NestedParses(PUT_STAT, cs);
      IdFieldDecodes(m.id, cs[1..]);
      assert [cs[0]] + cs[1..] == cs;
      StatFieldsDecode(m.id, m.counts);
    }
  }

  lemma {:induction false} LongReport(id: Id, c: Counts)
    requires Counters(c) && (id.name == [] || 65499 < |id.name| < 0x1_0000)
    ensures DecodeReport(ReportCommand(PutStat(id, c))) == None
  {
    var cs := StatFields(id, c);
    StatFieldsLength(id, c);
    assert [cs[0]] + cs[1..] == cs;
    if id.name == [] {
      NestedParses(PUT_STAT, cs);
      IdFieldDecodes(id, cs[1..]);
    } else {
      SerializeCons(cs[0], cs[1..]);
      NestedCut(PUT_STAT, cs[0], cs[1..]);
    }
  }

  /** What becomes of every report, in the same way. */
  lemma {:induction false} ReportDecodes(id: Id, c: Counts)
    requires Counters(c)
    ensures var cut := Id(Cut(id.name));
            DecodeReport(ReportCommand(PutStat(id, c))) ==
              if 0 < |cut.name| <= 65499 then Some(PutStat(cut, c)) else None
  {
    var cut := Id(Cut(id.name));
    assert ReportCommand(PutStat(id, c)) == ReportCommand(PutStat(cut, c));
    if 0 < |cut.name| <= 65499 { ReportRoundTrip(PutStat(cut, c)); } else { LongReport(cut, c); }
  }

  /** The longest identity whose report the receiver's buffer holds. */
  const REPORT_LIMIT := 8152

  lemma {:induction false} ReportFitsExactly(id: Id, c: Counts)
    requires Counters(c)
    ensures var cut := Cut(id.name);
            HeaderFits(Encode(ReportCommand(PutStat(id, c)))) <==> |cut| <= REPORT_LIMIT || |cut| > 65499
  {
    var cut := Id(Cut(id.name));
    assert ReportCommand(PutStat(id, c)) == ReportCommand(PutStat(cut, c));
    StatFieldsLength(cut, c);
    NestedLength(PUT_STAT, StatFields(cut, c));
    hide Encode, Serialize, StatFields, Cut;
    EncodedLength(ReportCommand(PutStat(cut, c)));
    WrapOnce(|cut.name|, 36);
  }

  predicate ReportDeliverable(m: ToGateway)
  {
    Sendable(m) && (m.PutStat? ==> 0 < |m.id.name| <= REPORT_LIMIT)
  }

  /** Exactly the reports that fit the buffer and are decoded as they were sent. */
  lemma {:induction false} ReportDeliverableExactly(m: ToGateway)
    requires Sendable(m)
    ensures ReportDeliverable(m) <==>
              HeaderFits(Encode(ReportCommand(m))) && DecodeReport(ReportCommand(m)) == Some(m)
  {
    if m.PutStat? {
      hide ReportCommand, Encode, DecodeReport;
      ReportFitsExactly(m.id, m.counts);
      ReportDecodes(m.id, m.counts);
      if |m.id.name| >= 0x1_0000 { assert |Cut(m.id.name)| != |m.id.name|; }
    } else {
      ReportRoundTrip(m);
      EncodedLength(ReportCommand(m));
    }
  }

  // ---------------------------------------------------------------- the stream

  function Encoded(cs: seq<Tlv>): (bs: seq<Bytes>)
    requires AllFit(cs)
    ensures |bs| == |cs|
  {
    seq(|cs|, i requires 0 <= i < |cs| => Encode(cs[i]))
  }

  /** Cutting a serialized batch gives its commands. */
  lemma {:induction false} FramesOfSerialize(cs: seq<Tlv>)
    requires AllFit(cs)
    ensures Frames(Serialize(cs)) == Encoded(cs)
    ensures Rest(Serialize(cs)) == []
  {
    if cs != [] {
      var tail := Serialize(cs[1..]);
      FirstOfEncode(cs[0], tail);
      FramesOfSerialize(cs[1..]);
      var b := Encode(cs[0]) + tail;
      assert DeclaredLen(b) == |cs[0].val|;
      assert b[..HEADER_LEN + DeclaredLen(b)] == Encode(cs[0]);
      assert Encoded(cs) == [Encode(cs[0])] + Encoded(cs[1..]);
    }
  }

  lemma {:induction false} ParseOne(c: Tlv)
    requires Fits(c)
    ensures Parse(Encode(c)) == [c]
  {
    ParseCons(c, []);
    assert Encode(c) + [] == Encode(c);
  }

  function RequestCommands(rs: seq<Request>): (cs: seq<Tlv>)
    ensures |cs| == |rs| && AllFit(cs)
  {
    seq(|rs|, i requires 0 <= i < |rs| => RequestCommand(rs[i]))
  }

  /** The requests in a sequence of command buffers. */
  function Received(frames: seq<Bytes>): seq<Request>
  {
    if frames == [] then []
    else Received(frames[..|frames| - 1]) + DecodeRequests(Parse(frames[|frames| - 1]))
  }

  predicate Deliverable(r: Request)
  {
    0 < |IdOf(r).name| <= BufferLimit(r)
  }

  /** Exactly the requests that fit the buffer and are decoded as they were sent. */
  lemma {:induction false} DeliverableExactly(r: Request)
    ensures Deliverable(r) <==> HeaderFits(Encode(RequestCommand(r))) && DecodeRequest(RequestCommand(r)) == Some(r)
  {
    hide RequestCommand, Encode, DecodeRequest;
    RequestFitsExactly(r);
    RequestDecodesExactly(r);
  }

  ghost predicate AllDeliverable(rs: seq<Request>)
  {
    forall i :: 0 <= i < |rs| ==> Deliverable(rs[i])
  }

  lemma {:induction false} FrameDecodes(r: Request)
    requires Deliverable(r)
    ensures DecodeRequests(Parse(Encode(RequestCommand(r)))) == [r]
    ensures HeaderFits(Encode(RequestCommand(r)))
  {
    hide RequestCommand, Encode, DecodeRequest;
    var c := RequestCommand(r);
    ParseOne(c);
    DeliverableExactly(r);
    assert [c][..0] == [];
    assert DecodeRequests([c]) == DecodeRequests([]) + [r];
  }

  lemma {:induction false} EncodedAppend(rs: seq<Request>, r: Request)
    ensures Encoded(RequestCommands(rs + [r])) == Encoded(RequestCommands(rs)) + [Encode(RequestCommand(r))]
  {
  }

  lemma {:induction false} ReceivedAppend(fs: seq<Bytes>, f: Bytes)
    ensures Received(fs + [f]) == Received(fs) + DecodeRequests(Parse(f))
  {
    assert (fs + [f])[..|fs|] == fs;
  }

  lemma {:induction false} FramesDecode(rs: seq<Request>)
    requires AllDeliverable(rs)
    ensures Received(Encoded(RequestCommands(rs))) == rs
  {
    hide RequestCommand, Encode, Parse, DecodeRequests, Deliverable;
    if rs == [] {
      assert Encoded(RequestCommands(rs)) == [];
    } else {
      var init, last := rs[..|rs| - 1], rs[|rs| - 1];
      DropLast(rs);
      assert AllDeliverable(init);
      FramesDecode(init);
      OneMoreDecodes(init, last);
    }
  }

  lemma {:induction false} OneMoreDecodes(rs: seq<Request>, r: Request)
    requires Received(Encoded(RequestCommands(rs))) == rs && Deliverable(r)
    ensures Received(Encoded(RequestCommands(rs + [r]))) == rs + [r]
  {
    EncodedAppend(rs, r);
    ReceivedAppend(Encoded(RequestCommands(rs)), Encode(RequestCommand(r)));
    FrameDecodes(r);
  }

  lemma {:induction false} FramesFit(rs: seq<Request>)
    requires AllDeliverable(rs)
    ensures AllHeadersFit(Encoded(RequestCommands(rs)))
  {
    forall i | 0 <= i < |rs| ensures HeaderFits(Encoded(RequestCommands(rs))[i]) { FrameDecodes(rs[i]); }
  }

  /**
   End to end: the gateway's requests, serialized twice and sent as one stream, arrive at the plug-in
   exactly once each, in order and unchanged, for every way the stream is split into reads, and
   without overrunning the buffer.
   */
  lemma {:induction false} StreamDelivers(rs: seq<Request>, chunks: seq<Bytes>)
    requires AllDeliverable(rs)
    requires ValidReads(chunks) && Concat(chunks) == Serialize(RequestCommands(rs))
    ensures Received(Feed(chunks).1) == rs && Feed(chunks).0.buf == []
    ensures AlwaysInBounds(chunks)
  {
    var cs := RequestCommands(rs);
    ChunkingIndependence(chunks);
    FramesOfSerialize(cs);
    FramesDecode(rs);
    FramesFit(rs);
    BoundsExact(chunks);
  }

  lemma {:induction false} ReceivedConcat(fs: seq<Bytes>, gs: seq<Bytes>)
    ensures Received(fs + gs) == Received(fs) + Received(gs)
  {
    hide DecodeRequests, Parse;
    if gs == [] {
      assert fs + gs == fs && Received(fs) + [] == Received(fs);
    } else {
      var init, last := gs[..|gs| - 1], gs[|gs| - 1];
      ReceivedConcat(fs, init);
      assert fs + gs == (fs + init) + [last];
      ReceivedAppend(fs + init, last);
      Assoc(Received(fs), Received(init), DecodeRequests(Parse(last)));
    }
  }

  /** While the stream is still arriving, what the plug-in has received is a prefix of what was sent. */
  lemma {:induction false} StreamPrefix(rs: seq<Request>, chunks: seq<Bytes>, coming: Bytes)
    requires AllDeliverable(rs)
    requires ValidReads(chunks) && Concat(chunks) + coming == Serialize(RequestCommands(rs))
    ensures Received(Feed(chunks).1) <= rs
  {
    ChunkingIndependence(chunks);
    CutConcat(Concat(chunks), coming);
    FramesOfSerialize(RequestCommands(rs));
    FramesDecode(rs);
    ReceivedConcat(Frames(Concat(chunks)), Frames(Rest(Concat(chunks)) + coming));
  }

  // ---------------------------------------------------------------- bytes and messages

  function OnWireAll(ms: seq<ToPlugin>): (rs: seq<Request>)
    ensures |rs| == |ms|
  {
    seq(|ms|, i requires 0 <= i < |ms| => OnWire(ms[i]))
  }

  /** What the gateway writes for its messages. */
  function MessageBytes(ms: seq<ToPlugin>): Bytes
  {
    Serialize(RequestCommands(OnWireAll(ms)))
  }

  lemma {:induction false} MessageBytesConcat(ms: seq<ToPlugin>, ns: seq<ToPlugin>)
    ensures MessageBytes(ms + ns) == MessageBytes(ms) + MessageBytes(ns)
  {
    hide Serialize, RequestCommand;
    assert RequestCommands(OnWireAll(ms + ns)) == RequestCommands(OnWireAll(ms)) + RequestCommands(OnWireAll(ns));
    SerializeConcat(RequestCommands(OnWireAll(ms)), RequestCommands(OnWireAll(ns)));
  }

  lemma {:induction false} MessageBytesOne(m: ToPlugin)
    ensures MessageBytes([m]) == Encode(RequestCommand(OnWire(m)))
  {
    assert RequestCommands(OnWireAll([m])) == [RequestCommand(OnWire(m))];
    SerializeOne(RequestCommand(OnWire(m)));
  }

  /** From `w` to `v` the gateway has written exactly the bytes of the messages it has sent. */
  ghost predicate Wrote(w: World, v: World, before: Bytes, after: Bytes)
  {
    w.toPlugin <= v.toPlugin && after == before + MessageBytes(v.toPlugin[|w.toPlugin|..])
  }

  lemma {:induction false} WroteNothing(w: World, v: World, b: Bytes)
    requires v.toPlugin == w.toPlugin
    ensures Wrote(w, v, b, b)
  {
    TakeDrop(w.toPlugin);
    assert MessageBytes([]) == [];
    Empty(b);
  }

  /** The messages `ms` were sent. */
  lemma {:induction false} WroteMore(w: World, v: World, ms: seq<ToPlugin>, b: Bytes)
    requires v.toPlugin == w.toPlugin + ms
    ensures Wrote(w, v, b, b + MessageBytes(ms))
  {
    assert v.toPlugin[|w.toPlugin|..] == ms;
  }

  lemma {:induction false} WroteSend(w: World, m: ToPlugin, b: Bytes)
    ensures Wrote(w, Send(w, m), b, b + if w.link == Up then Encode(RequestCommand(OnWire(m))) else [])
  {
    if w.link == Up {
      WroteMore(w, Send(w, m), [m], b);
      MessageBytesOne(m);
    } else {
      WroteNothing(w, w, b);
      Empty(b);
    }
  }

  lemma {:induction false} WroteThen(u: World, v: World, w: World, a: Bytes, b: Bytes, c: Bytes)
    requires Wrote(u, v, a, b) && Wrote(v, w, b, c)
    ensures Wrote(u, w, a, c)
  {
    hide MessageBytes;
    var ms, ns := v.toPlugin[|u.toPlugin|..], w.toPlugin[|v.toPlugin|..];
    SplitTwice(u.toPlugin, v.toPlugin, w.toPlugin);
    MessageBytesConcat(ms, ns);
    Assoc(a, MessageBytes(ms), MessageBytes(ns));
  }

  ghost predicate AllSendable(ms: seq<ToGateway>)
  {
    forall i :: 0 <= i < |ms| ==> Sendable(ms[i])
  }

  function ReportCommands(ms: seq<ToGateway>): (cs: seq<Tlv>)
    requires AllSendable(ms)
    ensures |cs| == |ms| && AllFit(cs)
  {
    seq(|ms|, i requires 0 <= i < |ms| && AllSendable(ms) => ReportCommand(ms[i]))
  }

  /** What the plug-in writes for its reports. */
  function ReportBytes(ms: seq<ToGateway>): Bytes
    requires AllSendable(ms)
  {
    Serialize(ReportCommands(ms))
  }

  /** From `w` to `v` the plug-in has written exactly the bytes of the reports it has sent. */
  ghost predicate Reported(w: World, v: World, before: Bytes, after: Bytes)
  {
    && w.toGateway <= v.toGateway && AllSendable(v.toGateway[|w.toGateway|..])
    && after == before + ReportBytes(v.toGateway[|w.toGateway|..])
  }

  lemma {:induction false} ReportedNothing(w: World, v: World, b: Bytes)
    requires v.toGateway == w.toGateway
    ensures Reported(w, v, b, b)
  {
    TakeDrop(w.toGateway);
    assert ReportBytes([]) == [];
    Empty(b);
  }

  lemma {:induction false} ReportedSince(w: World, u: World, v: World, a: Bytes, b: Bytes)
    requires u.toGateway == w.toGateway && Reported(u, v, a, b)
    ensures Reported(w, v, a, b)
  {
    hide AllSendable, ReportBytes;
  }

  lemma {:induction false} ReportedOne(w: World, v: World, m: ToGateway, b: Bytes)
    requires v.toGateway == w.toGateway + [m] && Sendable(m)
    ensures Reported(w, v, b, b + Encode(ReportCommand(m)))
  {
    assert v.toGateway[|w.toGateway|..] == [m];
    assert ReportCommands([m]) == [ReportCommand(m)];
    SerializeOne(ReportCommand(m));
  }

  lemma {:induction false} ReportedThen(u: World, v: World, w: World, a: Bytes, b: Bytes, c: Bytes)
    requires Reported(u, v, a, b) && Reported(v, w, b, c)
    ensures Reported(u, w, a, c)
  {
    hide Serialize, ReportCommand, Sendable;
    var ms, ns := v.toGateway[|u.toGateway|..], w.toGateway[|v.toGateway|..];
    SplitTwice(u.toGateway, v.toGateway, w.toGateway);
    assert ReportCommands(ms + ns) == ReportCommands(ms) + ReportCommands(ns);
    SerializeConcat(ReportCommands(ms), ReportCommands(ns));
    Assoc(a, ReportBytes(ms), ReportBytes(ns));
  }
}
