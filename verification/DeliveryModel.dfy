/**
 Approved-command delivery, as a state machine.

 The cloud sends numbered commands; the gateway stores each in its command table, queues it in the
 memory of the addressed device, sends the head of the queue over CoAP until the device answers,
 marks it executed, reports DONE to the cloud and deletes it when the cloud acknowledges.

 `State` is the whole gateway: the two persistent tables (`rows`, `maxSeq`), the memory that a
 restart loses (`seqNo`, `devices` and the ACK retry state) and `log`, the sequence of everything
 that has happened so far, which no operation reads.  Every fault of the environment (database,
 MQTT, CoAP) is a field of `Env`.
 */
module DeliveryModel {
  import opened Machine

  /** The identity of a client device. */
  datatype Id = Id(name: string)

  datatype Command = Command(dev: Id, seqNo: u32, typ: string, payload: string)

  /** A row of the DeviceCommand table; the table is kept in insertion order. */
  datatype Row = Row(cmd: Command, executed: bool)

  /** A command in one of the two memory queues of a device. */
  datatype Queued = Queued(cmd: Command, inProgress: bool)

  /** `outstanding` counts the CoAP requests of this device whose callback has not run yet. */
  datatype Device = Device(registered: bool, recv: seq<Queued>, exec: seq<Queued>,
                           timeouts: nat, outstanding: nat)

  datatype Out =
    | AckMsg(ackNo: u32)              // ACK handed to MQTT, which may refuse it
    | DoneMsg(dev: Id, doneNo: u32)   // DONE handed to MQTT, which may refuse it
    | Put(dev: Id, putNo: u32)        // CoAP PUT transmitted to the device
    | Accepted(cmd: Command)          // stored and queued
    | Executed(cmd: Command)          // marked executed
    | Completed(cmd: Command)         // DONE acknowledged, row deleted

  datatype State = State(known: set<Id>, rows: seq<Row>, maxSeq: u32,
                         seqNo: u32, devices: map<Id, Device>,
                         ackScheduled: bool, ackCounter: nat, log: seq<Out>)

  /** What the cloud sends: a missing number models an empty sequence-number field. */
  datatype CloudCommand = CloudCommand(seqNo: Option<u32>, client: Id, typ: string, payload: string,
                                       signatureOk: bool)

  /** The row insert and the update of the stored maximum are two SQL statements. */
  datatype InsertOutcome = Rejected | RowOnly | Stored

  datatype Env = Env(claimed: bool,       // the gateway has an owner, so signatures are checked
                     keyOk: bool,         // the query for the key of a device not in memory succeeds
                     rowsRead: nat,       // rows a lazy load reads before the database fails
                     lookupOk: bool,      // the query by sequence number succeeds
                     executedOk: bool,    // the query for executed commands succeeds
                     insert: InsertOutcome, markOk: bool, deleteOk: bool,
                     published: bool,     // MQTT accepts the ACK
                     sendOk: bool)        // CoAP accepts the request

  datatype Response = Ok | Timeout | Error

  datatype Event =
    | CloudSends(cmd: CloudCommand)
    | CloudAcksDone(client: Id, ackedNo: u32)
    | DeviceAnswers(dev: Id, response: Response)
    | Register(dev: Id)
    | Expire(dev: Id)
    | PushAlarm(dev: Id)
    | AckAlarm
    | Restart(maxReadOk: bool)

  const COMMAND_RETRY_NO := 3   // ATLAS_PUSH_COMMAND_RETRY_NO
  const STATUS_RETRY_NO := 3    // ATLAS_STATUS_COMMAND_RETRY_NO

  // ---------------------------------------------------------------- the command table

  /** The rows of one device, in insertion order. */
  function DevRows(rows: seq<Row>, id: Id): (rs: seq<Row>)
  {
    if rows == [] then []
    else
      var init, last := rows[..|rows| - 1], rows[|rows| - 1];
      DevRows(init, id) + (if last.cmd.dev == id then [last] else [])
  }

  /** The commands of the rows whose IsExecuted flag is `flag`, in insertion order. */
  function WithFlag(rs: seq<Row>, flag: bool): (cs: seq<Command>)
  {
    if rs == [] then []
    else
      var init, last := rs[..|rs| - 1], rs[|rs| - 1];
      WithFlag(init, flag) + (if last.executed == flag then [last.cmd] else [])
  }

  /** UPDATE DeviceCommand SET IsExecuted=1 WHERE SequenceNumber=n. */
  function MarkRows(rows: seq<Row>, n: u32): (rs: seq<Row>)
    ensures |rs| == |rows|
  {
    seq(|rows|, i requires 0 <= i < |rows| =>
      if rows[i].cmd.seqNo == n then rows[i].(executed := true) else rows[i])
  }

  /** DELETE FROM DeviceCommand WHERE SequenceNumber=n. */
  function DeleteRows(rows: seq<Row>, n: u32): (rs: seq<Row>)
  {
    if rows == [] then []
    else
      var init, last := rows[..|rows| - 1], rows[|rows| - 1];
      DeleteRows(init, n) + (if last.cmd.seqNo != n then [last] else [])
  }

  predicate HasRow(rows: seq<Row>, n: u32)
  {
    exists i :: 0 <= i < |rows| && rows[i].cmd.seqNo == n
  }

  predicate HasExecutedRow(rows: seq<Row>, n: u32)
  {
    exists i :: 0 <= i < |rows| && rows[i].cmd.seqNo == n && rows[i].executed
  }

  // ---------------------------------------------------------------- the device queues

  function Fresh(cs: seq<Command>): (qs: seq<Queued>)
    ensures |qs| == |cs|
  {
    seq(|cs|, i requires 0 <= i < |cs| => Queued(cs[i], false))
  }

  function Cmds(qs: seq<Queued>): (cs: seq<Command>)
    ensures |cs| == |qs|
  {
    seq(|qs|, i requires 0 <= i < |qs| => qs[i].cmd)
  }

  /** A device object just created, filled from the first `k` of its rows. */
  function Load(rs: seq<Row>, k: nat): Device
  {
    var read := if k < |rs| then rs[..k] else rs;
    Device(false, Fresh(WithFlag(read, false)), Fresh(WithFlag(read, true)), 0, 0)
  }

  predicate CanGet(s: State, id: Id, env: Env)
  {
    id in s.devices || (id in s.known && env.keyOk)
  }

  /** getDevice: the device object, created and loaded on first use. */
  function Loaded(s: State, id: Id, k: nat): (t: State)
    ensures id in t.devices
  {
    if id in s.devices then s else s.(devices := s.devices[id := Load(DevRows(s.rows, id), k)])
  }

  function SetDevice(s: State, id: Id, d: Device): State
  {
    s.(devices := s.devices[id := d])
  }

  function Logged(s: State, o: Out): State
  {
    s.(log := s.log + [o])
  }

  // ---------------------------------------------------------------- operations

  predicate CanPush(d: Device)
  {
    d.recv != [] && d.registered && !d.recv[0].inProgress
  }

  /** The device after its head command has been transmitted. */
  function Sent(d: Device): Device
    requires d.recv != []
  {
    d.(recv := d.recv[0 := d.recv[0].(inProgress := true)], outstanding := d.outstanding + 1)
  }

  /** pushCommand: transmit the head of the received queue unless it is already on its way. */
  function Push(s: State, id: Id, sendOk: bool): State
    requires id in s.devices
  {
    var d := s.devices[id];
    if CanPush(d) && sendOk then
      Logged(SetDevice(s, id, Sent(d)), Put(id, d.recv[0].cmd.seqNo))
    else s
  }

  /** responseCommandDONE for a loaded device; nothing is published for an empty executed queue. */
  function SendDone(s: State, id: Id): State
    requires id in s.devices
  {
    var d := s.devices[id];
    if d.exec == [] then s else Logged(s, DoneMsg(id, d.exec[0].cmd.seqNo))
  }

  /** The retry state after one ACK attempt: (scheduled, counter). */
  function AckRetry(scheduled: bool, counter: nat, published: bool): (bool, nat)
  {
    if published then (scheduled, counter)
    else if counter == STATUS_RETRY_NO then (false, 1)
    else (true, counter + 1)
  }

  /** responseCommandACK: hand the current sequence number to MQTT. */
  function SendAck(s: State, published: bool): State
  {
    var r := AckRetry(s.ackScheduled, s.ackCounter, published);
    Logged(s, AckMsg(s.seqNo)).(ackScheduled := r.0, ackCounter := r.1)
  }

  /** The sanity and signature checks at the head of handleClientCommand. */
  predicate Admissible(c: CloudCommand, claimed: bool)
  {
    c.seqNo.Some? && c.client.name != "" && c.typ != "" && (claimed ==> c.signatureOk)
  }

  /** handleOldCommand: a number that is not above the current one. */
  function HandleOld(s: State, n: u32, client: Id, env: Env): State
  {
    if !env.lookupOk || !HasRow(s.rows, n) then s
    else
      var t := s.(seqNo := n);
      if env.executedOk && HasExecutedRow(s.rows, n) then
        if CanGet(t, client, env) then SendDone(Loaded(t, client, env.rowsRead), client) else t
      else SendAck(t, env.published)
  }

  /** The insert of a new command: table, stored maximum, received queue, current number. */
  function Store(s: State, cmd: Command): State
    requires cmd.dev in s.devices
  {
    var d := s.devices[cmd.dev];
    Logged(SetDevice(s, cmd.dev, d.(recv := d.recv + [Queued(cmd, false)])), Accepted(cmd))
      .(rows := s.rows + [Row(cmd, false)], maxSeq := cmd.seqNo, seqNo := cmd.seqNo)
  }

  /** The rest of handleClientCommand for a new number, once the device object is there. */
  function HandleNew(s: State, cmd: Command, env: Env): State
    requires cmd.dev in s.devices
  {
    match env.insert
    case Rejected => s
    case RowOnly => s.(rows := s.rows + [Row(cmd, false)])
    case Stored =>
      var t := SendAck(Store(s, cmd), env.published);
      if env.published then Push(t, cmd.dev, env.sendOk) else t
  }

  /** handleClientCommand. */
  function HandleCommand(s: State, c: CloudCommand, env: Env): State
  {
    if !Admissible(c, env.claimed) then s
    else if c.seqNo.value <= s.seqNo then HandleOld(s, c.seqNo.value, c.client, env)
    else if !CanGet(s, c.client, env) then s
    else
      HandleNew(Loaded(s, c.client, env.rowsRead), Command(c.client, c.seqNo.value, c.typ, c.payload), env)
  }

  /** The deletion half of handleCommandDoneAck. */
  function Complete(s: State, id: Id): State
    requires id in s.devices && s.devices[id].exec != []
  {
    var d := s.devices[id];
    Logged(SetDevice(s, id, d.(exec := d.exec[1..])), Completed(d.exec[0].cmd))
      .(rows := DeleteRows(s.rows, d.exec[0].cmd.seqNo))
  }

  /** handleCommandDoneAck. */
  function HandleDoneAck(s: State, id: Id, n: u32, env: Env): State
  {
    if !CanGet(s, id, env) then s
    else
      var t := Loaded(s, id, env.rowsRead);
      var d := t.devices[id];
      if d.exec == [] || d.exec[0].cmd.seqNo != n || !env.deleteOk then t
      else SendDone(Complete(t, id), id)
  }

  /** markCommandAsDone once the table row is marked: append to the executed queue, report, pop. */
  function Mark(s: State, id: Id): State
    requires id in s.devices && s.devices[id].recv != []
  {
    var d := s.devices[id];
    var t := Logged(SetDevice(s, id, d.(exec := d.exec + [d.recv[0]])), Executed(d.recv[0].cmd))
               .(rows := MarkRows(s.rows, d.recv[0].cmd.seqNo));
    var u := SendDone(t, id);
    SetDevice(u, id, u.devices[id].(recv := d.recv[1..]))
  }

  /** The device with its head command no longer in progress. */
  function Idle(d: Device): Device
    requires d.recv != []
  {
    d.(recv := d.recv[0 := d.recv[0].(inProgress := false)])
  }

  /** deviceCmdRespCallback, on the device `d` whose request has just been answered. */
  function Answered(s: State, id: Id, d: Device, r: Response, env: Env): State
    requires d.recv != []
  {
    match r
    case Ok =>
      var t := SetDevice(s, id, d.(timeouts := 0));
      Push(if env.markOk then Mark(t, id) else t, id, env.sendOk)
    case Timeout =>
      if d.timeouts == COMMAND_RETRY_NO then SetDevice(s, id, Idle(d).(timeouts := 0))
      else Push(SetDevice(s, id, Idle(d).(timeouts := d.timeouts + 1)), id, env.sendOk)
    case Error => SetDevice(s, id, Idle(d).(timeouts := 0))
  }

  /** The callback runs only for an outstanding request, and does nothing for an empty queue. */
  function HandleResponse(s: State, id: Id, r: Response, env: Env): State
  {
    if id !in s.devices || s.devices[id].outstanding == 0 then s
    else
      var d := s.devices[id].(outstanding := s.devices[id].outstanding - 1);
      if d.recv == [] then SetDevice(s, id, d) else Answered(s, id, d, r, env)
  }

  /** start, after a crash or a stop: memory is gone, the tables and the log stay. */
  function Restarted(s: State, maxReadOk: bool): State
  {
    s.(seqNo := if maxReadOk then s.maxSeq else 0, devices := map[], ackScheduled := false, ackCounter := 0)
  }

  function Step(s: State, e: Event, env: Env): State
  {
    match e
    case CloudSends(c) => HandleCommand(s, c, env)
    case CloudAcksDone(id, n) => HandleDoneAck(s, id, n, env)
    case DeviceAnswers(id, r) => HandleResponse(s, id, r, env)
    case Register(id) =>
      if !CanGet(s, id, env) then s
      else
        var t := Loaded(s, id, env.rowsRead);
        SetDevice(t, id, t.devices[id].(registered := true))
    case Expire(id) =>
      if id !in s.devices then s else SetDevice(s, id, s.devices[id].(registered := false))
    case PushAlarm(id) =>
      if id !in s.devices then s else SendDone(Push(s, id, env.sendOk), id)
    case AckAlarm =>
      if !s.ackScheduled then s
      else
        var t := SendAck(s, env.published);
        if env.published then t.(ackScheduled := false, ackCounter := 0) else t
    case Restart(ok) => Restarted(s, ok)
  }

  /** A fresh installation that knows the identities `known`. */
  function Init(known: set<Id>): State
  {
    State(known, [], 0, 0, map[], false, 0, [])
  }

  function Run(s: State, es: seq<(Event, Env)>): State
  {
    if es == [] then s else Step(Run(s, es[..|es| - 1]), es[|es| - 1].0, es[|es| - 1].1)
  }

  // ---------------------------------------------------------------- reading the log

  function AcceptedOf(log: seq<Out>, id: Id): seq<Command>
  {
    if log == [] then []
    else
      var o := log[|log| - 1];
      AcceptedOf(log[..|log| - 1], id) + (if o.Accepted? && o.cmd.dev == id then [o.cmd] else [])
  }

  function ExecutedOf(log: seq<Out>, id: Id): seq<Command>
  {
    if log == [] then []
    else
      var o := log[|log| - 1];
      ExecutedOf(log[..|log| - 1], id) + (if o.Executed? && o.cmd.dev == id then [o.cmd] else [])
  }

  function CompletedOf(log: seq<Out>, id: Id): seq<Command>
  {
    if log == [] then []
    else
      var o := log[|log| - 1];
      CompletedOf(log[..|log| - 1], id) + (if o.Completed? && o.cmd.dev == id then [o.cmd] else [])
  }

  /** The numbers of all commands ever accepted, in order of acceptance. */
  function Numbers(log: seq<Out>): seq<u32>
  {
    if log == [] then []
    else
      var o := log[|log| - 1];
      Numbers(log[..|log| - 1]) + (if o.Accepted? then [o.cmd.seqNo] else [])
  }

  function Latest(ns: seq<u32>): u32
  {
    if ns == [] then 0 else ns[|ns| - 1]
  }
}
