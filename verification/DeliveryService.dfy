/**
 The delivery code of the gateway as it runs: one object that updates its tables, its device map and
 its counters in place.  Every method is proved to do what the function of the same step in
 `DeliveryModel` says.
 */
module DeliveryService {
  import opened Machine
  import opened Sequences
  import opened DeliveryModel
  import opened DeliveryInvariant

  /** Restricting a prefix of the table gives a prefix of the device's rows. */
  lemma {:induction false} DevRowsPrefix(rows: seq<Row>, i: nat, id: Id)
    requires i <= |rows|
    ensures |DevRows(rows[..i], id)| <= |DevRows(rows, id)|
    ensures DevRows(rows, id)[..|DevRows(rows[..i], id)|] == DevRows(rows[..i], id)
    decreases |rows|
  {
    if i == |rows| {
      assert rows[..i] == rows;
    } else {
      var init := rows[..|rows| - 1];
      assert init[..i] == rows[..i];
      DevRowsPrefix(init, i, id);
    }
  }

  lemma {:induction false} NothingRead(rows: seq<Row>, id: Id)
    ensures DevRows(rows[..0], id) == [] && Fresh(WithFlag(DevRows(rows[..0], id), false)) == []
    ensures Fresh(WithFlag(DevRows(rows[..0], id), true)) == []
  {
  }

  /** What the next row adds to the queues of a device. */
  lemma {:induction false} NextRead(rows: seq<Row>, id: Id, i: nat)
    requires i < |rows|
    ensures var r, rs, next := rows[i], DevRows(rows[..i], id), DevRows(rows[..i + 1], id);
            if r.cmd.dev != id then next == rs
            else
              && next == rs + [r]
              && Fresh(WithFlag(next, r.executed)) == Fresh(WithFlag(rs, r.executed)) + [Queued(r.cmd, false)]
              && Fresh(WithFlag(next, !r.executed)) == Fresh(WithFlag(rs, !r.executed))
  {
    var r, rs := rows[i], DevRows(rows[..i], id);
    TakeNext(rows, i);
    DevRowsAppend(rows[..i], r, id);
    if r.cmd.dev == id {
      WithFlagAppend(rs, r, r.executed);
      WithFlagAppend(rs, r, !r.executed);
    }
  }

  class Gateway {
    // AtlasSQLite: identities with a pre-shared key, DeviceCommand, GatewayMisc
    const known: set<Id>
    var rows: seq<Row>
    var maxSeq: u32
    // AtlasApprove
    var seqNo: u32
    var ackScheduled: bool
    var ackCounter: nat
    // AtlasDeviceManager
    var devices: map<Id, Device>
    // everything that happened
    ghost var log: seq<Out>

    ghost function St(): State
      reads this
    {
      State(known, rows, maxSeq, seqNo, devices, ackScheduled, ackCounter, log)
    }

    constructor (known: set<Id>)
      ensures St() == Init(known)
    {
      this.known := known;
      rows, maxSeq, seqNo := [], 0, 0;
      ackScheduled, ackCounter := false, 0;
      devices, log := map[], [];
    }

    /** start: the sequence number is 0 unless the stored maximum can be read. */
    method Start(maxReadOk: bool)
      modifies this
      ensures St() == Restarted(old(St()), maxReadOk)
    {
      devices := map[];
      ackScheduled, ackCounter := false, 0;
      seqNo := 0;
      if maxReadOk {
        seqNo := maxSeq;
      }
    }

    /** selectDeviceCommand: append every row read to one of the two queues, until the query fails. */
    method SelectDeviceCommand(id: Id, k: nat) returns (d: Device)
      ensures d == Load(DevRows(rows, id), k)
    {
      hide DevRows, WithFlag, Fresh;
      var recv: seq<Queued>, exec: seq<Queued> := [], [];
      var i, count := 0, 0;
      NothingRead(rows, id);
      while i < |rows|
        invariant 0 <= i <= |rows|
        invariant count == |DevRows(rows[..i], id)| <= k
        invariant recv == Fresh(WithFlag(DevRows(rows[..i], id), false))
        invariant exec == Fresh(WithFlag(DevRows(rows[..i], id), true))
      {
        NextRead(rows, id, i);
        if rows[i].cmd.dev == id {
          if count == k {
            DevRowsPrefix(rows, i, id);
            DevRowsPrefix(rows, i + 1, id);
            return Device(false, recv, exec, 0, 0);
          }
          if rows[i].executed {
            exec := exec + [Queued(rows[i].cmd, false)];
          } else {
            recv := recv + [Queued(rows[i].cmd, false)];
          }
          count := count + 1;
        }
        i := i + 1;
      }
      TakeDrop(rows);
      d := Device(false, recv, exec, 0, 0);
    }

    /** getDevice: find the object or create and load it. */
    method GetDevice(id: Id, env: Env) returns (found: bool)
      modifies this`devices
      ensures found == CanGet(old(St()), id, env)
      ensures St() == if found then Loaded(old(St()), id, env.rowsRead) else old(St())
    {
      if id !in devices {
        if id !in known || !env.keyOk {
          return false;
        }
        var d := SelectDeviceCommand(id, env.rowsRead);
        devices := devices[id := d];
      }
      found := true;
    }

    method PushCommand(id: Id, sendOk: bool)
      requires id in devices
      modifies this`devices, this`log
      ensures St() == Push(old(St()), id, sendOk)
    {
      var d := devices[id];
      if d.recv == [] {
        return;
      }
      if !d.registered {
        return;
      }
      var head := d.recv[0];
      if head.inProgress {
        return;
      }
      if sendOk {
        log := log + [Put(id, head.cmd.seqNo)];
        devices := devices[id := d.(recv := d.recv[0 := head.(inProgress := true)], outstanding := d.outstanding + 1)];
      }
    }

    method ResponseCommandACK(published: bool)
      modifies this`ackScheduled, this`ackCounter, this`log
      ensures St() == SendAck(old(St()), published)
    {
      log := log + [AckMsg(seqNo)];
      if !published {
        if !ackScheduled {
          ackScheduled := true;
        }
        if ackCounter == STATUS_RETRY_NO {
          ackScheduled := false;
          ackCounter := 0;
        }
        ackCounter := ackCounter + 1;
      }
    }

    method ResponseCommandDONE(id: Id, env: Env) returns (found: bool)
      modifies this`devices, this`log
      ensures found == CanGet(old(St()), id, env)
      ensures St() == if found then SendDone(Loaded(old(St()), id, env.rowsRead), id) else old(St())
    {
      found := GetDevice(id, env);
      if found && devices[id].exec != [] {
        log := log + [DoneMsg(id, devices[id].exec[0].cmd.seqNo)];
      }
    }

    method HandleOldCommand(n: u32, client: Id, env: Env)
      modifies this
      ensures St() == HandleOld(old(St()), n, client, env)
    {
      if !env.lookupOk || !HasRow(rows, n) {
        return;
      }
      seqNo := n;
      if env.executedOk && HasExecutedRow(rows, n) {
        var _ := ResponseCommandDONE(client, env);
      } else {
        ResponseCommandACK(env.published);
      }
    }

    method HandleClientCommand(c: CloudCommand, env: Env)
      modifies this
      ensures St() == HandleCommand(old(St()), c, env)
    {
      if c.seqNo.None? || c.client.name == "" || c.typ == "" {
        return;
      }
      if env.claimed && !c.signatureOk {
        return;
      }
      var n := c.seqNo.value;
      if n <= seqNo {
        HandleOldCommand(n, c.client, env);
        return;
      }
      var found := GetDevice(c.client, env);
      if !found {
        return;
      }
      InsertCommand(Command(c.client, n, c.typ, c.payload), env);
    }

    /** The second half of handleClientCommand: a new command of a device that is in memory. */
    method InsertCommand(cmd: Command, env: Env)
      requires cmd.dev in devices
      modifies this
      ensures St() == HandleNew(old(St()), cmd, env)
    {
      if env.insert == Rejected {
        return;
      }
      rows := rows + [Row(cmd, false)];
      if env.insert == RowOnly {
        return;
      }
      maxSeq := cmd.seqNo;
      var d := devices[cmd.dev];
      devices := devices[cmd.dev := d.(recv := d.recv + [Queued(cmd, false)])];
      log := log + [Accepted(cmd)];
      seqNo := cmd.seqNo;
      ResponseCommandACK(env.published);
      if env.published {
        PushCommand(cmd.dev, env.sendOk);
      }
    }

    method HandleCommandDoneAck(id: Id, n: u32, env: Env)
      modifies this
      ensures St() == HandleDoneAck(old(St()), id, n, env)
    {
      var found := GetDevice(id, env);
      if !found {
        return;
      }
      var d := devices[id];
      if d.exec == [] {
        return;
      }
      var cmd := d.exec[0].cmd;
      if cmd.seqNo != n || !env.deleteOk {
        return;
      }
      rows := DeleteRows(rows, n);
      devices := devices[id := d.(exec := d.exec[1..])];
      log := log + [Completed(cmd)];
      var _ := ResponseCommandDONE(id, env);
    }

    method MarkCommandAsDone(id: Id, env: Env)
      requires id in devices && devices[id].recv != []
      modifies this`rows, this`devices, this`log
      ensures St() == if env.markOk then Mark(old(St()), id) else old(St())
    {
      var d := devices[id];
      var head := d.recv[0];
      if !env.markOk {
        return;
      }
      rows := MarkRows(rows, head.cmd.seqNo);
      devices := devices[id := d.(exec := d.exec + [head])];
      log := log + [Executed(head.cmd)];
      var _ := ResponseCommandDONE(id, env);
      devices := devices[id := devices[id].(recv := d.recv[1..])];
    }

    /** Runs when the CoAP layer completes an outstanding request of the device. */
    method DeviceCmdRespCallback(id: Id, r: Response, env: Env)
      requires id in devices && devices[id].outstanding > 0
      modifies this
      ensures St() == HandleResponse(old(St()), id, r, env)
    {
      var d := devices[id].(outstanding := devices[id].outstanding - 1);
      if d.recv == [] {
        devices := devices[id := d];
        return;
      }
      var idle := d.(recv := d.recv[0 := d.recv[0].(inProgress := false)]);
      if r == Ok {
        devices := devices[id := d.(timeouts := 0)];
        assert St() == SetDevice(old(St()), id, d.(timeouts := 0));
        MarkCommandAsDone(id, env);
        PushCommand(id, env.sendOk);
      } else if r == Timeout && d.timeouts != COMMAND_RETRY_NO {
        devices := devices[id := idle.(timeouts := d.timeouts + 1)];
        assert St() == SetDevice(old(St()), id, Idle(d).(timeouts := d.timeouts + 1));
        PushCommand(id, env.sendOk);
      } else {
        devices := devices[id := idle.(timeouts := 0)];
        assert St() == SetDevice(old(St()), id, Idle(d).(timeouts := 0));
      }
    }

    method StatusACKCallback(published: bool, ghost env: Env)
      requires ackScheduled && env.published == published
      modifies this
      ensures St() == Step(old(St()), AckAlarm, env)
    {
      ResponseCommandACK(published);
      if published {
        ackScheduled := false;
        ackCounter := 0;
      }
    }

    /** The body of alarmCallback for one device. */
    method AlarmForDevice(id: Id, env: Env)
      requires id in devices
      modifies this`devices, this`log
      ensures St() == Step(old(St()), PushAlarm(id), env)
      ensures devices.Keys == old(devices.Keys)
    {
      PushCommand(id, env.sendOk);
      if devices[id].exec != [] {
        var _ := ResponseCommandDONE(id, env);
      }
    }

    /**
     alarmCallback: for every device in memory, in the order of the hash map, push the head command
     and report the oldest executed one.  The alarm is a run of single-device steps.
     */
    method AlarmCallback(accepting: set<Id>, env: Env) returns (ghost order: seq<Id>)
      modifies this`devices, this`log
      ensures multiset(order) == multiset(old(devices.Keys))
      ensures St() == Run(old(St()), AlarmSteps(order, accepting, env))
    {
      var todo := devices.Keys;
      order := [];
      while todo != {}
        invariant multiset(order) + multiset(todo) == multiset(old(devices.Keys))
        invariant devices.Keys == old(devices.Keys) && todo <= devices.Keys
        invariant St() == Run(old(St()), AlarmSteps(order, accepting, env))
        decreases |todo|
      {
        var id :| id in todo;
        AlarmForDevice(id, env.(sendOk := id in accepting));
        RunAlarm(old(St()), order, id, accepting, env);
        todo := todo - {id};
        order := order + [id];
      }
    }
  }

  lemma {:induction false} RunAlarm(s: State, order: seq<Id>, id: Id, accepting: set<Id>, env: Env)
    ensures Run(s, AlarmSteps(order + [id], accepting, env))
         == Step(Run(s, AlarmSteps(order, accepting, env)), PushAlarm(id), env.(sendOk := id in accepting))
  {
    var steps := AlarmSteps(order + [id], accepting, env);
    assert steps[..|order|] == AlarmSteps(order, accepting, env);
  }

  ghost function AlarmSteps(order: seq<Id>, accepting: set<Id>, env: Env): (es: seq<(Event, Env)>)
    ensures |es| == |order|
  {
    seq(|order|, i requires 0 <= i < |order| => (PushAlarm(order[i]), env.(sendOk := order[i] in accepting)))
  }
}
