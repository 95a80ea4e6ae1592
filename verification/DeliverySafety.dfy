/**
 The delivery invariant holds in every run, and the steps that break it are known exactly.
 */
module DeliverySafety {
  import opened Machine
  import opened Sequences
  import opened DeliveryModel
  import opened DeliveryInvariant

  // ---------------------------------------------------------------- building blocks

  /** Replacing a device object keeps the invariant when the queues hold the same commands. */
  lemma {:induction false} InvDevice(s: State, id: Id, d: Device)
    requires Inv(s) && Agrees(d, DevRows(s.rows, id)) && FlightOk(d)
    ensures Inv(SetDevice(s, id, d))
  {
    var t := SetDevice(s, id, d);
    forall x ensures DeviceOk(t, x) { assert DeviceOk(s, x); }
  }

  /** The head of the received queue is the oldest accepted command that is not marked executed. */
  lemma {:induction false} HeadOfRecv(s: State, id: Id)
    requires Inv(s) && id in s.devices && s.devices[id].recv != []
    ensures MessageOk(s.log, Put(id, s.devices[id].recv[0].cmd.seqNo))
  {
    assert DeviceOk(s, id);
    assert Cmds(s.devices[id].recv)[0] == s.devices[id].recv[0].cmd;
  }

  /** The head of the executed queue is the oldest accepted command the cloud has not acknowledged. */
  lemma {:induction false} HeadOfExec(s: State, id: Id)
    requires Inv(s) && id in s.devices && s.devices[id].exec != []
    ensures MessageOk(s.log, DoneMsg(id, s.devices[id].exec[0].cmd.seqNo))
  {
    assert DeviceOk(s, id);
    assert Cmds(s.devices[id].exec)[0] == s.devices[id].exec[0].cmd;
  }

  lemma {:induction false} SentOk(d: Device, rs: seq<Row>)
    requires Agrees(d, rs) && FlightOk(d) && CanPush(d)
    ensures Agrees(Sent(d), rs) && FlightOk(Sent(d))
  {
    assert Cmds(Sent(d).recv) == Cmds(d.recv);
  }

  lemma {:induction false} InvPush(s: State, id: Id, sendOk: bool)
    requires Inv(s) && id in s.devices
    ensures Inv(Push(s, id, sendOk))
  {
    var d := s.devices[id];
    if CanPush(d) && sendOk {
      assert Inv(SetDevice(s, id, Sent(d))) by {
        assert DeviceOk(s, id);
        SentOk(d, DevRows(s.rows, id));
        InvDevice(s, id, Sent(d));
      }
      assert MessageOk(s.log, Put(id, d.recv[0].cmd.seqNo)) by { HeadOfRecv(s, id); }
      InvLogged(SetDevice(s, id, Sent(d)), Put(id, d.recv[0].cmd.seqNo));
    }
  }

  lemma {:induction false} InvSendDone(s: State, id: Id)
    requires Inv(s) && id in s.devices
    ensures Inv(SendDone(s, id))
  {
    if s.devices[id].exec != [] {
      HeadOfExec(s, id);
      InvLogged(s, DoneMsg(id, s.devices[id].exec[0].cmd.seqNo));
    }
  }

  /** The retry state is independent of everything else. */
  lemma {:induction false} InvRetry(s: State, scheduled: bool, counter: nat)
    requires Inv(s) && counter <= STATUS_RETRY_NO
    ensures Inv(s.(ackScheduled := scheduled, ackCounter := counter))
  {
    forall id ensures DeviceOk(s.(ackScheduled := scheduled, ackCounter := counter), id) { assert DeviceOk(s, id); }
  }

  lemma {:induction false} InvSendAck(s: State, published: bool)
    requires Inv(s)
    ensures Inv(SendAck(s, published))
  {
    var r := AckRetry(s.ackScheduled, s.ackCounter, published);
    InvLogged(s, AckMsg(s.seqNo));
    InvRetry(Logged(s, AckMsg(s.seqNo)), r.0, r.1);
  }

  /** A lazy load that reads all rows of the device rebuilds its queues. */
  lemma {:induction false} InvLoaded(s: State, id: Id, k: nat)
    requires Inv(s) && LoadComplete(s, id, k)
    ensures Inv(Loaded(s, id, k))
  {
    if id !in s.devices {
      var rs := DevRows(s.rows, id);
      var d := Load(rs, k);
      assert Cmds(d.recv) == WithFlag(rs, false) && Cmds(d.exec) == WithFlag(rs, true);
      InvDevice(s, id, d);
    }
  }

  lemma {:induction false} ConservedStore(log: seq<Out>, rs: seq<Row>, cmd: Command)
    requires Conserved(log, rs, cmd.dev)
    ensures Conserved(log + [Accepted(cmd)], rs + [Row(cmd, false)], cmd.dev)
  {
    LogAppend(log, Accepted(cmd), cmd.dev);
    WithFlagAppend(rs, Row(cmd, false), true);
    WithFlagAppend(rs, Row(cmd, false), false);
    assert WithFlag(rs, true) + [] == WithFlag(rs, true);
    assert ExecutedOf(log, cmd.dev) + (WithFlag(rs, false) + [cmd]) == AcceptedOf(log, cmd.dev) + [cmd];
  }

  lemma {:induction false} AgreesStore(d: Device, rs: seq<Row>, cmd: Command)
    requires Agrees(d, rs)
    ensures Agrees(d.(recv := d.recv + [Queued(cmd, false)]), rs + [Row(cmd, false)])
  {
    WithFlagAppend(rs, Row(cmd, false), true);
    WithFlagAppend(rs, Row(cmd, false), false);
    assert Cmds(d.recv + [Queued(cmd, false)]) == Cmds(d.recv) + [cmd];
  }

  lemma {:induction false} StoreSelf(s: State, cmd: Command)
    requires cmd.dev in s.devices && DeviceOk(s, cmd.dev)
    ensures DeviceOk(Store(s, cmd), cmd.dev)
  {
    hide DevRows, Conserved, Agrees;
    var t, id, rs := Store(s, cmd), cmd.dev, DevRows(s.rows, cmd.dev);
    assert t.log == s.log + [Accepted(cmd)] && t.rows == s.rows + [Row(cmd, false)];
    assert DevRows(t.rows, id) == rs + [Row(cmd, false)] by { DevRowsAppend(s.rows, Row(cmd, false), id); }
    ConservedStore(s.log, rs, cmd);
    assert t.devices[id] == s.devices[id].(recv := s.devices[id].recv + [Queued(cmd, false)]);
    AgreesStore(s.devices[id], rs, cmd);
  }

  lemma {:induction false} StoreOther(s: State, cmd: Command, id: Id)
    requires cmd.dev in s.devices && DeviceOk(s, id) && id != cmd.dev
    ensures DeviceOk(Store(s, cmd), id)
  {
    hide DevRows, Agrees, WithFlag, AcceptedOf, ExecutedOf, CompletedOf;
    var t, rs := Store(s, cmd), DevRows(s.rows, id);
    assert t.log == s.log + [Accepted(cmd)] && t.rows == s.rows + [Row(cmd, false)];
    assert DevRows(t.rows, id) == rs by { DevRowsAppend(s.rows, Row(cmd, false), id); Empty(rs); }
    assert Conserved(t.log, rs, id) by {
      LogAppend(s.log, Accepted(cmd), id);
      Empty(AcceptedOf(s.log, id));
      Empty(ExecutedOf(s.log, id));
      Empty(CompletedOf(s.log, id));
    }
    assert id in t.devices ==> id in s.devices && t.devices[id] == s.devices[id];
  }

  lemma {:induction false} InvStore(s: State, cmd: Command)
    requires Inv(s) && cmd.dev in s.devices && s.seqNo < cmd.seqNo
    ensures Inv(Store(s, cmd))
  {
    var t := Store(s, cmd);
    assert LogOk(t.log) by { LogOkAppend(s.log, Accepted(cmd)); }
    assert NumbersOk(t) by { NumbersStore(s, cmd); }
    forall id ensures DeviceOk(t, id) {
      assert DeviceOk(s, id);
      if id == cmd.dev { StoreSelf(s, cmd); } else { StoreOther(s, cmd, id); }
    }
  }

  lemma {:induction false} IncreasingAppend(ns: seq<u32>, n: u32)
    requires Increasing(ns) && Latest(ns) < n
    ensures Increasing(ns + [n]) && Latest(ns + [n]) == n
  {
    forall i | 0 <= i < |ns| ensures ns[i] < n {
      assert ns[i] <= ns[|ns| - 1];
    }
  }

  lemma {:induction false} NumbersStore(s: State, cmd: Command)
    requires NumbersOk(s) && cmd.dev in s.devices && s.seqNo < cmd.seqNo
    ensures NumbersOk(Store(s, cmd))
  {
    assert Numbers(s.log + [Accepted(cmd)]) == Numbers(s.log) + [cmd.seqNo] by {
      LogAppend(s.log, Accepted(cmd), cmd.dev);
    }
    IncreasingAppend(Numbers(s.log), cmd.seqNo);
  }

  /** The state after a command has moved to the executed queue, before DONE is reported. */
  function Marked(s: State, id: Id): State
    requires id in s.devices && s.devices[id].recv != []
  {
    var d := s.devices[id];
    Logged(SetDevice(s, id, d.(recv := d.recv[1..], exec := d.exec + [d.recv[0]])), Executed(d.recv[0].cmd))
      .(rows := MarkRows(s.rows, d.recv[0].cmd.seqNo))
  }

  lemma {:induction false} ConservedMark(log: seq<Out>, rs: seq<Row>, id: Id, cmd: Command)
    requires Conserved(log, rs, id) && IncreasingRows(rs) && ExecutedFirst(rs)
    requires WithFlag(rs, false) != [] && WithFlag(rs, false)[0] == cmd && cmd.dev == id
    ensures Conserved(log + [Executed(cmd)], MarkRows(rs, cmd.seqNo), id)
  {
    LogAppend(log, Executed(cmd), id);
    MarkOldest(rs, cmd.seqNo);
    MoveOver(ExecutedOf(log, id), WithFlag(rs, false));
    assert (CompletedOf(log, id) + WithFlag(rs, true)) + [cmd] == CompletedOf(log, id) + (WithFlag(rs, true) + [cmd]);
  }

  lemma {:induction false} MarkedSelf(s: State, id: Id)
    requires id in s.devices && s.devices[id].recv != [] && s.devices[id].outstanding == 0
    requires IncreasingRows(s.rows) && DeviceOk(s, id)
    ensures DeviceOk(Marked(s, id), id)
  {
    var d, rs := s.devices[id], DevRows(s.rows, id);
    var cmd := d.recv[0].cmd;
    assert Cmds(d.recv)[0] == cmd;
    QueuedRow(s.rows, id, false, id);
    DevRowsMark(s.rows, cmd.seqNo, id);
    DevRowsIncreasing(s.rows, id);
    ConservedMark(s.log, rs, id, cmd);
    MarkOldest(rs, cmd.seqNo);
    assert Cmds(d.recv[1..]) == Cmds(d.recv)[1..];
    assert Cmds(d.exec + [d.recv[0]]) == Cmds(d.exec) + [cmd];
  }

  lemma {:induction false} MarkedOther(s: State, id: Id, x: Id)
    requires id in s.devices && s.devices[id].recv != []
    requires IncreasingRows(s.rows) && DeviceOk(s, id) && DeviceOk(s, x) && x != id
    ensures DeviceOk(Marked(s, id), x)
  {
    var t, cmd := Marked(s, id), s.devices[id].recv[0].cmd;
    assert DevRows(t.rows, x) == DevRows(s.rows, x) by {
      assert Cmds(s.devices[id].recv)[0] == cmd;
      QueuedRow(s.rows, id, false, x);
      DevRowsMark(s.rows, cmd.seqNo, x);
      MarkAbsent(DevRows(s.rows, x), cmd.seqNo);
    }
    assert cmd.dev == id by {
      assert Cmds(s.devices[id].recv)[0] == cmd;
      QueuedRow(s.rows, id, false, id);
    }
    LogAppend(s.log, Executed(cmd), x);
  }

  lemma {:induction false} InvMarked(s: State, id: Id)
    requires Inv(s) && id in s.devices && s.devices[id].recv != [] && s.devices[id].outstanding == 0
    ensures Inv(Marked(s, id))
  {
    var t, cmd := Marked(s, id), s.devices[id].recv[0].cmd;
    assert LogOk(t.log) by { LogOkAppend(s.log, Executed(cmd)); }
    assert NumbersOk(t) by { LogAppend(s.log, Executed(cmd), id); }
    forall x ensures DeviceOk(t, x) {
      assert DeviceOk(s, id) && DeviceOk(s, x);
      if x == id { MarkedSelf(s, id); } else { MarkedOther(s, id, x); }
    }
  }

  lemma {:induction false} MoveOver<T>(a: seq<T>, b: seq<T>)
    requires b != []
    ensures a + b == (a + [b[0]]) + b[1..]
  {
  }

  lemma {:induction false} InvMark(s: State, id: Id)
    requires Inv(s) && id in s.devices && s.devices[id].recv != [] && s.devices[id].outstanding == 0
    ensures Inv(Mark(s, id))
  {
    InvMarked(s, id);
    InvSendDone(Marked(s, id), id);
    MarkIsMarked(s, id);
  }

  lemma {:induction false} MarkIsMarked(s: State, id: Id)
    requires id in s.devices && s.devices[id].recv != []
    ensures Mark(s, id) == SendDone(Marked(s, id), id)
  {
    var d := s.devices[id];
    var full := d.(recv := d.recv[1..], exec := d.exec + [d.recv[0]]);
    assert s.devices[id := d.(exec := d.exec + [d.recv[0]])][id := full] == s.devices[id := full];
  }

  lemma {:induction false} ConservedComplete(log: seq<Out>, rs: seq<Row>, id: Id, cmd: Command)
    requires Conserved(log, rs, id) && IncreasingRows(rs) && ExecutedFirst(rs)
    requires WithFlag(rs, true) != [] && WithFlag(rs, true)[0] == cmd && cmd.dev == id
    ensures Conserved(log + [Completed(cmd)], DeleteRows(rs, cmd.seqNo), id)
  {
    LogAppend(log, Completed(cmd), id);
    DeleteOldest(rs, cmd.seqNo);
    MoveOver(CompletedOf(log, id), WithFlag(rs, true));
  }

  lemma {:induction false} CompleteSelf(s: State, id: Id)
    requires id in s.devices && s.devices[id].exec != [] && IncreasingRows(s.rows) && DeviceOk(s, id)
    ensures DeviceOk(Complete(s, id), id)
  {
    hide DevRows, WithFlag, DeleteRows;
    var d, rs := s.devices[id], DevRows(s.rows, id);
    var cmd := d.exec[0].cmd;
    assert Cmds(d.exec)[0] == cmd;
    QueuedRow(s.rows, id, true, id);
    DevRowsDelete(s.rows, cmd.seqNo, id);
    DevRowsIncreasing(s.rows, id);
    ConservedComplete(s.log, rs, id, cmd);
    DeleteOldest(rs, cmd.seqNo);
    assert Cmds(d.exec[1..]) == Cmds(d.exec)[1..];
  }

  lemma {:induction false} CompleteOther(s: State, id: Id, x: Id)
    requires id in s.devices && s.devices[id].exec != [] && IncreasingRows(s.rows)
    requires DeviceOk(s, id) && DeviceOk(s, x) && x != id
    ensures DeviceOk(Complete(s, id), x)
  {
    var t, cmd := Complete(s, id), s.devices[id].exec[0].cmd;
    assert DevRows(t.rows, x) == DevRows(s.rows, x) by {
      assert Cmds(s.devices[id].exec)[0] == cmd;
      QueuedRow(s.rows, id, true, x);
      DevRowsDelete(s.rows, cmd.seqNo, x);
      DevRowsIncreasing(s.rows, x);
      DeleteHead(DevRows(s.rows, x), cmd.seqNo);
    }
    assert cmd.dev == id by {
      assert Cmds(s.devices[id].exec)[0] == cmd;
      QueuedRow(s.rows, id, true, id);
    }
    LogAppend(s.log, Completed(cmd), x);
  }

  lemma {:induction false} InvComplete(s: State, id: Id)
    requires Inv(s) && id in s.devices && s.devices[id].exec != []
    ensures Inv(Complete(s, id))
  {
    var t, cmd := Complete(s, id), s.devices[id].exec[0].cmd;
    assert LogOk(t.log) by { LogOkAppend(s.log, Completed(cmd)); }
    assert NumbersOk(t) by {
      LogAppend(s.log, Completed(cmd), id);
      DeleteIncreasing(s.rows, cmd.seqNo);
      DeleteIn(s.rows, cmd.seqNo);
      forall i | 0 <= i < |t.rows| ensures t.rows[i].cmd.seqNo <= t.maxSeq { assert t.rows[i] in s.rows; }
    }
    forall x ensures DeviceOk(t, x) {
      assert DeviceOk(s, id) && DeviceOk(s, x);
      if x == id { CompleteSelf(s, id); } else { CompleteOther(s, id, x); }
    }
  }

  // ---------------------------------------------------------------- the exact condition

  /** getDevice finds the object in memory or reads all its rows. */
  predicate LoadComplete(s: State, id: Id, k: nat)
  {
    id in s.devices || |DevRows(s.rows, id)| <= k
  }

  predicate AnswersDone(s: State, c: CloudCommand, env: Env)
    requires c.seqNo.Some?
  {
    env.executedOk && HasExecutedRow(s.rows, c.seqNo.value) && CanGet(s, c.client, env)
  }

  /**
   The guards under which a step keeps the gateway consistent.  A resent number must be the current
   one, as a cloud that waits for each acknowledgement before the next command guarantees; the row
   insert must not succeed without the update of the stored maximum; a lazy load must reach the
   last row; and a restart must be able to read a stored maximum other than 0.
   */
  predicate Clean(s: State, e: Event, env: Env)
  {
    match e
    case CloudSends(c) =>
      Admissible(c, env.claimed) ==>
        if c.seqNo.value <= s.seqNo then
          env.lookupOk && HasRow(s.rows, c.seqNo.value) ==>
            && c.seqNo.value == s.seqNo
            && (AnswersDone(s, c, env) ==> LoadComplete(s, c.client, env.rowsRead))
        else
          CanGet(s, c.client, env) ==> LoadComplete(s, c.client, env.rowsRead) && env.insert != RowOnly
    case CloudAcksDone(id, _) => CanGet(s, id, env) ==> LoadComplete(s, id, env.rowsRead)
    case Register(id) => CanGet(s, id, env) ==> LoadComplete(s, id, env.rowsRead)
    case Restart(ok) => ok || s.maxSeq == 0
    case _ => true
  }

  lemma {:induction false} CleanOld(s: State, n: u32, client: Id, env: Env)
    requires Inv(s) && n == s.seqNo
    requires env.executedOk && HasExecutedRow(s.rows, n) && CanGet(s, client, env) ==>
               LoadComplete(s, client, env.rowsRead)
    ensures Inv(HandleOld(s, n, client, env))
  {
    assert s.(seqNo := n) == s;
    if env.executedOk && HasExecutedRow(s.rows, n) && CanGet(s, client, env) {
      InvLoaded(s, client, env.rowsRead);
      InvSendDone(Loaded(s, client, env.rowsRead), client);
    } else {
      InvSendAck(s, env.published);
    }
  }

  lemma {:induction false} StoreKeeps(s: State, cmd: Command, published: bool)
    requires cmd.dev in s.devices
    ensures cmd.dev in Store(s, cmd).devices && SendAck(Store(s, cmd), published).devices == Store(s, cmd).devices
  {
  }

  lemma {:induction false} CleanNew(s: State, cmd: Command, env: Env)
    requires Inv(s) && cmd.dev in s.devices && s.seqNo < cmd.seqNo && env.insert != RowOnly
    ensures Inv(HandleNew(s, cmd, env))
  {
    hide Inv, Store, SendAck, Push;
    if env.insert == Stored {
      assert cmd.dev in Store(s, cmd).devices && cmd.dev in SendAck(Store(s, cmd), env.published).devices by {
        StoreKeeps(s, cmd, env.published);
      }
      InvStore(s, cmd);
      InvSendAck(Store(s, cmd), env.published);
      InvPush(SendAck(Store(s, cmd), env.published), cmd.dev, env.sendOk);
    }
  }

  lemma {:induction false} CleanCommand(s: State, c: CloudCommand, env: Env)
    requires Inv(s) && Clean(s, CloudSends(c), env)
    ensures Inv(HandleCommand(s, c, env))
  {
    hide Inv, HandleNew, LoadComplete, HasExecutedRow, SendDone, SendAck;
    if Admissible(c, env.claimed) {
      if c.seqNo.value == s.seqNo {
        if env.lookupOk && HasRow(s.rows, s.seqNo) { CleanOld(s, c.seqNo.value, c.client, env); }
      } else if s.seqNo < c.seqNo.value && CanGet(s, c.client, env) {
        InvLoaded(s, c.client, env.rowsRead);
        CleanNew(Loaded(s, c.client, env.rowsRead), Command(c.client, c.seqNo.value, c.typ, c.payload), env);
      }
    }
  }

  lemma {:induction false} CompleteKeeps(s: State, id: Id)
    requires id in s.devices && s.devices[id].exec != []
    ensures id in Complete(s, id).devices
  {
  }

  lemma {:induction false} CleanDoneAck(s: State, id: Id, n: u32, env: Env)
    requires Inv(s) && Clean(s, CloudAcksDone(id, n), env)
    ensures Inv(HandleDoneAck(s, id, n, env))
  {
    hide Inv, Loaded, LoadComplete, Complete, SendDone;
    if CanGet(s, id, env) {
      var t := Loaded(s, id, env.rowsRead);
      InvLoaded(s, id, env.rowsRead);
      if t.devices[id].exec != [] {
        CompleteKeeps(t, id);
        InvComplete(t, id);
        InvSendDone(Complete(t, id), id);
      }
    }
  }

  lemma {:induction false} IdleOk(d: Device, rs: seq<Row>, timeouts: nat)
    requires Agrees(d, rs) && FlightOk(d) && d.recv != [] && d.outstanding == 0 && timeouts <= COMMAND_RETRY_NO
    ensures Agrees(Idle(d).(timeouts := timeouts), rs) && FlightOk(Idle(d).(timeouts := timeouts))
  {
    assert Cmds(Idle(d).recv) == Cmds(d.recv);
  }

  lemma {:induction false} MarkKeeps(s: State, id: Id)
    requires id in s.devices && s.devices[id].recv != []
    ensures id in Mark(s, id).devices
  {
  }

  lemma {:induction false} OkInv(s: State, id: Id, d: Device, env: Env)
    requires Inv(s) && Agrees(d, DevRows(s.rows, id)) && FlightOk(d) && d.recv != [] && d.outstanding == 0
    ensures Inv(Answered(s, id, d, Ok, env))
  {
    hide Inv, DevRows, Mark, Push;
    var t := SetDevice(s, id, d.(timeouts := 0));
    InvDevice(s, id, d.(timeouts := 0));
    MarkKeeps(t, id);
    InvMark(t, id);
    InvPush(if env.markOk then Mark(t, id) else t, id, env.sendOk);
  }

  lemma {:induction false} IdleInv(s: State, id: Id, d: Device, r: Response, env: Env)
    requires Inv(s) && Agrees(d, DevRows(s.rows, id)) && FlightOk(d) && d.recv != [] && d.outstanding == 0
    requires r != Ok
    ensures Inv(Answered(s, id, d, r, env))
  {
    var rs := DevRows(s.rows, id);
    if r == Timeout && d.timeouts != COMMAND_RETRY_NO {
      var t := SetDevice(s, id, Idle(d).(timeouts := d.timeouts + 1));
      assert Inv(t) by {
        IdleOk(d, rs, d.timeouts + 1);
        InvDevice(s, id, Idle(d).(timeouts := d.timeouts + 1));
      }
      assert Answered(s, id, d, r, env) == Push(t, id, env.sendOk);
      InvPush(t, id, env.sendOk);
    } else {
      assert Answered(s, id, d, r, env) == SetDevice(s, id, Idle(d).(timeouts := 0));
      IdleOk(d, rs, 0);
      InvDevice(s, id, Idle(d).(timeouts := 0));
    }
  }

  lemma {:induction false} ResponseInv(s: State, id: Id, r: Response, env: Env)
    requires Inv(s)
    ensures Inv(HandleResponse(s, id, r, env))
  {
    hide Answered, DevRows;
    if id in s.devices && s.devices[id].outstanding != 0 {
      var d := s.devices[id].(outstanding := 0);
      assert Agrees(d, DevRows(s.rows, id)) && FlightOk(d) && d.recv != [] && s.devices[id].outstanding == 1 by {
        assert DeviceOk(s, id);
      }
      assert HandleResponse(s, id, r, env) == Answered(s, id, d, r, env);
      if r == Ok { OkInv(s, id, d, env); } else { IdleInv(s, id, d, r, env); }
    }
  }

  lemma {:induction false} CleanKeeps(s: State, e: Event, env: Env)
    requires Inv(s) && Clean(s, e, env)
    ensures Inv(Step(s, e, env))
  {
    hide Inv, HandleCommand, HandleDoneAck, HandleResponse, Loaded, LoadComplete, Push, SendDone, SendAck, Restarted;
    match e
    case CloudSends(c) => CleanCommand(s, c, env);
    case CloudAcksDone(id, n) => CleanDoneAck(s, id, n, env);
    case DeviceAnswers(id, r) => ResponseInv(s, id, r, env);
    case Register(id) =>
      if CanGet(s, id, env) {
        InvLoaded(s, id, env.rowsRead);
        RegisteredInv(Loaded(s, id, env.rowsRead), id, true);
      }
    case Expire(id) =>
      if id in s.devices { RegisteredInv(s, id, false); }
    case PushAlarm(id) =>
      if id in s.devices {
        InvPush(s, id, env.sendOk);
        PushKeeps(s, id, env.sendOk);
        InvSendDone(Push(s, id, env.sendOk), id);
      }
    case AckAlarm =>
      InvSendAck(s, env.published);
      InvRetry(SendAck(s, env.published), false, 0);
    case Restart(ok) => RestartInv(s, ok);
  }

  lemma {:induction false} PushKeeps(s: State, id: Id, sendOk: bool)
    requires id in s.devices
    ensures id in Push(s, id, sendOk).devices
  {
  }

  lemma {:induction false} RegisteredInv(s: State, id: Id, registered: bool)
    requires Inv(s) && id in s.devices
    ensures Inv(SetDevice(s, id, s.devices[id].(registered := registered)))
  {
    assert DeviceOk(s, id);
    hide Inv, DevRows;
    InvDevice(s, id, s.devices[id].(registered := registered));
  }

  /** The tables survive, and with them everything but the devices in memory. */
  lemma {:induction false} RestartInv(s: State, ok: bool)
    requires Inv(s) && (ok || s.maxSeq == 0)
    ensures Inv(Restarted(s, ok))
  {
    hide DevRows, Conserved, ExecutedFirst, Numbers, Increasing, IncreasingRows;
    forall id ensures DeviceOk(Restarted(s, ok), id) { assert DeviceOk(s, id); }
  }

  // ---------------------------------------------------------------- nothing weaker is enough

  /** The queues of a loaded device miss some of its rows. */
  ghost predicate Short(s: State, id: Id)
  {
    && id in s.devices
    && |s.devices[id].recv| + |s.devices[id].exec| < |DevRows(s.rows, id)|
  }

  lemma {:induction false} ShortIsBroken(s: State, id: Id)
    requires Short(s, id)
    ensures !Inv(s)
  {
    if Inv(s) {
      assert DeviceOk(s, id);
      FlagsCover(DevRows(s.rows, id));
    }
  }

  /** A load that stops early leaves the device short. */
  lemma {:induction false} TruncatedLoad(s: State, id: Id, k: nat)
    requires !LoadComplete(s, id, k)
    ensures Short(Loaded(s, id, k), id)
  {
    FlagsCover(DevRows(s.rows, id)[..k]);
  }

  lemma {:induction false} ShortCommand(s: State, c: CloudCommand, env: Env)
    requires Inv(s) && Admissible(c, env.claimed) && s.seqNo < c.seqNo.value && CanGet(s, c.client, env)
    requires !LoadComplete(s, c.client, env.rowsRead) || env.insert == RowOnly
    ensures Short(HandleCommand(s, c, env), c.client)
  {
    hide Inv, Short, HandleNew, LoadComplete;
    var t := Loaded(s, c.client, env.rowsRead);
    var cmd := Command(c.client, c.seqNo.value, c.typ, c.payload);
    if LoadComplete(s, c.client, env.rowsRead) {
      InvLoaded(s, c.client, env.rowsRead);
      ShortRowOnly(t, cmd, env);
    } else {
      TruncatedLoad(s, c.client, env.rowsRead);
      StaysShort(t, cmd, env);
    }
  }

  /** A row without its queue entry. */
  lemma {:induction false} ShortRowOnly(s: State, cmd: Command, env: Env)
    requires Inv(s) && cmd.dev in s.devices && env.insert == RowOnly
    ensures Short(HandleNew(s, cmd, env), cmd.dev)
  {
    assert Agrees(s.devices[cmd.dev], DevRows(s.rows, cmd.dev)) by { assert DeviceOk(s, cmd.dev); }
    hide Inv, DevRows, WithFlag;
    FlagsCover(DevRows(s.rows, cmd.dev));
    DevRowsAppend(s.rows, Row(cmd, false), cmd.dev);
  }

  /** Storing a command adds one row and at most one queue entry. */
  lemma {:induction false} StaysShort(s: State, cmd: Command, env: Env)
    requires Short(s, cmd.dev)
    ensures Short(HandleNew(s, cmd, env), cmd.dev)
  {
    hide DevRows;
    DevRowsAppend(s.rows, Row(cmd, false), cmd.dev);
    if env.insert == Stored {
      var t := SendAck(Store(s, cmd), env.published);
      assert t.devices[cmd.dev].exec == s.devices[cmd.dev].exec;
      assert |t.devices[cmd.dev].recv| == |s.devices[cmd.dev].recv| + 1;
    }
  }

  /** Deleting the acknowledged row cannot make up for rows the load missed. */
  lemma {:induction false} ShortDoneAck(s: State, id: Id, n: u32, env: Env)
    requires Inv(s) && CanGet(s, id, env) && !LoadComplete(s, id, env.rowsRead)
    ensures Short(HandleDoneAck(s, id, n, env), id)
  {
    TruncatedLoad(s, id, env.rowsRead);
    var t := Loaded(s, id, env.rowsRead);
    var d := t.devices[id];
    var rs := DevRows(s.rows, id);
    if d.exec != [] && d.exec[0].cmd.seqNo == n && env.deleteOk {
      DevRowsDelete(s.rows, n, id);
      DevRowsIncreasing(s.rows, id);
      assert DeviceOk(s, id);
      LoadedHead(rs, env.rowsRead);
      DeleteOldest(rs, n);
    }
  }

  /** A load of any prefix finds the oldest executed command at its head, if it finds one. */
  lemma {:induction false} LoadedHead(rs: seq<Row>, k: nat)
    requires k <= |rs| && WithFlag(rs[..k], true) != []
    ensures WithFlag(rs, true) != [] && WithFlag(rs, true)[0] == WithFlag(rs[..k], true)[0]
    decreases |rs|
  {
    if k == |rs| {
      assert rs[..k] == rs;
    } else {
      var init := rs[..|rs| - 1];
      assert init[..k] == rs[..k];
      LoadedHead(init, k);
    }
  }

  lemma {:induction false} UncleanBreaks(s: State, e: Event, env: Env)
    requires Inv(s) && !Clean(s, e, env)
    ensures !Inv(Step(s, e, env))
  {
    hide Inv, HandleOld, HandleNew, HandleDoneAck, LoadComplete, Loaded, Short, Restarted, HasRow, HasExecutedRow;
    var t := Step(s, e, env);
    match e
    case CloudSends(c) =>
      if c.seqNo.value <= s.seqNo {
        UncleanOld(s, c, env);
      } else {
        ShortCommand(s, c, env);
        ShortIsBroken(t, c.client);
      }
    case CloudAcksDone(id, n) =>
      ShortDoneAck(s, id, n, env);
      ShortIsBroken(t, id);
    case Register(id) =>
      TruncatedLoad(s, id, env.rowsRead);
      ShortRegistered(Loaded(s, id, env.rowsRead), id);
      ShortIsBroken(t, id);
    case Restart(ok) => UncleanRestart(s, ok);
  }

  lemma {:induction false} ShortRegistered(s: State, id: Id)
    requires Short(s, id)
    ensures Short(SetDevice(s, id, s.devices[id].(registered := true)), id)
  {
  }

  lemma {:induction false} UncleanRestart(s: State, ok: bool)
    requires !ok && s.maxSeq != 0
    ensures !Inv(Restarted(s, ok))
  {
    hide DeviceOk, LogOk, Numbers;
  }

  lemma {:induction false} UncleanOld(s: State, c: CloudCommand, env: Env)
    requires Inv(s) && Admissible(c, env.claimed) && c.seqNo.value <= s.seqNo && !Clean(s, CloudSends(c), env)
    ensures !Inv(HandleOld(s, c.seqNo.value, c.client, env))
  {
    assert s.seqNo == s.maxSeq;
    hide Inv, LoadComplete, Short, HasRow, HasExecutedRow;
    var t := HandleOld(s, c.seqNo.value, c.client, env);
    if c.seqNo.value != s.seqNo {
      assert t.seqNo == c.seqNo.value && t.maxSeq == s.maxSeq;
      NumbersDiffer(t);
    } else {
      assert s.(seqNo := c.seqNo.value) == s;
      TruncatedLoad(s, c.client, env.rowsRead);
      DoneStaysShort(Loaded(s, c.client, env.rowsRead), c.client);
      ShortIsBroken(t, c.client);
    }
  }

  lemma {:induction false} NumbersDiffer(s: State)
    requires s.seqNo != s.maxSeq
    ensures !Inv(s)
  {
    hide DeviceOk, LogOk, Numbers;
  }

  lemma {:induction false} DoneStaysShort(s: State, id: Id)
    requires Short(s, id)
    ensures Short(SendDone(s, id), id)
  {
  }

  /**
   Main result for one step: from a consistent state, a step leads to a consistent state if and only
   if it is clean.
   */
  lemma {:induction false} StepExact(s: State, e: Event, env: Env)
    requires Inv(s)
    ensures Inv(Step(s, e, env)) <==> Clean(s, e, env)
  {
    if Clean(s, e, env) { CleanKeeps(s, e, env); } else { UncleanBreaks(s, e, env); }
  }

  /** Every state of the run, the first and the last included, is consistent. */
  ghost predicate AlwaysInv(s: State, es: seq<(Event, Env)>)
  {
    Inv(Run(s, es)) && (es != [] ==> AlwaysInv(s, es[..|es| - 1]))
  }

  ghost predicate AlwaysClean(s: State, es: seq<(Event, Env)>)
  {
    es != [] ==>
      var init, last := es[..|es| - 1], es[|es| - 1];
      AlwaysClean(s, init) && Clean(Run(s, init), last.0, last.1)
  }

  lemma {:induction false} InitInv(known: set<Id>)
    ensures Inv(Init(known))
  {
    forall id ensures DeviceOk(Init(known), id) { }
  }

  /**
   Main result for runs: starting from a fresh installation, every state of a run is consistent if
   and only if every step of it is clean.
   */
  lemma {:induction false} RunExact(known: set<Id>, es: seq<(Event, Env)>)
    ensures AlwaysInv(Init(known), es) <==> AlwaysClean(Init(known), es)
  {
    if es == [] {
      InitInv(known);
    } else {
      var init, last := es[..|es| - 1], es[|es| - 1];
      RunExact(known, init);
      if AlwaysInv(Init(known), init) { StepExact(Run(Init(known), init), last.0, last.1); }
    }
  }
}
