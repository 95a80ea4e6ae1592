/**
 What each message, answer and alarm brings about: which entry it adds to the history, what it refuses,
 and that without faults every accepted command is delivered, executed and completed.
 */
module DeliveryEffects {
  import opened Machine
  import opened Sequences
  import opened DeliveryModel
  import opened DeliveryInvariant
  import opened DeliverySafety
  import opened DeliveryTheorems

  // ---------------------------------------------------------------- commands of the cloud

  /** A command that is incomplete, or not signed while the gateway has an owner, changes nothing. */
  lemma {:induction false} CommandRefused(s: State, c: CloudCommand, env: Env)
    requires c.seqNo == None || c.client == Id("") || c.typ == "" || (env.claimed && !c.signatureOk)
    ensures Step(s, CloudSends(c), env) == s
  {
    hide HandleOld, HandleNew;
  }

  /** Neither does one for a device the gateway does not know, or whose key it cannot read. */
  lemma {:induction false} UnknownRefused(s: State, c: CloudCommand, env: Env)
    requires c.seqNo.Some? && c.seqNo.value > s.seqNo
    requires c.client !in s.devices && (c.client !in s.known || !env.keyOk)
    ensures Step(s, CloudSends(c), env) == s
  {
    hide HandleOld, HandleNew;
  }

  /** A device just brought to memory is not registered, and nothing is on its way to it. */
  lemma {:induction false} FreshlyLoaded(s: State, id: Id, k: nat)
    requires id !in s.devices
    ensures var t := Loaded(s, id, k);
            && t == s.(devices := s.devices[id := t.devices[id]])
            && !t.devices[id].registered && t.devices[id].outstanding == 0 && t.devices[id].timeouts == 0
            && forall q :: q in t.devices[id].recv + t.devices[id].exec ==> !q.inProgress
  {
    hide DevRows, WithFlag;
  }

  /** The command is complete and, if the gateway has an owner, signed. */
  predicate WellFormed(c: CloudCommand, n: u32, env: Env)
  {
    c.seqNo == Some(n) && c.client != Id("") && c.typ != "" && (!env.claimed || c.signatureOk)
  }

  /** The device is in memory, or can be brought there. */
  predicate Found(s: State, id: Id, env: Env)
  {
    id in s.devices || (id in s.known && env.keyOk)
  }

  /**
   A new number is stored as it was sent and acknowledged; if MQTT takes the ACK, the head of the queue is
   transmitted unless it is on its way already.  A failing insert accepts nothing.
   */
  lemma {:induction false} CommandAccepted(s: State, c: CloudCommand, n: u32, env: Env)
    requires WellFormed(c, n, env) && n > s.seqNo && Found(s, c.client, env)
    ensures var l, t := Loaded(s, c.client, env.rowsRead), Step(s, CloudSends(c), env);
            var d, cmd := l.devices[c.client], Command(c.client, n, c.typ, c.payload);
            match env.insert {
              case Rejected => t == l
              case RowOnly => t == l.(rows := s.rows + [Row(cmd, false)])
              case Stored =>
                var pushed := env.published && env.sendOk && d.registered && (d.recv == [] || !d.recv[0].inProgress);
                var head := if d.recv == [] then n else d.recv[0].cmd.seqNo;
                && t.rows == s.rows + [Row(cmd, false)] && t.seqNo == t.maxSeq == n
                && t.log == s.log + [Accepted(cmd)] + [AckMsg(n)] + (if pushed then [Put(c.client, head)] else [])
                && Cmds(t.devices[c.client].recv) == Cmds(d.recv) + [cmd] && t.devices[c.client].exec == d.exec
                && t.devices[c.client].registered == d.registered && t.devices[c.client].timeouts == d.timeouts
                && t.devices[c.client].outstanding == d.outstanding + (if pushed then 1 else 0)
                && (pushed ==> t.devices[c.client].recv[0].inProgress)
                && t.devices - {c.client} == s.devices - {c.client}
                && (env.published ==> t.ackScheduled == s.ackScheduled && t.ackCounter == s.ackCounter)
            }
  {
    var l, cmd := Loaded(s, c.client, env.rowsRead), Command(c.client, n, c.typ, c.payload);
    NewStep(s, c, env);
    hide Step, Load;
    if env.insert == Stored {
      assert l.log == s.log && l.rows == s.rows && l.devices - {c.client} == s.devices - {c.client};
      StoredEffect(l, cmd, env);
    }
  }

  lemma {:induction false} StoredEffect(s: State, cmd: Command, env: Env)
    requires cmd.dev in s.devices && env.insert == Stored
    ensures var d, t := s.devices[cmd.dev], HandleNew(s, cmd, env);
            var pushed := env.published && env.sendOk && d.registered && (d.recv == [] || !d.recv[0].inProgress);
            var head := if d.recv == [] then cmd.seqNo else d.recv[0].cmd.seqNo;
            && t.rows == s.rows + [Row(cmd, false)] && t.seqNo == t.maxSeq == cmd.seqNo
            && t.log == s.log + [Accepted(cmd)] + [AckMsg(cmd.seqNo)] + (if pushed then [Put(cmd.dev, head)] else [])
            && Cmds(t.devices[cmd.dev].recv) == Cmds(d.recv) + [cmd] && t.devices[cmd.dev].exec == d.exec
            && t.devices[cmd.dev].registered == d.registered && t.devices[cmd.dev].timeouts == d.timeouts
            && t.devices[cmd.dev].outstanding == d.outstanding + (if pushed then 1 else 0)
            && (pushed ==> t.devices[cmd.dev].recv[0].inProgress)
            && t.devices - {cmd.dev} == s.devices - {cmd.dev}
            && (env.published ==> t.ackScheduled == s.ackScheduled && t.ackCounter == s.ackCounter)
  {
    var u := SendAck(Store(s, cmd), env.published);
    var q := s.devices[cmd.dev].recv + [Queued(cmd, false)];
    assert u.devices[cmd.dev] == s.devices[cmd.dev].(recv := q);
    assert Cmds(q) == Cmds(s.devices[cmd.dev].recv) + [cmd];
    assert Cmds(q[0 := q[0].(inProgress := true)]) == Cmds(q);
  }

  /**
   A number not above the current one that is in the table becomes the current one.  If its command is
   executed the answer is DONE, for the oldest executed command of the device; otherwise it is ACK.
   */
  lemma {:induction false} ResendAnswered(s: State, c: CloudCommand, n: u32, r: Row, env: Env)
    requires Inv(s) && WellFormed(c, n, env) && n <= s.seqNo && env.lookupOk && r in s.rows && r.cmd.seqNo == n
    ensures var t := Step(s, CloudSends(c), env);
            && t.seqNo == n && t.rows == s.rows && t.maxSeq == s.maxSeq
            && if r.executed && env.executedOk then
                 if !Found(s, c.client, env) then t.log == s.log
                 else
                   var d := Loaded(s, c.client, env.rowsRead).devices[c.client];
                   t.log == s.log + if d.exec == [] then [] else [DoneMsg(c.client, d.exec[0].cmd.seqNo)]
               else t.log == s.log + [AckMsg(n)] && t.devices == s.devices
  {
    var i :| 0 <= i < |s.rows| && s.rows[i] == r;
    assert HasRow(s.rows, n);
    assert HasExecutedRow(s.rows, n) <==> r.executed by {
      if HasExecutedRow(s.rows, n) {
        var j :| 0 <= j < |s.rows| && s.rows[j].cmd.seqNo == n && s.rows[j].executed;
        SameNumberSameRow(s.rows, s.rows[j], r);
      }
    }
    hide Inv, HasRow, HasExecutedRow, AckRetry, Load;
    OldStep(s, c, env);
  }

  /** A number that is not above the current one and not in the table, or cannot be looked up, changes nothing. */
  lemma {:induction false} ResendAbsent(s: State, c: CloudCommand, n: u32, env: Env)
    requires WellFormed(c, n, env) && n <= s.seqNo
    requires !env.lookupOk || forall r :: r in s.rows ==> r.cmd.seqNo != n
    ensures Step(s, CloudSends(c), env) == s
  {
    if HasRow(s.rows, n) {
      var i :| 0 <= i < |s.rows| && s.rows[i].cmd.seqNo == n;
      assert s.rows[i] in s.rows;
    }
    hide HasRow, HasExecutedRow, SendDone, SendAck;
    OldStep(s, c, env);
  }

  // ---------------------------------------------------------------- acknowledgements of the cloud

  /**
   The acknowledgement of the oldest executed command completes exactly that command: its row is deleted, it
   leaves the queue and the next executed one is reported.  Any other number changes nothing.
   */
  lemma {:induction false} DoneAcknowledged(s: State, id: Id, n: u32, env: Env)
    requires Inv(s) && Found(s, id, env) && LoadComplete(s, id, env.rowsRead)
    ensures var l, t := Loaded(s, id, env.rowsRead), Step(s, CloudAcksDone(id, n), env);
            var d := l.devices[id];
            if d.exec != [] && d.exec[0].cmd.seqNo == n && env.deleteOk then
              && t.log == s.log + [Completed(d.exec[0].cmd)] +
                          (if |d.exec| > 1 then [DoneMsg(id, d.exec[1].cmd.seqNo)] else [])
              && CompletedOf(t.log, id) == CompletedOf(s.log, id) + [d.exec[0].cmd]
              && (forall r :: r in t.rows <==> r in s.rows && r.cmd.seqNo != n)
              && t.devices == l.devices[id := d.(exec := d.exec[1..])]
            else t == l && CompletedOf(t.log, id) == CompletedOf(s.log, id) && t.rows == s.rows
  {
    var l := Loaded(s, id, env.rowsRead);
    var d := l.devices[id];
    InvLoaded(s, id, env.rowsRead);
    assert l.log == s.log && l.rows == s.rows;
    if d.exec != [] && d.exec[0].cmd.seqNo == n && env.deleteOk {
      var cmd := d.exec[0].cmd;
      assert cmd.dev == id by {
        assert DeviceOk(l, id);
        assert Cmds(d.exec)[0] == cmd;
        QueuedRow(l.rows, id, true, id);
      }
      hide Inv, DevRows, CompletedOf, DeleteRows, LoadComplete;
      DeleteIn(s.rows, n);
      LogAppend(s.log, Completed(cmd), id);
      if |d.exec| > 1 {
        LogAppend(s.log + [Completed(cmd)], DoneMsg(id, d.exec[1].cmd.seqNo), id);
        Empty(CompletedOf(s.log, id) + [cmd]);
      } else {
        Empty(s.log + [Completed(cmd)]);
      }
    }
  }

  /** Acknowledgements and registrations of a device that cannot be found change nothing. */
  lemma {:induction false} UnknownIgnored(s: State, id: Id, n: u32, env: Env)
    requires !Found(s, id, env)
    ensures Step(s, CloudAcksDone(id, n), env) == Step(s, Register(id), env) == s
    ensures Step(s, Expire(id), env) == Step(s, PushAlarm(id), env) == s
  {
  }

  // ---------------------------------------------------------------- answers of a device

  /** The number of the oldest command of the device that is executed and not acknowledged, after `cmd` is. */
  function OldestAfter(d: Device, cmd: Command): u32
  {
    if d.exec == [] then cmd.seqNo else d.exec[0].cmd.seqNo
  }

  /**
   A confirmed command is marked in its row and moves to the executed queue; DONE goes to the cloud for the
   oldest executed one, and the next received command is transmitted.
   */
  lemma {:induction false} AnswerConfirms(s: State, id: Id, env: Env)
    requires Inv(s) && id in s.devices && s.devices[id].outstanding == 1 && env.markOk
    ensures s.devices[id].recv != []
    ensures var d, t := s.devices[id], Step(s, DeviceAnswers(id, Ok), env);
            var cmd, pushed := d.recv[0].cmd, |d.recv| > 1 && d.registered && env.sendOk;
            && t.log == s.log + [Executed(cmd)] + [DoneMsg(id, OldestAfter(d, cmd))] +
                        (if pushed then [Put(id, d.recv[1].cmd.seqNo)] else [])
            && |t.rows| == |s.rows|
            && (forall i :: 0 <= i < |s.rows| ==>
                  t.rows[i] == Row(s.rows[i].cmd, s.rows[i].executed || s.rows[i].cmd.seqNo == cmd.seqNo))
            && t.devices - {id} == s.devices - {id} && id in t.devices
            && Cmds(t.devices[id].recv) == Cmds(d.recv)[1..] && Cmds(t.devices[id].exec) == Cmds(d.exec) + [cmd]
            && t.devices[id].registered == d.registered && t.devices[id].timeouts == 0
            && t.devices[id].outstanding == (if pushed then 1 else 0)
            && (t.devices[id].recv != [] ==> (t.devices[id].recv[0].inProgress <==> pushed))
  {
    var d := s.devices[id];
    assert FlightOk(d) by { assert DeviceOk(s, id); }
    hide Inv;
    var u := SetDevice(s, id, d.(outstanding := 0, timeouts := 0));
    MarkEffect(u, id);
    var v := Mark(u, id);
    var cmd := d.recv[0].cmd;
    assert Step(s, DeviceAnswers(id, Ok), env) == Push(v, id, env.sendOk) by { ConfirmStep(s, id, env); }
    hide Step, Mark, MarkRows;
    var q := v.devices[id].recv;
    assert v.devices[id] == u.devices[id].(recv := d.recv[1..], exec := d.exec + [d.recv[0]]);
    assert Cmds(d.recv[1..]) == Cmds(d.recv)[1..] && Cmds(d.exec + [d.recv[0]]) == Cmds(d.exec) + [cmd];
    if q != [] {
      assert q[0] == d.recv[1] && !q[0].inProgress;
      assert Cmds(q[0 := q[0].(inProgress := true)]) == Cmds(q);
    }
  }

  lemma {:induction false} ConfirmStep(s: State, id: Id, env: Env)
    requires id in s.devices && s.devices[id].outstanding == 1 && s.devices[id].recv != [] && env.markOk
    ensures var u := SetDevice(s, id, s.devices[id].(outstanding := 0, timeouts := 0));
            Step(s, DeviceAnswers(id, Ok), env) == Push(Mark(u, id), id, env.sendOk)
  {
    hide Push, Mark;
    var d := s.devices[id].(outstanding := 0);
    assert d.(timeouts := 0) == s.devices[id].(outstanding := 0, timeouts := 0);
  }

  lemma {:induction false} MarkEffect(s: State, id: Id)
    requires id in s.devices && s.devices[id].recv != []
    ensures var d, t := s.devices[id], Mark(s, id);
            var cmd := d.recv[0].cmd;
            && t.log == s.log + [Executed(cmd)] + [DoneMsg(id, OldestAfter(d, cmd))]
            && t.rows == MarkRows(s.rows, cmd.seqNo)
            && t.devices == s.devices[id := d.(recv := d.recv[1..], exec := d.exec + [d.recv[0]])]
  {
    hide MarkRows;
    MarkIsMarked(s, id);
    var t := Marked(s, id);
    assert t.devices[id].exec[0] == if s.devices[id].exec == [] then s.devices[id].recv[0] else s.devices[id].exec[0];
  }

  /** Whatever else a device answers, and an answer nobody waits for, leaves table, queues and history alone. */
  lemma {:induction false} AnswerFails(s: State, id: Id, r: Response, env: Env)
    requires Inv(s) && !(r == Ok && env.markOk)
    ensures var t := Step(s, DeviceAnswers(id, r), env);
            && t.rows == s.rows && t.seqNo == s.seqNo && t.maxSeq == s.maxSeq
            && t.devices.Keys == s.devices.Keys && t.devices - {id} == s.devices - {id}
            && (id !in s.devices || s.devices[id].outstanding == 0 ==> t == s)
            && (id in s.devices && s.devices[id].outstanding == 1 ==>
                  var d, e := s.devices[id], t.devices[id];
                  var pushed := r == Timeout && d.timeouts < COMMAND_RETRY_NO && d.registered && env.sendOk;
                  && d.recv != [] && Cmds(e.recv) == Cmds(d.recv) && e.exec == d.exec && e.registered == d.registered
                  && t.log == s.log + (if pushed then [Put(id, d.recv[0].cmd.seqNo)] else [])
                  && e.outstanding == (if pushed then 1 else 0)
                  && (e.recv[0].inProgress <==> pushed || r == Ok)
                  && e.timeouts == if r == Timeout && d.timeouts < COMMAND_RETRY_NO then d.timeouts + 1 else 0)
  {
    if id in s.devices && s.devices[id].outstanding != 0 {
      assert FlightOk(s.devices[id]) by { assert DeviceOk(s, id); }
      hide Inv;
      FailedAnswer(s, id, r, env);
    }
  }

  lemma {:induction false} FailedAnswer(s: State, id: Id, r: Response, env: Env)
    requires id in s.devices && FlightOk(s.devices[id]) && s.devices[id].outstanding == 1 && !(r == Ok && env.markOk)
    ensures var d, t := s.devices[id], Step(s, DeviceAnswers(id, r), env);
            var pushed := r == Timeout && d.timeouts < COMMAND_RETRY_NO && d.registered && env.sendOk;
            && t == s.(devices := t.devices, log := t.log) && t.devices.Keys == s.devices.Keys
            && t.devices - {id} == s.devices - {id} && d.recv != []
            && var e := t.devices[id];
               && Cmds(e.recv) == Cmds(d.recv) && e.exec == d.exec && e.registered == d.registered
               && t.log == s.log + (if pushed then [Put(id, d.recv[0].cmd.seqNo)] else [])
               && e.outstanding == (if pushed then 1 else 0)
               && (e.recv[0].inProgress <==> pushed || r == Ok)
               && e.timeouts == if r == Timeout && d.timeouts < COMMAND_RETRY_NO then d.timeouts + 1 else 0
  {
    var d := s.devices[id];
    var t := Step(s, DeviceAnswers(id, r), env);
    var q := d.recv[0 := d.recv[0].(inProgress := false)];
    HeadOnly(d.recv, false);
    HeadOnly(q, true);
    hide Cmds;
    var e := d.(recv := q, outstanding := 0);
    match r
    case Ok => assert t == SetDevice(s, id, d.(outstanding := 0, timeouts := 0));
    case Error => assert t == SetDevice(s, id, e.(timeouts := 0));
    case Timeout =>
      if d.timeouts == COMMAND_RETRY_NO {
        assert t == SetDevice(s, id, e.(timeouts := 0));
      } else {
        assert t == Push(SetDevice(s, id, e.(timeouts := d.timeouts + 1)), id, env.sendOk);
      }
  }

  lemma {:induction false} HeadOnly(qs: seq<Queued>, inProgress: bool)
    requires qs != []
    ensures Cmds(qs[0 := qs[0].(inProgress := inProgress)]) == Cmds(qs)
  {
  }

  // ---------------------------------------------------------------- alarms and registrations

  /** The periodic alarm transmits the head of the queue unless it is on its way, and reports DONE again. */
  lemma {:induction false} AlarmPushes(s: State, id: Id, env: Env)
    requires id in s.devices
    ensures var d, t := s.devices[id], Step(s, PushAlarm(id), env);
            var pushed := d.recv != [] && d.registered && !d.recv[0].inProgress && env.sendOk;
            && t.log == s.log + (if pushed then [Put(id, d.recv[0].cmd.seqNo)] else []) +
                        (if d.exec == [] then [] else [DoneMsg(id, d.exec[0].cmd.seqNo)])
            && t == s.(devices := t.devices, log := t.log) && t.devices - {id} == s.devices - {id} && id in t.devices
            && Cmds(t.devices[id].recv) == Cmds(d.recv) && t.devices[id].exec == d.exec
            && t.devices[id].registered == d.registered && t.devices[id].timeouts == d.timeouts
            && t.devices[id].outstanding == d.outstanding + (if pushed then 1 else 0)
            && (d.recv != [] ==> (t.devices[id].recv[0].inProgress <==> pushed || d.recv[0].inProgress))
  {
    var d := s.devices[id];
    Empty(s.log);
    if d.recv != [] {
      var q := d.recv[0 := d.recv[0].(inProgress := true)];
      assert Cmds(q) == Cmds(d.recv);
      Empty(s.log + [Put(id, d.recv[0].cmd.seqNo)]);
    }
  }

  /** The ACK alarm repeats the current number while it is scheduled; one that MQTT takes is the last. */
  lemma {:induction false} AckAlarmRepeats(s: State, env: Env)
    ensures var t := Step(s, AckAlarm, env);
            && t.log == s.log + (if s.ackScheduled then [AckMsg(s.seqNo)] else [])
            && (env.published ==> !t.ackScheduled && (s.ackScheduled ==> t.ackCounter == 0))
            && t == s.(log := t.log, ackScheduled := t.ackScheduled, ackCounter := t.ackCounter)
  {
    Empty(s.log);
  }

  /** Registration and expiry change whether commands are transmitted, and nothing else. */
  lemma {:induction false} RegistrationOnly(s: State, id: Id, env: Env)
    requires Found(s, id, env)
    ensures var l := Loaded(s, id, env.rowsRead);
            && Step(s, Register(id), env) == l.(devices := l.devices[id := l.devices[id].(registered := true)])
            && Step(l, Expire(id), env) == l.(devices := l.devices[id := l.devices[id].(registered := false)])
  {
  }

  /** What an operator can do about a device that is stuck: after a restart its command is transmitted again. */
  lemma {:induction false} RestartUnsticks(s: State, id: Id, env: Env)
    requires Inv(s) && id in s.devices && s.devices[id].recv != []
    requires id in s.known && env.keyOk && env.sendOk && |DevRows(s.rows, id)| <= env.rowsRead
    ensures var d := s.devices[id];
            var t := Step(Step(Step(s, Restart(true), env), Register(id), env), PushAlarm(id), env);
            && t.log == s.log + [Put(id, d.recv[0].cmd.seqNo)] +
                        (if d.exec == [] then [] else [DoneMsg(id, d.exec[0].cmd.seqNo)])
            && t.rows == s.rows && t.seqNo == t.maxSeq == s.maxSeq && t.devices.Keys == {id}
            && Cmds(t.devices[id].recv) == Cmds(d.recv) && Cmds(t.devices[id].exec) == Cmds(d.exec)
            && !Stuck(t.devices[id]) && t.devices[id].outstanding == 1
  {
    var d, r := s.devices[id], Step(s, Restart(true), env);
    RestartRebuilds(s, id, env.rowsRead);
    assert r == Restarted(s, true) && Loaded(r, id, env.rowsRead).devices.Keys == {id};
    RegistrationOnly(r, id, env);
    var u := Step(r, Register(id), env);
    var q := u.devices[id];
    assert q.registered && q.outstanding == 0 && u.log == s.log && u.rows == s.rows && u.devices.Keys == {id};
    assert Cmds(q.recv) == Cmds(d.recv) && Cmds(q.exec) == Cmds(d.exec);
    assert q.recv[0] in q.recv + q.exec && !q.recv[0].inProgress;
    hide Step, Inv, Loaded, Restarted, DevRows;
    SameHead(q.recv, d.recv);
    if q.exec != [] { SameHead(q.exec, d.exec); }
    assert q.exec == [] <==> d.exec == [];
    AlarmPushes(u, id, env);
  }

  lemma {:induction false} SameHead(a: seq<Queued>, b: seq<Queued>)
    requires Cmds(a) == Cmds(b) && a != []
    ensures b != [] && a[0].cmd == b[0].cmd
  {
    assert |Cmds(a)| == |Cmds(b)| && Cmds(a)[0] == a[0].cmd && Cmds(b)[0] == b[0].cmd;
  }

  // ---------------------------------------------------------------- where history comes from

  /** The queues of a device hold commands for it. */
  ghost predicate Owned(d: Device, id: Id)
  {
    forall q :: q in d.recv + d.exec ==> q.cmd.dev == id
  }

  ghost predicate AllOwned(s: State)
  {
    forall id :: id in s.devices ==> Owned(s.devices[id], id)
  }

  /** The event can make the gateway report DONE for the device. */
  predicate Reports(e: Event, id: Id)
  {
    match e
    case CloudSends(c) => c.client == id
    case CloudAcksDone(client, _) => client == id
    case _ => e == DeviceAnswers(id, Ok) || e == PushAlarm(id)
  }

  /** The event can make the gateway transmit a command to the device. */
  predicate Transmits(e: Event, id: Id)
  {
    match e
    case CloudSends(c) => c.client == id
    case DeviceAnswers(dev, r) => dev == id && r != Error
    case _ => e == PushAlarm(id)
  }

  /** The event that can add the entry to the history. */
  predicate Causes(e: Event, env: Env, o: Out)
  {
    match o
    case Accepted(cmd) =>
      && e.CloudSends? && e.cmd.seqNo == Some(cmd.seqNo) && e.cmd.client == cmd.dev != Id("")
      && e.cmd.typ == cmd.typ != "" && e.cmd.payload == cmd.payload
      && (env.claimed ==> e.cmd.signatureOk) && env.insert == Stored
    case Executed(cmd) => e == DeviceAnswers(cmd.dev, Ok) && env.markOk
    case Completed(cmd) => e == CloudAcksDone(cmd.dev, cmd.seqNo) && env.deleteOk
    case AckMsg(_) => e.CloudSends? || e.AckAlarm?
    case DoneMsg(id, _) => Reports(e, id)
    case Put(id, _) => Transmits(e, id) && env.sendOk
  }

  ghost predicate AllCaused(e: Event, env: Env, more: seq<Out>)
  {
    forall o :: o in more ==> Causes(e, env, o)
  }

  /** The step only appends to the history, and everything it appends is its own doing. */
  ghost predicate Explained(s: State, t: State, e: Event, env: Env)
  {
    s.log <= t.log && AllCaused(e, env, t.log[|s.log|..]) && AllOwned(t)
  }

  lemma {:induction false} ExplainedThen(s: State, t: State, u: State, e: Event, env: Env)
    requires Explained(s, t, e, env) && Explained(t, u, e, env)
    ensures Explained(s, u, e, env)
  {
    hide Causes, AllOwned;
    SplitTwice(s.log, t.log, u.log);
  }

  lemma {:induction false} LoadOwned(s: State, id: Id, k: nat)
    requires AllOwned(s)
    ensures AllOwned(Loaded(s, id, k)) && Loaded(s, id, k).log == s.log
  {
    if id !in s.devices {
      var rs := DevRows(s.rows, id);
      DevRowsIn(s.rows, id);
      var read := if k < |rs| then rs[..k] else rs;
      hide DevRows, WithFlag;
      FlagOwned(read, id, true);
      FlagOwned(read, id, false);
    }
  }

  lemma {:induction false} FlagOwned(rs: seq<Row>, id: Id, flag: bool)
    requires forall r :: r in rs ==> r.cmd.dev == id
    ensures forall c :: c in WithFlag(rs, flag) ==> c.dev == id
  {
    hide WithFlag;
    WithFlagIn(rs, flag);
  }

  lemma {:induction false} SetOwned(s: State, id: Id, d: Device)
    requires AllOwned(s) && Owned(d, id)
    ensures AllOwned(SetDevice(s, id, d))
  {
    hide Owned;
  }

  lemma {:induction false} PushExplained(s: State, id: Id, e: Event, env: Env)
    requires AllOwned(s) && id in s.devices && Transmits(e, id)
    ensures Explained(s, Push(s, id, env.sendOk), e, env)
  {
    var d := s.devices[id];
    assert Owned(d, id);
    if CanPush(d) && env.sendOk {
      assert Owned(Sent(d), id);
      SetOwned(s, id, Sent(d));
    }
  }

  lemma {:induction false} DoneExplained(s: State, id: Id, e: Event, env: Env)
    requires AllOwned(s) && id in s.devices && Reports(e, id)
    ensures Explained(s, SendDone(s, id), e, env)
  {
  }

  lemma {:induction false} AckExplained(s: State, e: Event, env: Env)
    requires AllOwned(s) && (e.CloudSends? || e.AckAlarm?)
    ensures Explained(s, SendAck(s, env.published), e, env)
  {
    hide AckRetry;
  }

  lemma {:induction false} StoreExplained(s: State, cmd: Command, e: Event, env: Env)
    requires AllOwned(s) && cmd.dev in s.devices && Causes(e, env, Accepted(cmd))
    ensures Explained(s, Store(s, cmd), e, env)
  {
    var d := s.devices[cmd.dev];
    assert Owned(d, cmd.dev);
    var f := d.(recv := d.recv + [Queued(cmd, false)]);
    assert Owned(f, cmd.dev);
    SetOwned(s, cmd.dev, f);
  }

  lemma {:induction false} CommandExplained(s: State, c: CloudCommand, env: Env)
    requires AllOwned(s)
    ensures Explained(s, HandleCommand(s, c, env), CloudSends(c), env)
  {
    var e := CloudSends(c);
    hide AllOwned, AllCaused, HasRow, HasExecutedRow;
    NothingExplained(s, e, env);
    if Admissible(c, env.claimed) {
      if c.seqNo.value <= s.seqNo {
        OldExplained(s, c.seqNo.value, c, env);
      } else if CanGet(s, c.client, env) {
        LoadOwned(s, c.client, env.rowsRead);
        var l := Loaded(s, c.client, env.rowsRead);
        NewExplained(l, Command(c.client, c.seqNo.value, c.typ, c.payload), c, env);
      }
    }
  }

  lemma {:induction false} NothingExplained(s: State, e: Event, env: Env)
    requires AllOwned(s)
    ensures forall t: State :: t.log == s.log && AllOwned(t) ==> Explained(s, t, e, env)
  {
    hide AllOwned;
    TakeDrop(s.log);
  }

  lemma {:induction false} OldExplained(s: State, n: u32, c: CloudCommand, env: Env)
    requires AllOwned(s)
    ensures Explained(s, HandleOld(s, n, c.client, env), CloudSends(c), env)
  {
    var e, t := CloudSends(c), s.(seqNo := n);
    NothingExplained(s, e, env);
    assert AllOwned(t);
    hide AllOwned, AllCaused, HasRow, HasExecutedRow;
    if env.lookupOk && HasRow(s.rows, n) {
      if env.executedOk && HasExecutedRow(s.rows, n) {
        if CanGet(t, c.client, env) {
          LoadOwned(t, c.client, env.rowsRead);
          DoneExplained(Loaded(t, c.client, env.rowsRead), c.client, e, env);
        }
      } else {
        AckExplained(t, e, env);
      }
    }
  }

  lemma {:induction false} NewExplained(s: State, cmd: Command, c: CloudCommand, env: Env)
    requires AllOwned(s) && cmd.dev in s.devices && WellFormed(c, cmd.seqNo, env)
    requires c.client == cmd.dev && c.typ == cmd.typ && c.payload == cmd.payload
    ensures Explained(s, HandleNew(s, cmd, env), CloudSends(c), env)
  {
    var e := CloudSends(c);
    NothingExplained(s, e, env);
    assert AllOwned(s.(rows := s.rows + [Row(cmd, false)]));
    hide AllOwned, AllCaused, Push;
    if env.insert == Stored {
      StoreExplained(s, cmd, e, env);
      var t := Store(s, cmd);
      AckExplained(t, e, env);
      var u := SendAck(t, env.published);
      ExplainedThen(s, t, u, e, env);
      PushExplained(u, cmd.dev, e, env);
      ExplainedThen(s, u, Push(u, cmd.dev, env.sendOk), e, env);
    }
  }

  lemma {:induction false} DoneAckExplained(s: State, id: Id, n: u32, env: Env)
    requires AllOwned(s)
    ensures Explained(s, HandleDoneAck(s, id, n, env), CloudAcksDone(id, n), env)
  {
    var e := CloudAcksDone(id, n);
    NothingExplained(s, e, env);
    if CanGet(s, id, env) {
      LoadOwned(s, id, env.rowsRead);
      var l := Loaded(s, id, env.rowsRead);
      var d := l.devices[id];
      if d.exec != [] && d.exec[0].cmd.seqNo == n && env.deleteOk {
        var t := Complete(l, id);
        CompleteExplained(l, id, e, env);
        hide AllOwned, AllCaused, Complete, Loaded;
        DoneExplained(t, id, e, env);
        ExplainedThen(l, t, SendDone(t, id), e, env);
      }
    }
  }

  lemma {:induction false} CompleteExplained(s: State, id: Id, e: Event, env: Env)
    requires AllOwned(s) && id in s.devices && s.devices[id].exec != []
    requires e == CloudAcksDone(id, s.devices[id].exec[0].cmd.seqNo) && env.deleteOk
    ensures Explained(s, Complete(s, id), e, env) && id in Complete(s, id).devices
  {
    var d := s.devices[id];
    assert Owned(d, id);
    assert d.exec[0] in d.recv + d.exec;
    var f := d.(exec := d.exec[1..]);
    assert Owned(f, id);
    SetOwned(s, id, f);
  }

  lemma {:induction false} MarkExplained(s: State, id: Id, e: Event, env: Env)
    requires AllOwned(s) && id in s.devices && s.devices[id].recv != [] && e == DeviceAnswers(id, Ok) && env.markOk
    ensures Explained(s, Mark(s, id), e, env) && id in Mark(s, id).devices
  {
    var d := s.devices[id];
    assert Owned(d, id);
    assert d.recv[0] in d.recv + d.exec;
    var f := d.(recv := d.recv[1..], exec := d.exec + [d.recv[0]]);
    assert Owned(f, id);
    SetOwned(s, id, f);
    MarkEffect(s, id);
    hide Mark, Owned;
    var t := Mark(s, id);
    assert AllOwned(t) by { assert t.devices == SetDevice(s, id, f).devices; }
    assert t.log[|s.log|..] == [Executed(d.recv[0].cmd)] + [DoneMsg(id, OldestAfter(d, d.recv[0].cmd))];
  }

  lemma {:induction false} AnswerExplained(s: State, id: Id, r: Response, env: Env)
    requires AllOwned(s)
    ensures Explained(s, HandleResponse(s, id, r, env), DeviceAnswers(id, r), env)
  {
    var e := DeviceAnswers(id, r);
    NothingExplained(s, e, env);
    if id in s.devices && s.devices[id].outstanding != 0 {
      var d := s.devices[id].(outstanding := s.devices[id].outstanding - 1);
      assert Owned(s.devices[id], id);
      assert Owned(d, id);
      SetOwned(s, id, d);
      if d.recv != [] {
        assert HandleResponse(s, id, r, env) == Answered(s, id, d, r, env);
        hide AllOwned, HandleResponse;
        if r == Ok { OkExplained(s, id, d, env); } else { IdleExplained(s, id, d, r, env); }
      }
    }
  }

  lemma {:induction false} OkExplained(s: State, id: Id, d: Device, env: Env)
    requires AllOwned(s) && Owned(d, id) && d.recv != []
    ensures Explained(s, Answered(s, id, d, Ok, env), DeviceAnswers(id, Ok), env)
  {
    var e, t := DeviceAnswers(id, Ok), SetDevice(s, id, d.(timeouts := 0));
    NothingExplained(s, e, env);
    SetOwned(s, id, d.(timeouts := 0));
    hide AllOwned, AllCaused, Push, Mark;
    var u := if env.markOk then Mark(t, id) else t;
    if env.markOk {
      MarkExplained(t, id, e, env);
      ExplainedThen(s, t, u, e, env);
    }
    PushExplained(u, id, e, env);
    ExplainedThen(s, u, Push(u, id, env.sendOk), e, env);
  }

  lemma {:induction false} IdleExplained(s: State, id: Id, d: Device, r: Response, env: Env)
    requires AllOwned(s) && Owned(d, id) && d.recv != [] && r != Ok
    ensures Explained(s, Answered(s, id, d, r, env), DeviceAnswers(id, r), env)
  {
    var e := DeviceAnswers(id, r);
    NothingExplained(s, e, env);
    forall n: nat ensures AllOwned(SetDevice(s, id, Idle(d).(timeouts := n))) {
      assert Owned(Idle(d).(timeouts := n), id);
      SetOwned(s, id, Idle(d).(timeouts := n));
    }
    hide AllOwned, AllCaused, Push, Idle;
    if r == Timeout && d.timeouts != COMMAND_RETRY_NO {
      var t := SetDevice(s, id, Idle(d).(timeouts := d.timeouts + 1));
      PushExplained(t, id, e, env);
      ExplainedThen(s, t, Push(t, id, env.sendOk), e, env);
    }
  }

  lemma {:induction false} StepExplained(s: State, e: Event, env: Env)
    requires AllOwned(s)
    ensures Explained(s, Step(s, e, env), e, env)
  {
    NothingExplained(s, e, env);
    match e
    case CloudSends(c) => CommandExplained(s, c, env);
    case CloudAcksDone(id, n) => DoneAckExplained(s, id, n, env);
    case DeviceAnswers(id, r) => AnswerExplained(s, id, r, env);
    case Register(id) =>
      if CanGet(s, id, env) {
        LoadOwned(s, id, env.rowsRead);
        var l := Loaded(s, id, env.rowsRead);
        assert Owned(l.devices[id], id);
        assert Owned(l.devices[id].(registered := true), id);
        SetOwned(l, id, l.devices[id].(registered := true));
      }
    case Expire(id) =>
      if id in s.devices {
        assert Owned(s.devices[id], id);
        assert Owned(s.devices[id].(registered := false), id);
        SetOwned(s, id, s.devices[id].(registered := false));
      }
    case PushAlarm(id) =>
      if id in s.devices { AlarmExplained(s, id, env); }
    case AckAlarm => AckExplained(s, e, env);
    case Restart(ok) =>
  }

  lemma {:induction false} AlarmExplained(s: State, id: Id, env: Env)
    requires AllOwned(s) && id in s.devices
    ensures Explained(s, SendDone(Push(s, id, env.sendOk), id), PushAlarm(id), env)
  {
    hide AllOwned, AllCaused;
    PushExplained(s, id, PushAlarm(id), env);
    var t := Push(s, id, env.sendOk);
    DoneExplained(t, id, PushAlarm(id), env);
    ExplainedThen(s, t, SendDone(t, id), PushAlarm(id), env);
  }

  /** The entry at `i` of the history was added by step `k` of the run. */
  predicate AddedBy(known: set<Id>, es: seq<(Event, Env)>, i: nat, k: nat)
    requires k < |es|
  {
    |Run(Init(known), es[..k]).log| <= i < |Run(Init(known), es[..k + 1]).log|
  }

  lemma {:induction false} RunOwned(known: set<Id>, es: seq<(Event, Env)>)
    ensures AllOwned(Run(Init(known), es))
  {
    hide Step, AllOwned;
    if es == [] {
      NoneOwned(known);
    } else {
      RunOwned(known, es[..|es| - 1]);
      StepExplained(Run(Init(known), es[..|es| - 1]), es[|es| - 1].0, es[|es| - 1].1);
    }
  }

  lemma {:induction false} NoneOwned(known: set<Id>)
    ensures AllOwned(Init(known))
  {
  }

  /**
   Nothing happens by itself: in every run, faults and unclean steps included, every entry of the history was
   added by a step that can cause it.  A command accepted was sent by the cloud exactly so, and signed if the
   gateway had an owner; one executed was confirmed by its device; one completed was acknowledged by number.
   */
  lemma {:induction false} EveryEntryCaused(known: set<Id>, es: seq<(Event, Env)>, i: nat) returns (k: nat)
    requires i < |Run(Init(known), es).log|
    ensures k < |es| && AddedBy(known, es, i, k) && Causes(es[k].0, es[k].1, Run(Init(known), es).log[i])
  {
    hide Step, AllOwned, Causes;
    var n := |es| - 1;
    var init, s := es[..n], Run(Init(known), es[..n]);
    RunOwned(known, init);
    StepExplained(s, es[n].0, es[n].1);
    TakeDrop(es);
    if i < |s.log| {
      k := EveryEntryCaused(known, init, i);
      assert init[..k] == es[..k] && init[..k + 1] == es[..k + 1];
    } else {
      k := n;
      var t := Run(Init(known), es);
      assert t.log[i] == t.log[|s.log|..][i - |s.log|];
    }
  }

  // ---------------------------------------------------------------- everything is delivered

  /** Marking, deleting and transmitting succeed. */
  predicate Faultless(env: Env)
  {
    env.markOk && env.deleteOk && env.sendOk
  }

  /** The device confirms `n` requests. */
  function Confirmations(id: Id, env: Env, n: nat): (es: seq<(Event, Env)>)
    ensures |es| == n
  {
    seq(n, i => (DeviceAnswers(id, Ok), env))
  }

  /** The cloud acknowledges the commands in order. */
  function Acknowledgements(id: Id, env: Env, cs: seq<Command>): (es: seq<(Event, Env)>)
    ensures |es| == |cs|
  {
    seq(|cs|, i requires 0 <= i < |cs| => (CloudAcksDone(id, cs[i].seqNo), env))
  }

  lemma {:induction false} RunAppend(s: State, es: seq<(Event, Env)>, e: Event, env: Env)
    ensures Run(s, es + [(e, env)]) == Step(Run(s, es), e, env)
  {
    hide Step;
    TakeAppend(es, (e, env));
  }

  lemma {:induction false} RunThen(s: State, es: seq<(Event, Env)>, fs: seq<(Event, Env)>)
    ensures Run(s, es + fs) == Run(Run(s, es), fs)
  {
    if fs == [] {
      Empty(es);
    } else {
      var init, last := fs[..|fs| - 1], fs[|fs| - 1];
      RunThen(s, es, init);
      DropLast(fs);
      Assoc(es, init, [last]);
      hide Step;
      TakeAppend(es + init, last);
    }
  }

  /** The device is registered and in order; its head command, if any, is on its way. */
  ghost predicate Working(s: State, id: Id)
  {
    && Inv(s) && id in s.devices && s.devices[id].registered
    && s.devices[id].outstanding == (if s.devices[id].recv == [] then 0 else 1)
  }

  /** After `k` confirmations the first `k` commands are executed and the next one is on its way. */
  lemma {:induction false} ConfirmedSoFar(s: State, id: Id, env: Env, k: nat)
    requires Working(s, id) && Faultless(env) && k <= |s.devices[id].recv|
    ensures var t, d := Run(s, Confirmations(id, env, k)), s.devices[id];
            && Working(t, id)
            && Cmds(t.devices[id].exec) == Cmds(d.exec) + Cmds(d.recv)[..k]
            && Cmds(t.devices[id].recv) == Cmds(d.recv)[k..]
            && AcceptedOf(t.log, id) == AcceptedOf(s.log, id)
            && Puts(t.log, id) == Puts(s.log, id) + if k < |d.recv| then k else if k == 0 then 0 else k - 1
  {
    var d := s.devices[id];
    if k == 0 {
      assert Confirmations(id, env, 0) == [];
      TakeDrop(Cmds(d.recv));
      Empty(Cmds(d.exec));
    } else {
      var es, u := Confirmations(id, env, k - 1), Run(s, Confirmations(id, env, k - 1));
      ConfirmedSoFar(s, id, env, k - 1);
      assert Confirmations(id, env, k) == es + [(DeviceAnswers(id, Ok), env)];
      hide Step, Inv, Cmds, AcceptedOf, Puts, Run, Confirmations;
      RunAppend(s, es, DeviceAnswers(id, Ok), env);
      OneConfirmed(u, id, env);
      var cs := Cmds(d.recv);
      DropNext(cs, k - 1);
      TakeNext(cs, k - 1);
      Assoc(Cmds(d.exec), cs[..k - 1], [cs[k - 1]]);
    }
  }

  lemma {:induction false} OneConfirmed(s: State, id: Id, env: Env)
    requires Working(s, id) && Faultless(env) && s.devices[id].recv != []
    ensures var t, d := Step(s, DeviceAnswers(id, Ok), env), s.devices[id];
            && Working(t, id)
            && Cmds(t.devices[id].exec) == Cmds(d.exec) + [Cmds(d.recv)[0]]
            && Cmds(t.devices[id].recv) == Cmds(d.recv)[1..]
            && AcceptedOf(t.log, id) == AcceptedOf(s.log, id)
            && Puts(t.log, id) == Puts(s.log, id) + if |d.recv| > 1 then 1 else 0
  {
    var d := s.devices[id];
    CleanKeeps(s, DeviceAnswers(id, Ok), env);
    AnswerConfirms(s, id, env);
    hide Step, Inv, AcceptedOf, Puts;
    var a, b := Executed(d.recv[0].cmd), DoneMsg(id, OldestAfter(d, d.recv[0].cmd));
    Uninvolved(s.log, a, id);
    Uninvolved(s.log + [a], b, id);
    UninvolvedMore(s.log + [a] + [b], if |d.recv| > 1 then [Put(id, d.recv[1].cmd.seqNo)] else [], id);
  }

  /** An entry that is no acceptance and no completion. */
  lemma {:induction false} Uninvolved(log: seq<Out>, o: Out, id: Id)
    requires !o.Accepted?
    ensures AcceptedOf(log + [o], id) == AcceptedOf(log, id)
    ensures !o.Completed? ==> CompletedOf(log + [o], id) == CompletedOf(log, id)
    ensures Puts(log + [o], id) == Puts(log, id) + if o.Put? && o.dev == id then 1 else 0
  {
    hide AcceptedOf, CompletedOf, Puts;
    LogAppend(log, o, id);
    PutsAppend(log, o, id);
    Empty(AcceptedOf(log, id));
    Empty(CompletedOf(log, id));
  }

  /** The same for at most one entry. */
  lemma {:induction false} UninvolvedMore(log: seq<Out>, more: seq<Out>, id: Id)
    requires |more| <= 1 && (more != [] ==> !more[0].Accepted? && !more[0].Completed?)
    ensures AcceptedOf(log + more, id) == AcceptedOf(log, id) && CompletedOf(log + more, id) == CompletedOf(log, id)
    ensures Puts(log + more, id) == Puts(log, id) + if more != [] && more[0].Put? && more[0].dev == id then 1 else 0
  {
    hide AcceptedOf, CompletedOf, Puts;
    if more == [] {
      Empty(log);
    } else {
      assert more == [more[0]];
      Uninvolved(log, more[0], id);
    }
  }

  /** After `k` acknowledgements the first `k` executed commands are completed. */
  lemma {:induction false} AcknowledgedSoFar(s: State, id: Id, env: Env, cs: seq<Command>, k: nat)
    requires Inv(s) && id in s.devices && cs == Cmds(s.devices[id].exec) && Faultless(env) && k <= |cs|
    ensures var t := Run(s, Acknowledgements(id, env, cs[..k]));
            && Inv(t) && id in t.devices && Cmds(t.devices[id].exec) == cs[k..]
            && t.devices[id].recv == s.devices[id].recv
            && AcceptedOf(t.log, id) == AcceptedOf(s.log, id)
            && CompletedOf(t.log, id) == CompletedOf(s.log, id) + cs[..k]
            && Puts(t.log, id) == Puts(s.log, id)
  {
    if k == 0 {
      assert Acknowledgements(id, env, cs[..0]) == [];
      TakeDrop(cs);
      Empty(CompletedOf(s.log, id));
    } else {
      var es := Acknowledgements(id, env, cs[..k - 1]);
      var u := Run(s, es);
      AcknowledgedSoFar(s, id, env, cs, k - 1);
      assert Acknowledgements(id, env, cs[..k]) == es + [(CloudAcksDone(id, cs[k - 1].seqNo), env)];
      hide Step, Inv, Cmds, AcceptedOf, CompletedOf, Puts, Run, Acknowledgements;
      RunAppend(s, es, CloudAcksDone(id, cs[k - 1].seqNo), env);
      DropNext(cs, k - 1);
      TakeNext(cs, k - 1);
      OneAcknowledged(u, id, env);
      Assoc(CompletedOf(s.log, id), cs[..k - 1], [cs[k - 1]]);
    }
  }

  lemma {:induction false} OneAcknowledged(s: State, id: Id, env: Env)
    requires Inv(s) && id in s.devices && s.devices[id].exec != [] && Faultless(env)
    ensures var d := s.devices[id];
            var cs := Cmds(d.exec);
            var t := Step(s, CloudAcksDone(id, cs[0].seqNo), env);
            && Inv(t) && id in t.devices && Cmds(t.devices[id].exec) == cs[1..] && t.devices[id].recv == d.recv
            && AcceptedOf(t.log, id) == AcceptedOf(s.log, id)
            && CompletedOf(t.log, id) == CompletedOf(s.log, id) + [cs[0]]
            && Puts(t.log, id) == Puts(s.log, id)
  {
    var d := s.devices[id];
    var cmd := d.exec[0].cmd;
    CleanKeeps(s, CloudAcksDone(id, cmd.seqNo), env);
    DoneAcknowledged(s, id, cmd.seqNo, env);
    CmdsTail(d.exec);
    hide Step, Inv, AcceptedOf, CompletedOf, Puts, Cmds;
    Uninvolved(s.log, Completed(cmd), id);
    UninvolvedMore(s.log + [Completed(cmd)], if |d.exec| > 1 then [DoneMsg(id, d.exec[1].cmd.seqNo)] else [], id);
  }

  lemma {:induction false} CmdsTail(qs: seq<Queued>)
    requires qs != []
    ensures Cmds(qs)[0] == qs[0].cmd && Cmds(qs[1..]) == Cmds(qs)[1..]
  {
  }

  /** The alarm, the answers of the device and the acknowledgements of the cloud, in this order. */
  function Delivery(d: Device, id: Id, env: Env): seq<(Event, Env)>
  {
    [(PushAlarm(id), env)] + Confirmations(id, env, |d.recv|) + Acknowledgements(id, env, Cmds(d.exec) + Cmds(d.recv))
  }

  /**
   Everything accepted is delivered: from every consistent state, for a registered device with nothing on its
   way, one alarm, an answer to each request and an acknowledgement of each DONE complete all commands ever
   accepted for it, in order, with one transmission each, and empty its queues and its part of the table.
   */
  lemma {:induction false} EverythingDelivered(s: State, id: Id, env: Env)
    requires Inv(s) && id in s.devices && s.devices[id].registered && s.devices[id].outstanding == 0
    requires s.devices[id].recv != [] ==> !s.devices[id].recv[0].inProgress
    requires Faultless(env)
    ensures var t := Run(s, Delivery(s.devices[id], id, env));
            && Inv(t) && id in t.devices && t.devices[id].recv == [] && t.devices[id].exec == []
            && DevRows(t.rows, id) == []
            && CompletedOf(t.log, id) == AcceptedOf(t.log, id) == AcceptedOf(s.log, id)
            && Puts(t.log, id) == Puts(s.log, id) + |s.devices[id].recv|
  {
    var d := s.devices[id];
    var cs := Cmds(d.exec) + Cmds(d.recv);
    var es, fs := [(PushAlarm(id), env)], Confirmations(id, env, |d.recv|);
    FirstPush(s, id, env);
    var u := Step(s, PushAlarm(id), env);
    assert Run(s, es) == u by { RunAppend(s, [], PushAlarm(id), env); assert Run(s, []) == s; }
    hide Step, Cmds, AcceptedOf, CompletedOf, Puts, Run, Confirmations, Acknowledgements;
    ConfirmedSoFar(u, id, env, |d.recv|);
    var v := Run(u, fs);
    TakeDrop(Cmds(d.recv));
    RunThen(s, es, fs);
    AcknowledgedSoFar(v, id, env, cs, |cs|);
    TakeDrop(cs);
    RunThen(s, es + fs, Acknowledgements(id, env, cs));
    NothingLeft(Run(v, Acknowledgements(id, env, cs)), id);
  }

  lemma {:induction false} FirstPush(s: State, id: Id, env: Env)
    requires Inv(s) && id in s.devices && s.devices[id].registered && s.devices[id].outstanding == 0
    requires (s.devices[id].recv != [] ==> !s.devices[id].recv[0].inProgress) && Faultless(env)
    ensures var t, d := Step(s, PushAlarm(id), env), s.devices[id];
            && Working(t, id) && Cmds(t.devices[id].recv) == Cmds(d.recv) && Cmds(t.devices[id].exec) == Cmds(d.exec)
            && AcceptedOf(t.log, id) == AcceptedOf(s.log, id)
            && Puts(t.log, id) == Puts(s.log, id) + if d.recv == [] then 0 else 1
  {
    var d := s.devices[id];
    CleanKeeps(s, PushAlarm(id), env);
    AlarmPushes(s, id, env);
    hide Step, Inv, AcceptedOf, Puts, Cmds;
    var put := if d.recv == [] then [] else [Put(id, d.recv[0].cmd.seqNo)];
    UninvolvedMore(s.log, put, id);
    UninvolvedMore(s.log + put, if d.exec == [] then [] else [DoneMsg(id, d.exec[0].cmd.seqNo)], id);
  }

  /** A device with empty queues has no rows, and all its commands are completed. */
  lemma {:induction false} NothingLeft(s: State, id: Id)
    requires Inv(s) && id in s.devices && |s.devices[id].recv| == |s.devices[id].exec| == 0
    ensures DevRows(s.rows, id) == [] && CompletedOf(s.log, id) == AcceptedOf(s.log, id)
  {
    assert DeviceOk(s, id);
    hide Inv;
    FlagsCover(DevRows(s.rows, id));
    Empty(CompletedOf(s.log, id));
  }
}
