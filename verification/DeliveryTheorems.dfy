/**
 What the delivery invariant means for the cloud, the devices and an operator, and what happens
 outside the clean steps.
 */
module DeliveryTheorems {
  import opened Machine
  import opened Sequences
  import opened DeliveryModel
  import opened DeliveryInvariant
  import opened DeliverySafety

  // ---------------------------------------------------------------- crash and lazy load

  /**
   Crash refinement: from a consistent state, a restart followed by the lazy load of a device gives
   back the same two queues, except that no command is in progress.
   */
  lemma {:induction false} RestartRebuilds(s: State, id: Id, k: nat)
    requires Inv(s) && id in s.devices && |DevRows(s.rows, id)| <= k
    ensures var d, d' := s.devices[id], Loaded(Restarted(s, true), id, k).devices[id];
            && Cmds(d'.recv) == Cmds(d.recv) && Cmds(d'.exec) == Cmds(d.exec)
            && (forall q :: q in d'.recv + d'.exec ==> !q.inProgress)
            && Restarted(s, true).seqNo == s.seqNo
  {
    var rs := DevRows(s.rows, id);
    assert DeviceOk(s, id);
    assert Cmds(Fresh(WithFlag(rs, false))) == WithFlag(rs, false);
    assert Cmds(Fresh(WithFlag(rs, true))) == WithFlag(rs, true);
  }

  // ---------------------------------------------------------------- conservation over runs

  lemma {:induction false} CleanRunInv(known: set<Id>, es: seq<(Event, Env)>)
    requires AlwaysClean(Init(known), es)
    ensures Inv(Run(Init(known), es))
  {
    RunExact(known, es);
  }

  /**
   Ordered conservation: in every clean run, for every device in memory, the commands ever accepted
   are those acknowledged as done, then the executed queue, then the received queue, in this order.
   */
  lemma {:induction false} OrderedConservation(known: set<Id>, es: seq<(Event, Env)>, id: Id)
    requires AlwaysClean(Init(known), es)
    requires id in Run(Init(known), es).devices
    ensures var s := Run(Init(known), es);
            AcceptedOf(s.log, id) == CompletedOf(s.log, id) + Cmds(s.devices[id].exec) + Cmds(s.devices[id].recv)
  {
    CleanRunInv(known, es);
    assert DeviceOk(Run(Init(known), es), id);
  }

  /** No sequence number is accepted twice in a clean run, restarts included. */
  lemma {:induction false} NumbersNeverRepeat(known: set<Id>, es: seq<(Event, Env)>, i: nat, j: nat)
    requires AlwaysClean(Init(known), es) && i < j < |Numbers(Run(Init(known), es).log)|
    ensures Numbers(Run(Init(known), es).log)[i] < Numbers(Run(Init(known), es).log)[j] <= Run(Init(known), es).seqNo
  {
    var s := Run(Init(known), es);
    assert NumbersOk(s) by { CleanRunInv(known, es); }
    IncreasingAt(Numbers(s.log), i, j);
  }

  lemma {:induction false} IncreasingAt(ns: seq<u32>, i: nat, j: nat)
    requires Increasing(ns) && i < j < |ns|
    ensures ns[i] < ns[j] <= Latest(ns)
  {
    assert ns[j] <= ns[|ns| - 1];
  }

  /**
   Every message of a clean run is truthful at the moment it is sent: a DONE names the oldest
   executed command that is not acknowledged, a PUT the oldest accepted one that is not executed
   (so a command is never transmitted out of order, nor again once it is marked executed), an ACK
   the latest acceptance.
   */
  lemma {:induction false} MessagesTruthful(known: set<Id>, es: seq<(Event, Env)>, i: nat)
    requires AlwaysClean(Init(known), es) && i < |Run(Init(known), es).log|
    ensures MessageOk(Run(Init(known), es).log[..i], Run(Init(known), es).log[i])
  {
    CleanRunInv(known, es);
    LogOkAt(Run(Init(known), es).log, i);
  }

  // ---------------------------------------------------------------- transmissions

  function Puts(log: seq<Out>, id: Id): nat
  {
    if log == [] then 0
    else
      var o := log[|log| - 1];
      Puts(log[..|log| - 1], id) + (if o.Put? && o.dev == id then 1 else 0)
  }

  lemma {:induction false} PutsAppend(log: seq<Out>, o: Out, id: Id)
    ensures Puts(log + [o], id) == Puts(log, id) + (if o.Put? && o.dev == id then 1 else 0)
  {
    assert (log + [o])[..|log|] == log;
  }

  /** Consecutive timeouts of one device; nothing else happens to it in between. */
  function Timeouts(s: State, id: Id, envs: seq<Env>): State
    decreases |envs|
  {
    if envs == [] then s else Timeouts(HandleResponse(s, id, Timeout, envs[0]), id, envs[1..])
  }

  lemma {:induction false} NoRequestNoTimeout(s: State, id: Id, envs: seq<Env>)
    requires id in s.devices && s.devices[id].outstanding == 0
    ensures Timeouts(s, id, envs) == s
    decreases |envs|
  {
    if envs != [] { NoRequestNoTimeout(s, id, envs[1..]); }
  }

  /**
   Bounded retransmission: with one request outstanding and `timeouts` already counted, an unbroken
   chain of timeouts transmits at most 3 - timeouts more times, whatever CoAP accepts, and is over
   after one timeout more than that; while the device stays registered and CoAP accepts every
   request, each of these timeouts does retransmit.  A chain that starts with a clear counter
   therefore makes exactly four transmissions, the first included.
   */
  lemma {:induction false} TimeoutChain(s: State, id: Id, envs: seq<Env>)
    requires id in s.devices && FlightOk(s.devices[id]) && s.devices[id].outstanding == 1
    ensures var t, left := Timeouts(s, id, envs), COMMAND_RETRY_NO - s.devices[id].timeouts;
            && id in t.devices
            && Puts(t.log, id) <= Puts(s.log, id) + left
            && (|envs| > left ==> t.devices[id].outstanding == 0)
            && (s.devices[id].registered && (forall e :: e in envs ==> e.sendOk) && |envs| <= left ==>
                  Puts(t.log, id) == Puts(s.log, id) + |envs| && t.devices[id].outstanding == 1)
            && (s.devices[id].registered && (forall e :: e in envs ==> e.sendOk) && |envs| > left ==>
                  Puts(t.log, id) == Puts(s.log, id) + left)
    decreases |envs|
  {
    assert s.devices[id].timeouts <= COMMAND_RETRY_NO;
    hide HandleResponse, FlightOk, Puts;
    if envs != [] {
      var d := s.devices[id];
      var t := HandleResponse(s, id, Timeout, envs[0]);
      TimeoutStep(s, id, envs[0]);
      assert envs[0] in envs && forall e :: e in envs[1..] ==> e in envs;
      if d.timeouts < COMMAND_RETRY_NO && d.registered && envs[0].sendOk {
        TimeoutChain(t, id, envs[1..]);
      } else {
        NoRequestNoTimeout(t, id, envs[1..]);
      }
    }
  }

  /** One timeout: the request is sent again, or there is none any more. */
  lemma {:induction false} TimeoutStep(s: State, id: Id, env: Env)
    requires id in s.devices && FlightOk(s.devices[id]) && s.devices[id].outstanding == 1
    ensures var d, t := s.devices[id], HandleResponse(s, id, Timeout, env);
            && d.timeouts <= COMMAND_RETRY_NO && id in t.devices
            && if d.timeouts < COMMAND_RETRY_NO && d.registered && env.sendOk then
                 && Puts(t.log, id) == Puts(s.log, id) + 1 && t.devices[id].outstanding == 1
                 && FlightOk(t.devices[id])
                 && t.devices[id].timeouts == d.timeouts + 1 && t.devices[id].registered == d.registered
               else Puts(t.log, id) == Puts(s.log, id) && t.devices[id].outstanding == 0
  {
    hide Puts;
    var d, t := s.devices[id], HandleResponse(s, id, Timeout, env);
    if d.timeouts < COMMAND_RETRY_NO && d.registered && env.sendOk {
      assert t.log == s.log + [Put(id, d.recv[0].cmd.seqNo)];
      PutsAppend(s.log, Put(id, d.recv[0].cmd.seqNo), id);
    } else {
      assert t.log == s.log;
    }
  }

  // ---------------------------------------------------------------- a command that is never sent again

  /** The head command counts as in progress although no request for it is outstanding. */
  predicate Stuck(d: Device)
  {
    d.recv != [] && d.recv[0].inProgress && d.outstanding == 0
  }

  ghost predicate StillStuck(s: State, t: State, id: Id)
  {
    && id in s.devices && Stuck(s.devices[id])
    && id in t.devices && Stuck(t.devices[id])
    && t.devices[id].recv[0] == s.devices[id].recv[0]
    && Puts(t.log, id) == Puts(s.log, id)
  }

  /** An operation that leaves the device alone and transmits nothing to it. */
  lemma {:induction false} LeftAlone(s: State, t: State, o: Out, id: Id)
    requires id in s.devices && Stuck(s.devices[id]) && (o.Put? ==> o.dev != id)
    requires id in t.devices && t.log == s.log + [o]
    requires t.devices[id].outstanding == 0 && t.devices[id].recv != []
    requires t.devices[id].recv[0] == s.devices[id].recv[0]
    ensures StillStuck(s, t, id)
  {
    PutsAppend(s.log, o, id);
  }

  lemma {:induction false} PushKeepsStuck(s: State, x: Id, sendOk: bool, id: Id)
    requires x in s.devices && id in s.devices && Stuck(s.devices[id])
    ensures StillStuck(s, Push(s, x, sendOk), id)
  {
    var d, t := s.devices[x], Push(s, x, sendOk);
    if CanPush(d) && sendOk {
      assert x != id && t.devices[id] == s.devices[id];
      LeftAlone(s, t, Put(x, d.recv[0].cmd.seqNo), id);
    } else {
      assert t == s;
    }
  }

  lemma {:induction false} SendDoneKeepsStuck(s: State, x: Id, id: Id)
    requires x in s.devices && id in s.devices && Stuck(s.devices[id])
    ensures StillStuck(s, SendDone(s, x), id)
  {
    var d := s.devices[x];
    if d.exec != [] {
      LeftAlone(s, SendDone(s, x), DoneMsg(x, d.exec[0].cmd.seqNo), id);
    } else {
      assert SendDone(s, x) == s;
    }
  }

  lemma {:induction false} OldKeepsStuck(s: State, n: u32, client: Id, env: Env, id: Id)
    requires id in s.devices && Stuck(s.devices[id])
    ensures StillStuck(s, HandleOld(s, n, client, env), id)
  {
    var t := s.(seqNo := n);
    if env.lookupOk && HasRow(s.rows, n) {
      if !env.executedOk || !HasExecutedRow(s.rows, n) {
        LeftAlone(s, SendAck(t, env.published), AckMsg(n), id);
      } else if CanGet(t, client, env) {
        var u := Loaded(t, client, env.rowsRead);
        assert u.devices[id] == s.devices[id] && u.log == s.log;
        SendDoneKeepsStuck(u, client, id);
      }
    }
  }

  lemma {:induction false} NewKeepsStuck(s: State, cmd: Command, env: Env, id: Id)
    requires cmd.dev in s.devices && id in s.devices && Stuck(s.devices[id])
    ensures StillStuck(s, HandleNew(s, cmd, env), id)
  {
    if env.insert == Stored {
      var t := Store(s, cmd);
      LeftAlone(s, t, Accepted(cmd), id);
      var u := SendAck(t, env.published);
      LeftAlone(t, u, AckMsg(t.seqNo), id);
      PushKeepsStuck(u, cmd.dev, env.sendOk, id);
    }
  }

  lemma {:induction false} DoneAckKeepsStuck(s: State, x: Id, n: u32, env: Env, id: Id)
    requires id in s.devices && Stuck(s.devices[id])
    ensures StillStuck(s, HandleDoneAck(s, x, n, env), id)
  {
    if CanGet(s, x, env) {
      var t := Loaded(s, x, env.rowsRead);
      var d := t.devices[x];
      assert t.devices[id] == s.devices[id] && t.log == s.log;
      if d.exec != [] && d.exec[0].cmd.seqNo == n && env.deleteOk {
        LeftAlone(t, Complete(t, x), Completed(d.exec[0].cmd), id);
        SendDoneKeepsStuck(Complete(t, x), x, id);
      } else {
        assert HandleDoneAck(s, x, n, env) == t;
      }
    }
  }

  lemma {:induction false} ResponseKeepsStuck(s: State, x: Id, r: Response, env: Env, id: Id)
    requires id in s.devices && Stuck(s.devices[id])
    ensures StillStuck(s, HandleResponse(s, x, r, env), id)
  {
    if x in s.devices && s.devices[x].outstanding != 0 && s.devices[x].recv != [] {
      var d := s.devices[x].(outstanding := s.devices[x].outstanding - 1);
      assert x != id;
      if r == Ok {
        OkKeepsStuck(s, x, d, env, id);
      } else if r == Timeout && d.timeouts != COMMAND_RETRY_NO {
        var t := SetDevice(s, x, Idle(d).(timeouts := d.timeouts + 1));
        assert t.devices[id] == s.devices[id] && t.log == s.log;
        PushKeepsStuck(t, x, env.sendOk, id);
      }
    }
  }

  lemma {:induction false} OkKeepsStuck(s: State, x: Id, d: Device, env: Env, id: Id)
    requires id in s.devices && Stuck(s.devices[id]) && x != id && d.recv != []
    ensures StillStuck(s, Answered(s, x, d, Ok, env), id)
  {
    hide Puts;
    var t := SetDevice(s, x, d.(timeouts := 0));
    assert t.devices[id] == s.devices[id] && t.log == s.log;
    if env.markOk {
      MarkIsMarked(t, x);
      LeftAlone(t, Marked(t, x), Executed(d.recv[0].cmd), id);
      hide Mark, Marked, Push, SendDone;
      SendDoneKeepsStuck(Marked(t, x), x, id);
      PushKeepsStuck(Mark(t, x), x, env.sendOk, id);
    } else {
      PushKeepsStuck(t, x, env.sendOk, id);
    }
  }

  /**
   A stuck command stays stuck: until the next restart no event of any kind sends it again, takes it
   off its queue or transmits anything else to the device.
   */
  lemma {:induction false} StuckUntilRestart(s: State, e: Event, env: Env, id: Id)
    requires id in s.devices && Stuck(s.devices[id]) && !e.Restart?
    ensures StillStuck(s, Step(s, e, env), id)
  {
    match e
    case CloudSends(c) =>
      if Admissible(c, env.claimed) {
        if c.seqNo.value <= s.seqNo {
          OldKeepsStuck(s, c.seqNo.value, c.client, env, id);
        } else if CanGet(s, c.client, env) {
          var t := Loaded(s, c.client, env.rowsRead);
          assert t.devices[id] == s.devices[id] && t.log == s.log;
          NewKeepsStuck(t, Command(c.client, c.seqNo.value, c.typ, c.payload), env, id);
        }
      }
    case CloudAcksDone(x, n) => DoneAckKeepsStuck(s, x, n, env, id);
    case DeviceAnswers(x, r) => ResponseKeepsStuck(s, x, r, env, id);
    case Register(x) =>
    case Expire(x) =>
    case PushAlarm(x) =>
      if x in s.devices {
        PushKeepsStuck(s, x, env.sendOk, id);
        SendDoneKeepsStuck(Push(s, x, env.sendOk), x, id);
      }
    case AckAlarm =>
      if s.ackScheduled { LeftAlone(s, Step(s, e, env), AckMsg(s.seqNo), id); }
  }

  /**
   Exactly one event makes a command stuck: the device confirms the command and the database then
   fails to mark it executed.
   */
  lemma {:induction false} StuckExactly(s: State, e: Event, env: Env, id: Id)
    requires Inv(s) && id in s.devices && !Stuck(s.devices[id])
    ensures (id in Step(s, e, env).devices && Stuck(Step(s, e, env).devices[id]))
       <==> e == DeviceAnswers(id, Ok) && s.devices[id].outstanding == 1 && !env.markOk
  {
    var d, t := s.devices[id], Step(s, e, env);
    assert FlightOk(d) by { assert DeviceOk(s, id); }
    hide Inv, HandleCommand, HandleDoneAck, HandleResponse, Push, Load, AckRetry, DevRows;
    match e
    case CloudSends(c) => CommandNotStuck(s, c, env, id);
    case CloudAcksDone(x, n) => DoneAckNotStuck(s, x, n, env, id);
    case DeviceAnswers(x, r) =>
      if x != id {
        OtherResponse(s, x, r, env, id);
      } else if d.outstanding == 1 {
        OwnResponse(s, id, r, env);
      }
    case Register(x) => assert t.devices[id].recv == d.recv && t.devices[id].outstanding == d.outstanding;
    case Expire(x) => assert t.devices[id].recv == d.recv && t.devices[id].outstanding == d.outstanding;
    case PushAlarm(x) =>
      if x in s.devices { PushNotStuck(s, x, env.sendOk, id); }
    case AckAlarm => assert t.devices == s.devices;
    case Restart(ok) =>
  }

  lemma {:induction false} PushNotStuck(s: State, x: Id, sendOk: bool, id: Id)
    requires x in s.devices && id in s.devices && !Stuck(s.devices[id])
    ensures id in Push(s, x, sendOk).devices && !Stuck(Push(s, x, sendOk).devices[id])
  {
  }

  lemma {:induction false} CommandNotStuck(s: State, c: CloudCommand, env: Env, id: Id)
    requires id in s.devices && !Stuck(s.devices[id])
    ensures id in HandleCommand(s, c, env).devices && !Stuck(HandleCommand(s, c, env).devices[id])
  {
    hide HandleOld, HandleNew, Stuck;
    if Admissible(c, env.claimed) {
      if c.seqNo.value <= s.seqNo {
        OldLeavesAlone(s, c.seqNo.value, c.client, env, id);
      } else if CanGet(s, c.client, env) {
        var t := Loaded(s, c.client, env.rowsRead);
        assert t.devices[id] == s.devices[id];
        NewNotStuck(t, Command(c.client, c.seqNo.value, c.typ, c.payload), env, id);
      }
    }
  }

  lemma {:induction false} OldLeavesAlone(s: State, n: u32, client: Id, env: Env, id: Id)
    requires id in s.devices
    ensures id in HandleOld(s, n, client, env).devices && HandleOld(s, n, client, env).devices[id] == s.devices[id]
  {
    hide HasRow, HasExecutedRow, Load, AckRetry;
  }

  lemma {:induction false} NewNotStuck(s: State, cmd: Command, env: Env, id: Id)
    requires cmd.dev in s.devices && id in s.devices && !Stuck(s.devices[id])
    ensures id in HandleNew(s, cmd, env).devices && !Stuck(HandleNew(s, cmd, env).devices[id])
  {
    if env.insert == Stored {
      var u := SendAck(Store(s, cmd), env.published);
      assert !Stuck(u.devices[id]);
      hide Store, SendAck, Push;
      PushNotStuck(u, cmd.dev, env.sendOk, id);
    }
  }

  lemma {:induction false} DoneAckNotStuck(s: State, x: Id, n: u32, env: Env, id: Id)
    requires id in s.devices && !Stuck(s.devices[id])
    ensures id in HandleDoneAck(s, x, n, env).devices && !Stuck(HandleDoneAck(s, x, n, env).devices[id])
  {
    if CanGet(s, x, env) {
      var t := Loaded(s, x, env.rowsRead);
      assert t.devices[id] == s.devices[id];
      if t.devices[x].exec != [] {
        var u := SendDone(Complete(t, x), x);
        assert u.devices[id].recv == t.devices[id].recv && u.devices[id].outstanding == t.devices[id].outstanding;
      }
    }
  }

  lemma {:induction false} OtherResponse(s: State, x: Id, r: Response, env: Env, id: Id)
    requires id in s.devices && x != id
    ensures id in HandleResponse(s, x, r, env).devices && HandleResponse(s, x, r, env).devices[id] == s.devices[id]
  {
    if x in s.devices && s.devices[x].outstanding != 0 && s.devices[x].recv != [] && r == Ok {
      var t := SetDevice(s, x, s.devices[x].(outstanding := s.devices[x].outstanding - 1, timeouts := 0));
      if env.markOk { assert Mark(t, x).devices[id] == s.devices[id]; }
    }
  }

  lemma {:induction false} OwnResponse(s: State, id: Id, r: Response, env: Env)
    requires id in s.devices && FlightOk(s.devices[id]) && s.devices[id].outstanding == 1
    ensures id in HandleResponse(s, id, r, env).devices
    ensures Stuck(HandleResponse(s, id, r, env).devices[id]) <==> r == Ok && !env.markOk
  {
    var d := s.devices[id].(outstanding := 0);
    if r == Ok {
      var t := SetDevice(s, id, d.(timeouts := 0));
      if env.markOk {
        MarkIsMarked(t, id);
        var u := Mark(t, id);
        assert u.devices[id].recv == d.recv[1..] && u.devices[id].outstanding == 0;
        assert !Stuck(u.devices[id]);
        PushNotStuck(u, id, env.sendOk, id);
      } else {
        assert Push(t, id, env.sendOk) == t;
      }
    }
  }

  // ---------------------------------------------------------------- ACK retries

  function Acks(log: seq<Out>): nat
  {
    if log == [] then 0 else Acks(log[..|log| - 1]) + if log[|log| - 1].AckMsg? then 1 else 0
  }

  lemma {:induction false} AcksAppend(log: seq<Out>, o: Out)
    ensures Acks(log + [o]) == Acks(log) + if o.AckMsg? then 1 else 0
  {
    TakeAppend(log, o);
  }

  /** Consecutive events of the ACK alarm. */
  function AckAlarms(s: State, envs: seq<Env>): State
  {
    if envs == [] then s else Step(AckAlarms(s, envs[..|envs| - 1]), AckAlarm, envs[|envs| - 1])
  }

  lemma {:induction false} FailingAlarm(s: State, env: Env)
    requires !env.published
    ensures Step(s, AckAlarm, env) == if s.ackScheduled then SendAck(s, false) else s
  {
  }

  /**
   A failing ACK and the alarms after it, as long as they fail: with the retry counter at c before, the
   alarm tries exactly 3 - c times more, leaves the counter at 1, and then changes nothing.  So the first
   chain makes three retries, as ATLAS_STATUS_COMMAND_RETRY_NO says, and one that follows a chain that was
   given up makes only two.
   */
  lemma {:induction false} AckChain(s: State, envs: seq<Env>)
    requires Inv(s) && forall i :: 0 <= i < |envs| ==> !envs[i].published
    ensures var t, left := SendAck(s, false), STATUS_RETRY_NO - s.ackCounter;
            var v := AckAlarms(t, envs);
            && Acks(v.log) == Acks(t.log) + (if |envs| < left then |envs| else left)
            && (v.ackScheduled <==> |envs| < left)
            && v.ackCounter == (if |envs| < left then s.ackCounter + 1 + |envs| else 1)
            && (|envs| > left ==> v == AckAlarms(t, envs[..|envs| - 1]))
            && v.seqNo == s.seqNo && v.rows == s.rows && v.devices == s.devices
  {
    if envs != [] {
      var u := AckAlarms(SendAck(s, false), envs[..|envs| - 1]);
      AckChain(s, envs[..|envs| - 1]);
      FailingAlarm(u, envs[|envs| - 1]);
      AcksAppend(u.log, AckMsg(u.seqNo));
    }
  }

  /** The chain that starts when the ACK for a new command cannot be published. */
  lemma {:induction false} AckChainAfterCommand(s: State, c: CloudCommand, env: Env, envs: seq<Env>)
    requires Inv(s) && Clean(s, CloudSends(c), env) && forall i :: 0 <= i < |envs| ==> !envs[i].published
    requires Admissible(c, env.claimed) && c.seqNo.value > s.seqNo && CanGet(s, c.client, env) && env.insert == Stored
    requires !env.published
    ensures var t := Step(s, CloudSends(c), env);
            Acks(AckAlarms(t, envs).log) == Acks(s.log) + 1 +
              if |envs| < STATUS_RETRY_NO - s.ackCounter then |envs| else STATUS_RETRY_NO - s.ackCounter
  {
    var l := Loaded(s, c.client, env.rowsRead);
    var u := Store(l, Command(c.client, c.seqNo.value, c.typ, c.payload));
    assert Step(s, CloudSends(c), env) == SendAck(u, false);
    assert u.log == s.log + [Accepted(Command(c.client, c.seqNo.value, c.typ, c.payload))];
    AcksAppend(s.log, u.log[|s.log|]);
    AcksAppend(u.log, AckMsg(u.seqNo));
    InvLoaded(s, c.client, env.rowsRead);
    InvStore(l, Command(c.client, c.seqNo.value, c.typ, c.payload));
    AckChain(u, envs);
  }

  // ---------------------------------------------------------------- a cloud that does not wait

  /** Answering a number that is in the table makes it the current one and accepts nothing. */
  lemma {:induction false} OldAccepted(s: State, n: u32, client: Id, env: Env, id: Id, env': Env)
    requires env.lookupOk && HasRow(s.rows, n)
    ensures var t := HandleOld(s, n, client, env);
            t.seqNo == n && Numbers(t.log) == Numbers(s.log) && (CanGet(s, id, env') ==> CanGet(t, id, env'))
  {
    LogAppend(s.log, AckMsg(n), id);
    if env.executedOk && HasExecutedRow(s.rows, n) && CanGet(s, client, env) {
      var t := Loaded(s.(seqNo := n), client, env.rowsRead);
      if t.devices[client].exec != [] {
        LogAppend(s.log, DoneMsg(client, t.devices[client].exec[0].cmd.seqNo), id);
      }
    }
  }

  /**
   Why the cloud must not resend an older number: whenever it does and the row is still there, the
   gateway forgets the later numbers and accepts the current one a second time when it comes again.
   */
  lemma {:induction false} OlderResendRepeatsNumber(s: State, older: CloudCommand, env: Env,
                                                    again: CloudCommand, env': Env)
    requires Inv(s) && Admissible(older, env.claimed) && older.seqNo.value < s.seqNo
    requires env.lookupOk && HasRow(s.rows, older.seqNo.value)
    requires Admissible(again, env'.claimed) && again.seqNo.value == s.seqNo
    requires CanGet(s, again.client, env') && env'.insert == Stored
    ensures var t := Step(Step(s, CloudSends(older), env), CloudSends(again), env');
            && |Numbers(t.log)| >= 2
            && Numbers(t.log)[|Numbers(t.log)| - 2] == Numbers(t.log)[|Numbers(t.log)| - 1] == s.seqNo
  {
    hide HandleOld, HandleNew, Step, Inv, Numbers;
    var n := older.seqNo.value;
    CurrentIsLatest(s);
    var s1 := HandleOld(s, n, older.client, env);
    OldStep(s, older, env);
    OldAccepted(s, n, older.client, env, again.client, env');
    var t, cmd := Loaded(s1, again.client, env'.rowsRead), Command(again.client, s.seqNo, again.typ, again.payload);
    NewStep(s1, again, env');
    NewNumber(t, cmd, env');
    assert t.log == s1.log;
  }

  lemma {:induction false} CurrentIsLatest(s: State)
    requires Inv(s)
    ensures Latest(Numbers(s.log)) == s.seqNo
  {
    assert NumbersOk(s);
  }

  lemma {:induction false} OldStep(s: State, c: CloudCommand, env: Env)
    requires Admissible(c, env.claimed) && c.seqNo.value <= s.seqNo
    ensures Step(s, CloudSends(c), env) == HandleOld(s, c.seqNo.value, c.client, env)
  {
    hide HandleOld;
  }

  lemma {:induction false} NewStep(s: State, c: CloudCommand, env: Env)
    requires Admissible(c, env.claimed) && c.seqNo.value > s.seqNo && CanGet(s, c.client, env)
    ensures Step(s, CloudSends(c), env) ==
            HandleNew(Loaded(s, c.client, env.rowsRead), Command(c.client, c.seqNo.value, c.typ, c.payload), env)
  {
    hide HandleNew;
  }

  /** Storing a command appends its number to the numbers accepted. */
  lemma {:induction false} NewNumber(s: State, cmd: Command, env: Env)
    requires cmd.dev in s.devices && env.insert == Stored
    ensures Numbers(HandleNew(s, cmd, env).log) == Numbers(s.log) + [cmd.seqNo]
  {
    var t := Store(s, cmd);
    LogAppend(s.log, Accepted(cmd), cmd.dev);
    var u := SendAck(t, env.published);
    LogAppend(t.log, AckMsg(t.seqNo), cmd.dev);
    var d := u.devices[cmd.dev];
    if CanPush(d) && env.sendOk && env.published {
      assert HandleNew(s, cmd, env).log == u.log + [Put(cmd.dev, d.recv[0].cmd.seqNo)];
      LogAppend(u.log, Put(cmd.dev, d.recv[0].cmd.seqNo), cmd.dev);
    } else {
      assert HandleNew(s, cmd, env).log == u.log;
    }
  }

  function Numbered(d: Id, n: u32): Event
  {
    CloudSends(CloudCommand(Some(n), d, "restart", "", true))
  }

  /** Nothing fails. */
  const HEALTHY := Env(false, true, 8, true, true, Stored, true, true, true, true)

  /** The device has all its commands still to be executed. */
  ghost predicate Unexecuted(s: State)
  {
    forall i :: 0 <= i < |s.rows| ==> !s.rows[i].executed
  }

  lemma {:induction false} ExampleAccept(s: State, d: Id, n: u32)
    requires d.name != "" && CanGet(s, d, HEALTHY) && s.seqNo < n && Unexecuted(s)
    ensures var t := Step(s, Numbered(d, n), HEALTHY);
            && t.seqNo == n && Numbers(t.log) == Numbers(s.log) + [n]
            && d in t.devices && t.rows == s.rows + [Row(Command(d, n, "restart", ""), false)] && Unexecuted(t)
  {
    var l, cmd := Loaded(s, d, 8), Command(d, n, "restart", "");
    NewStep(s, CloudCommand(Some(n), d, "restart", "", true), HEALTHY);
    NewNumber(l, cmd, HEALTHY);
  }

  lemma {:induction false} ExampleResend(s: State, d: Id, n: u32)
    requires d.name != "" && d in s.devices && n <= s.seqNo && s.rows != [] && s.rows[0].cmd.seqNo == n && Unexecuted(s)
    ensures var t := Step(s, Numbered(d, n), HEALTHY);
            t.seqNo == n && Numbers(t.log) == Numbers(s.log) && d in t.devices && Unexecuted(t)
  {
    assert HasRow(s.rows, n) && !HasExecutedRow(s.rows, n);
    OldStep(s, CloudCommand(Some(n), d, "restart", "", true), HEALTHY);
    assert Step(s, Numbered(d, n), HEALTHY) == SendAck(s.(seqNo := n), true);
    LogAppend(s.log, AckMsg(n), d);
  }

  /** The same on a run in which nothing fails: numbers 1 and 2, then 1 again, then 2 again. */
  lemma {:induction false} RepeatedNumberExample(d: Id, es: seq<(Event, Env)>)
    requires d.name != "" && |es| == 4
    requires es[0] == es[2] == (Numbered(d, 1), HEALTHY) && es[1] == es[3] == (Numbered(d, 2), HEALTHY)
    ensures Numbers(Run(Init({d}), es).log) == [1, 2, 2]
  {
    var s := Init({d});
    assert CanGet(s, d, HEALTHY) && Unexecuted(s) && Numbers(s.log) == [] && s.seqNo == 0 && s.rows == [];
    hide Step, Run, Numbers, Init;
    FourNumbers(s, d, 1, 2);
    FourSteps(s, es);
  }

  lemma {:induction false} FourNumbers(s: State, d: Id, m: u32, n: u32)
    requires d.name != "" && CanGet(s, d, HEALTHY) && Unexecuted(s)
    requires Numbers(s.log) == [] && s.rows == [] && s.seqNo < m < n
    ensures var u := Step(Step(s, Numbered(d, m), HEALTHY), Numbered(d, n), HEALTHY);
            var t := Step(Step(u, Numbered(d, m), HEALTHY), Numbered(d, n), HEALTHY);
            Numbers(t.log) == [m, n, n]
  {
    hide Step, Numbers, Unexecuted, Numbered;
    ExampleAccept(s, d, m);
    var s1 := Step(s, Numbered(d, m), HEALTHY);
    ExampleAccept(s1, d, n);
    var s2 := Step(s1, Numbered(d, n), HEALTHY);
    ExampleResend(s2, d, m);
    ExampleAccept(Step(s2, Numbered(d, m), HEALTHY), d, n);
  }

  lemma {:induction false} FourSteps(s: State, es: seq<(Event, Env)>)
    requires |es| == 4
    ensures Run(s, es) ==
              Step(Step(Step(Step(s, es[0].0, es[0].1), es[1].0, es[1].1), es[2].0, es[2].1), es[3].0, es[3].1)
  {
    hide Step;
    var a, b, c := es[..3], es[..3][..2], es[..3][..2][..1];
    assert c[..0] == [] && Run(s, c[..0]) == s;
    assert Run(s, c) == Step(s, es[0].0, es[0].1);
    assert Run(s, b) == Step(Run(s, c), es[1].0, es[1].1);
    assert Run(s, a) == Step(Run(s, b), es[2].0, es[2].1);
  }

  /** A registered device without commands gets a new one at once. */
  lemma {:induction false} ExamplePush(s: State, d: Id, n: u32)
    requires d.name != "" && d in s.devices && s.seqNo < n
    requires s.devices[d].registered && s.devices[d].recv == [] && s.devices[d].outstanding == 0
    ensures var t := Step(s, Numbered(d, n), HEALTHY);
            && d in t.devices && t.devices[d].recv != []
            && t.devices[d].recv[0].inProgress && t.devices[d].outstanding == 1
  {
    var cmd := Command(d, n, "restart", "");
    assert CanGet(s, d, HEALTHY);
    NewStep(s, CloudCommand(Some(n), d, "restart", "", true), HEALTHY);
    var t := SendAck(Store(s, cmd), true);
    assert CanPush(t.devices[d]);
  }

  /** Three events after a fresh installation leave a command in progress that no answer will end. */
  lemma {:induction false} StuckExample(d: Id)
    requires d.name != ""
    ensures var s := Step(Step(Init({d}), Register(d), HEALTHY), Numbered(d, 1), HEALTHY);
            var t := Step(s, DeviceAnswers(d, Ok), HEALTHY.(markOk := false));
            d in t.devices && Stuck(t.devices[d])
  {
    var r := Step(Init({d}), Register(d), HEALTHY);
    assert DevRows([], d) == [];
    assert d in r.devices && r.devices[d].registered && r.devices[d].recv == [] && r.devices[d].outstanding == 0;
    ExamplePush(r, d, 1);
  }
}
