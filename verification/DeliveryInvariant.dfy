/**
 What every reachable state of the delivery protocol satisfies.
 */
module DeliveryInvariant {
  import opened Machine
  import opened Sequences
  import opened DeliveryModel

  ghost predicate Increasing(ns: seq<u32>)
  {
    forall i, j :: 0 <= i < j < |ns| ==> ns[i] < ns[j]
  }

  ghost predicate IncreasingRows(rows: seq<Row>)
  {
    forall i, j :: 0 <= i < j < |rows| ==> rows[i].cmd.seqNo < rows[j].cmd.seqNo
  }

  /** Executed commands were inserted before unexecuted ones. */
  ghost predicate ExecutedFirst(rs: seq<Row>)
  {
    forall i, j :: 0 <= i < j < |rs| && rs[j].executed ==> rs[i].executed
  }

  /** Sequence numbers: memory agrees with the table, and no number is ever accepted twice. */
  ghost predicate NumbersOk(s: State)
  {
    && s.seqNo == s.maxSeq == Latest(Numbers(s.log))
    && Increasing(Numbers(s.log))
    && IncreasingRows(s.rows)
    && (forall i :: 0 <= i < |s.rows| ==> s.rows[i].cmd.seqNo <= s.maxSeq)
  }

  /** The memory queues of a device are exactly its rows. */
  ghost predicate Agrees(d: Device, rs: seq<Row>)
  {
    && Cmds(d.recv) == WithFlag(rs, false)
    && Cmds(d.exec) == WithFlag(rs, true)
  }

  /** At most one request in flight, and it is for the head of the received queue. */
  ghost predicate FlightOk(d: Device)
  {
    && d.outstanding <= 1
    && (d.outstanding == 1 ==> d.recv != [] && d.recv[0].inProgress)
    && (forall i :: 1 <= i < |d.recv| ==> !d.recv[i].inProgress)
    && d.timeouts <= COMMAND_RETRY_NO
  }

  /** Nothing accepted is lost, duplicated or reordered. */
  ghost predicate Conserved(log: seq<Out>, rs: seq<Row>, id: Id)
  {
    && AcceptedOf(log, id) == ExecutedOf(log, id) + WithFlag(rs, false)
    && ExecutedOf(log, id) == CompletedOf(log, id) + WithFlag(rs, true)
  }

  ghost predicate DeviceOk(s: State, id: Id)
  {
    && ExecutedFirst(DevRows(s.rows, id))
    && Conserved(s.log, DevRows(s.rows, id), id)
    && (id in s.devices ==> Agrees(s.devices[id], DevRows(s.rows, id)) && FlightOk(s.devices[id]))
  }

  /**
   What one published or transmitted message says, given everything before it: a DONE names the
   oldest accepted command the cloud has not acknowledged, a PUT carries the oldest accepted
   command that is not marked executed, an ACK names the latest acceptance.
   */
  ghost predicate MessageOk(before: seq<Out>, o: Out)
  {
    match o
    case AckMsg(n) => n == Latest(Numbers(before))
    case DoneMsg(id, n) =>
      && |CompletedOf(before, id)| < |ExecutedOf(before, id)|
      && ExecutedOf(before, id)[|CompletedOf(before, id)|].seqNo == n
    case Put(id, n) =>
      && |ExecutedOf(before, id)| < |AcceptedOf(before, id)|
      && AcceptedOf(before, id)[|ExecutedOf(before, id)|].seqNo == n
    case _ => true
  }

  ghost predicate LogOk(log: seq<Out>)
  {
    log != [] ==> LogOk(log[..|log| - 1]) && MessageOk(log[..|log| - 1], log[|log| - 1])
  }

  ghost predicate Inv(s: State)
  {
    && NumbersOk(s)
    && (forall id :: DeviceOk(s, id))
    && LogOk(s.log)
    && s.ackCounter <= STATUS_RETRY_NO
  }

  // ---------------------------------------------------------------- the table

  lemma {:induction false} DevRowsAppend(rows: seq<Row>, r: Row, id: Id)
    ensures DevRows(rows + [r], id) == DevRows(rows, id) + (if r.cmd.dev == id then [r] else [])
  {
    assert (rows + [r])[..|rows|] == rows;
  }

  /** Every row of a device is a row of the table. */
  lemma {:induction false} DevRowsIn(rows: seq<Row>, id: Id)
    ensures forall r :: r in DevRows(rows, id) ==> r in rows && r.cmd.dev == id
  {
    if rows != [] { DevRowsIn(rows[..|rows| - 1], id); }
  }

  lemma {:induction false} DevRowsIncreasing(rows: seq<Row>, id: Id)
    requires IncreasingRows(rows)
    ensures IncreasingRows(DevRows(rows, id))
  {
    if rows != [] {
      var init := rows[..|rows| - 1];
      DevRowsIncreasing(init, id);
      DevRowsIn(init, id);
      var ds := DevRows(init, id);
      forall i | 0 <= i < |ds|
        ensures ds[i].cmd.seqNo < rows[|rows| - 1].cmd.seqNo
      {
        assert ds[i] in init;
      }
    }
  }

  /** Marking and deleting commute with restricting the table to one device. */
  lemma {:induction false} DevRowsMark(rows: seq<Row>, n: u32, id: Id)
    ensures DevRows(MarkRows(rows, n), id) == MarkRows(DevRows(rows, id), n)
  {
    if rows != [] {
      var init, last := rows[..|rows| - 1], rows[|rows| - 1];
      DevRowsMark(init, n, id);
      var last' := if last.cmd.seqNo == n then last.(executed := true) else last;
      assert MarkRows(rows, n) == MarkRows(init, n) + [last'];
      DevRowsAppend(MarkRows(init, n), last', id);
      if last.cmd.dev == id {
        assert MarkRows(DevRows(init, id) + [last], n) == MarkRows(DevRows(init, id), n) + [last'];
      } else {
        assert DevRows(init, id) + [] == DevRows(init, id);
      }
    }
  }

  lemma {:induction false} DeleteAppend(rows: seq<Row>, r: Row, n: u32)
    ensures DeleteRows(rows + [r], n) == DeleteRows(rows, n) + (if r.cmd.seqNo != n then [r] else [])
  {
    assert (rows + [r])[..|rows|] == rows;
  }

  lemma {:induction false} DevRowsDelete(rows: seq<Row>, n: u32, id: Id)
    ensures DevRows(DeleteRows(rows, n), id) == DeleteRows(DevRows(rows, id), n)
  {
    assert DevRows([], id) == [] && DeleteRows([], n) == [];
    hide DevRows, DeleteRows;
    if rows != [] {
      var init, last := rows[..|rows| - 1], rows[|rows| - 1];
      DevRowsDelete(init, n, id);
      DropLast(rows);
      DeleteAppend(init, last, n);
      DevRowsAppend(init, last, id);
      DevRowsAppend(DeleteRows(init, n), last, id);
      DeleteAppend(DevRows(init, id), last, n);
      Empty(DeleteRows(init, n));
      Empty(DevRows(init, id));
      Empty(DeleteRows(DevRows(init, id), n));
    }
  }

  lemma {:induction false} DeleteIn(rows: seq<Row>, n: u32)
    ensures forall r :: r in DeleteRows(rows, n) <==> r in rows && r.cmd.seqNo != n
  {
    if rows != [] { DeleteIn(rows[..|rows| - 1], n); }
  }

  lemma {:induction false} DeleteIncreasing(rows: seq<Row>, n: u32)
    requires IncreasingRows(rows)
    ensures IncreasingRows(DeleteRows(rows, n))
  {
    if rows != [] {
      var init := rows[..|rows| - 1];
      DeleteIncreasing(init, n);
      DeleteIn(init, n);
      var ds := DeleteRows(init, n);
      forall i | 0 <= i < |ds|
        ensures ds[i].cmd.seqNo < rows[|rows| - 1].cmd.seqNo
      {
        assert ds[i] in init;
      }
    }
  }

  /** Deleting an absent number changes nothing; deleting the first of increasing rows drops it. */
  lemma {:induction false} DeleteHead(rs: seq<Row>, n: u32)
    requires IncreasingRows(rs)
    ensures (forall r :: r in rs ==> r.cmd.seqNo != n) ==> DeleteRows(rs, n) == rs
    ensures rs != [] && rs[0].cmd.seqNo == n ==> DeleteRows(rs, n) == rs[1..]
  {
    assert DeleteRows([], n) == [];
    hide DeleteRows;
    if rs != [] {
      var init, last := rs[..|rs| - 1], rs[|rs| - 1];
      DeleteHead(init, n);
      DropLast(rs);
      DeleteAppend(init, last, n);
      if init == [] {
        assert rs[1..] == [];
      } else {
        DropAppend(init, last);
      }
      assert last in rs && forall r :: r in init ==> r in rs;
    }
  }

  // ---------------------------------------------------------------- executed and pending rows

  function RowCmds(rs: seq<Row>): (cs: seq<Command>)
    ensures |cs| == |rs|
  {
    seq(|rs|, i requires 0 <= i < |rs| => rs[i].cmd)
  }

  lemma {:induction false} WithFlagAppend(rs: seq<Row>, r: Row, flag: bool)
    ensures WithFlag(rs + [r], flag) == WithFlag(rs, flag) + (if r.executed == flag then [r.cmd] else [])
  {
    assert (rs + [r])[..|rs|] == rs;
  }

  lemma {:induction false} RowCmdsAppend(rs: seq<Row>, r: Row)
    ensures RowCmds(rs + [r]) == RowCmds(rs) + [r.cmd]
  {
  }

  lemma {:induction false} RowCmdsTail(rs: seq<Row>)
    requires rs != []
    ensures RowCmds(rs)[0] == rs[0].cmd && RowCmds(rs[1..]) == RowCmds(rs)[1..]
  {
  }

  /** When the first `m` rows are the executed ones, the two queues are the two halves. */
  lemma {:induction false} SplitAt(rs: seq<Row>, m: nat)
    requires m <= |rs|
    requires forall i :: 0 <= i < |rs| ==> (rs[i].executed <==> i < m)
    ensures WithFlag(rs, true) == RowCmds(rs[..m])
    ensures WithFlag(rs, false) == RowCmds(rs[m..])
  {
    assert WithFlag([], true) == [] && WithFlag([], false) == [] && RowCmds([]) == [];
    hide RowCmds, WithFlag;
    if rs != [] {
      var init, last := rs[..|rs| - 1], rs[|rs| - 1];
      DropLast(rs);
      TakeDrop(rs);
      TakeDrop(init);
      WithFlagAppend(init, last, true);
      WithFlagAppend(init, last, false);
      if m == |rs| {
        SplitAt(init, m - 1);
        RowCmdsAppend(init, last);
      } else {
        SplitAt(init, m);
        assert init[..m] == rs[..m] && rs[m..] == init[m..] + [last];
        RowCmdsAppend(init[m..], last);
        Empty(WithFlag(init, true));
      }
    }
  }

  /** Executed rows come first exactly when they are a prefix; its length is |WithFlag(rs, true)|. */
  lemma {:induction false} Split(rs: seq<Row>) returns (m: nat)
    requires ExecutedFirst(rs)
    ensures m <= |rs|
    ensures forall i :: 0 <= i < |rs| ==> (rs[i].executed <==> i < m)
    ensures WithFlag(rs, true) == RowCmds(rs[..m])
    ensures WithFlag(rs, false) == RowCmds(rs[m..])
  {
    m := 0;
    while m < |rs| && rs[m].executed
      invariant m <= |rs|
      invariant forall i :: 0 <= i < m ==> rs[i].executed
    {
      m := m + 1;
    }
    SplitAt(rs, m);
  }

  lemma {:induction false} FlagsCover(rs: seq<Row>)
    ensures |WithFlag(rs, true)| + |WithFlag(rs, false)| == |rs|
  {
    if rs != [] { FlagsCover(rs[..|rs| - 1]); }
  }

  /** Marking the oldest unexecuted command moves it from the head of one queue to the end of the other. */
  lemma {:induction false} MarkOldest(rs: seq<Row>, n: u32)
    requires IncreasingRows(rs) && ExecutedFirst(rs)
    requires WithFlag(rs, false) != [] && WithFlag(rs, false)[0].seqNo == n
    ensures ExecutedFirst(MarkRows(rs, n))
    ensures WithFlag(MarkRows(rs, n), true) == WithFlag(rs, true) + [WithFlag(rs, false)[0]]
    ensures WithFlag(MarkRows(rs, n), false) == WithFlag(rs, false)[1..]
  {
    var m := Split(rs);
    var ms := MarkRows(rs, n);
    assert rs[m].cmd.seqNo == n;
    SplitAt(ms, m + 1);
    assert RowCmds(ms[..m + 1]) == RowCmds(rs[..m]) + [rs[m].cmd];
    assert RowCmds(ms[m + 1..]) == RowCmds(rs[m..])[1..];
  }

  /** Marking a number the rows do not hold changes nothing. */
  lemma {:induction false} MarkAbsent(rs: seq<Row>, n: u32)
    requires forall r :: r in rs ==> r.cmd.seqNo != n
    ensures MarkRows(rs, n) == rs
  {
    forall i | 0 <= i < |rs| ensures MarkRows(rs, n)[i] == rs[i] { assert rs[i] in rs; }
  }

  /** Deleting the oldest executed command pops the executed queue. */
  lemma {:induction false} DeleteOldest(rs: seq<Row>, n: u32)
    requires IncreasingRows(rs) && ExecutedFirst(rs)
    requires WithFlag(rs, true) != [] && WithFlag(rs, true)[0].seqNo == n
    ensures DeleteRows(rs, n) == rs[1..]
    ensures ExecutedFirst(rs[1..])
    ensures WithFlag(rs[1..], true) == WithFlag(rs, true)[1..]
    ensures WithFlag(rs[1..], false) == WithFlag(rs, false)
  {
    hide RowCmds, WithFlag, DeleteRows;
    var m := Split(rs);
    RowCmdsTail(rs[..m]);
    DeleteHead(rs, n);
    SplitAt(rs[1..], m - 1);
    assert rs[1..][..m - 1] == rs[..m][1..] && rs[1..][m - 1..] == rs[m..];
  }

  /** In a table with increasing numbers two rows with one number are one row. */
  lemma {:induction false} SameNumberSameRow(rows: seq<Row>, a: Row, b: Row)
    requires IncreasingRows(rows) && a in rows && b in rows && a.cmd.seqNo == b.cmd.seqNo
    ensures a == b
  {
    var i :| 0 <= i < |rows| && rows[i] == a;
    var j :| 0 <= j < |rows| && rows[j] == b;
    assert i == j;
  }

  lemma {:induction false} WithFlagIn(rs: seq<Row>, flag: bool)
    ensures forall c :: c in WithFlag(rs, flag) ==> exists r :: r in rs && r.cmd == c && r.executed == flag
  {
    if rs != [] {
      WithFlagIn(rs[..|rs| - 1], flag);
      forall c | c in WithFlag(rs, flag)
        ensures exists r :: r in rs && r.cmd == c && r.executed == flag
      {
        if c in WithFlag(rs[..|rs| - 1], flag) {
          var r :| r in rs[..|rs| - 1] && r.cmd == c && r.executed == flag;
          assert r in rs;
        } else {
          assert rs[|rs| - 1] in rs;
        }
      }
    }
  }

  /** A queued command belongs to its device and its number occurs in no other device's rows. */
  lemma {:induction false} QueuedRow(rows: seq<Row>, id: Id, flag: bool, other: Id)
    requires IncreasingRows(rows) && WithFlag(DevRows(rows, id), flag) != []
    ensures WithFlag(DevRows(rows, id), flag)[0].dev == id
    ensures other != id ==>
              forall r :: r in DevRows(rows, other) ==> r.cmd.seqNo != WithFlag(DevRows(rows, id), flag)[0].seqNo
  {
    var c := WithFlag(DevRows(rows, id), flag)[0];
    WithFlagIn(DevRows(rows, id), flag);
    assert c in WithFlag(DevRows(rows, id), flag);
    var a :| a in DevRows(rows, id) && a.cmd == c && a.executed == flag;
    DevRowsIn(rows, id);
    DevRowsIn(rows, other);
    if other != id {
      forall r | r in DevRows(rows, other) ensures r.cmd.seqNo != c.seqNo {
        if r.cmd.seqNo == c.seqNo { SameNumberSameRow(rows, a, r); }
      }
    }
  }

  // ---------------------------------------------------------------- the log

  ghost predicate Quiet(o: Out)
  {
    o.AckMsg? || o.DoneMsg? || o.Put?
  }

  /** How one entry changes what the log says about a device. */
  lemma {:induction false} LogAppend(log: seq<Out>, o: Out, id: Id)
    ensures AcceptedOf(log + [o], id) == AcceptedOf(log, id) + (if o.Accepted? && o.cmd.dev == id then [o.cmd] else [])
    ensures ExecutedOf(log + [o], id) == ExecutedOf(log, id) + (if o.Executed? && o.cmd.dev == id then [o.cmd] else [])
    ensures CompletedOf(log + [o], id) ==
            CompletedOf(log, id) + (if o.Completed? && o.cmd.dev == id then [o.cmd] else [])
    ensures Numbers(log + [o]) == Numbers(log) + (if o.Accepted? then [o.cmd.seqNo] else [])
  {
    assert (log + [o])[..|log|] == log;
  }

  lemma {:induction false} LogOkAppend(log: seq<Out>, o: Out)
    requires LogOk(log) && MessageOk(log, o)
    ensures LogOk(log + [o])
  {
    assert (log + [o])[..|log|] == log;
  }

  /** Every single message of a consistent log is truthful. */
  lemma {:induction false} LogOkAt(log: seq<Out>, i: nat)
    requires LogOk(log) && i < |log|
    ensures MessageOk(log[..i], log[i])
  {
    if i < |log| - 1 {
      assert log[..|log| - 1][..i] == log[..i];
      LogOkAt(log[..|log| - 1], i);
    }
  }

  /** Publishing a truthful message keeps the invariant. */
  lemma {:induction false} QuietSame(log: seq<Out>, o: Out, id: Id)
    requires Quiet(o)
    ensures AcceptedOf(log + [o], id) == AcceptedOf(log, id) && ExecutedOf(log + [o], id) == ExecutedOf(log, id)
    ensures CompletedOf(log + [o], id) == CompletedOf(log, id) && Numbers(log + [o]) == Numbers(log)
  {
    hide AcceptedOf, ExecutedOf, CompletedOf, Numbers;
    LogAppend(log, o, id);
    Empty(AcceptedOf(log, id));
    Empty(ExecutedOf(log, id));
    Empty(CompletedOf(log, id));
    Empty(Numbers(log));
  }

  lemma {:induction false} InvLogged(s: State, o: Out)
    requires Inv(s) && Quiet(o) && MessageOk(s.log, o)
    ensures Inv(Logged(s, o))
  {
    hide DevRows, Agrees, FlightOk, ExecutedFirst, Increasing, IncreasingRows, LogOk;
    var t := Logged(s, o);
    assert LogOk(t.log) by { LogOkAppend(s.log, o); }
    assert NumbersOk(t) by { QuietSame(s.log, o, Id("")); }
    forall id ensures DeviceOk(t, id) {
      assert DeviceOk(s, id);
      QuietSame(s.log, o, id);
    }
  }
}
