/**
 The client's scheduler on values: a list of entries with lazy deletion, the sweep that drops the
 deleted ones, and the dispatch pass, whose callbacks may add and delete entries.
 */
module Scheduler {
  import opened Machine
  import opened Sequences

  datatype Entry = Entry(fd: int, callback: int, dirty: bool)

  /** What a callback may do to the scheduler. */
  datatype Op = Add(fd: int, callback: Option<int>) | Del(fd: int)

  function AddEntry(s: seq<Entry>, fd: int, callback: Option<int>): seq<Entry>
  {
    if fd < 0 || callback.None? then s else s + [Entry(fd, callback.value, false)]
  }

  /** The position of the first entry of a descriptor, deleted or not. */
  function First(s: seq<Entry>, fd: int): (i: nat)
    ensures i <= |s| && (i < |s| ==> s[i].fd == fd)
    ensures forall j :: 0 <= j < i ==> s[j].fd != fd
  {
    if s == [] || s[0].fd == fd then 0 else 1 + First(s[1..], fd)
  }

  function DelEntry(s: seq<Entry>, fd: int): (t: seq<Entry>)
    ensures |t| == |s|
  {
    var i := First(s, fd);
    if i < |s| then s[i := s[i].(dirty := true)] else s
  }

  function DoOp(s: seq<Entry>, op: Op): seq<Entry>
  {
    match op case Add(fd, callback) => AddEntry(s, fd, callback) case Del(fd) => DelEntry(s, fd)
  }

  function DoAll(s: seq<Entry>, ops: seq<Op>): seq<Entry>
  {
    if ops == [] then s else DoOp(DoAll(s, ops[..|ops| - 1]), ops[|ops| - 1])
  }

  // ---------------------------------------------------------------- deletion

  /** A live entry of the descriptor. */
  predicate LiveAt(s: seq<Entry>, fd: int, j: nat)
  {
    j < |s| && s[j].fd == fd && !s[j].dirty
  }

  /**
   Deleting a descriptor leaves no live entry of it if and only if no entry but the first one of the
   descriptor was live: the search stops at the first entry even when that one is deleted already.
   */
  lemma {:induction false} DeleteExact(s: seq<Entry>, fd: int)
    ensures (forall j :: !LiveAt(DelEntry(s, fd), fd, j)) <==> (forall j :: LiveAt(s, fd, j) ==> j == First(s, fd))
  {
    var i, t := First(s, fd), DelEntry(s, fd);
    forall j ensures LiveAt(t, fd, j) <==> LiveAt(s, fd, j) && j != i { }
  }

  /** Entries of other descriptors stay as they are. */
  lemma {:induction false} DeleteSpares(s: seq<Entry>, fd: int, j: nat)
    requires j < |s|
    ensures DelEntry(s, fd)[j].fd == s[j].fd && DelEntry(s, fd)[j].callback == s[j].callback
    ensures s[j].fd != fd ==> DelEntry(s, fd)[j] == s[j]
    ensures s[j].dirty ==> DelEntry(s, fd)[j].dirty
  {
  }

  /** Operations take effect one after the other. */
  lemma {:induction false} DoAllLast(s: seq<Entry>, ops: seq<Op>, fd: int, callback: Option<int>)
    ensures DoAll(s, []) == s
    ensures DoAll(s, ops + [Add(fd, callback)]) == AddEntry(DoAll(s, ops), fd, callback)
    ensures DoAll(s, ops + [Del(fd)]) == DelEntry(DoAll(s, ops), fd)
  {
    hide AddEntry, DelEntry;
    TakeAppend(ops, Add(fd, callback));
    TakeAppend(ops, Del(fd));
  }

  /** Registered, deleted, registered again and deleted again before a sweep: the entry stays live. */
  lemma {:induction false} DeleteTwiceExample(fd: nat, a: int, b: int)
    ensures var once := DelEntry(AddEntry([], fd, Some(a)), fd);
            DelEntry(AddEntry(once, fd, Some(b)), fd) == [Entry(fd, a, true), Entry(fd, b, false)]
  {
    var e, f := Entry(fd, a, true), Entry(fd, b, false);
    assert AddEntry([], fd, Some(a)) == [Entry(fd, a, false)];
    assert DelEntry([Entry(fd, a, false)], fd) == [e];
    assert AddEntry([e], fd, Some(b)) == [e, f];
    assert First([e, f], fd) == 0;
  }

  // ---------------------------------------------------------------- sweep

  /** The entries that are not deleted, in order. */
  function Sweep(s: seq<Entry>): seq<Entry>
  {
    if s == [] then [] else Sweep(s[..|s| - 1]) + if s[|s| - 1].dirty then [] else [s[|s| - 1]]
  }

  /** The descriptors given to select. */
  function Descriptors(s: seq<Entry>): set<int>
  {
    set i | 0 <= i < |s| :: s[i].fd
  }

  lemma {:induction false} SweepAppend(s: seq<Entry>, e: Entry)
    ensures Sweep(s + [e]) == Sweep(s) + if e.dirty then [] else [e]
  {
    assert (s + [e])[..|s|] == s;
  }

  lemma {:induction false} SweepClean(s: seq<Entry>)
    ensures forall i :: 0 <= i < |Sweep(s)| ==> !Sweep(s)[i].dirty && Sweep(s)[i] in s
    ensures forall i :: 0 <= i < |s| && !s[i].dirty ==> s[i] in Sweep(s)
  {
    if s != [] { SweepClean(s[..|s| - 1]); }
  }

  /** The positions of the entries that are not deleted. */
  function LivePositions(s: seq<Entry>): (ps: seq<nat>)
  {
    if s == [] then []
    else LivePositions(s[..|s| - 1]) + if s[|s| - 1].dirty then [] else [|s| - 1]
  }

  /** A sweep keeps the entries in their order, each exactly once. */
  lemma {:induction false} SweepOrdered(s: seq<Entry>)
    ensures var ps := LivePositions(s);
            && |Sweep(s)| == |ps|
            && (forall i :: 0 <= i < |ps| ==> ps[i] < |s| && Sweep(s)[i] == s[ps[i]])
            && (forall i, j :: 0 <= i < j < |ps| ==> ps[i] < ps[j])
            && (forall k :: 0 <= k < |s| ==> (k in ps <==> !s[k].dirty))
  {
    if s != [] {
      var init := s[..|s| - 1];
      SweepOrdered(init);
      var ps, qs := LivePositions(init), LivePositions(s);
      assert qs == ps + if s[|s| - 1].dirty then [] else [|s| - 1];
      assert Sweep(s) == Sweep(init) + if s[|s| - 1].dirty then [] else [s[|s| - 1]];
      hide LivePositions, Sweep;
      forall k | 0 <= k < |s| ensures k in qs <==> !s[k].dirty {
        if k < |s| - 1 { assert init[k] == s[k]; }
      }
      forall i | 0 <= i < |qs| ensures qs[i] < |s| && Sweep(s)[i] == s[qs[i]] {
        if i < |ps| { assert init[ps[i]] == s[ps[i]]; }
      }
    }
  }

  /** Registering adds one live entry behind the others, and nothing for a bad descriptor or no callback. */
  lemma {:induction false} AddRegisters(s: seq<Entry>, fd: int, callback: Option<int>)
    ensures var t := AddEntry(s, fd, callback);
            && s <= t
            && (fd < 0 || callback == None ==> t == s)
            && (fd >= 0 && callback.Some? ==>
                  |t| == |s| + 1 && LiveAt(t, fd, |s|) && t[|s|].callback == callback.value)
  {
  }

  // ---------------------------------------------------------------- dispatch

  /** A callback that was run: the position and contents of its entry at that moment. */
  datatype Fired = Fired(at: nat, entry: Entry)

  datatype Pass = Pass(entries: seq<Entry>, ready: set<int>, trace: seq<Fired>)

  /** What the next callback does; `scripts` is indexed by the number of callbacks run. */
  function Script(scripts: seq<seq<Op>>, k: nat): seq<Op>
  {
    if k < |scripts| then scripts[k] else []
  }

  predicate Ready(p: Pass, i: nat)
  {
    i < |p.entries| && !p.entries[i].dirty && p.entries[i].fd in p.ready
  }

  function Fire(p: Pass, i: nat, scripts: seq<seq<Op>>): Pass
    requires Ready(p, i)
  {
    Pass(DoAll(p.entries, Script(scripts, |p.trace|)), p.ready - {p.entries[i].fd}, p.trace + [Fired(i, p.entries[i])])
  }

  /** The rest of a dispatch pass, from entry `i` on; it ends although callbacks may append entries. */
  function Dispatch(p: Pass, i: nat, scripts: seq<seq<Op>>): Pass
    decreases |p.ready|, |p.entries| - i
  {
    if i >= |p.entries| then p
    else if Ready(p, i) then
      assert |p.ready - {p.entries[i].fd}| < |p.ready|;
      Dispatch(Fire(p, i, scripts), i + 1, scripts)
    else Dispatch(p, i + 1, scripts)
  }

  /** Callbacks only append entries and mark entries deleted. */
  predicate Extends(s: seq<Entry>, t: seq<Entry>)
  {
    && |s| <= |t|
    && forall i :: 0 <= i < |s| ==>
         t[i].fd == s[i].fd && t[i].callback == s[i].callback && (s[i].dirty ==> t[i].dirty)
  }

  lemma {:induction false} DoAllExtends(s: seq<Entry>, ops: seq<Op>)
    ensures Extends(s, DoAll(s, ops))
  {
    if ops != [] { DoAllExtends(s, ops[..|ops| - 1]); }
  }

  /** A pass only extends the list, only clears descriptors and only appends to the trace. */
  lemma {:induction false} DispatchExtends(p: Pass, i: nat, scripts: seq<seq<Op>>)
    ensures var q := Dispatch(p, i, scripts);
            Extends(p.entries, q.entries) && q.ready <= p.ready && p.trace <= q.trace
    decreases |p.ready|, |p.entries| - i
  {
    if i < |p.entries| {
      if Ready(p, i) {
        var q := Fire(p, i, scripts);
        DoAllExtends(p.entries, Script(scripts, |p.trace|));
        assert |q.ready| < |p.ready|;
        DispatchExtends(q, i + 1, scripts);
      } else {
        DispatchExtends(p, i + 1, scripts);
      }
    }
  }

  /** The callback belongs to the entry at that position of the list. */
  predicate FromList(p: Pass, f: Fired)
  {
    f.at < |p.entries| && p.entries[f.at].fd == f.entry.fd && p.entries[f.at].callback == f.entry.callback
  }

  /** The callbacks run so far: in list order, once per descriptor, on entries that were live then. */
  ghost predicate TraceOk(p: Pass, i: nat)
  {
    && (forall k :: 0 <= k < |p.trace| ==>
          p.trace[k].at < i && !p.trace[k].entry.dirty && p.trace[k].entry.fd !in p.ready && FromList(p, p.trace[k]))
    && (forall j, k :: 0 <= j < k < |p.trace| ==>
          p.trace[j].at < p.trace[k].at && p.trace[j].entry.fd != p.trace[k].entry.fd)
  }

  lemma {:induction false} FireTrace(p: Pass, i: nat, scripts: seq<seq<Op>>)
    requires TraceOk(p, i) && Ready(p, i)
    ensures TraceOk(Fire(p, i, scripts), i + 1)
  {
    var q := Fire(p, i, scripts);
    DoAllExtends(p.entries, Script(scripts, |p.trace|));
    forall k | 0 <= k < |q.trace|
      ensures && q.trace[k].at < i + 1 && !q.trace[k].entry.dirty
              && q.trace[k].entry.fd !in q.ready && FromList(q, q.trace[k])
    {
      if k < |p.trace| { assert q.trace[k] == p.trace[k] && FromList(p, p.trace[k]); }
    }
  }

  lemma {:induction false} DispatchTrace(p: Pass, i: nat, scripts: seq<seq<Op>>)
    requires TraceOk(p, i)
    ensures exists n :: TraceOk(Dispatch(p, i, scripts), n)
    decreases |p.ready|, |p.entries| - i
  {
    if i >= |p.entries| {
      assert Dispatch(p, i, scripts) == p;
    } else if Ready(p, i) {
      var q := Fire(p, i, scripts);
      FireTrace(p, i, scripts);
      assert |q.ready| < |p.ready|;
      DispatchTrace(q, i + 1, scripts);
      assert Dispatch(p, i, scripts) == Dispatch(q, i + 1, scripts);
    } else {
      assert TraceOk(p, i + 1);
      DispatchTrace(p, i + 1, scripts);
      assert Dispatch(p, i, scripts) == Dispatch(p, i + 1, scripts);
    }
  }

  /** The entries before `i` are served: none of them is both live and still ready. */
  ghost predicate Served(p: Pass, i: nat)
  {
    forall j :: 0 <= j < i && j < |p.entries| ==> !Ready(p, j)
  }

  /** Nothing is missed: at the end every descriptor still ready has only deleted entries. */
  lemma {:induction false} DispatchServes(p: Pass, i: nat, scripts: seq<seq<Op>>)
    requires Served(p, i)
    ensures var q := Dispatch(p, i, scripts);
            Served(q, |q.entries|)
    decreases |p.ready|, |p.entries| - i
  {
    if i < |p.entries| {
      if Ready(p, i) {
        var q := Fire(p, i, scripts);
        DoAllExtends(p.entries, Script(scripts, |p.trace|));
        assert |q.ready| < |p.ready|;
        forall j | 0 <= j < i + 1 && j < |q.entries| ensures !Ready(q, j) { assert j < i ==> !Ready(p, j); }
        DispatchServes(q, i + 1, scripts);
      } else {
        DispatchServes(p, i + 1, scripts);
      }
    }
  }

  /** One round of the loop after the sweep, with the descriptors select reports. */
  function Round(s: seq<Entry>, ready: set<int>, scripts: seq<seq<Op>>): Pass
  {
    Dispatch(Pass(Sweep(s), ready, []), 0, scripts)
  }

  predicate HasFired(trace: seq<Fired>, fd: int)
  {
    exists k :: 0 <= k < |trace| && trace[k].entry.fd == fd
  }

  /** The descriptors cleared so far are those whose callback was run. */
  ghost predicate Cleared(p: Pass, ready: set<int>)
  {
    && p.ready <= ready
    && forall fd :: HasFired(p.trace, fd) || fd in p.ready <==> fd in ready
  }

  lemma {:induction false} FireClears(p: Pass, i: nat, scripts: seq<seq<Op>>, ready: set<int>)
    requires Cleared(p, ready) && Ready(p, i)
    ensures Cleared(Fire(p, i, scripts), ready)
  {
    var q := Fire(p, i, scripts);
    forall fd ensures HasFired(q.trace, fd) <==> HasFired(p.trace, fd) || fd == p.entries[i].fd {
      assert q.trace[|p.trace|].entry.fd == p.entries[i].fd;
      if HasFired(p.trace, fd) {
        var k :| 0 <= k < |p.trace| && p.trace[k].entry.fd == fd;
        assert q.trace[k].entry.fd == fd;
      }
    }
  }

  lemma {:induction false} DispatchClears(p: Pass, i: nat, scripts: seq<seq<Op>>, ready: set<int>)
    requires Cleared(p, ready)
    ensures Cleared(Dispatch(p, i, scripts), ready)
    decreases |p.ready|, |p.entries| - i
  {
    if i < |p.entries| {
      if Ready(p, i) {
        var q := Fire(p, i, scripts);
        FireClears(p, i, scripts, ready);
        assert |q.ready| < |p.ready|;
        DispatchClears(q, i + 1, scripts, ready);
        assert Dispatch(p, i, scripts) == Dispatch(q, i + 1, scripts);
      } else {
        DispatchClears(p, i + 1, scripts, ready);
        assert Dispatch(p, i, scripts) == Dispatch(p, i + 1, scripts);
      }
    }
  }

  /**
   A round of the scheduler, for every list, every set of ready descriptors and whatever the callbacks
   do: callbacks run in list order, at most once per descriptor, only for ready descriptors and only
   for entries not deleted at that moment; and no ready descriptor with an entry that is still live at
   the end was passed over.
   */
  lemma {:induction false} RoundCorrect(s: seq<Entry>, ready: set<int>, scripts: seq<seq<Op>>)
    ensures var q := Round(s, ready, scripts);
            && (forall k :: 0 <= k < |q.trace| ==>
                  FromList(q, q.trace[k]) && !q.trace[k].entry.dirty && q.trace[k].entry.fd in ready)
            && (forall j, k :: 0 <= j < k < |q.trace| ==>
                  q.trace[j].at < q.trace[k].at && q.trace[j].entry.fd != q.trace[k].entry.fd)
            && (forall j :: 0 <= j < |q.entries| && q.entries[j].fd in ready && !q.entries[j].dirty ==>
                  HasFired(q.trace, q.entries[j].fd))
            && Extends(Sweep(s), q.entries)
  {
    var p, q := Pass(Sweep(s), ready, []), Round(s, ready, scripts);
    DispatchExtends(p, 0, scripts);
    DispatchTrace(p, 0, scripts);
    DispatchServes(p, 0, scripts);
    DispatchClears(p, 0, scripts, ready);
    forall k | 0 <= k < |q.trace| ensures q.trace[k].entry.fd in ready {
      assert HasFired(q.trace, q.trace[k].entry.fd);
    }
    forall j | 0 <= j < |q.entries| && q.entries[j].fd in ready && !q.entries[j].dirty
      ensures HasFired(q.trace, q.entries[j].fd)
    {
      assert !Ready(q, j);
    }
  }

  // ---------------------------------------------------------------- callbacks during a round

  /** What the first `n` callbacks do, in order. */
  function AllOps(scripts: seq<seq<Op>>, n: nat): seq<Op>
  {
    if n == 0 then [] else AllOps(scripts, n - 1) + Script(scripts, n - 1)
  }

  lemma {:induction false} DoAllThen(s: seq<Entry>, a: seq<Op>, b: seq<Op>)
    ensures DoAll(s, a + b) == DoAll(DoAll(s, a), b)
  {
    hide DoOp;
    if b == [] {
      Empty(a);
    } else {
      var init, op := b[..|b| - 1], b[|b| - 1];
      DoAllThen(s, a, init);
      DropLast(b);
      Assoc(a, init, [op]);
      TakeAppend(a + init, op);
    }
  }

  /** The list is what the callbacks so far have made of `s`, and each was run on the list of its time. */
  ghost predicate InStep(p: Pass, s: seq<Entry>, scripts: seq<seq<Op>>)
  {
    p.entries == Stage(s, scripts, |p.trace|) && TraceInStep(p.trace, s, scripts)
  }

  /** The list after the first `n` callbacks. */
  function Stage(s: seq<Entry>, scripts: seq<seq<Op>>, n: nat): seq<Entry>
  {
    DoAll(s, AllOps(scripts, n))
  }

  ghost predicate TraceInStep(trace: seq<Fired>, s: seq<Entry>, scripts: seq<seq<Op>>)
  {
    forall k :: 0 <= k < |trace| ==> RunOn(trace[k], Stage(s, scripts, k))
  }

  lemma {:induction false} StageNext(s: seq<Entry>, scripts: seq<seq<Op>>, n: nat)
    ensures Stage(s, scripts, n + 1) == DoAll(Stage(s, scripts, n), Script(scripts, n))
  {
    assert AllOps(scripts, n + 1) == AllOps(scripts, n) + Script(scripts, n);
    hide DoAll, AllOps, Script;
    DoAllThen(s, AllOps(scripts, n), Script(scripts, n));
  }

  lemma {:induction false} TraceNext(trace: seq<Fired>, f: Fired, s: seq<Entry>, scripts: seq<seq<Op>>)
    requires TraceInStep(trace, s, scripts) && RunOn(f, Stage(s, scripts, |trace|))
    ensures TraceInStep(trace + [f], s, scripts)
  {
    hide Stage, RunOn;
  }

  /** The callback was that of an entry of the list `l`. */
  predicate RunOn(f: Fired, l: seq<Entry>)
  {
    f.at < |l| && l[f.at] == f.entry
  }

  lemma {:induction false} DispatchInStep(p: Pass, i: nat, scripts: seq<seq<Op>>, s: seq<Entry>)
    requires InStep(p, s, scripts)
    ensures InStep(Dispatch(p, i, scripts), s, scripts)
    decreases |p.ready|, |p.entries| - i
  {
    hide InStep;
    if i < |p.entries| {
      if Ready(p, i) {
        var q := Fire(p, i, scripts);
        FireInStep(p, i, scripts, s);
        assert |q.ready| < |p.ready|;
        DispatchInStep(q, i + 1, scripts, s);
      } else {
        DispatchInStep(p, i + 1, scripts, s);
      }
    }
  }

  lemma {:induction false} FireInStep(p: Pass, i: nat, scripts: seq<seq<Op>>, s: seq<Entry>)
    requires InStep(p, s, scripts) && Ready(p, i)
    ensures InStep(Fire(p, i, scripts), s, scripts)
  {
    hide DoAll, Script, Stage, TraceInStep;
    StageNext(s, scripts, |p.trace|);
    TraceNext(p.trace, Fired(i, p.entries[i]), s, scripts);
  }

  /**
   What callbacks add and delete takes effect at once: after a round the list is what the sweep left, changed by
   all their operations in order, and each callback was run on an entry of the list as the ones before it left it.
   */
  lemma {:induction false} CallbacksAct(s: seq<Entry>, ready: set<int>, scripts: seq<seq<Op>>)
    ensures var q := Round(s, ready, scripts);
            && q.entries == Stage(Sweep(s), scripts, |q.trace|)
            && forall k :: 0 <= k < |q.trace| ==> RunOn(q.trace[k], Stage(Sweep(s), scripts, k))
  {
    assert Stage(Sweep(s), scripts, 0) == Sweep(s);
    hide Dispatch, Stage;
    DispatchInStep(Pass(Sweep(s), ready, []), 0, scripts, Sweep(s));
  }
}
