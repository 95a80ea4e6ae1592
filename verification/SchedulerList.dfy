/**
 The scheduler as the client has it: a singly linked list of entries, relinked in place.
 */
module SchedulerList {
  import opened Machine
  import opened Sequences
  import opened Scheduler

  class Node {
    const fd: int
    const callback: int
    var dirty: bool
    var next: Node?

    constructor (fd: int, callback: int)
      ensures this.fd == fd && this.callback == callback && !dirty && next == null
    {
      this.fd, this.callback, dirty, next := fd, callback, false, null;
    }
  }

  /** The value of an entry. */
  ghost function Value(n: Node): Entry
    reads n
  {
    Entry(n.fd, n.callback, n.dirty)
  }

  function Without<T>(s: seq<T>, k: nat): (r: seq<T>)
    requires k < |s|
    ensures |r| == |s| - 1
    ensures forall j :: 0 <= j < k ==> r[j] == s[j]
    ensures forall j :: k <= j < |r| ==> r[j] == s[j + 1]
  {
    s[..k] + s[k + 1..]
  }

  class ClientScheduler {
    var head: Node?
    ghost var nodes: seq<Node>
    ghost var Repr: set<Node>

    /** `nodes` is the list that starts at `head`. */
    ghost predicate Valid()
      reads this, Repr
    {
      && (forall i :: 0 <= i < |nodes| ==> nodes[i] in Repr)
      && (forall i, j :: 0 <= i < j < |nodes| ==> nodes[i] != nodes[j])
      && head == NodeAt(0)
      && forall i :: 0 <= i < |nodes| ==> Linked(i)
    }

    ghost predicate Linked(i: nat)
      requires i < |nodes|
      reads this, nodes[i]
    {
      nodes[i].next == NodeAt(i + 1)
    }

    ghost function NodeAt(i: nat): Node?
      reads this
    {
      if i < |nodes| then nodes[i] else null
    }

    ghost function Before(k: nat): Node?
      reads this
    {
      if k == 0 then null else NodeAt(k - 1)
    }

    ghost function Entries(): (s: seq<Entry>)
      requires Valid()
      reads this, Repr
      ensures |s| == |nodes|
    {
      seq(|nodes|, i requires 0 <= i < |nodes| && Valid() reads this, Repr => Value(nodes[i]))
    }

    constructor ()
      ensures Valid() && Entries() == [] && Repr == {}
    {
      head, nodes, Repr := null, [], {};
    }

    /** Append an entry; a negative descriptor or a missing callback is ignored. */
    method AddEntry(fd: int, callback: Option<int>)
      requires Valid()
      modifies this, Repr
      ensures Valid() && fresh(Repr - old(Repr))
      ensures Entries() == Scheduler.AddEntry(old(Entries()), fd, callback)
      ensures old(nodes) <= nodes
    {
      if fd < 0 || callback.None? {
        return;
      }
      var ent := new Node(fd, callback.value);
      if head == null {
        head := ent;
      } else {
        var p := head;
        ghost var i := 0;
        while p.next != null
          invariant 0 <= i < |nodes| && p == nodes[i]
          decreases |nodes| - i
        {
          assert Linked(i);
          p := p.next;
          i := i + 1;
        }
        assert Linked(i);
        p.next := ent;
      }
      ghost var was := nodes;
      nodes := nodes + [ent];
      Repr := Repr + {ent};
      forall i | 0 <= i < |nodes| ensures Linked(i) {
        assert i < |was| - 1 ==> old(Linked(i));
      }
    }

    /** Mark the first entry of the descriptor, whether it is marked already or not. */
    method DelEntry(fd: int)
      requires Valid()
      modifies Repr
      ensures Valid() && Entries() == Scheduler.DelEntry(old(Entries()), fd)
    {
      ghost var s := Entries();
      var p := head;
      ghost var i := 0;
      while p != null && p.fd != fd
        invariant i <= |nodes| && p == NodeAt(i)
        invariant forall j :: 0 <= j < i ==> s[j].fd != fd
        decreases |nodes| - i
      {
        assert s[i].fd == p.fd && Linked(i);
        p := p.next;
        i := i + 1;
      }
      assert First(s, fd) == i by {
        if i < |nodes| { assert s[i].fd == fd; }
      }
      if p != null {
        p.dirty := true;
        forall j | 0 <= j < |nodes| ensures Linked(j) { assert old(Linked(j)); }
        assert forall j :: 0 <= j < |nodes| ==> Entries()[j] == if j == i then s[i].(dirty := true) else s[j];
      }
    }

    /** Take the entry at position `k` out of the list. */
    method Unlink(ent: Node, prev: Node?, ghost k: nat)
      requires Valid() && ent == NodeAt(k) && prev == Before(k)
      modifies this`head, this`nodes, Repr`next
      ensures Valid() && k < |old(Entries())| && Entries() == Without(old(Entries()), k)
      ensures NodeAt(k) == old(ent.next) && Before(k) == prev
    {
      ghost var was, s := nodes, Entries();
      assert Linked(k) && (k > 0 ==> Linked(k - 1));
      if ent == head {
        head := head.next;
      } else {
        prev.next := ent.next;
      }
      nodes := Without(was, k);
      forall i | 0 <= i < |nodes| ensures Linked(i) {
        assert i < k - 1 ==> old(Linked(i));
        assert i >= k ==> old(Linked(i + 1));
      }
    }

    /** The list is `t` followed by the entries of `s` from `i` on; `ent` is where they meet, `prev` before it. */
    ghost predicate At(t: seq<Entry>, s: seq<Entry>, i: nat, ent: Node?, prev: Node?)
      reads this, Repr
    {
      Valid() && i <= |s| && Entries() == t + s[i..] && ent == NodeAt(|t|) && prev == Before(|t|)
    }

    /** The entry where `t` and `s` meet goes. */
    method Drop(ent: Node, prev: Node?, ghost t: seq<Entry>, ghost s: seq<Entry>, ghost i: nat) returns (next: Node?)
      requires At(t, s, i, ent, prev)
      modifies this`head, this`nodes, Repr`next
      ensures At(t, s, i + 1, next, prev)
    {
      assert |t| < |Entries()|;
      SweepNext(s, t, i);
      next := ent.next;
      Unlink(ent, prev, |t|);
    }

    /** The entry where `t` and `s` meet stays. */
    ghost method Keep(ent: Node, prev: Node?, t: seq<Entry>, s: seq<Entry>, i: nat)
      requires At(t, s, i, ent, prev)
      ensures i < |s| && s[i] == Value(ent) && At(t + [s[i]], s, i + 1, ent.next, ent)
    {
      assert |t| < |Entries()| && Entries()[|t|] == s[i];
      assert Linked(|t|);
      SweepNext(s, t, i);
    }

    /** One entry of the sweep: unlink it if it is marked, otherwise note its descriptor. */
    method SweepEntry(e: Node, p: Node?, m: int, fds: set<int>, ghost t: seq<Entry>, ghost s: seq<Entry>, ghost i: nat)
      returns (ent: Node?, prev: Node?, maxFd: int, readfds: set<int>)
      requires At(t, s, i, e, p) && i < |s| && t == Scheduler.Sweep(s[..i]) && fds == Descriptors(t) && IsMax(m, fds)
      modifies this`head, this`nodes, Repr`next
      ensures At(Scheduler.Sweep(s[..i + 1]), s, i + 1, ent, prev)
      ensures readfds == Descriptors(Scheduler.Sweep(s[..i + 1])) && IsMax(maxFd, readfds)
    {
      Keep(e, p, t, s, i);
      SweepNext(s, t, i);
      if e.dirty {
        ent := Drop(e, p, t, s, i);
        prev, maxFd, readfds := p, m, fds;
      } else {
        maxFd, readfds := Note(m, fds, e.fd);
        DescriptorsAppend(t, s[i]);
        prev, ent := e, e.next;
      }
    }

    /** The sweep at the start of a round: unlink what is marked, collect the descriptors of the rest. */
    method Sweep() returns (maxFd: int, readfds: set<int>)
      requires Valid()
      modifies this`head, this`nodes, Repr`next
      ensures Valid() && Entries() == Scheduler.Sweep(old(Entries()))
      ensures readfds == Descriptors(Entries()) && IsMax(maxFd, readfds)
    {
      hide Scheduler.Sweep, Descriptors, IsMax, At;
      ghost var s, i := Entries(), 0;
      SweepNothing(s);
      maxFd, readfds := 0, {};
      var ent, prev: Node? := head, null;
      SweepStarts(s);
      while ent != null
        invariant i <= |s| && At(Scheduler.Sweep(s[..i]), s, i, ent, prev)
        invariant readfds == Descriptors(Scheduler.Sweep(s[..i])) && IsMax(maxFd, readfds)
        decreases |s| - i
      {
        SweepGoesOn(Scheduler.Sweep(s[..i]), s, i, ent, prev);
        ent, prev, maxFd, readfds := SweepEntry(ent, prev, maxFd, readfds, Scheduler.Sweep(s[..i]), s, i);
        i := i + 1;
      }
      SweepGoesOn(Scheduler.Sweep(s[..i]), s, i, ent, prev);
      TakeDrop(s);
    }

    ghost method SweepStarts(s: seq<Entry>)
      requires Valid() && s == Entries()
      ensures At(Scheduler.Sweep(s[..0]), s, 0, head, null)
    {
      assert [] + s[0..] == s;
    }

    /** The walk ends exactly when the whole list has been seen. */
    ghost method SweepGoesOn(t: seq<Entry>, s: seq<Entry>, i: nat, ent: Node?, prev: Node?)
      requires At(t, s, i, ent, prev)
      ensures i <= |s| && Valid() && (ent != null <==> i < |s|)
      ensures ent == null ==> Entries() == t
    {
      assert |Entries()| == |t| + (|s| - i);
      if i == |s| { assert t + s[i..] == t; }
    }

    // ---------------------------------------------------------------- dispatch

    /** What a callback does to the scheduler. */
    method RunCallback(ops: seq<Op>)
      requires Valid()
      modifies this, Repr
      ensures Valid() && fresh(Repr - old(Repr)) && old(nodes) <= nodes
      ensures Entries() == DoAll(old(Entries()), ops)
    {
      for i := 0 to |ops|
        invariant Valid() && fresh(Repr - old(Repr)) && old(nodes) <= nodes
        invariant Entries() == DoAll(old(Entries()), ops[..i])
      {
        assert ops[..i + 1][..i] == ops[..i];
        match ops[i]
        case Add(fd, callback) => AddEntry(fd, callback);
        case Del(fd) => DelEntry(fd);
      }
      assert ops[..|ops|] == ops;
    }

    /**
     The dispatch pass over the descriptors select reported; `scripts` says what each callback does.
     The walk follows the list as the callbacks change it.
     */
    method DispatchReady(ready: set<int>, scripts: seq<seq<Op>>) returns (trace: seq<Fired>)
      requires Valid()
      modifies this, Repr
      ensures Valid()
      ensures var q := Dispatch(Pass(old(Entries()), ready, []), 0, scripts);
              Entries() == q.entries && trace == q.trace
    {
      ghost var p := Pass(Entries(), ready, []);
      trace := [];
      var readfds, ent, i := ready, head, 0;
      while ent != null
        invariant Valid() && fresh(Repr - old(Repr)) && i <= |nodes| && ent == NodeAt(i)
        invariant Dispatch(Pass(Entries(), readfds, trace), i, scripts) == Dispatch(p, 0, scripts)
        decreases |readfds|, |nodes| - i
      {
        assert Entries()[i] == Value(ent);
        ghost var here := Pass(Entries(), readfds, trace);
        if !ent.dirty && ent.fd in readfds {
          assert Dispatch(here, i, scripts) == Dispatch(Fire(here, i, scripts), i + 1, scripts);
          RunCallback(Script(scripts, |trace|));
          assert nodes[i] == ent;
          trace := trace + [Fired(i, Entry(ent.fd, ent.callback, false))];
          assert |readfds - {ent.fd}| < |readfds|;
          readfds := readfds - {ent.fd};
        } else {
          assert Dispatch(here, i, scripts) == Dispatch(here, i + 1, scripts);
        }
        assert Linked(i);
        ent := ent.next;
        i := i + 1;
      }
    }

    /** One round of the loop; select reports some of the descriptors it was given. */
    method OneRound(reported: set<int>, scripts: seq<seq<Op>>) returns (trace: seq<Fired>)
      requires Valid()
      modifies this, Repr
      ensures Valid()
      ensures var s := old(Entries());
              var q := Round(s, reported * Descriptors(Scheduler.Sweep(s)), scripts);
              Entries() == q.entries && trace == q.trace
    {
      var maxFd, readfds := Sweep();
      trace := DispatchReady(reported * readfds, scripts);
    }
  }

  lemma {:induction false} SweepNothing(s: seq<Entry>)
    ensures Scheduler.Sweep(s[..0]) == [] && Descriptors([]) == {} && IsMax(0, {})
  {
  }

  /** An upper bound of the descriptors, and one of them unless they are all below it, at zero. */
  ghost predicate IsMax(maxFd: int, readfds: set<int>)
  {
    maxFd >= 0 && (maxFd == 0 || maxFd in readfds) && forall fd :: fd in readfds ==> fd <= maxFd
  }

  method Note(m: int, fds: set<int>, fd: int) returns (maxFd: int, readfds: set<int>)
    requires IsMax(m, fds)
    ensures IsMax(maxFd, readfds) && readfds == fds + {fd}
  {
    maxFd := if fd > m then fd else m;
    readfds := fds + {fd};
  }

  lemma {:induction false} SweepNext(s: seq<Entry>, t: seq<Entry>, i: nat)
    requires i < |s|
    ensures Scheduler.Sweep(s[..i + 1]) ==
            if s[i].dirty then Scheduler.Sweep(s[..i]) else Scheduler.Sweep(s[..i]) + [s[i]]
    ensures Without(t + s[i..], |t|) == t + s[i + 1..]
    ensures (t + [s[i]]) + s[i + 1..] == t + s[i..]
  {
    assert s[..i] + [s[i]] == s[..i + 1];
    SweepAppend(s[..i], s[i]);
  }

  lemma {:induction false} DescriptorsAppend(s: seq<Entry>, e: Entry)
    ensures Descriptors(s + [e]) == Descriptors(s) + {e.fd}
  {
    var t := s + [e];
    forall fd ensures fd in Descriptors(t) <==> fd in Descriptors(s) || fd == e.fd {
      assert t[|s|].fd == e.fd;
      if fd in Descriptors(s) {
        var i :| 0 <= i < |s| && s[i].fd == fd;
        assert t[i].fd == fd;
      }
    }
  }
}
