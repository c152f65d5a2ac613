/**
 * The queueing lock and the rendezvous points of libc (the qlock-l4.c listing in
 * doc/tmp/lowlevel.c). Every Rendez of the model belongs to the one QLock.
 */
module QLockSpec {
  import opened Options
  import opened WaitList

  /** `sleepers[r]` is the wait list of Rendez number r. */
  datatype Lock = Lock(locked: bool, queue: seq<Node>, sleepers: seq<seq<Node>>)

  /** The lock after a routine, whether the caller has it, and who is handed it. */
  datatype Result = Result(lock: Lock, got: bool, woken: Option<Node>) | Abort

  function QLock(l: Lock, me: Node): Result {
    if !l.locked then Result(l.(locked := true), true, None)
    else Result(l.(queue := l.queue + [me]), false, None)
  }

  /** `busy`: the inner spin lock was taken. */
  function CanQLock(l: Lock, busy: bool): Result {
    if !busy && !l.locked then Result(l.(locked := true), true, None)
    else Result(l, false, None)
  }

  /** The lock word stays set when the lock is passed to the first in the queue. */
  function QUnlock(l: Lock): Result {
    if l.queue != [] then Result(l.(queue := l.queue[1..]), false, Some(l.queue[0]))
    else Result(l.(locked := false), false, None)
  }

  function RSleep(l: Lock, r: nat, me: Node): Result
    requires r < |l.sleepers|
  {
    if !l.locked then Abort
    else QUnlock(l.(sleepers := l.sleepers[r := l.sleepers[r] + [me]]))
  }

  /** The first sleeper goes to the front of the queue; `got` is the routine's result. */
  function RWakeup(l: Lock, r: nat): Result
    requires r < |l.sleepers|
  {
    if !l.locked then Abort
    else if l.sleepers[r] == [] then Result(l, false, None)
    else Result(l.(queue := [l.sleepers[r][0]] + l.queue, sleepers := l.sleepers[r := l.sleepers[r][1..]]), true, None)
  }

  function Reverse(q: seq<Node>): seq<Node> {
    if q == [] then [] else Reverse(q[1..]) + [q[0]]
  }
}

module QLockCode {
  import opened Options
  import opened WaitList
  import opened QLockSpec

  /** The wait lists of the Rendez are in order, and no node is in two lists. */
  ghost predicate Lists(next: Links, queue: seq<Node>, rhead: seq<Option<Node>>, rtail: seq<Option<Node>>, sleepers: seq<seq<Node>>) {
    && |rhead| == |sleepers| && |rtail| == |sleepers|
    && (forall r :: 0 <= r < |sleepers| ==> IsList(next, rhead[r], rtail[r], sleepers[r]))
    && (forall r, x :: 0 <= r < |sleepers| && x in sleepers[r] ==> x !in queue)
    && (forall r, r', x :: 0 <= r < |sleepers| && 0 <= r' < |sleepers| && x in sleepers[r] && x in sleepers[r'] ==> r == r')
  }

  /** A slot that is in no list. */
  ghost predicate Loose(queue: seq<Node>, sleepers: seq<seq<Node>>, x: Node) {
    x !in queue && forall r :: 0 <= r < |sleepers| ==> x !in sleepers[r]
  }

  /** Chaining a loose slot into the queue leaves the other lists alone. */
  lemma ListsAppend(next: Links, queue: seq<Node>, rhead: seq<Option<Node>>, rtail: seq<Option<Node>>, sleepers: seq<seq<Node>>, x: Node)
    requires Lists(next, queue, rhead, rtail, sleepers) && Loose(queue, sleepers, x)
    ensures
      var linked := if queue != [] then next[Last(queue).value := Some(x)] else next;
      Lists(linked[x := None], queue + [x], rhead, rtail, sleepers)
  {
    var linked := (if queue != [] then next[Last(queue).value := Some(x)] else next)[x := None];
    assert queue != [] ==> Last(queue).value in queue;
    assert forall y :: y in queue + [x] <==> y in queue || y == x;
    forall r | 0 <= r < |sleepers|
      ensures IsList(linked, rhead[r], rtail[r], sleepers[r])
    {
      forall y | y in sleepers[r] && y in next
        ensures y in linked && linked[y] == next[y]
      {
        assert y !in queue;
      }
      Frame(next, linked, rhead[r], sleepers[r]);
    }
  }

  lemma ListsShrink(next: Links, queue: seq<Node>, rhead: seq<Option<Node>>, rtail: seq<Option<Node>>, sleepers: seq<seq<Node>>)
    requires Lists(next, queue, rhead, rtail, sleepers) && queue != []
    ensures Lists(next, queue[1..], rhead, rtail, sleepers)
  {
    assert forall x :: x in queue[1..] ==> x in queue;
  }

  lemma {:induction false} ReverseAppend(q: seq<Node>, x: Node)
    ensures Reverse(q + [x]) == [x] + Reverse(q)
  {
    if q != [] {
      assert (q + [x])[1..] == q[1..] + [x];
      ReverseAppend(q[1..], x);
    }
  }

  /** Chaining a loose slot into the list of r leaves the queue and the other lists alone. */
  lemma SleepersAppend(next: Links, head: Option<Node>, queue: seq<Node>, rhead: seq<Option<Node>>, rtail: seq<Option<Node>>,
                       sleepers: seq<seq<Node>>, r: nat, x: Node)
    requires Chain(next, head, queue) && Lists(next, queue, rhead, rtail, sleepers) && Loose(queue, sleepers, x) && r < |sleepers|
    ensures
      var linked := if rtail[r].Some? then next[rtail[r].value := Some(x)] else next;
      && Chain(linked[x := None], head, queue)
      && Lists(linked[x := None], queue, rhead[r := if rtail[r].Some? then rhead[r] else Some(x)], rtail[r := Some(x)],
               sleepers[r := sleepers[r] + [x]])
  {
    var linked := (if rtail[r].Some? then next[rtail[r].value := Some(x)] else next)[x := None];
    Append(next, rhead[r], rtail[r], sleepers[r], x);
    Frame(next, linked, head, queue);
    forall i | 0 <= i < |sleepers| && i != r
      ensures IsList(linked, rhead[i], rtail[i], sleepers[i])
    {
      Frame(next, linked, rhead[i], sleepers[i]);
    }
  }

  /** Moving the first sleeper of r to the front of the queue. */
  lemma MoveUp(next: Links, head: Option<Node>, tail: Option<Node>, queue: seq<Node>, rhead: seq<Option<Node>>,
               rtail: seq<Option<Node>>, sleepers: seq<seq<Node>>, r: nat)
    requires IsList(next, head, tail, queue) && Lists(next, queue, rhead, rtail, sleepers) && r < |sleepers| && sleepers[r] != []
    ensures
      var t := sleepers[r][0];
      && rhead[r] == Some(t) && t in next
      && IsList(next[t := head], Some(t), if tail.None? then Some(t) else tail, [t] + queue)
      && Lists(next[t := head], [t] + queue, rhead[r := next[t]], rtail[r := if next[t].None? then None else rtail[r]],
               sleepers[r := sleepers[r][1..]])
  {
    var t := sleepers[r][0];
    Pop(next, rhead[r], sleepers[r]);
    Push(next, head, tail, queue, t);
    Frame(next, next[t := head], next[t], sleepers[r][1..]);
    forall i | 0 <= i < |sleepers| && i != r
      ensures IsList(next[t := head], rhead[i], rtail[i], sleepers[i])
    {
      Frame(next, next[t := head], rhead[i], sleepers[i]);
    }
  }

  class LockAndRendez {
    var locked: bool
    var head: Option<Node>
    var tail: Option<Node>
    var next: Links
    var rhead: seq<Option<Node>>
    var rtail: seq<Option<Node>>
    ghost var queue: seq<Node>
    ghost var sleepers: seq<seq<Node>>

    ghost predicate Valid()
      reads this
    {
      IsList(next, head, tail, queue) && Lists(next, queue, rhead, rtail, sleepers)
    }

    ghost function View(): Lock
      reads this
    {
      Lock(locked, queue, sleepers)
    }

    constructor (rends: nat)
      ensures Valid() && View() == Lock(false, [], seq(rends, _ => []))
    {
      locked, head, tail, next, queue := false, None, None, map[], [];
      rhead, rtail, sleepers := seq(rends, _ => None), seq(rends, _ => None), seq(rends, _ => []);
    }

    method QLock(mp: Node) returns (got: bool)
      requires Valid() && Loose(queue, sleepers, mp)
      modifies this
      ensures Valid() && QLockSpec.QLock(old(View()), mp) == Result(View(), got, None)
    {
      if !locked {
        locked := true;
        return true;
      }
      Append(next, head, tail, queue, mp);
      ListsAppend(next, queue, rhead, rtail, sleepers, mp);
      next := next[mp := None];
      var p := tail;
      if p.None? {
        head := Some(mp);
      } else {
        next := next[p.value := Some(mp)];
      }
      assert next == (if p.Some? then old(next)[p.value := Some(mp)] else old(next))[mp := None];
      tail := Some(mp);
      queue := queue + [mp];
      got := false;
    }

    method CanQLock(busy: bool) returns (got: bool)
      requires Valid()
      modifies this
      ensures Valid() && QLockSpec.CanQLock(old(View()), busy) == Result(View(), got, None)
    {
      if busy {
        return false;
      }
      if !locked {
        locked := true;
        return true;
      }
      return false;
    }

    method QUnlock() returns (woken: Option<Node>)
      requires Valid()
      modifies this
      ensures Valid() && QLockSpec.QUnlock(old(View())) == Result(View(), false, woken)
    {
      var p := head;
      if p.Some? {
        Pop(next, head, queue);
        ListsShrink(next, queue, rhead, rtail, sleepers);
        head := next[p.value];
        if head.None? {
          tail := None;
        }
        queue := queue[1..];
        return p;
      }
      locked := false;
      return None;
    }

    /** rsleep up to the wait for a wakeup: chain in, then pass the lock on. */
    method RSleep(r: nat, me: Node) returns (aborted: bool, woken: Option<Node>)
      requires Valid() && r < |sleepers| && Loose(queue, sleepers, me)
      modifies this
      ensures Valid()
      ensures QLockSpec.RSleep(old(View()), r, me) == if aborted then Abort else Result(View(), false, woken)
    {
      woken := None;
      aborted := !locked;
      if aborted {
        return;
      }
      SleepersAppend(next, head, queue, rhead, rtail, sleepers, r, me);
      if rhead[r].None? {
        rhead := rhead[r := Some(me)];
      } else {
        next := next[rtail[r].value := Some(me)];
      }
      next := next[me := None];
      rtail := rtail[r := Some(me)];
      sleepers := sleepers[r := sleepers[r] + [me]];
      woken := QUnlock();
    }

    method RWakeup(r: nat) returns (aborted: bool, got: bool)
      requires Valid() && r < |sleepers|
      modifies this
      ensures Valid()
      ensures QLockSpec.RWakeup(old(View()), r) == if aborted then Abort else Result(View(), got, None)
    {
      got := false;
      aborted := !locked;
      if aborted {
        return;
      }
      if rhead[r].None? {
        return;
      }
      MoveUp(next, head, tail, queue, rhead, rtail, sleepers, r);
      var t := rhead[r].value;
      rhead := rhead[r := next[t]];
      if rhead[r].None? {
        rtail := rtail[r := None];
      }
      next := next[t := head];
      head := Some(t);
      if tail.None? {
        tail := Some(t);
      }
      queue, sleepers := [t] + queue, sleepers[r := sleepers[r][1..]];
      got := true;
    }

    /** rwakeupall: every sleeper of r goes to the front, the last one first; returns how many there were. */
    method RWakeupAll(r: nat) returns (i: nat)
      requires Valid() && r < |sleepers| && locked
      modifies this
      ensures Valid() && i == |old(sleepers)[r]|
      ensures View() == Lock(true, Reverse(old(sleepers)[r]) + old(queue), old(sleepers)[r := []])
    {
      i := 0;
      ghost var l := View();
      StartMoved(l, r);
      NextMoved(l, l, r, 0);
      var aborted, got := RWakeup(r);
      while got
        invariant Valid() && Moved(l, View(), r, if got then i + 1 else i) && (got || i == |l.sleepers[r]|)
        decreases |l.sleepers[r]| - i, got
      {
        i := i + 1;
        NextMoved(l, View(), r, i);
        aborted, got := RWakeup(r);
      }
      AllMoved(l, View(), r);
    }
  }

  /** n of the sleepers of r have been moved up. */
  ghost predicate Moved(l: Lock, l': Lock, r: nat, n: nat) {
    && r < |l.sleepers| && n <= |l.sleepers[r]|
    && l' == Lock(true, Reverse(l.sleepers[r][..n]) + l.queue, l.sleepers[r := l.sleepers[r][n..]])
  }

  lemma StartMoved(l: Lock, r: nat)
    requires l.locked && r < |l.sleepers|
    ensures Moved(l, l, r, 0)
  {
    assert l.sleepers[r][0..] == l.sleepers[r] && l.sleepers[r := l.sleepers[r]] == l.sleepers;
    assert Reverse([]) + l.queue == l.queue;
  }

  lemma AllMoved(l: Lock, l': Lock, r: nat)
    requires r < |l.sleepers| && Moved(l, l', r, |l.sleepers[r]|)
    ensures l' == Lock(true, Reverse(l.sleepers[r]) + l.queue, l.sleepers[r := []])
  {
    assert l.sleepers[r][..|l.sleepers[r]|] == l.sleepers[r] && l.sleepers[r][|l.sleepers[r]|..] == [];
  }

  lemma NextMoved(l: Lock, l': Lock, r: nat, n: nat)
    requires Moved(l, l', r, n)
    ensures n == |l.sleepers[r]| ==> RWakeup(l', r) == Result(l', false, None)
    ensures n < |l.sleepers[r]| ==> RWakeup(l', r).Result? && RWakeup(l', r).got && Moved(l, RWakeup(l', r).lock, r, n + 1)
  {
    var all := l.sleepers[r];
    if n < |all| {
      ReverseAppend(all[..n], all[n]);
      assert all[..n + 1] == all[..n] + [all[n]];
      assert all[n..][1..] == all[n + 1..];
      assert [all[n]] + (Reverse(all[..n]) + l.queue) == Reverse(all[..n + 1]) + l.queue;
    }
  }
}
