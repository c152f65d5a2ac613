/**
 * The reader/writer lock of libc (the qlock-l4.c listing in doc/tmp/lowlevel.c).
 *
 * Each routine is one critical section under the inner spin lock. RWLockSpec gives it as a
 * function on the lock's abstract value; the class RWLock runs the C code on the lock word,
 * the counters and the linked wait queue, and is proved to compute that function.
 */
module RWLockSpec {
  import opened Options
  import opened WaitList

  datatype QState = Queuing | QueuingR | QueuingW | Sleeping

  datatype Waiter = Waiter(slot: Node, state: QState)

  datatype Lock = Lock(readers: int, writer: bool, queue: seq<Waiter>)

  /** The lock after a routine, whether the caller has it, and who is handed it, in order. */
  datatype Result = Result(lock: Lock, got: bool, woken: seq<Waiter>) | Abort

  /** The readers at the front of the queue. */
  function Leading(ws: seq<Waiter>): (n: nat)
    ensures n <= |ws|
    ensures forall i :: 0 <= i < n ==> ws[i].state == QueuingR
    ensures n < |ws| ==> ws[n].state != QueuingR
  {
    if ws != [] && ws[0].state == QueuingR then 1 + Leading(ws[1..]) else 0
  }

  function RLock(l: Lock, me: Node): Result {
    if !l.writer && l.queue == [] then Result(l.(readers := l.readers + 1), true, [])
    else Result(l.(queue := l.queue + [Waiter(me, QueuingR)]), false, [])
  }

  function CanRLock(l: Lock): Result {
    if !l.writer && l.queue == [] then Result(l.(readers := l.readers + 1), true, [])
    else Result(l, false, [])
  }

  function RUnlock(l: Lock): Result {
    if l.readers <= 0 then Abort
    else if l.readers > 1 || l.queue == [] then Result(l.(readers := l.readers - 1), false, [])
    else if l.queue[0].state != QueuingW then Abort
    else Result(Lock(l.readers - 1, true, l.queue[1..]), false, [l.queue[0]])
  }

  function WLock(l: Lock, me: Node): Result {
    if l.readers == 0 && !l.writer then Result(l.(writer := true), true, [])
    else Result(l.(queue := l.queue + [Waiter(me, QueuingW)]), false, [])
  }

  function CanWLock(l: Lock): Result {
    if l.readers == 0 && !l.writer then Result(l.(writer := true), true, [])
    else Result(l, false, [])
  }

  function WUnlock(l: Lock): Result {
    if !l.writer then Abort
    else if l.queue == [] then Result(l.(writer := false), false, [])
    else if l.queue[0].state == QueuingW then Result(l.(queue := l.queue[1..]), false, [l.queue[0]])
    else if l.queue[0].state != QueuingR then Abort
    else
      var n := Leading(l.queue);
      Result(Lock(l.readers + n, false, l.queue[n..]), false, l.queue[..n])
  }
}

module RWLockCode {
  import opened Options
  import opened WaitList
  import opened RWLockSpec

  function Waiters(q: seq<Node>, state: map<Node, QState>): (ws: seq<Waiter>)
    requires forall x :: x in q ==> x in state
    ensures |ws| == |q| && forall i :: 0 <= i < |q| ==> ws[i] == Waiter(q[i], state[q[i]])
  {
    seq(|q|, i requires 0 <= i < |q| => Waiter(q[i], state[q[i]]))
  }

  lemma WaitersSplit(q: seq<Node>, state: map<Node, QState>, n: nat)
    requires n <= |q| && forall x :: x in q ==> x in state
    ensures forall x :: x in q[n..] || x in q[..n] ==> x in state
    ensures Waiters(q[n..], state) == Waiters(q, state)[n..]
    ensures Waiters(q, state)[..n] == Waiters(q[..n], state)
  {
  }

  class RWLock {
    var readers: int
    var writer: bool
    var head: Option<Node>
    var tail: Option<Node>
    var next: Links
    var state: map<Node, QState>
    ghost var queue: seq<Node>

    ghost predicate Valid()
      reads this
    {
      && IsList(next, head, tail, queue)
      && (forall x :: x in queue ==> x in state)
    }

    ghost function View(): Lock
      reads this
      requires Valid()
    {
      Lock(readers, writer, Waiters(queue, state))
    }

    constructor ()
      ensures Valid() && View() == Lock(0, false, [])
    {
      readers, writer, head, tail, next, state, queue := 0, false, None, None, map[], map[], [];
    }

    /** Chain a waiting slot in at the tail. */
    method Enqueue(mp: Node, s: QState)
      requires Valid() && mp !in queue
      modifies this
      ensures Valid() && View() == old(View()).(queue := old(View()).queue + [Waiter(mp, s)])
      ensures queue == old(queue) + [mp]
    {
      Append(next, head, tail, queue, mp);
      var p := tail;
      if p.None? {
        head := Some(mp);
      } else {
        next := next[p.value := Some(mp)];
      }
      tail := Some(mp);
      next := next[mp := None];
      state := state[mp := s];
      queue := queue + [mp];
    }

    method RLock(mp: Node) returns (got: bool)
      requires Valid() && mp !in queue
      modifies this
      ensures Valid() && RWLockSpec.RLock(old(View()), mp) == Result(View(), got, [])
    {
      if !writer && head.None? {
        readers := readers + 1;
        got := true;
      } else {
        Enqueue(mp, QueuingR);
        got := false;
      }
    }

    method CanRLock() returns (got: bool)
      requires Valid()
      modifies this
      ensures Valid() && RWLockSpec.CanRLock(old(View())) == Result(View(), got, [])
    {
      if !writer && head.None? {
        readers := readers + 1;
        got := true;
      } else {
        got := false;
      }
    }

    /** Unlink the head of the queue. */
    method PassOn() returns (p: Node)
      requires Valid() && queue != []
      modifies this`head, this`tail, this`queue
      ensures Valid() && p == old(queue)[0] && View() == old(View()).(queue := old(View()).queue[1..])
    {
      Pop(next, head, queue);
      WaitersSplit(queue, state, 1);
      p := head.value;
      head := next[p];
      if head.None? {
        tail := None;
      }
      queue := queue[1..];
    }

    method RUnlock() returns (aborted: bool, woken: seq<Waiter>)
      requires Valid()
      modifies this
      ensures Valid()
      ensures RWLockSpec.RUnlock(old(View())) == if aborted then Abort else Result(View(), false, woken)
    {
      woken := [];
      if readers <= 0 {
        aborted := true;
        return;
      }
      aborted := false;
      if readers - 1 > 0 || head.None? {
        readers := readers - 1;
        return;
      }
      if state[head.value] != QueuingW {
        aborted := true;
        return;
      }
      readers := readers - 1;
      var p := PassOn();
      writer := true;
      woken := [Waiter(p, state[p])];
    }

    method WLock(mp: Node) returns (got: bool)
      requires Valid() && mp !in queue
      modifies this
      ensures Valid() && RWLockSpec.WLock(old(View()), mp) == Result(View(), got, [])
    {
      if readers == 0 && !writer {
        writer := true;
        got := true;
      } else {
        Enqueue(mp, QueuingW);
        got := false;
      }
    }

    method CanWLock() returns (got: bool)
      requires Valid()
      modifies this
      ensures Valid() && RWLockSpec.CanWLock(old(View())) == Result(View(), got, [])
    {
      if readers == 0 && !writer {
        writer := true;
        got := true;
      } else {
        got := false;
      }
    }

    method WUnlock() returns (aborted: bool, woken: seq<Waiter>)
      requires Valid()
      modifies this
      ensures Valid()
      ensures RWLockSpec.WUnlock(old(View())) == if aborted then Abort else Result(View(), false, woken)
    {
      woken := [];
      aborted := !writer;
      if aborted {
        return;
      }
      if head.None? {
        writer := false;
        return;
      }
      if state[head.value] == QueuingW {
        var p := PassOn();
        woken := [Waiter(p, state[p])];
        return;
      }
      if state[head.value] != QueuingR {
        aborted := true;
        return;
      }
      woken := PassToReaders();
    }

    /** wunlock with a reader at the front of the queue. */
    method PassToReaders() returns (woken: seq<Waiter>)
      requires Valid() && writer && queue != [] && state[queue[0]] == QueuingR
      modifies this
      ensures Valid() && RWLockSpec.WUnlock(old(View())) == Result(View(), false, woken)
    {
      AllReaders(readers, queue, state);
      woken := WakeReaders();
      if head.None? {
        tail := None;
      }
      writer := false;
    }

    /** The loop that wakes the readers at the front of the queue. */
    method WakeReaders() returns (woken: seq<Waiter>)
      requires Valid()
      modifies this`readers, this`head, this`queue
      ensures
        var n := Leading(Waiters(old(queue), state));
        woken == Waiters(old(queue), state)[..n] && queue == old(queue)[n..] && readers == old(readers) + n
      ensures Chain(next, head, queue) && Last(queue) == (if head.None? then None else tail)
    {
      woken := [];
      ghost var q, k := queue, 0;
      while head.Some? && state[head.value] == QueuingR
        invariant Woken(q, state, k, queue, woken) && readers == old(readers) + k
        invariant Chain(next, head, queue)
        decreases |queue|
      {
        WakeNext(q, state, k, queue, woken);
        var p := Unlink();
        readers := readers + 1;
        woken := woken + [Waiter(p, state[p])];
        k := k + 1;
      }
      WakeEnd(q, state, k, queue, woken);
    }

    /** Take the head off the chain; the tail pointer is not looked at. */
    method Unlink() returns (p: Node)
      requires Chain(next, head, queue) && head.Some?
      modifies this`head, this`queue
      ensures old(head) == Some(p) && old(queue) != [] && p == old(queue)[0] && queue == old(queue)[1..] && Chain(next, head, queue)
    {
      Pop(next, head, queue);
      p := head.value;
      head := next[p];
      queue := queue[1..];
    }
  }

  lemma AllReaders(readers: int, q: seq<Node>, state: map<Node, QState>)
    requires q != [] && (forall x :: x in q ==> x in state) && state[q[0]] == QueuingR
    ensures
      var n := Leading(Waiters(q, state));
      && (forall x :: x in q[n..] ==> x in state)
      && WUnlock(Lock(readers, true, Waiters(q, state))) ==
         Result(Lock(readers + n, false, Waiters(q[n..], state)), false, Waiters(q, state)[..n])
  {
    WaitersSplit(q, state, Leading(Waiters(q, state)));
  }

  /** The first k of the waiters, all of them readers, have been woken. */
  ghost predicate Woken(q: seq<Node>, state: map<Node, QState>, k: nat, left: seq<Node>, woken: seq<Waiter>) {
    && k <= |q| && left == q[k..] && (forall x :: x in q ==> x in state)
    && woken == Waiters(q, state)[..k] && forall i :: 0 <= i < k ==> state[q[i]] == QueuingR
  }

  lemma WakeNext(q: seq<Node>, state: map<Node, QState>, k: nat, left: seq<Node>, woken: seq<Waiter>)
    requires Woken(q, state, k, left, woken) && left != [] && left[0] in state && state[left[0]] == QueuingR
    ensures Woken(q, state, k + 1, left[1..], woken + [Waiter(left[0], state[left[0]])])
  {
    assert left[0] == q[k] && left[1..] == q[k + 1..];
  }

  lemma WakeEnd(q: seq<Node>, state: map<Node, QState>, k: nat, left: seq<Node>, woken: seq<Waiter>)
    requires Woken(q, state, k, left, woken) && (left != [] ==> left[0] in state && state[left[0]] != QueuingR)
    ensures k == Leading(Waiters(q, state)) && woken == Waiters(q, state)[..k] && left == q[k..]
    ensures Last(left) == if left == [] then None else Last(q)
  {
    LeadingIs(Waiters(q, state), k);
  }

  /** A prefix of readers that cannot be extended is the leading one. */
  lemma {:induction false} LeadingIs(ws: seq<Waiter>, k: nat)
    requires k <= |ws| && forall i :: 0 <= i < k ==> ws[i].state == QueuingR
    requires k < |ws| ==> ws[k].state != QueuingR
    ensures Leading(ws) == k
  {
  }
}
