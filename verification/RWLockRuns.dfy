/** Any number of well-behaved threads on one reader/writer lock. */
module RWLockRuns {
  import opened Options
  import opened WaitList
  import opened RWLockSpec

  datatype Status = Free | Reading | Writing | WaitingR | WaitingW

  /**
   * Threads are numbered and queue in the slot of their own number. `joined` lists the threads
   * that had to queue, in order; `granted` those that were handed the lock from the queue.
   */
  datatype Sys = Sys(lock: Lock, th: seq<Status>, joined: seq<Waiter>, granted: seq<Waiter>, dead: bool)

  datatype Event =
    | DoRLock(t: Node) | DoCanRLock(t: Node) | DoRUnlock(t: Node)
    | DoWLock(t: Node) | DoCanWLock(t: Node) | DoWUnlock(t: Node)

  /** A well-behaved thread asks only when it holds nothing, and gives back what it holds. */
  predicate Enabled(s: Sys, e: Event) {
    && !s.dead && e.t < |s.th|
    && (match e
        case DoRUnlock(t) => s.th[t] == Reading
        case DoWUnlock(t) => s.th[t] == Writing
        case _ => s.th[e.t] == Free)
  }

  function Effect(l: Lock, e: Event): Result {
    match e
    case DoRLock(t) => RLock(l, t)
    case DoCanRLock(_) => CanRLock(l)
    case DoRUnlock(_) => RUnlock(l)
    case DoWLock(t) => WLock(l, t)
    case DoCanWLock(_) => CanWLock(l)
    case DoWUnlock(_) => WUnlock(l)
  }

  /** What the calling thread is after its routine; a try-lock that fails leaves it free. */
  function Own(e: Event, got: bool): Status {
    match e
    case DoRLock(_) => if got then Reading else WaitingR
    case DoCanRLock(_) => if got then Reading else Free
    case DoWLock(_) => if got then Writing else WaitingW
    case DoCanWLock(_) => if got then Writing else Free
    case DoRUnlock(_) => Free
    case DoWUnlock(_) => Free
  }

  /** Handing the lock to a waiter: it holds the lock in the way it asked for. */
  function Served(w: Status): Status {
    if w == WaitingR then Reading else Writing
  }

  function Grant(th: seq<Status>, ws: seq<Waiter>): (r: seq<Status>)
    ensures |r| == |th|
    decreases ws
  {
    if ws == [] then th
    else Grant(if ws[0].slot < |th| then th[ws[0].slot := Served(th[ws[0].slot])] else th, ws[1..])
  }

  function Asked(w: Status): QState {
    if w == WaitingR then QueuingR else QueuingW
  }

  function Apply(s: Sys, e: Event): Sys
    requires Enabled(s, e)
  {
    match Effect(s.lock, e)
    case Abort => s.(dead := true)
    case Result(l, got, woken) =>
      Sys(l, Grant(s.th[e.t := Own(e, got)], woken),
          if (e.DoRLock? || e.DoWLock?) && !got then s.joined + [Waiter(e.t, Asked(Own(e, got)))] else s.joined,
          s.granted + woken, false)
  }

  function Start(threads: nat): Sys {
    Sys(Lock(0, false, []), seq(threads, _ => Free), [], [], false)
  }

  ghost predicate IsRun(ss: seq<Sys>, es: seq<Event>) {
    && |ss| == |es| + 1
    && (exists threads: nat :: ss[0] == Start(threads))
    && forall i :: 0 <= i < |es| ==> Enabled(ss[i], es[i]) && ss[i + 1] == Apply(ss[i], es[i])
  }

  // ---------------------------------------------------------------- counting threads

  function Count(th: seq<Status>, w: Status): nat {
    if th == [] then 0 else Count(th[..|th| - 1], w) + (if th[|th| - 1] == w then 1 else 0)
  }

  lemma {:induction false} CountUpdate(th: seq<Status>, i: nat, x: Status, w: Status)
    requires i < |th|
    ensures Count(th[i := x], w) == Count(th, w) - (if th[i] == w then 1 else 0) + (if x == w then 1 else 0)
  {
    var n := |th| - 1;
    if i == n {
      assert th[i := x][..n] == th[..n];
    } else {
      assert th[i := x][..n] == th[..n][i := x];
      CountUpdate(th[..n], i, x, w);
    }
  }

  lemma {:induction false} CountZero(th: seq<Status>, w: Status)
    ensures Count(th, w) == 0 <==> w !in th
  {
    if th != [] {
      CountZero(th[..|th| - 1], w);
      assert th == th[..|th| - 1] + [th[|th| - 1]];
    }
  }

  // ---------------------------------------------------------------- the invariant

  /** The counters count the holders, and a writer is alone. */
  ghost predicate HoldInv(l: Lock, th: seq<Status>) {
    && l.readers == Count(th, Reading)
    && (if l.writer then 1 else 0) == Count(th, Writing)
    && !(l.writer && l.readers > 0)
  }

  /** The queue holds exactly the waiting threads, each once, in the state of its wish. */
  ghost predicate QueueInv(q: seq<Waiter>, th: seq<Status>) {
    && (forall i, j :: 0 <= i < j < |q| ==> q[i].slot != q[j].slot)
    && (forall i :: 0 <= i < |q| ==>
          q[i].slot < |th| && (th[q[i].slot].WaitingR? || th[q[i].slot].WaitingW?) && q[i].state == Asked(th[q[i].slot]))
    && (forall t {:trigger Waits(th, t)} :: 0 <= t < |th| && Waits(th, t) ==> Queued(q, t))
  }

  predicate Waits(th: seq<Status>, t: nat)
    requires t < |th|
  {
    th[t].WaitingR? || th[t].WaitingW?
  }

  ghost predicate Queued(q: seq<Waiter>, t: nat) {
    exists i :: 0 <= i < |q| && q[i].slot == t
  }

  /** Threads queue only for a held lock, and behind readers only after a writer. */
  ghost predicate HeadInv(l: Lock) {
    && (l.queue != [] ==> l.writer || l.readers > 0)
    && (l.queue != [] && l.readers > 0 ==> l.queue[0].state == QueuingW)
  }

  ghost predicate Inv(s: Sys) {
    && !s.dead
    && HoldInv(s.lock, s.th) && QueueInv(s.lock.queue, s.th) && HeadInv(s.lock)
    && s.joined == s.granted + s.lock.queue
  }

  // ---------------------------------------------------------------- every routine keeps it

  lemma QueueSame(q: seq<Waiter>, th: seq<Status>, t: Node, w: Status)
    requires QueueInv(q, th) && t < |th| && !th[t].WaitingR? && !th[t].WaitingW? && !w.WaitingR? && !w.WaitingW?
    ensures QueueInv(q, th[t := w])
  {
    forall x | 0 <= x < |th| && Waits(th[t := w], x)
      ensures Queued(q, x)
    {
      assert Waits(th, x);
    }
  }

  lemma QueueJoin(q: seq<Waiter>, th: seq<Status>, t: Node, w: Status)
    requires QueueInv(q, th) && t < |th| && th[t] == Free && (w.WaitingR? || w.WaitingW?)
    ensures QueueInv(q + [Waiter(t, Asked(w))], th[t := w])
  {
    var q', th' := q + [Waiter(t, Asked(w))], th[t := w];
    forall x | 0 <= x < |th'| && Waits(th', x)
      ensures Queued(q', x)
    {
      if x != t {
        assert Waits(th, x);
        var i :| 0 <= i < |q| && q[i].slot == x;
        assert q'[i].slot == x;
      } else {
        assert q'[|q|].slot == x;
      }
    }
  }

  lemma QueueServe(q: seq<Waiter>, th: seq<Status>, t: Node, w: Status)
    requires QueueInv(q, th) && q != [] && q[0].slot == t && !w.WaitingR? && !w.WaitingW?
    ensures QueueInv(q[1..], th[t := w])
  {
    var r, th' := q[1..], th[t := w];
    forall x | 0 <= x < |th'| && Waits(th', x)
      ensures Queued(r, x)
    {
      assert Waits(th, x);
      var i :| 0 <= i < |q| && q[i].slot == x;
      assert r[i - 1].slot == x;
    }
  }

  /** Serving the head: the rest is as it was, and the counts go up where the head wanted. */
  lemma Serve(q: seq<Waiter>, th: seq<Status>)
    requires QueueInv(q, th) && q != []
    ensures
      var th' := th[q[0].slot := Served(th[q[0].slot])];
      && Grant(th, [q[0]]) == th' && QueueInv(q[1..], th')
      && Count(th', Reading) == Count(th, Reading) + (if q[0].state == QueuingR then 1 else 0)
      && Count(th', Writing) == Count(th, Writing) + (if q[0].state == QueuingW then 1 else 0)
  {
    var t := q[0].slot;
    QueueServe(q, th, t, Served(th[t]));
    CountUpdate(th, t, Served(th[t]), Reading);
    CountUpdate(th, t, Served(th[t]), Writing);
    assert Grant(th, [q[0]]) == Grant(th[t := Served(th[t])], []);
  }

  /** Serving the first n waiters, all readers. */
  lemma {:induction false} ServeReaders(q: seq<Waiter>, th: seq<Status>, n: nat)
    requires QueueInv(q, th) && n <= |q| && forall i :: 0 <= i < n ==> q[i].state == QueuingR
    ensures
      var th' := Grant(th, q[..n]);
      && QueueInv(q[n..], th')
      && Count(th', Reading) == Count(th, Reading) + n
      && Count(th', Writing) == Count(th, Writing)
    decreases n
  {
    if n == 0 {
      assert q[0..] == q;
    } else {
      var th1 := th[q[0].slot := Served(th[q[0].slot])];
      Serve(q, th);
      ServeReaders(q[1..], th1, n - 1);
      Shifted(q, n);
      assert Grant(th, q[..n]) == Grant(th1, q[1..][..n - 1]);
    }
  }

  lemma Shifted(q: seq<Waiter>, n: nat)
    requires 0 < n <= |q|
    ensures q[1..][..n - 1] == q[..n][1..] && q[1..][n - 1..] == q[n..] && q[..n][0] == q[0]
  {
  }

  /** Taking the lock at once happens with nobody queued. */
  lemma KeepGot(s: Sys, e: Event)
    requires Inv(s) && Enabled(s, e) && !e.DoRUnlock? && !e.DoWUnlock? && Effect(s.lock, e).got
    ensures Inv(Apply(s, e)) && s.lock.queue == []
  {
    var w := Own(e, true);
    assert s.granted + [] == s.granted;
    CountUpdate(s.th, e.t, w, Reading);
    CountUpdate(s.th, e.t, w, Writing);
    QueueSame(s.lock.queue, s.th, e.t, w);
  }

  lemma KeepJoin(s: Sys, t: Node, w: Status)
    requires Inv(s) && t < |s.th| && s.th[t] == Free && (s.lock.writer || s.lock.readers > 0)
    requires w.WaitingW? || (w.WaitingR? && (s.lock.writer || s.lock.queue != []))
    ensures
      var x := Waiter(t, Asked(w));
      Inv(Sys(s.lock.(queue := s.lock.queue + [x]), s.th[t := w], s.joined + [x], s.granted, false))
  {
    CountUpdate(s.th, t, w, Reading);
    CountUpdate(s.th, t, w, Writing);
    QueueJoin(s.lock.queue, s.th, t, w);
  }

  lemma KeepRefused(s: Sys, e: Event)
    requires Inv(s) && Enabled(s, e) && !e.DoRUnlock? && !e.DoWUnlock? && !Effect(s.lock, e).got
    ensures Inv(Apply(s, e))
  {
    var w := Own(e, false);
    assert s.granted + [] == s.granted;
    if w == Free {
      assert s.th[e.t := w] == s.th;
    } else {
      KeepJoin(s, e.t, w);
    }
  }

  /** A thread that gives the lock back has been counted. */
  lemma GiveBack(l: Lock, th: seq<Status>, t: Node)
    requires HoldInv(l, th) && QueueInv(l.queue, th) && t < |th| && (th[t] == Reading || th[t] == Writing)
    ensures QueueInv(l.queue, th[t := Free])
    ensures th[t] == Reading ==> l.readers > 0 && Count(th[t := Free], Reading) == l.readers - 1 && Count(th[t := Free], Writing) == 0
    ensures th[t] == Writing ==> l.writer && Count(th[t := Free], Writing) == 0 && Count(th[t := Free], Reading) == 0
  {
    CountZero(th, th[t]);
    CountUpdate(th, t, Free, Reading);
    CountUpdate(th, t, Free, Writing);
    QueueSame(l.queue, th, t, Free);
  }

  /** Neither abort of runlock is reached. */
  lemma KeepRUnlock(s: Sys, t: Node)
    requires Inv(s) && Enabled(s, DoRUnlock(t))
    ensures Inv(Apply(s, DoRUnlock(t)))
  {
    GiveBack(s.lock, s.th, t);
    assert s.granted + [] == s.granted;
    var q := s.lock.queue;
    if s.lock.readers == 1 && q != [] {
      Serve(q, s.th[t := Free]);
      assert s.granted + q == s.granted + [q[0]] + q[1..];
    }
  }

  lemma Regroup(a: seq<Waiter>, q: seq<Waiter>, n: nat)
    requires n <= |q|
    ensures a + q == a + q[..n] + q[n..]
  {
    assert q == q[..n] + q[n..];
  }

  /** The readers at the head are served in one batch, and then a writer, if any, is next. */
  lemma KeepBatch(s: Sys, t: Node)
    requires Inv(s) && Enabled(s, DoWUnlock(t)) && s.lock.queue != [] && s.lock.queue[0].state == QueuingR
    ensures
      var q, n := s.lock.queue, Leading(s.lock.queue);
      n > 0 && Inv(Sys(Lock(s.lock.readers + n, false, q[n..]), Grant(s.th[t := Free], q[..n]), s.joined, s.granted + q[..n], false))
  {
    GiveBack(s.lock, s.th, t);
    var q, n := s.lock.queue, Leading(s.lock.queue);
    ServeReaders(q, s.th[t := Free], n);
    Regroup(s.granted, q, n);
  }

  /** A writer at the head takes over; the writer flag stays set. */
  lemma KeepHandOver(s: Sys, t: Node)
    requires Inv(s) && Enabled(s, DoWUnlock(t)) && s.lock.queue != [] && s.lock.queue[0].state == QueuingW
    ensures
      var q := s.lock.queue;
      Inv(Sys(s.lock.(queue := q[1..]), Grant(s.th[t := Free], [q[0]]), s.joined, s.granted + [q[0]], false))
  {
    GiveBack(s.lock, s.th, t);
    var q := s.lock.queue;
    Serve(q, s.th[t := Free]);
    Regroup(s.granted, q, 1);
    assert q[..1] == [q[0]];
  }

  /** Neither abort of wunlock is reached. */
  lemma KeepWUnlock(s: Sys, t: Node)
    requires Inv(s) && Enabled(s, DoWUnlock(t))
    ensures Inv(Apply(s, DoWUnlock(t)))
  {
    GiveBack(s.lock, s.th, t);
    if s.lock.queue == [] {
      assert s.granted + [] == s.granted;
    } else if s.lock.queue[0].state == QueuingW {
      KeepHandOver(s, t);
    } else {
      KeepBatch(s, t);
    }
  }

  lemma KeepInv(s: Sys, e: Event)
    requires Inv(s) && Enabled(s, e)
    ensures Inv(Apply(s, e))
  {
    match e
    case DoRUnlock(t) =>
      KeepRUnlock(s, t);
    case DoWUnlock(t) =>
      KeepWUnlock(s, t);
    case _ =>
      if Effect(s.lock, e).got {
        KeepGot(s, e);
      } else {
        KeepRefused(s, e);
      }
  }

  // ---------------------------------------------------------------- over every run

  lemma AllFree(th: seq<Status>)
    requires forall t :: 0 <= t < |th| ==> th[t] == Free
    ensures HoldInv(Lock(0, false, []), th) && QueueInv([], th)
  {
    CountZero(th, Reading);
    CountZero(th, Writing);
  }

  lemma StartInv(threads: nat)
    ensures Inv(Start(threads))
  {
    AllFree(Start(threads).th);
  }

  lemma {:induction false} RunInv(ss: seq<Sys>, es: seq<Event>, k: nat)
    requires IsRun(ss, es) && k < |ss|
    ensures Inv(ss[k])
  {
    if k > 0 {
      RunInv(ss, es, k - 1);
      KeepInv(ss[k - 1], es[k - 1]);
    } else {
      var threads: nat :| ss[0] == Start(threads);
      StartInv(threads);
    }
  }

  lemma CountTwo(th: seq<Status>, t: Node, u: Node, w: Status)
    requires t < |th| && u < |th| && t != u && th[t] == w && th[u] == w && w != Free
    ensures Count(th, w) >= 2
  {
    CountUpdate(th, t, Free, w);
    CountZero(th[t := Free], w);
    assert th[t := Free][u] == w;
  }

  /** Whenever a thread writes, no other thread reads or writes. */
  lemma WriterIsAlone(ss: seq<Sys>, es: seq<Event>, k: nat, t: Node, u: Node)
    requires IsRun(ss, es) && k < |ss| && t < |ss[k].th| && u < |ss[k].th| && t != u
    requires ss[k].th[t] == Writing
    ensures ss[k].th[u] != Reading && ss[k].th[u] != Writing
  {
    RunInv(ss, es, k);
    CountZero(ss[k].th, Writing);
    CountZero(ss[k].th, Reading);
    if ss[k].th[u] == Writing {
      CountTwo(ss[k].th, t, u, Writing);
    }
  }

  /** No abort of the four state checks is ever reached. */
  lemma NeverAborts(ss: seq<Sys>, es: seq<Event>, k: nat)
    requires IsRun(ss, es) && k < |es|
    ensures Effect(ss[k].lock, es[k]).Result?
  {
    RunInv(ss, es, k);
    RunInv(ss, es, k + 1);
  }

  /** Somebody waits only while the lock is held, and behind readers a writer comes first. */
  lemma QueueOnlyWhileHeld(ss: seq<Sys>, es: seq<Event>, k: nat)
    requires IsRun(ss, es) && k < |ss| && ss[k].lock.queue != []
    ensures exists t :: 0 <= t < |ss[k].th| && (ss[k].th[t] == Reading || ss[k].th[t] == Writing)
    ensures ss[k].lock.readers > 0 ==> ss[k].lock.queue[0].state == QueuingW
  {
    RunInv(ss, es, k);
    CountZero(ss[k].th, Reading);
    CountZero(ss[k].th, Writing);
  }

  /** First come, first served: the lock is handed to the queued threads in the order they queued. */
  lemma FirstComeFirstServed(ss: seq<Sys>, es: seq<Event>, k: nat)
    requires IsRun(ss, es) && k < |ss|
    ensures ss[k].joined == ss[k].granted + ss[k].lock.queue
  {
    RunInv(ss, es, k);
  }

  /** Nobody takes the lock past a waiting thread, neither at once nor with a try-lock. */
  lemma NoBarging(ss: seq<Sys>, es: seq<Event>, k: nat)
    requires IsRun(ss, es) && k < |es|
    requires Effect(ss[k].lock, es[k]).Result? && Effect(ss[k].lock, es[k]).got
    ensures ss[k].lock.queue == []
    ensures ss[k].joined == ss[k].granted
  {
    RunInv(ss, es, k);
    KeepGot(ss[k], es[k]);
    assert ss[k].granted + [] == ss[k].granted;
  }

  /** A writer's unlock hands the lock to one writer or to all readers in front, and to nobody else. */
  lemma BatchOfReaders(ss: seq<Sys>, es: seq<Event>, k: nat)
    requires IsRun(ss, es) && k < |es| && es[k].DoWUnlock?
    ensures
      var q, q' := ss[k].lock.queue, ss[k + 1].lock.queue;
      var n := |q| - |q'|;
      && 0 <= n && q' == q[n..] && ss[k + 1].granted == ss[k].granted + q[..n]
      && (q != [] && q[0].state == QueuingW ==> n == 1)
      && (q != [] && q[0].state == QueuingR ==>
            && n > 0 && (forall i :: 0 <= i < n ==> q[i].state == QueuingR)
            && (n < |q| ==> q[n].state == QueuingW))
  {
    RunInv(ss, es, k);
    RunInv(ss, es, k + 1);
  }

  ghost predicate Any(th: seq<Status>, w: Status) {
    exists u :: 0 <= u < |th| && th[u] == w
  }

  lemma QueueTells(q: seq<Waiter>, th: seq<Status>)
    requires QueueInv(q, th)
    ensures q != [] <==> Any(th, WaitingR) || Any(th, WaitingW)
  {
    if q != [] {
      assert th[q[0].slot] == WaitingR || th[q[0].slot] == WaitingW;
    }
    if u :| 0 <= u < |th| && (th[u] == WaitingR || th[u] == WaitingW) {
      assert Waits(th, u);
    }
  }

  lemma CountTells(th: seq<Status>, w: Status)
    ensures Count(th, w) > 0 <==> Any(th, w)
  {
    CountZero(th, w);
    if w in th {
      var u :| 0 <= u < |th| && th[u] == w;
    }
  }

  /**
   * A thread that asks to read has the lock at once if and only if no thread writes and none waits, and one that asks
   * to write if and only if no thread reads or writes. Else it waits, or has nothing if it only tried.
   */
  lemma TakenIff(ss: seq<Sys>, es: seq<Event>, k: nat)
    requires IsRun(ss, es) && k < |es| && !es[k].DoRUnlock? && !es[k].DoWUnlock?
    ensures
      var e, th := es[k], ss[k].th;
      var free := if e.DoRLock? || e.DoCanRLock? then !Any(th, Writing) && !Any(th, WaitingR) && !Any(th, WaitingW)
                  else !Any(th, Reading) && !Any(th, Writing);
      && e.t < |th|
      && ss[k + 1].th == th[e.t :=
           match e
           case DoRLock(_) => if free then Reading else WaitingR
           case DoCanRLock(_) => if free then Reading else Free
           case DoWLock(_) => if free then Writing else WaitingW
           case _ => if free then Writing else Free]
  {
    RunInv(ss, es, k);
    QueueTells(ss[k].lock.queue, ss[k].th);
    CountTells(ss[k].th, Reading);
    CountTells(ss[k].th, Writing);
  }

  /** The last reader that unlocks hands the lock to the thread that has waited longest, a writer; other readers to nobody. */
  lemma LastReaderHandsOver(ss: seq<Sys>, es: seq<Event>, k: nat)
    requires IsRun(ss, es) && k < |es| && es[k].DoRUnlock?
    ensures
      var t, th, q := es[k].t, ss[k].th, ss[k].lock.queue;
      && t < |th|
      && (if !Any(th[t := Free], Reading) && q != []
          then q[0].state == QueuingW && q[0].slot < |th| && ss[k + 1].th == th[t := Free][q[0].slot := Writing]
                 && ss[k + 1].granted == ss[k].granted + [q[0]]
          else ss[k + 1].th == th[t := Free] && ss[k + 1].granted == ss[k].granted)
  {
    RunInv(ss, es, k);
    RunInv(ss, es, k + 1);
    var t, th := es[k].t, ss[k].th;
    CountUpdate(th, t, Free, Reading);
    CountTells(th[t := Free], Reading);
    CountTells(th, Reading);
    assert ss[k].granted + [] == ss[k].granted;
    LastGrant(ss[k].lock.queue, th[t := Free]);
  }

  lemma LastGrant(q: seq<Waiter>, th: seq<Status>)
    requires q != [] ==> q[0].slot < |th|
    ensures q != [] ==> Grant(th, [q[0]]) == th[q[0].slot := Served(th[q[0].slot])]
    ensures Grant(th, []) == th
  {
  }
}
