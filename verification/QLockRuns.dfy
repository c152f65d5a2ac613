/** Any number of well-behaved threads on one queueing lock and its rendezvous points. */
module QLockRuns {
  import opened Counting
  import opened Options
  import opened WaitList
  import opened QLockSpec

  datatype Status = Free | Owner | Queued | Asleep(r: nat)

  /** Threads are numbered and wait in the slot of their own number. */
  datatype Sys = Sys(lock: Lock, th: seq<Status>, dead: bool)

  datatype Event =
    | DoQLock(t: Node)
    | DoCanQLock(t: Node, busy: bool)
    | DoQUnlock(t: Node)
    | DoRSleep(t: Node, r: nat)
    | DoRWakeup(t: Node, r: nat)

  /** Only the owner unlocks, sleeps or wakes; only a thread outside asks for the lock. */
  predicate Enabled(s: Sys, e: Event) {
    && !s.dead && e.t < |s.th|
    && (match e
        case DoQLock(t) => s.th[t] == Free
        case DoCanQLock(t, _) => s.th[t] == Free
        case DoQUnlock(t) => s.th[t] == Owner
        case DoRSleep(t, r) => s.th[t] == Owner && r < |s.lock.sleepers|
        case DoRWakeup(t, r) => s.th[t] == Owner && r < |s.lock.sleepers|)
  }

  function Effect(l: Lock, e: Event): Result
    requires (e.DoRSleep? || e.DoRWakeup?) ==> e.r < |l.sleepers|
  {
    match e
    case DoQLock(t) => QLock(l, t)
    case DoCanQLock(_, busy) => CanQLock(l, busy)
    case DoQUnlock(_) => QUnlock(l)
    case DoRSleep(t, r) => RSleep(l, r, t)
    case DoRWakeup(_, r) => RWakeup(l, r)
  }

  function Set(th: seq<Status>, t: Node, w: Status): (r: seq<Status>)
    ensures |r| == |th|
  {
    if t < |th| then th[t := w] else th
  }

  /** The threads after the routine; whoever is woken has the lock. */
  function After(s: Sys, e: Event, got: bool, woken: Option<Node>): seq<Status>
    requires Enabled(s, e)
  {
    var own :=
      match e
      case DoQLock(t) => s.th[t := if got then Owner else Queued]
      case DoCanQLock(t, _) => s.th[t := if got then Owner else Free]
      case DoQUnlock(t) => s.th[t := Free]
      case DoRSleep(t, r) => s.th[t := Asleep(r)]
      case DoRWakeup(_, r) => if s.lock.sleepers[r] != [] then Set(s.th, s.lock.sleepers[r][0], Queued) else s.th;
    if woken.Some? then Set(own, woken.value, Owner) else own
  }

  function Apply(s: Sys, e: Event): Sys
    requires Enabled(s, e)
  {
    match Effect(s.lock, e)
    case Abort => s.(dead := true)
    case Result(l, got, woken) => Sys(l, After(s, e, got, woken), false)
  }

  function Start(threads: nat, rends: nat): Sys {
    Sys(Lock(false, [], seq(rends, _ => [])), seq(threads, _ => Free), false)
  }

  ghost predicate IsRun(ss: seq<Sys>, es: seq<Event>) {
    && |ss| == |es| + 1
    && (exists threads: nat, rends: nat :: ss[0] == Start(threads, rends))
    && forall i :: 0 <= i < |es| ==> Enabled(ss[i], es[i]) && ss[i + 1] == Apply(ss[i], es[i])
  }

  // ---------------------------------------------------------------- the invariant

  /** The lock word is set exactly while one thread owns the lock; unset, nobody is queued. */
  ghost predicate OwnInv(l: Lock, th: seq<Status>) {
    && (forall t, u :: 0 <= t < |th| && 0 <= u < |th| && th[t] == Owner && th[u] == Owner ==> t == u)
    && (l.locked <==> exists t :: 0 <= t < |th| && th[t] == Owner)
    && (!l.locked ==> l.queue == [])
  }

  /** The queue holds exactly the queued threads, each once. */
  ghost predicate QueueInv(q: seq<Node>, th: seq<Status>) {
    && Distinct(q)
    && (forall i :: 0 <= i < |q| ==> q[i] < |th| && th[q[i]] == Queued)
    && (forall t :: 0 <= t < |th| && th[t] == Queued ==> t in q)
  }

  /** The list of a Rendez holds exactly the threads asleep there, each once. */
  ghost predicate SleepInv(sleepers: seq<seq<Node>>, th: seq<Status>) {
    && (forall r :: 0 <= r < |sleepers| ==> Distinct(sleepers[r]))
    && (forall r, i :: 0 <= r < |sleepers| && 0 <= i < |sleepers[r]| ==>
          sleepers[r][i] < |th| && th[sleepers[r][i]] == Asleep(r))
    && (forall t :: 0 <= t < |th| && th[t].Asleep? ==> th[t].r < |sleepers| && t in sleepers[th[t].r])
  }

  ghost predicate Inv(s: Sys) {
    !s.dead && OwnInv(s.lock, s.th) && QueueInv(s.lock.queue, s.th) && SleepInv(s.lock.sleepers, s.th)
  }

  // ---------------------------------------------------------------- one thread changes

  lemma QueueSame(q: seq<Node>, th: seq<Status>, t: Node, w: Status)
    requires QueueInv(q, th) && t < |th| && th[t] != Queued && w != Queued
    ensures QueueInv(q, th[t := w])
  {
  }

  lemma QueueJoin(q: seq<Node>, th: seq<Status>, t: Node)
    requires QueueInv(q, th) && t < |th| && th[t] != Queued
    ensures QueueInv(q + [t], th[t := Queued]) && QueueInv([t] + q, th[t := Queued])
  {
    assert forall x :: x in q + [t] <==> x in q || x == t;
    assert forall x :: x in [t] + q <==> x in q || x == t;
    assert t !in q;
  }

  lemma QueuePop(q: seq<Node>, th: seq<Status>, w: Status)
    requires QueueInv(q, th) && q != [] && w != Queued
    ensures QueueInv(q[1..], th[q[0] := w])
  {
    assert forall x :: x in q <==> x == q[0] || x in q[1..];
    assert q[0] !in q[1..];
  }

  lemma SleepSame(sleepers: seq<seq<Node>>, th: seq<Status>, t: Node, w: Status)
    requires SleepInv(sleepers, th) && t < |th| && !th[t].Asleep? && !w.Asleep?
    ensures SleepInv(sleepers, th[t := w])
  {
  }

  lemma SleepJoin(sleepers: seq<seq<Node>>, th: seq<Status>, t: Node, r: nat)
    requires SleepInv(sleepers, th) && t < |th| && !th[t].Asleep? && r < |sleepers|
    ensures SleepInv(sleepers[r := sleepers[r] + [t]], th[t := Asleep(r)])
  {
    var s', th' := sleepers[r := sleepers[r] + [t]], th[t := Asleep(r)];
    assert t !in sleepers[r];
  }

  lemma SleepPop(sleepers: seq<seq<Node>>, th: seq<Status>, r: nat)
    requires SleepInv(sleepers, th) && r < |sleepers| && sleepers[r] != []
    ensures SleepInv(sleepers[r := sleepers[r][1..]], th[sleepers[r][0] := Queued])
  {
    var q := sleepers[r];
    assert forall x :: x in q <==> x == q[0] || x in q[1..];
    assert q[0] !in q[1..];
  }

  // ---------------------------------------------------------------- every routine keeps it

  /** The owner t lets go and becomes w; the first in the queue, if any, has the lock now. */
  lemma PassOn(l: Lock, th: seq<Status>, t: Node, w: Status)
    requires OwnInv(l, th) && QueueInv(l.queue, th) && t < |th| && th[t] == Owner && w != Owner && w != Queued
    ensures
      var r := QUnlock(l);
      var th' := if r.woken.Some? then Set(th[t := w], r.woken.value, Owner) else th[t := w];
      OwnInv(r.lock, th') && QueueInv(r.lock.queue, th')
  {
    QueueSame(l.queue, th, t, w);
    if l.queue != [] {
      QueuePop(l.queue, th[t := w], Owner);
      assert l.queue[0] in l.queue;
      assert th[t := w][l.queue[0] := Owner][l.queue[0]] == Owner;
    }
  }

  lemma KeepLock(s: Sys, e: Event)
    requires Inv(s) && Enabled(s, e) && (e.DoQLock? || e.DoCanQLock?)
    ensures Inv(Apply(s, e))
  {
    var got := Effect(s.lock, e).got;
    if got {
      QueueSame(s.lock.queue, s.th, e.t, Owner);
      SleepSame(s.lock.sleepers, s.th, e.t, Owner);
      assert s.th[e.t := Owner][e.t] == Owner;
    } else if e.DoQLock? {
      QueueJoin(s.lock.queue, s.th, e.t);
      SleepSame(s.lock.sleepers, s.th, e.t, Queued);
      var o :| 0 <= o < |s.th| && s.th[o] == Owner;
      assert s.th[e.t := Queued][o] == Owner;
    } else {
      assert s.th[e.t := Free] == s.th;
    }
  }

  lemma KeepUnlock(s: Sys, t: Node)
    requires Inv(s) && Enabled(s, DoQUnlock(t))
    ensures Inv(Apply(s, DoQUnlock(t)))
  {
    PassOn(s.lock, s.th, t, Free);
    SleepSame(s.lock.sleepers, s.th, t, Free);
    if s.lock.queue != [] {
      SleepSame(s.lock.sleepers, s.th[t := Free], s.lock.queue[0], Owner);
    }
  }

  lemma KeepSleep(s: Sys, t: Node, r: nat)
    requires Inv(s) && Enabled(s, DoRSleep(t, r))
    ensures Inv(Apply(s, DoRSleep(t, r)))
  {
    PassOn(s.lock, s.th, t, Asleep(r));
    SleepJoin(s.lock.sleepers, s.th, t, r);
    if s.lock.queue != [] {
      SleepSame(s.lock.sleepers[r := s.lock.sleepers[r] + [t]], s.th[t := Asleep(r)], s.lock.queue[0], Owner);
    }
  }

  lemma KeepWakeup(s: Sys, t: Node, r: nat)
    requires Inv(s) && Enabled(s, DoRWakeup(t, r))
    ensures Inv(Apply(s, DoRWakeup(t, r)))
  {
    if s.lock.sleepers[r] != [] {
      var x := s.lock.sleepers[r][0];
      assert x in s.lock.sleepers[r];
      SleepPop(s.lock.sleepers, s.th, r);
      QueueJoin(s.lock.queue, s.th, x);
      assert s.th[x := Queued][t] == Owner;
    }
  }

  lemma KeepInv(s: Sys, e: Event)
    requires Inv(s) && Enabled(s, e)
    ensures Inv(Apply(s, e))
  {
    match e
    case DoQLock(_) =>
      KeepLock(s, e);
    case DoCanQLock(_, _) =>
      KeepLock(s, e);
    case DoQUnlock(t) =>
      KeepUnlock(s, t);
    case DoRSleep(t, r) =>
      KeepSleep(s, t, r);
    case DoRWakeup(t, r) =>
      KeepWakeup(s, t, r);
  }

  // ---------------------------------------------------------------- over every run

  lemma {:induction false} RunInv(ss: seq<Sys>, es: seq<Event>, k: nat)
    requires IsRun(ss, es) && k < |ss|
    ensures Inv(ss[k])
  {
    if k > 0 {
      RunInv(ss, es, k - 1);
      KeepInv(ss[k - 1], es[k - 1]);
    } else {
      var threads: nat, rends: nat :| ss[0] == Start(threads, rends);
    }
  }

  /** Ownership is never doubled and never dropped while somebody waits for it. */
  lemma OneOwner(ss: seq<Sys>, es: seq<Event>, k: nat)
    requires IsRun(ss, es) && k < |ss|
    ensures !ss[k].dead
    ensures forall t, u :: 0 <= t < |ss[k].th| && 0 <= u < |ss[k].th| && ss[k].th[t] == Owner && ss[k].th[u] == Owner ==> t == u
    ensures ss[k].lock.locked <==> exists t :: 0 <= t < |ss[k].th| && ss[k].th[t] == Owner
    ensures ss[k].lock.queue != [] ==> exists t :: 0 <= t < |ss[k].th| && ss[k].th[t] == Owner
  {
    RunInv(ss, es, k);
  }

  /** How often a thread occurs in the queue and in all the wait lists together. */
  function Occurrences(l: Lock, t: Node): nat {
    multiset(l.queue)[t] + Sleeping(l.sleepers, t)
  }

  function Sleeping(sleepers: seq<seq<Node>>, t: Node): nat {
    if sleepers == [] then 0 else Sleeping(sleepers[..|sleepers| - 1], t) + multiset(sleepers[|sleepers| - 1])[t]
  }

  lemma {:induction false} SleepingCount(sleepers: seq<seq<Node>>, t: Node, r: nat)
    requires forall i :: 0 <= i < |sleepers| ==> Distinct(sleepers[i]) && (t in sleepers[i] <==> i == r)
    ensures Sleeping(sleepers, t) == if r < |sleepers| then 1 else 0
  {
    if sleepers != [] {
      var n := |sleepers| - 1;
      OnceEach(sleepers[n], t);
      SleepingCount(sleepers[..n], t, r);
    }
  }

  /** Threads are conserved: a blocked thread is in exactly one list, once; any other in none. */
  lemma BlockedInOneList(ss: seq<Sys>, es: seq<Event>, k: nat, t: Node)
    requires IsRun(ss, es) && k < |ss| && t < |ss[k].th|
    ensures Occurrences(ss[k].lock, t) == if ss[k].th[t] == Queued || ss[k].th[t].Asleep? then 1 else 0
  {
    RunInv(ss, es, k);
    var s := ss[k];
    OnceEach(s.lock.queue, t);
    SleepingCount(s.lock.sleepers, t, if s.th[t].Asleep? then s.th[t].r else |s.lock.sleepers|);
  }
}
