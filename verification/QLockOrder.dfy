/** Who gets a queueing lock and when, told from the threads alone. */
module QLockOrder {
  import opened Options
  import opened WaitList
  import opened QLockSpec
  import opened QLockRuns

  /** Some thread has the lock. */
  ghost predicate Owned(th: seq<Status>) {
    exists u :: 0 <= u < |th| && th[u] == Owner
  }

  /** A thread that asks for the lock has it at once if and only if nobody has it; a try-lock also needs the inner lock. */
  lemma TakenIff(ss: seq<Sys>, es: seq<Event>, k: nat)
    requires IsRun(ss, es) && k < |es| && (es[k].DoQLock? || es[k].DoCanQLock?)
    ensures
      var t, free := es[k].t, !Owned(ss[k].th);
      && |ss[k + 1].th| == |ss[k].th| > t
      && (es[k].DoQLock? ==> ss[k + 1].th == ss[k].th[t := if free then Owner else Queued])
      && (es[k].DoCanQLock? ==> ss[k + 1].th == if free && !es[k].busy then ss[k].th[t := Owner] else ss[k].th)
  {
    RunInv(ss, es, k);
  }

  /** The owner that unlocks or goes to sleep hands the lock to one thread that is queued, if there is one. */
  lemma HandedOn(ss: seq<Sys>, es: seq<Event>, k: nat)
    requires IsRun(ss, es) && k < |es| && (es[k].DoQUnlock? || es[k].DoRSleep?)
    ensures
      var t, th := es[k].t, ss[k].th;
      && t < |th|
      && var own := th[t := if es[k].DoQUnlock? then Free else Asleep(es[k].r)];
         if exists x :: 0 <= x < |th| && th[x] == Queued
         then exists x :: 0 <= x < |th| && th[x] == Queued && ss[k + 1].th == own[x := Owner]
         else ss[k + 1].th == own
  {
    RunInv(ss, es, k);
    var q := ss[k].lock.queue;
    if q != [] {
      assert ss[k].th[q[0]] == Queued;
    }
  }

  // ---------------------------------------------------------------- the queue

  ghost predicate Ahead(q: seq<Node>, f: Node, g: Node) {
    exists a, b :: 0 <= a < b < |q| && q[a] == f && q[b] == g
  }

  lemma AheadAppend(q: seq<Node>, f: Node, g: Node, x: Node)
    requires Ahead(q, f, g)
    ensures Ahead(q + [x], f, g) && Ahead([x] + q, f, g)
  {
    var a, b :| 0 <= a < b < |q| && q[a] == f && q[b] == g;
    assert (q + [x])[a] == f && (q + [x])[b] == g;
    assert ([x] + q)[a + 1] == f && ([x] + q)[b + 1] == g;
  }

  lemma AheadPop(q: seq<Node>, f: Node, g: Node)
    requires Ahead(q, f, g) && Distinct(q)
    ensures q[0] != g && (q[0] == f || Ahead(q[1..], f, g))
  {
    var a, b :| 0 <= a < b < |q| && q[a] == f && q[b] == g;
    if q[0] != f {
      assert q[1..][a - 1] == f && q[1..][b - 1] == g;
    }
  }

  lemma AheadLast(q: seq<Node>, f: Node, g: Node)
    requires f in q
    ensures Ahead(q + [g], f, g) && Ahead([g] + q, g, f)
  {
    var a :| 0 <= a < |q| && q[a] == f;
    assert (q + [g])[a] == f && (q + [g])[|q|] == g;
    assert ([g] + q)[0] == g && ([g] + q)[a + 1] == f;
  }

  /** What one routine does to the queue. */
  ghost predicate QueueStep(q: seq<Node>, q': seq<Node>) {
    || q' == q
    || (q != [] && q' == q[1..])
    || (exists x :: q' == q + [x])
    || (exists x :: q' == [x] + q)
  }

  lemma StepIs(s: Sys, e: Event)
    requires Enabled(s, e) && Effect(s.lock, e).Result?
    ensures QueueStep(s.lock.queue, Apply(s, e).lock.queue)
  {
  }

  lemma AheadStep(q: seq<Node>, q': seq<Node>, f: Node, g: Node)
    requires Ahead(q, f, g) && Distinct(q) && QueueStep(q, q')
    ensures g in q' && (f in q' ==> Ahead(q', f, g))
  {
    if q != [] && q' == q[1..] {
      AheadPop(q, f, g);
      HeadGone(q);
      var a, b :| 0 <= a < b < |q| && q[a] == f && q[b] == g;
      assert q[1..][b - 1] == g;
    } else if q' != q {
      if x :| q' == q + [x] {
        AheadAppend(q, f, g, x);
      } else {
        var x :| q' == [x] + q;
        AheadAppend(q, f, g, x);
      }
    }
  }

  lemma HeadGone(q: seq<Node>)
    requires q != [] && Distinct(q)
    ensures q[0] !in q[1..]
  {
  }

  lemma QueuedIs(q: seq<Node>, th: seq<Status>, t: Node)
    requires QueueInv(q, th)
    ensures t in q <==> t < |th| && th[t] == Queued
  {
  }

  lemma StaysAhead(ss: seq<Sys>, es: seq<Event>, k: nat, f: Node, g: Node)
    requires IsRun(ss, es) && k < |es| && Ahead(ss[k].lock.queue, f, g)
    ensures g < |ss[k + 1].th| && ss[k + 1].th[g] == Queued
    ensures f < |ss[k + 1].th| && ss[k + 1].th[f] == Queued ==> Ahead(ss[k + 1].lock.queue, f, g)
  {
    RunInv(ss, es, k);
    RunInv(ss, es, k + 1);
    StepIs(ss[k], es[k]);
    AheadStep(ss[k].lock.queue, ss[k + 1].lock.queue, f, g);
    QueuedIs(ss[k + 1].lock.queue, ss[k + 1].th, f);
    QueuedIs(ss[k + 1].lock.queue, ss[k + 1].th, g);
  }

  /** Thread t has status w in all states from j to k. */
  ghost predicate Stays(ss: seq<Sys>, j: nat, k: nat, t: Node, w: Status) {
    forall i {:trigger ss[i]} :: 0 <= i < |ss| && j <= i <= k ==> t < |ss[i].th| && ss[i].th[t] == w
  }

  lemma {:induction false} NotServed(ss: seq<Sys>, es: seq<Event>, j: nat, k: nat, f: Node, g: Node)
    requires IsRun(ss, es) && j <= k < |ss| && Ahead(ss[j].lock.queue, f, g) && Stays(ss, j, k, f, Queued)
    ensures Ahead(ss[k].lock.queue, f, g)
    decreases k
  {
    if j < k {
      NotServed(ss, es, j, k - 1, f, g);
      StaysAhead(ss, es, k - 1, f, g);
    }
  }

  lemma AheadQueued(ss: seq<Sys>, es: seq<Event>, k: nat, f: Node, g: Node)
    requires IsRun(ss, es) && k < |ss| && Ahead(ss[k].lock.queue, f, g)
    ensures g < |ss[k].th| && ss[k].th[g] == Queued
  {
    RunInv(ss, es, k);
    QueuedIs(ss[k].lock.queue, ss[k].th, g);
  }

  /** First come, first served: a thread that asks while another waits is not served as long as that one waits. */
  lemma FirstComeFirstServed(ss: seq<Sys>, es: seq<Event>, j: nat, k: nat, f: Node, g: Node)
    requires IsRun(ss, es) && j < k < |ss| && es[j] == DoQLock(g) && Stays(ss, j, k, f, Queued)
    ensures Stays(ss, j + 1, k, g, Queued)
  {
    RunInv(ss, es, j);
    QueuedIs(ss[j].lock.queue, ss[j].th, f);
    AheadLast(ss[j].lock.queue, f, g);
    forall i | 0 <= i < |ss| && j + 1 <= i <= k
      ensures g < |ss[i].th| && ss[i].th[g] == Queued
    {
      NotServed(ss, es, j + 1, i, f, g);
      AheadQueued(ss, es, i, f, g);
    }
  }

  // ---------------------------------------------------------------- the sleepers

  ghost predicate SomeAsleep(th: seq<Status>, r: nat) {
    exists u :: 0 <= u < |th| && th[u] == Asleep(r)
  }

  /** rwakeup moves one thread that sleeps there to the queue, if there is one, and concerns no other. */
  lemma WakeupWakesOne(ss: seq<Sys>, es: seq<Event>, k: nat, r: nat)
    requires IsRun(ss, es) && k < |es| && es[k].DoRWakeup? && es[k].r == r
    ensures SomeAsleep(ss[k].th, r) ==>
              exists x :: 0 <= x < |ss[k].th| && ss[k].th[x] == Asleep(r) && ss[k + 1].th == ss[k].th[x := Queued]
    ensures !SomeAsleep(ss[k].th, r) ==> ss[k + 1].th == ss[k].th
  {
    RunInv(ss, es, k);
    var list := ss[k].lock.sleepers[r];
    if list != [] {
      assert ss[k].th[list[0]] == Asleep(r);
    }
  }

  /** A sleeper that is woken is served before all that are in the queue. */
  lemma WokenComesFirst(ss: seq<Sys>, es: seq<Event>, j: nat, k: nat, f: Node, g: Node)
    requires IsRun(ss, es) && j < k < |ss| && f < |ss[j].th| && ss[j].th[f].Asleep? && Stays(ss, j + 1, k, f, Queued)
    requires g < |ss[j].th| && ss[j].th[g] == Queued
    ensures Stays(ss, j, k, g, Queued)
  {
    WokenIsAhead(ss, es, j, f, g);
    forall i | 0 <= i < |ss| && j <= i <= k
      ensures g < |ss[i].th| && ss[i].th[g] == Queued
    {
      if j < i {
        NotServed(ss, es, j + 1, i, f, g);
        AheadQueued(ss, es, i, f, g);
      }
    }
  }

  lemma WokenIsAhead(ss: seq<Sys>, es: seq<Event>, j: nat, f: Node, g: Node)
    requires IsRun(ss, es) && j < |es| && f < |ss[j].th| && ss[j].th[f].Asleep? && f < |ss[j + 1].th| && ss[j + 1].th[f] == Queued
    requires g < |ss[j].th| && ss[j].th[g] == Queued
    ensures Ahead(ss[j + 1].lock.queue, f, g)
  {
    RunInv(ss, es, j);
    QueuedIs(ss[j].lock.queue, ss[j].th, g);
    AheadLast(ss[j].lock.queue, g, f);
    WokenBy(ss[j], es[j], f);
  }

  /** A thread goes from a Rendez to the queue only by a wakeup that takes it first. */
  lemma WokenBy(s: Sys, e: Event, f: Node)
    requires Inv(s) && Enabled(s, e) && f < |s.th| && s.th[f].Asleep? && f < |Apply(s, e).th| && Apply(s, e).th[f] == Queued
    ensures Apply(s, e).lock.queue == [f] + s.lock.queue
  {
  }

  lemma SleepStep(ss: seq<Sys>, es: seq<Event>, k: nat, f: Node, g: Node, r: nat)
    requires IsRun(ss, es) && k < |es| && r < |ss[k].lock.sleepers| && Ahead(ss[k].lock.sleepers[r], f, g)
    requires f < |ss[k + 1].th| && ss[k + 1].th[f] == Asleep(r)
    ensures r < |ss[k + 1].lock.sleepers| && Ahead(ss[k + 1].lock.sleepers[r], f, g)
  {
    RunInv(ss, es, k);
    RunInv(ss, es, k + 1);
    var list, list' := ss[k].lock.sleepers[r], ss[k + 1].lock.sleepers[r];
    SleepersIs(ss[k], es[k], r);
    AheadStep(list, list', f, g);
  }

  lemma SleepersIs(s: Sys, e: Event, r: nat)
    requires Enabled(s, e) && Effect(s.lock, e).Result? && r < |s.lock.sleepers|
    ensures r < |Apply(s, e).lock.sleepers| && QueueStep(s.lock.sleepers[r], Apply(s, e).lock.sleepers[r])
  {
  }

  lemma {:induction false} NotWoken(ss: seq<Sys>, es: seq<Event>, j: nat, k: nat, f: Node, g: Node, r: nat)
    requires IsRun(ss, es) && j <= k < |ss| && r < |ss[j].lock.sleepers| && Ahead(ss[j].lock.sleepers[r], f, g)
    requires Stays(ss, j, k, f, Asleep(r))
    ensures r < |ss[k].lock.sleepers| && Ahead(ss[k].lock.sleepers[r], f, g)
    decreases k
  {
    if j < k {
      NotWoken(ss, es, j, k - 1, f, g, r);
      SleepStep(ss, es, k - 1, f, g, r);
    }
  }

  lemma AheadAsleep(ss: seq<Sys>, es: seq<Event>, k: nat, f: Node, g: Node, r: nat)
    requires IsRun(ss, es) && k < |ss| && r < |ss[k].lock.sleepers| && Ahead(ss[k].lock.sleepers[r], f, g)
    ensures g < |ss[k].th| && ss[k].th[g] == Asleep(r)
  {
    RunInv(ss, es, k);
  }

  /** Sleepers are woken in the order in which they went to sleep. */
  lemma SleepersInOrder(ss: seq<Sys>, es: seq<Event>, j: nat, k: nat, f: Node, g: Node, r: nat)
    requires IsRun(ss, es) && j < k < |ss| && es[j] == DoRSleep(g, r) && Stays(ss, j, k, f, Asleep(r))
    ensures Stays(ss, j + 1, k, g, Asleep(r))
  {
    RunInv(ss, es, j);
    assert ss[j].th[f] == Asleep(r);
    AheadLast(ss[j].lock.sleepers[r], f, g);
    assert ss[j + 1].lock.sleepers[r] == ss[j].lock.sleepers[r] + [g];
    forall i | 0 <= i < |ss| && j + 1 <= i <= k
      ensures g < |ss[i].th| && ss[i].th[g] == Asleep(r)
    {
      NotWoken(ss, es, j + 1, i, f, g, r);
      AheadAsleep(ss, es, i, f, g, r);
    }
  }
}
