/** What sleep, wakeup and postnote promise over every run. */
module SleepTheorems {
  import opened Options
  import opened SleepWakeup
  import opened SleepInvariant

  lemma StartInv(procs: nat, rends: nat)
    ensures Inv(Start(procs, rends))
  {
  }

  lemma {:induction false} RunInv(ss: seq<Sys>, es: seq<Event>, k: nat)
    requires IsRun(ss, es) && k < |ss|
    ensures Inv(ss[k])
  {
    if k > 0 {
      RunInv(ss, es, k - 1);
      KeepInv(ss[k - 1], es[k - 1]);
    } else {
      var procs: nat, rends: nat :| ss[0] == Start(procs, rends);
      StartInv(procs, rends);
    }
  }

  /** Whenever neither lock is held, r->p and p->r agree, and they are set exactly for a sleeper. */
  lemma LinksAgree(ss: seq<Sys>, es: seq<Event>, k: nat, p: Proc, r: Rend)
    requires IsRun(ss, es) && k < |ss| && ss[k].Shape() && p < |ss[k].pc| && r < |ss[k].lock|
    requires ss[k].lock[r].None? && ss[k].rlock[p].None?
    ensures ss[k].rp[r] == Some(p) <==> ss[k].pr[p] == Some(r) && ss[k].st[p] == Wakeme
  {
    RunInv(ss, es, k);
  }

  /** "double sleep" is never printed and neither panic is reached. */
  lemma NeverPanics(ss: seq<Sys>, es: seq<Event>, k: nat, q: Proc)
    requires IsRun(ss, es) && k < |es| && es[k] == Step(q)
    ensures NoPanic(ss[k], q)
  {
    RunInv(ss, es, k);
    if ss[k].pc[q].SleepLock? {
      NoDoubleSleep(ss[k], q);
    }
  }

  /** Every commit to sleep is followed by exactly one ready before the process can run again. */
  lemma OneReadyPerSleep(ss: seq<Sys>, es: seq<Event>, k: nat, p: Proc)
    requires IsRun(ss, es) && k < |ss| && ss[k].Shape() && p < |ss[k].pc|
    ensures ss[k].commits[p] == ss[k].readies[p] + (if ss[k].st[p] == Wakeme then 1 else 0)
  {
    RunInv(ss, es, k);
  }

  // ---------------------------------------------------------------- progress

  /** b has the lock that a needs for its next step. */
  predicate WaitsFor(s: Sys, a: Proc, b: Proc)
    requires s.Shape()
  {
    && a < |s.pc| && InRange(s, s.pc[a])
    && match s.pc[a]
       case SleepLock(_) => s.rlock[a] == Some(b)
       case WakeWant(r) => s.lock[r] == Some(b)
       case WakeLocked(_, p) => s.rlock[p] == Some(b)
       case PostWant(p) => s.rlock[p] == Some(b)
       case _ => false
  }

  /** The next step of q is a canlock that fails, after which postnote starts over. */
  predicate Retries(s: Sys, q: Proc)
    requires s.Shape() && CanStep(s, q)
  {
    s.pc[q].PostLocked? && s.lock[s.pc[q].r].Some?
  }

  /** How many steps a process has left, if nobody is in its way. */
  function Rank(c: Pc): nat {
    match c
    case Idle => 0
    case Returning => 1
    case Woken => 2
    case Asleep(_) => 3
    case SleepSure(_) => 4
    case SleepTested(_) => 5
    case SleepTest(_) => 6
    case SleepLock(_) => 7
    case WakeLocked(_, _) => 1
    case WakeWant(_) => 2
    case PostLocked(_, _) => 1
    case PostWant(_) => 2
  }

  function Work(pc: seq<Pc>): nat {
    if pc == [] then 0 else Rank(pc[0]) + Work(pc[1..])
  }

  lemma {:induction false} WorkMove(pc: seq<Pc>, q: Proc, c: Pc)
    requires q < |pc|
    ensures Work(pc[q := c]) == Work(pc) - Rank(pc[q]) + Rank(c)
  {
    if q > 0 {
      WorkMove(pc[1..], q - 1, c);
      assert pc[q := c][1..] == pc[1..][q - 1 := c];
    } else {
      assert pc[q := c][1..] == pc[1..];
    }
  }

  /** The step of q makes another process ready. */
  predicate Wakens(s: Sys, q: Proc)
    requires s.Shape() && CanStep(s, q)
  {
    s.pc[q].WakeLocked? || (s.pc[q].PostLocked? && !Retries(s, q))
  }

  lemma OwnStep(s: Sys, q: Proc)
    requires s.Shape() && CanStep(s, q) && !Wakens(s, q)
    ensures
      var pc' := ApplyStep(s, q).pc;
      && |pc'| == |s.pc| && pc' == s.pc[q := pc'[q]]
      && if Retries(s, q) then Rank(pc'[q]) == Rank(s.pc[q]) + 1 else Rank(pc'[q]) < Rank(s.pc[q])
  {
  }

  /** Waking saves two steps: the waker is done and the sleeper comes closer. */
  lemma WakingSavesTwo(s: Sys, q: Proc)
    requires s.Shape() && TargetInv(s.pc) && CanStep(s, q) && Wakens(s, q)
    ensures Work(ApplyStep(s, q).pc) == Work(s.pc) - 2
  {
    var p := s.pc[q].p;
    assert s.pc[p].Asleep?;
    WorkMove(s.pc, p, Woken);
    WorkMove(s.pc[p := Woken], q, Idle);
  }

  /** Every step leaves less work, but for a failed canlock, which has to be made up for. */
  lemma StepShrinksWork(s: Sys, q: Proc)
    requires s.Shape() && TargetInv(s.pc) && CanStep(s, q)
    ensures if Retries(s, q) then Work(ApplyStep(s, q).pc) == Work(s.pc) + 1 else Work(ApplyStep(s, q).pc) < Work(s.pc)
  {
    if Wakens(s, q) {
      WakingSavesTwo(s, q);
    } else {
      OwnStep(s, q);
      WorkMove(s.pc, q, ApplyStep(s, q).pc[q]);
    }
  }

  /** A poster whose canlock fails stands in the way of nobody but the waker that has the lock. */
  lemma RetryMakesWay(s: Sys, q: Proc) returns (h: Proc)
    requires Inv(s) && CanStep(s, q) && Retries(s, q)
    ensures s.lock[s.pc[q].r] == Some(h)
    ensures
      if CanStep(s, h) then !Retries(s, h)
      else
        var s' := ApplyStep(s, q);
        WaitsFor(s, h, q) && CanStep(s', h) && !Retries(s', h) && Work(ApplyStep(s', h).pc) < Work(s.pc)
  {
    h := s.lock[s.pc[q].r].value;
    if !CanStep(s, h) {
      assert s.pc[h] == WakeLocked(s.pc[q].r, s.pc[q].p);
      KeepStep(s, q);
      StepShrinksWork(s, q);
      WakingSavesTwo(ApplyStep(s, q), h);
    }
  }

  /** Who holds a lock can go on, or waits for a poster that can: no deadlock. */
  lemma HolderGoesOn(s: Sys, r: Rend) returns (q: Proc)
    requires Tables(s) && TargetInv(s.pc) && r < |s.lock| && s.lock[r].Some?
    ensures CanStep(s, q)
    ensures if CanStep(s, s.lock[r].value) then q == s.lock[r].value else WaitsFor(s, s.lock[r].value, q) && s.pc[q].PostLocked?
  {
    var h := s.lock[r].value;
    match s.pc[h]
    case WakeLocked(_, p) =>
      q := if s.rlock[p].None? then h else s.rlock[p].value;
    case _ =>
      q := h;
  }

  /** A process in the middle of a routine can go on, or the one it waits for, or the one that one waits for. */
  lemma Blocker(s: Sys, x: Proc) returns (y: Proc, q: Proc)
    requires Tables(s) && TargetInv(s.pc) && x < |s.pc| && !s.pc[x].Idle? && !s.pc[x].Asleep?
    ensures CanStep(s, q) && (y == x || WaitsFor(s, x, y)) && (q == y || WaitsFor(s, y, q))
  {
    y, q := x, x;
    match s.pc[x]
    case WakeWant(r) =>
      if s.lock[r].Some? {
        y := s.lock[r].value;
        q := HolderGoesOn(s, r);
      }
    case WakeLocked(r, p) =>
      q := HolderGoesOn(s, r);
    case PostWant(p) =>
      if s.rlock[p].Some? {
        y, q := s.rlock[p].value, s.rlock[p].value;
      }
    case _ =>
  }

  /**
   * As long as a process is in the middle of a routine, somebody can make a step that leaves less
   * work, if need be after a poster has given up the rlock for which that one waits.
   */
  lemma Progress(s: Sys, x: Proc) returns (q: Proc, h: Proc)
    requires Inv(s) && x < |s.pc| && !s.pc[x].Idle? && !s.pc[x].Asleep?
    ensures CanStep(s, q)
    ensures !Retries(s, q) ==> Work(ApplyStep(s, q).pc) < Work(s.pc)
    ensures Retries(s, q) ==> CanStep(ApplyStep(s, q), h) && Work(ApplyStep(ApplyStep(s, q), h).pc) < Work(s.pc)
  {
    var y;
    y, q := Blocker(s, x);
    h := q;
    if Retries(s, q) {
      h := RetryMakesWay(s, q);
      if CanStep(s, h) {
        q := h;
      }
    }
    StepShrinksWork(s, q);
  }

  /** The failed canlocks from the i-th to the j-th step of a run. */
  ghost function Retried(ss: seq<Sys>, es: seq<Event>, i: nat, j: nat): nat
    requires IsRun(ss, es) && i <= j <= |es| && forall k :: i <= k < j ==> es[k].Step?
    decreases j - i
  {
    if i == j then 0
    else Retried(ss, es, i, j - 1) + (if Retries(ss[j - 1], es[j - 1].q) then 1 else 0)
  }

  lemma RunShrinksWork(ss: seq<Sys>, es: seq<Event>, k: nat)
    requires IsRun(ss, es) && k < |es| && es[k].Step?
    ensures ss[k].Shape() && CanStep(ss[k], es[k].q)
    ensures 1 + Work(ss[k + 1].pc) <= Work(ss[k].pc) + (if Retries(ss[k], es[k].q) then 2 else 0)
  {
    RunInv(ss, es, k);
    StepShrinksWork(ss[k], es[k].q);
  }

  /** Without new calls every run ends, but for posters that find a Rendez locked again and again. */
  lemma {:induction false} StepsAreBounded(ss: seq<Sys>, es: seq<Event>, i: nat, j: nat)
    requires IsRun(ss, es) && i <= j <= |es| && forall k :: i <= k < j ==> es[k].Step?
    ensures j - i + Work(ss[j].pc) <= Work(ss[i].pc) + 2 * Retried(ss, es, i, j)
    decreases j - i
  {
    if i < j {
      StepsAreBounded(ss, es, i, j - 1);
      RunShrinksWork(ss, es, j - 1);
    }
  }

  /** No process has a step left to make in any of the three routines. */
  ghost predicate Quiet(s: Sys)
    requires s.Shape()
  {
    forall q: Proc :: !CanStep(s, q)
  }

  /**
   * No wakeup and no note is lost: when all calls of wakeup and postnote have run their course,
   * a process still asleep waits for a condition that is false and has no note pending, and every
   * other process is out of the protocol.
   */
  lemma NothingLost(ss: seq<Sys>, es: seq<Event>, k: nat, p: Proc)
    requires IsRun(ss, es) && k < |ss| && ss[k].Shape() && Quiet(ss[k]) && p < |ss[k].pc|
    ensures ss[k].pc[p].Idle? || ss[k].pc[p].Asleep?
    ensures ss[k].pc[p].Asleep? ==> ss[k].pc[p].r < |ss[k].cond| && !ss[k].cond[ss[k].pc[p].r] && !ss[k].note[p]
  {
    var s := ss[k];
    RunInv(ss, es, k);
    forall x | 0 <= x < |s.pc|
      ensures s.pc[x].Idle? || s.pc[x].Asleep?
    {
      if !s.pc[x].Idle? && !s.pc[x].Asleep? {
        var q, h := Progress(s, x);
      }
    }
  }

  /** A sleeper whose condition has come true has a waker on the way, and one with a note a poster. */
  lemma WakerOnTheWay(ss: seq<Sys>, es: seq<Event>, k: nat, p: Proc)
    requires IsRun(ss, es) && k < |ss| && ss[k].Shape() && p < |ss[k].pc| && ss[k].pc[p].Asleep?
    ensures ss[k].pc[p].r < |ss[k].cond|
    ensures ss[k].cond[ss[k].pc[p].r] ==> exists w :: 0 <= w < |ss[k].pc| && Wakes(ss[k].pc[w], ss[k].pc[p].r, p)
    ensures ss[k].note[p] ==> exists q :: 0 <= q < |ss[k].pc| && Posts(ss[k].pc[q], p)
  {
    RunInv(ss, es, k);
  }
}
