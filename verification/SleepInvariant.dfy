/** What every step of the sleep protocol keeps, and what follows for every run. */
module SleepInvariant {
  import opened Options
  import opened SleepWakeup

  // ---------------------------------------------------------------- what a program counter holds

  /** The Rendez whose lock a process has. */
  function LockOf(c: Pc): Option<Rend> {
    match c
    case SleepLock(r) => Some(r)
    case SleepTest(r) => Some(r)
    case SleepTested(r) => Some(r)
    case SleepSure(r) => Some(r)
    case WakeLocked(r, _) => Some(r)
    case _ => None
  }

  /** The process whose rlock q has. */
  function RlockOf(q: Proc, c: Pc): Option<Proc> {
    match c
    case SleepTest(_) => Some(q)
    case SleepTested(_) => Some(q)
    case SleepSure(_) => Some(q)
    case PostLocked(p, _) => Some(p)
    case _ => None
  }

  /** The Rendez whose r->p is the process. */
  function LinkOf(c: Pc): Option<Rend> {
    match c
    case SleepTest(r) => Some(r)
    case SleepTested(r) => Some(r)
    case SleepSure(r) => Some(r)
    case Asleep(r) => Some(r)
    case _ => None
  }

  /** The Rendez the process sleeps on or is about to. */
  function UseOf(c: Pc): Option<Rend> {
    if c.SleepLock? then Some(c.r) else LinkOf(c)
  }

  // ---------------------------------------------------------------- the invariant

  ghost predicate LockInv(pc: seq<Pc>, lock: seq<Option<Proc>>) {
    && (forall q {:trigger pc[q]} :: 0 <= q < |pc| && LockOf(pc[q]).Some? ==>
          LockOf(pc[q]).value < |lock| && lock[LockOf(pc[q]).value] == Some(q))
    && (forall r {:trigger lock[r]} :: 0 <= r < |lock| && lock[r].Some? ==>
          lock[r].value < |pc| && LockOf(pc[lock[r].value]) == Some(r))
  }

  ghost predicate RlockInv(pc: seq<Pc>, rlock: seq<Option<Proc>>) {
    && |rlock| == |pc|
    && (forall q {:trigger pc[q]} :: 0 <= q < |pc| && RlockOf(q, pc[q]).Some? ==>
          RlockOf(q, pc[q]).value < |pc| && rlock[RlockOf(q, pc[q]).value] == Some(q))
    && (forall p {:trigger rlock[p]} :: 0 <= p < |pc| && rlock[p].Some? ==>
          rlock[p].value < |pc| && RlockOf(rlock[p].value, pc[rlock[p].value]) == Some(p))
  }

  ghost predicate LinkInv(pc: seq<Pc>, rp: seq<Option<Proc>>) {
    && (forall q {:trigger pc[q]} :: 0 <= q < |pc| && LinkOf(pc[q]).Some? ==>
          LinkOf(pc[q]).value < |rp| && rp[LinkOf(pc[q]).value] == Some(q))
    && (forall r {:trigger rp[r]} :: 0 <= r < |rp| && rp[r].Some? ==>
          rp[r].value < |pc| && LinkOf(pc[rp[r].value]) == Some(r))
  }

  /** No two processes sleep on the same Rendez. */
  ghost predicate UseInv(pc: seq<Pc>) {
    forall p, q :: 0 <= p < |pc| && 0 <= q < |pc| && UseOf(pc[p]).Some? && UseOf(pc[p]) == UseOf(pc[q]) ==> p == q
  }

  ghost predicate StateInv(pc: seq<Pc>, st: seq<State>, pr: seq<Option<Rend>>) {
    && |st| == |pc| && |pr| == |pc|
    && (forall q :: 0 <= q < |pc| ==>
          && pr[q] == (if pc[q].Asleep? then Some(pc[q].r) else None)
          && st[q] == (if pc[q].Asleep? then Wakeme else if pc[q].Woken? then Ready else Running))
  }

  /** Whom a waker or a poster found asleep is still asleep there. */
  ghost predicate TargetInv(pc: seq<Pc>) {
    forall q {:trigger pc[q]} :: 0 <= q < |pc| ==>
      && (pc[q].WakeLocked? ==> pc[q].p < |pc| && pc[pc[q].p] == Asleep(pc[q].r))
      && (pc[q].PostLocked? ==> pc[q].p < |pc| && pc[pc[q].p] == Asleep(pc[q].r))
  }

  predicate RangeOk(c: Pc, procs: nat, rends: nat) {
    && (c.WakeWant? ==> c.r < rends)
    && (c.PostWant? ==> c.p < procs)
    && (c.SleepLock? ==> c.r < rends)
  }

  ghost predicate RangeInv(pc: seq<Pc>, rends: nat) {
    forall q :: 0 <= q < |pc| ==> RangeOk(pc[q], |pc|, rends)
  }

  /** Each committed sleep is answered by exactly one ready, and then the sleeper no longer waits. */
  ghost predicate CountInv(pc: seq<Pc>, commits: seq<nat>, readies: seq<nat>) {
    && |commits| == |pc| && |readies| == |pc|
    && (forall q :: 0 <= q < |pc| ==> commits[q] == readies[q] + (if pc[q].Asleep? then 1 else 0))
  }

  /** The process has seen the condition false and has not been awakened since. */
  predicate Trusting(c: Pc) {
    c.SleepTested? || c.SleepSure? || c.Asleep?
  }

  /** Process w is on its way to wake p, who uses r. */
  predicate Wakes(c: Pc, r: Rend, p: Proc) {
    c == WakeWant(r) || c == WakeLocked(r, p)
  }

  ghost predicate CondInv(pc: seq<Pc>, cond: seq<bool>) {
    forall p :: 0 <= p < |pc| && Trusting(pc[p]) && pc[p].r < |cond| && cond[pc[p].r] ==>
      exists w :: 0 <= w < |pc| && Wakes(pc[w], pc[p].r, p)
  }

  /** Process q is on its way to wake p for a note. */
  predicate Posts(c: Pc, p: Proc) {
    c == PostWant(p) || (c.PostLocked? && c.p == p)
  }

  ghost predicate NoteInv(pc: seq<Pc>, note: seq<bool>) {
    && |note| == |pc|
    && forall p :: 0 <= p < |pc| && (pc[p].SleepSure? || pc[p].Asleep?) && note[p] ==>
         exists q :: 0 <= q < |pc| && Posts(pc[q], p)
  }

  ghost predicate Inv(s: Sys) {
    && s.Shape()
    && LockInv(s.pc, s.lock) && RlockInv(s.pc, s.rlock) && LinkInv(s.pc, s.rp) && UseInv(s.pc)
    && StateInv(s.pc, s.st, s.pr) && TargetInv(s.pc) && RangeInv(s.pc, |s.lock|)
    && CountInv(s.pc, s.commits, s.readies) && CondInv(s.pc, s.cond) && NoteInv(s.pc, s.note)
  }

  // ---------------------------------------------------------------- one process moves on

  /** The lock table after q goes from c to d: what it held is free, what it takes is its own. */
  function Pass(table: seq<Option<Proc>>, q: Proc, before: Option<nat>, after: Option<nat>): seq<Option<Proc>> {
    if before == after then table
    else
      var t := if before.Some? && before.value < |table| then table[before.value := None] else table;
      if after.Some? && after.value < |table| then t[after.value := Some(q)] else t
  }

  lemma LockMove(pc: seq<Pc>, lock: seq<Option<Proc>>, q: Proc, c: Pc)
    requires LockInv(pc, lock) && q < |pc|
    requires LockOf(c).Some? && LockOf(c) != LockOf(pc[q]) ==> LockOf(c).value < |lock| && lock[LockOf(c).value].None?
    ensures LockInv(pc[q := c], Pass(lock, q, LockOf(pc[q]), LockOf(c)))
  {
  }

  lemma RlockMove(pc: seq<Pc>, rlock: seq<Option<Proc>>, q: Proc, c: Pc)
    requires RlockInv(pc, rlock) && q < |pc|
    requires RlockOf(q, c).Some? && RlockOf(q, c) != RlockOf(q, pc[q]) ==>
               RlockOf(q, c).value < |pc| && rlock[RlockOf(q, c).value].None?
    ensures RlockInv(pc[q := c], Pass(rlock, q, RlockOf(q, pc[q]), RlockOf(q, c)))
  {
  }

  lemma LinkMove(pc: seq<Pc>, rp: seq<Option<Proc>>, q: Proc, c: Pc)
    requires LinkInv(pc, rp) && q < |pc|
    requires LinkOf(c).Some? && LinkOf(c) != LinkOf(pc[q]) ==> LinkOf(c).value < |rp| && rp[LinkOf(c).value].None?
    ensures LinkInv(pc[q := c], Pass(rp, q, LinkOf(pc[q]), LinkOf(c)))
  {
  }

  lemma UseMove(pc: seq<Pc>, q: Proc, c: Pc)
    requires UseInv(pc) && q < |pc|
    requires UseOf(c) == UseOf(pc[q]) || UseOf(c).None?
    ensures UseInv(pc[q := c])
  {
  }

  lemma StateMove(pc: seq<Pc>, st: seq<State>, pr: seq<Option<Rend>>, q: Proc, c: Pc)
    requires StateInv(pc, st, pr) && q < |pc|
    ensures StateInv(pc[q := c],
                     st[q := if c.Asleep? then Wakeme else if c.Woken? then Ready else Running],
                     pr[q := if c.Asleep? then Some(c.r) else None])
  {
  }

  lemma TargetMove(pc: seq<Pc>, q: Proc, c: Pc)
    requires TargetInv(pc) && q < |pc|
    requires pc[q].Asleep? ==> forall w :: 0 <= w < |pc| ==>
               (pc[w].WakeLocked? || pc[w].PostLocked? ==> pc[w].p != q)
    requires c.WakeLocked? || c.PostLocked? ==> c.p < |pc| && c.p != q && pc[c.p] == Asleep(c.r)
    ensures TargetInv(pc[q := c])
  {
  }

  lemma CondMove(pc: seq<Pc>, cond: seq<bool>, q: Proc, c: Pc)
    requires CondInv(pc, cond) && q < |pc|
    requires Trusting(c) && c.r < |cond| && cond[c.r] ==> Trusting(pc[q]) && pc[q].r == c.r
    requires forall p :: 0 <= p < |pc| && p != q && Trusting(pc[p]) && Wakes(pc[q], pc[p].r, p) ==> Wakes(c, pc[p].r, p)
    ensures CondInv(pc[q := c], cond)
  {
    var pc' := pc[q := c];
    forall p | 0 <= p < |pc'| && Trusting(pc'[p]) && pc'[p].r < |cond| && cond[pc'[p].r]
      ensures exists w :: 0 <= w < |pc'| && Wakes(pc'[w], pc'[p].r, p)
    {
      var w :| 0 <= w < |pc| && Wakes(pc[w], pc[p].r, p);
      assert Wakes(pc'[w], pc'[p].r, p);
    }
  }

  lemma NoteMove(pc: seq<Pc>, note: seq<bool>, q: Proc, c: Pc)
    requires NoteInv(pc, note) && q < |pc|
    requires (c.SleepSure? || c.Asleep?) && note[q] ==> pc[q].SleepSure? || pc[q].Asleep?
    requires forall p :: 0 <= p < |pc| && p != q && (pc[p].SleepSure? || pc[p].Asleep?) && Posts(pc[q], p) ==> Posts(c, p)
    ensures NoteInv(pc[q := c], note)
  {
    var pc' := pc[q := c];
    forall p | 0 <= p < |pc'| && (pc'[p].SleepSure? || pc'[p].Asleep?) && note[p]
      ensures exists w :: 0 <= w < |pc'| && Posts(pc'[w], p)
    {
      var w :| 0 <= w < |pc| && Posts(pc[w], p);
      assert Posts(pc'[w], p);
    }
  }

  lemma CountMove(pc: seq<Pc>, commits: seq<nat>, readies: seq<nat>, q: Proc, c: Pc)
    requires CountInv(pc, commits, readies) && q < |pc|
    ensures
      var d := if c.Asleep? && !pc[q].Asleep? then 1 else 0;
      var e := if !c.Asleep? && pc[q].Asleep? then 1 else 0;
      CountInv(pc[q := c], commits[q := commits[q] + d], readies[q := readies[q] + e])
  {
  }

  // ---------------------------------------------------------------- every step keeps it

  /** s after process q goes to c, with the lock tables and links that belong to c. */
  function Goes(s: Sys, q: Proc, c: Pc): Sys
    requires s.Shape() && q < |s.pc|
  {
    s.(pc := s.pc[q := c],
       lock := Pass(s.lock, q, LockOf(s.pc[q]), LockOf(c)),
       rlock := Pass(s.rlock, q, RlockOf(q, s.pc[q]), RlockOf(q, c)),
       rp := Pass(s.rp, q, LinkOf(s.pc[q]), LinkOf(c)),
       st := s.st[q := if c.Asleep? then Wakeme else if c.Woken? then Ready else Running],
       pr := s.pr[q := if c.Asleep? then Some(c.r) else None])
  }

  /** q may go to c: the locks it takes are free, and the link it makes is not made already. */
  predicate MayGo(s: Sys, q: Proc, c: Pc)
    requires s.Shape()
  {
    && q < |s.pc| && RangeOk(c, |s.pc|, |s.lock|)
    && (LockOf(c).Some? && LockOf(c) != LockOf(s.pc[q]) ==> LockOf(c).value < |s.lock| && s.lock[LockOf(c).value].None?)
    && (RlockOf(q, c).Some? && RlockOf(q, c) != RlockOf(q, s.pc[q]) ==>
          RlockOf(q, c).value < |s.pc| && s.rlock[RlockOf(q, c).value].None?)
    && (LinkOf(c).Some? && LinkOf(c) != LinkOf(s.pc[q]) ==> LinkOf(c).value < |s.rp| && s.rp[LinkOf(c).value].None?)
  }

  /** The part of the invariant about locks, links and states. */
  ghost predicate Tables(s: Sys) {
    && s.Shape()
    && LockInv(s.pc, s.lock) && RlockInv(s.pc, s.rlock) && LinkInv(s.pc, s.rp)
    && StateInv(s.pc, s.st, s.pr) && RangeInv(s.pc, |s.lock|)
  }

  lemma RangeMove(pc: seq<Pc>, n: nat, q: Proc, c: Pc)
    requires RangeInv(pc, n) && q < |pc| && RangeOk(c, |pc|, n)
    ensures RangeInv(pc[q := c], n)
  {
  }

  lemma KeepTables(s: Sys, q: Proc, c: Pc)
    requires Tables(s) && MayGo(s, q, c)
    ensures Tables(Goes(s, q, c))
  {
    LockMove(s.pc, s.lock, q, c);
    RlockMove(s.pc, s.rlock, q, c);
    LinkMove(s.pc, s.rp, q, c);
    StateMove(s.pc, s.st, s.pr, q, c);
    RangeMove(s.pc, |s.lock|, q, c);
    var s' := Goes(s, q, c);
    assert LockInv(s'.pc, s'.lock);
    assert RlockInv(s'.pc, s'.rlock);
    assert LinkInv(s'.pc, s'.rp);
    assert StateInv(s'.pc, s'.st, s'.pr);
  }

  /**
   * A move of a process that neither starts nor ends a sleep, takes back no promise to wake or to
   * post, and trusts the condition or the note flag only when they are clear.
   */
  ghost predicate Fine(pc: seq<Pc>, cond: seq<bool>, note: seq<bool>, q: Proc, c: Pc) {
    && q < |pc| && |note| == |pc| && !pc[q].Asleep? && !c.Asleep?
    && (UseOf(c) == UseOf(pc[q]) || UseOf(c).None?)
    && (c.WakeLocked? || c.PostLocked? ==> c.p < |pc| && c.p != q && pc[c.p] == Asleep(c.r))
    && (Trusting(c) && c.r < |cond| && cond[c.r] ==> Trusting(pc[q]) && pc[q].r == c.r)
    && (c.SleepSure? && note[q] ==> pc[q].SleepSure?)
    && (forall p :: 0 <= p < |pc| && p != q && Trusting(pc[p]) && Wakes(pc[q], pc[p].r, p) ==> Wakes(c, pc[p].r, p))
    && (forall p :: 0 <= p < |pc| && p != q && (pc[p].SleepSure? || pc[p].Asleep?) && Posts(pc[q], p) ==> Posts(c, p))
  }

  lemma KeepMove(s: Sys, q: Proc, c: Pc)
    requires Inv(s) && MayGo(s, q, c) && Fine(s.pc, s.cond, s.note, q, c)
    ensures Inv(Goes(s, q, c))
  {
    KeepTables(s, q, c);
    UseMove(s.pc, q, c);
    TargetMove(s.pc, q, c);
    CondMove(s.pc, s.cond, q, c);
    NoteMove(s.pc, s.note, q, c);
  }

  // ---------------------------------------------------------------- sleep

  lemma SleepIs(s: Sys, q: Proc, r: Rend)
    requires s.Shape() && At(s, q) && r < |s.lock| && StateInv(s.pc, s.st, s.pr)
    ensures Goto(s, q, SleepLock(r)).(lock := s.lock[r := Some(q)]) == Goes(s, q, SleepLock(r))
  {
  }

  lemma KeepSleep(s: Sys, q: Proc, r: Rend)
    requires Inv(s) && At(s, q) && r < |s.lock| && s.lock[r].None?
    requires forall p :: 0 <= p < |s.pc| ==> !Uses(s.pc[p], r)
    ensures Inv(Goto(s, q, SleepLock(r)).(lock := s.lock[r := Some(q)]))
  {
    var c := SleepLock(r);
    SleepIs(s, q, r);
    KeepTables(s, q, c);
    assert forall p :: 0 <= p < |s.pc| ==> UseOf(s.pc[p]) != Some(r);
    TargetMove(s.pc, q, c);
    CondMove(s.pc, s.cond, q, c);
    NoteMove(s.pc, s.note, q, c);
  }

  /** Nobody else uses the Rendez, so its r->p is nil when the sleeper gets to set it. */
  lemma NoDoubleSleep(s: Sys, q: Proc)
    requires Inv(s) && q < |s.pc| && s.pc[q].SleepLock?
    ensures s.pc[q].r < |s.rp| && s.rp[s.pc[q].r].None?
  {
  }

  lemma CommitIs(s: Sys, q: Proc, r: Rend)
    requires s.Shape() && q < |s.pc| && s.pc[q] == SleepSure(r) && r < |s.lock|
    ensures Commit(s, q, r) == Goes(s, q, Asleep(r)).(commits := s.commits[q := s.commits[q] + 1])
  {
  }

  lemma KeepCommit(s: Sys, q: Proc, r: Rend)
    requires Inv(s) && q < |s.pc| && s.pc[q] == SleepSure(r) && r < |s.lock|
    ensures Inv(Commit(s, q, r))
  {
    var c := Asleep(r);
    CommitIs(s, q, r);
    KeepTables(s, q, c);
    UseMove(s.pc, q, c);
    TargetMove(s.pc, q, c);
    CountMove(s.pc, s.commits, s.readies, q, c);
    CondMove(s.pc, s.cond, q, c);
    NoteMove(s.pc, s.note, q, c);
    assert s.readies[q := s.readies[q] + 0] == s.readies;
  }

  // ---------------------------------------------------------------- wakeup and postnote

  /** A process that wakes p holds the locks of both sides, so no other process is waking p. */
  lemma OnlyWaker(s: Sys, q: Proc, p: Proc, r: Rend)
    requires Inv(s) && q < |s.pc| && p < |s.pc| && r < |s.lock|
    requires s.pc[q] == WakeLocked(r, p) || s.pc[q] == PostLocked(p, r)
    requires s.pc[q].WakeLocked? ==> s.rlock[p].None?
    requires s.pc[q].PostLocked? ==> s.lock[r].None?
    ensures s.pc[p] == Asleep(r) && p != q
    ensures forall w :: 0 <= w < |s.pc| && w != q && (s.pc[w].WakeLocked? || s.pc[w].PostLocked?) ==> s.pc[w].p != p
  {
  }

  /** The waker lets go first, then the sleeper is ready; together they are Awaken. */
  lemma AwakenIs(s: Sys, q: Proc, p: Proc, r: Rend)
    requires Tables(s) && q < |s.pc| && p < |s.pc| && r < |s.lock| && p != q && s.pc[p] == Asleep(r)
    requires s.pc[q] == WakeLocked(r, p) || s.pc[q] == PostLocked(p, r)
    requires s.pc[q].WakeLocked? ==> s.rlock[p].None?
    requires s.pc[q].PostLocked? ==> s.lock[r].None?
    ensures Awaken(s, q, p, r) == Goes(Goes(s, q, Idle), p, Woken).(readies := s.readies[p := s.readies[p] + 1])
  {
    var a, b := Awaken(s, q, p, r), Goes(Goes(s, q, Idle), p, Woken);
    assert a.pc == b.pc;
    assert a.lock == b.lock;
    assert a.rlock == b.rlock;
    assert a.rp == b.rp;
    assert a.st == b.st;
    assert a.pr == b.pr;
  }

  lemma AwakenTables(s: Sys, q: Proc, p: Proc, r: Rend)
    requires Tables(s) && q < |s.pc| && p < |s.pc| && r < |s.lock| && p != q && s.pc[p] == Asleep(r)
    requires s.pc[q] == WakeLocked(r, p) || s.pc[q] == PostLocked(p, r)
    requires s.pc[q].WakeLocked? ==> s.rlock[p].None?
    requires s.pc[q].PostLocked? ==> s.lock[r].None?
    ensures Tables(Awaken(s, q, p, r))
  {
    AwakenIs(s, q, p, r);
    KeepTables(s, q, Idle);
    KeepTables(Goes(s, q, Idle), p, Woken);
  }

  /** What is left of the others' promises once q is done and p is awake. */
  lemma AwakenRest(pc: seq<Pc>, q: Proc, p: Proc, r: Rend, cond: seq<bool>, note: seq<bool>)
    requires q < |pc| && p < |pc| && p != q && pc[p] == Asleep(r)
    requires pc[q] == WakeLocked(r, p) || pc[q] == PostLocked(p, r)
    requires forall w :: 0 <= w < |pc| && w != q && (pc[w].WakeLocked? || pc[w].PostLocked?) ==> pc[w].p != p
    requires UseInv(pc) && TargetInv(pc) && CondInv(pc, cond) && NoteInv(pc, note)
    ensures UseInv(pc[p := Woken][q := Idle]) && TargetInv(pc[p := Woken][q := Idle])
    ensures CondInv(pc[p := Woken][q := Idle], cond) && NoteInv(pc[p := Woken][q := Idle], note)
  {
    assert pc[p := Woken][q := Idle] == pc[q := Idle][p := Woken];
    UseMove(pc, q, Idle);
    UseMove(pc[q := Idle], p, Woken);
    TargetMove(pc, q, Idle);
    TargetMove(pc[q := Idle], p, Woken);
    CondMove(pc, cond, p, Woken);
    CondMove(pc[p := Woken], cond, q, Idle);
    NoteMove(pc, note, p, Woken);
    NoteMove(pc[p := Woken], note, q, Idle);
  }

  lemma KeepAwaken(s: Sys, q: Proc, p: Proc, r: Rend)
    requires Inv(s) && q < |s.pc| && p < |s.pc| && r < |s.lock|
    requires s.pc[q] == WakeLocked(r, p) || s.pc[q] == PostLocked(p, r)
    requires s.pc[q].WakeLocked? ==> s.rlock[p].None?
    requires s.pc[q].PostLocked? ==> s.lock[r].None?
    ensures Inv(Awaken(s, q, p, r))
  {
    OnlyWaker(s, q, p, r);
    AwakenTables(s, q, p, r);
    AwakenRest(s.pc, q, p, r, s.cond, s.note);
    CountMove(s.pc, s.commits, s.readies, p, Woken);
    CountMove(s.pc[p := Woken], s.commits, s.readies[p := s.readies[p] + 1], q, Idle);
  }

  // ---------------------------------------------------------------- all steps together

  /** Where a simple step of a routine takes its process. */
  function Target(s: Sys, q: Proc): Pc
    requires s.Shape() && CanStep(s, q)
    requires !s.pc[q].SleepSure? && !s.pc[q].WakeLocked?
  {
    match s.pc[q]
    case SleepLock(r) => SleepTest(r)
    case SleepTest(r) => if s.cond[r] then Returning else SleepTested(r)
    case SleepTested(r) => if s.note[q] then Returning else SleepSure(r)
    case Woken => Returning
    case Returning => Idle
    case WakeWant(r) => if s.rp[r].None? then Idle else WakeLocked(r, s.rp[r].value)
    case PostWant(p) => if s.pr[p].None? then Idle else PostLocked(p, s.pr[p].value)
    case PostLocked(p, _) => PostWant(p)
  }

  predicate Simple(s: Sys, q: Proc)
    requires s.Shape() && CanStep(s, q)
  {
    && !s.pc[q].SleepSure? && !s.pc[q].WakeLocked? && !s.pc[q].Returning?
    && !(s.pc[q].PostLocked? && s.lock[s.pc[q].r].None?)
  }

  lemma SimpleIs(s: Sys, q: Proc)
    requires Tables(s) && CanStep(s, q) && Simple(s, q)
    requires s.pc[q].SleepLock? ==> s.rp[s.pc[q].r].None?
    ensures ApplyStep(s, q) == Goes(s, q, Target(s, q))
  {
    var a, b := ApplyStep(s, q), Goes(s, q, Target(s, q));
    assert a.pc == b.pc;
    assert a.lock == b.lock;
    assert a.rlock == b.rlock;
    assert a.rp == b.rp;
    assert a.st == b.st && a.pr == b.pr;
  }

  /** Who gets the first lock finds the sleeper, if there is one, committed; else nobody trusts it to come. */
  ghost predicate Finds(s: Sys, q: Proc)
    requires s.Shape() && CanStep(s, q)
  {
    match s.pc[q]
    case WakeWant(r) =>
      if s.rp[r].Some? then
        && s.rp[r].value < |s.pc| && s.pc[s.rp[r].value] == Asleep(r)
        && forall p :: 0 <= p < |s.pc| && Trusting(s.pc[p]) && s.pc[p].r == r ==> s.rp[r] == Some(p)
      else forall p :: 0 <= p < |s.pc| && Trusting(s.pc[p]) ==> s.pc[p].r != r
    case PostWant(p) =>
      if s.pr[p].Some? then s.pc[p] == Asleep(s.pr[p].value)
      else !s.pc[p].Asleep? && !s.pc[p].SleepSure?
    case _ => true
  }

  lemma FindsCommitted(s: Sys, q: Proc)
    requires Inv(s) && CanStep(s, q)
    ensures Finds(s, q)
  {
  }

  lemma SimpleMayGo(s: Sys, q: Proc)
    requires Tables(s) && CanStep(s, q) && Simple(s, q)
    requires s.pc[q].SleepLock? ==> s.rp[s.pc[q].r].None?
    ensures MayGo(s, q, Target(s, q))
  {
  }

  lemma SimpleFine(s: Sys, q: Proc)
    requires s.Shape() && CanStep(s, q) && Simple(s, q) && Finds(s, q)
    ensures Fine(s.pc, s.cond, s.note, q, Target(s, q))
  {
  }

  lemma KeepSimple(s: Sys, q: Proc)
    requires Inv(s) && CanStep(s, q) && Simple(s, q)
    ensures Inv(ApplyStep(s, q))
  {
    if s.pc[q].SleepLock? {
      NoDoubleSleep(s, q);
    }
    SimpleIs(s, q);
    SimpleMayGo(s, q);
    FindsCommitted(s, q);
    SimpleFine(s, q);
    KeepMove(s, q, Target(s, q));
  }

  /** The last step of sleep uses the pending note up. */
  lemma KeepReturn(s: Sys, q: Proc)
    requires Inv(s) && q < |s.pc| && s.pc[q].Returning?
    ensures Inv(Goto(s, q, Idle).(note := s.note[q := false]))
  {
    KeepMove(s, q, Idle);
    assert Goto(s, q, Idle) == Goes(s, q, Idle);
    NoteClear(s.pc[q := Idle], s.note, q);
  }

  lemma NoteClear(pc: seq<Pc>, note: seq<bool>, q: Proc)
    requires NoteInv(pc, note) && q < |pc|
    ensures NoteInv(pc, note[q := false])
  {
  }

  lemma KeepStep(s: Sys, q: Proc)
    requires Inv(s) && CanStep(s, q)
    ensures Inv(ApplyStep(s, q))
  {
    if Simple(s, q) {
      KeepSimple(s, q);
    } else {
      match s.pc[q]
      case SleepSure(r) =>
        KeepCommit(s, q, r);
      case Returning =>
        KeepReturn(s, q);
      case WakeLocked(r, p) =>
        KeepAwaken(s, q, p, r);
      case PostLocked(p, r) =>
        KeepAwaken(s, q, p, r);
    }
  }

  // ---------------------------------------------------------------- calls from outside

  /** A call of wakeup or postnote takes no lock yet and breaks no promise. */
  lemma CallMayGo(s: Sys, q: Proc, c: Pc)
    requires s.Shape() && StateInv(s.pc, s.st, s.pr) && At(s, q) && RangeOk(c, |s.pc|, |s.lock|) && (c.WakeWant? || c.PostWant?)
    ensures MayGo(s, q, c) && Fine(s.pc, s.cond, s.note, q, c) && Goto(s, q, c) == Goes(s, q, c)
  {
  }

  lemma KeepCall(s: Sys, q: Proc, r: Rend)
    requires Inv(s) && At(s, q) && r < |s.lock|
    ensures Inv(Goto(s, q, WakeWant(r)))
  {
    CallMayGo(s, q, WakeWant(r));
    KeepMove(s, q, WakeWant(r));
  }

  lemma KeepSetCond(s: Sys, q: Proc, r: Rend)
    requires Inv(s) && At(s, q) && r < |s.lock|
    ensures Inv(Goto(s, q, WakeWant(r)).(cond := s.cond[r := true]))
  {
    KeepCall(s, q, r);
    CondSet(s.pc[q := WakeWant(r)], s.cond, q, r);
  }

  lemma CondSet(pc: seq<Pc>, cond: seq<bool>, q: Proc, r: Rend)
    requires CondInv(pc, cond) && q < |pc| && pc[q] == WakeWant(r) && r < |cond|
    ensures CondInv(pc, cond[r := true])
  {
    forall p | 0 <= p < |pc| && Trusting(pc[p]) && pc[p].r < |cond| && cond[r := true][pc[p].r]
      ensures exists w :: 0 <= w < |pc| && Wakes(pc[w], pc[p].r, p)
    {
      if pc[p].r == r {
        assert Wakes(pc[q], pc[p].r, p);
      }
    }
  }

  lemma KeepPostNote(s: Sys, q: Proc, p: Proc)
    requires Inv(s) && At(s, q) && p < |s.pc|
    ensures Inv(Goto(s, q, PostWant(p)).(note := s.note[p := true]))
  {
    CallMayGo(s, q, PostWant(p));
    KeepMove(s, q, PostWant(p));
    NoteSet(s.pc[q := PostWant(p)], s.note, q, p);
  }

  lemma NoteSet(pc: seq<Pc>, note: seq<bool>, q: Proc, p: Proc)
    requires NoteInv(pc, note) && q < |pc| && pc[q] == PostWant(p) && p < |pc|
    ensures NoteInv(pc, note[p := true])
  {
    assert Posts(pc[q], p);
  }

  lemma CondClear(pc: seq<Pc>, cond: seq<bool>, r: Rend)
    requires CondInv(pc, cond) && r < |cond|
    ensures CondInv(pc, cond[r := false])
  {
  }

  /** Every step keeps the invariant. */
  lemma KeepInv(s: Sys, e: Event)
    requires Inv(s) && Enabled(s, e)
    ensures Inv(Apply(s, e))
  {
    match e
    case SetCond(q, r) =>
      KeepSetCond(s, q, r);
    case ClearCond(_, r) =>
      CondClear(s.pc, s.cond, r);
    case CallWakeup(q, r) =>
      KeepCall(s, q, r);
    case PostNote(q, p) =>
      KeepPostNote(s, q, p);
    case Sleep(q, r) =>
      KeepSleep(s, q, r);
    case Step(q) =>
      KeepStep(s, q);
  }
}
