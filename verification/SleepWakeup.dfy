/**
 * The sleep, wakeup and postnote protocol of doc/Process/proc.c as a transition system.
 *
 * Any number of processes run any of the three routines against any number of Rendez
 * structures. Each spin-lock acquisition, each unlocked read and each unlocked write is a
 * step of its own; steps of different processes interleave freely.
 */
module SleepWakeup {
  import opened Options

  type Proc = nat
  type Rend = nat

  /** Scheduling state of a process, as far as the protocol looks at it. */
  datatype State = Running | Wakeme | Ready

  /** How far a process is in the routine it runs. */
  datatype Pc =
    | Idle
    // sleep(r)
    | SleepLock(r: Rend)    // r locked; own rlock is next
    | SleepTest(r: Rend)    // both locked, r->p = up; the condition is next
    | SleepTested(r: Rend)  // the condition was false; notepending is next
    | SleepSure(r: Rend)    // notepending was clear; the commit is next
    | Asleep(r: Rend)       // committed and switched out
    | Woken                 // made ready by somebody, not yet running
    | Returning             // at the final notepending test of sleep
    // wakeup(r)
    | WakeWant(r: Rend)             // lock(r) is next
    | WakeLocked(r: Rend, p: Proc)  // r locked, r->p == p; lock(&p->rlock) is next
    // postnote(p)
    | PostWant(p: Proc)             // notepending set; lock(&p->rlock) is next
    | PostLocked(p: Proc, r: Rend)  // p->rlock held, p->r == r; canlock(r) is next

  /**
   * `pc`, `st`, `note`, `rlock`, `pr`, `commits` and `readies` are indexed by process; `lock`, `rp`
   * (the field r->p) and `cond` by Rendez. A lock holds the process that has it.
   */
  datatype Sys = Sys(
    pc: seq<Pc>, st: seq<State>, note: seq<bool>, rlock: seq<Option<Proc>>, pr: seq<Option<Rend>>,
    commits: seq<nat>, readies: seq<nat>,
    lock: seq<Option<Proc>>, rp: seq<Option<Proc>>, cond: seq<bool>)
  {
    predicate Shape() {
      && |st| == |pc| && |note| == |pc| && |rlock| == |pc| && |pr| == |pc|
      && |commits| == |pc| && |readies| == |pc|
      && |rp| == |lock| && |cond| == |lock|
    }
  }

  datatype Event =
    | SetCond(q: Proc, r: Rend)    // make the condition true, then call wakeup(r)
    | ClearCond(q: Proc, r: Rend)  // a process that was awakened uses the condition up
    | CallWakeup(q: Proc, r: Rend) // call wakeup(r) without having changed the condition
    | PostNote(q: Proc, p: Proc)   // p->notepending = 1 in postnote
    | Sleep(q: Proc, r: Rend)      // lock(r) in sleep
    | Step(q: Proc)                // the next step of the routine q is in

  predicate At(s: Sys, q: Proc) {
    q < |s.pc| && s.pc[q].Idle?
  }

  /** A process that sleeps on r or is on its way there. */
  predicate Uses(c: Pc, r: Rend) {
    c == SleepLock(r) || c == SleepTest(r) || c == SleepTested(r) || c == SleepSure(r) || c == Asleep(r)
  }

  /** The links of c are in range. */
  predicate InRange(s: Sys, c: Pc) {
    match c
    case SleepLock(r) => r < |s.lock|
    case SleepTest(r) => r < |s.lock|
    case SleepTested(r) => r < |s.lock|
    case SleepSure(r) => r < |s.lock|
    case Asleep(r) => r < |s.lock|
    case WakeWant(r) => r < |s.lock|
    case WakeLocked(r, p) => r < |s.lock| && p < |s.pc|
    case PostWant(p) => p < |s.pc|
    case PostLocked(p, r) => p < |s.pc| && r < |s.lock|
    case _ => true
  }

  /** Whether the routine q is in can take its next step now: a spin lock has to be free. */
  predicate CanStep(s: Sys, q: Proc)
    requires s.Shape()
  {
    && q < |s.pc|
    && InRange(s, s.pc[q])
    && match s.pc[q]
       case Idle => false
       case Asleep(_) => false
       case SleepLock(_) => s.rlock[q].None?
       case WakeWant(r) => s.lock[r].None?
       case WakeLocked(_, p) => s.rlock[p].None?
       case PostWant(p) => s.rlock[p].None?
       case _ => true
  }

  /** At most one process may sleep on a Rendez; that is the caller's duty. */
  predicate Enabled(s: Sys, e: Event) {
    && s.Shape()
    && match e
       case SetCond(q, r) => At(s, q) && r < |s.lock|
       case ClearCond(q, r) => At(s, q) && r < |s.lock|
       case CallWakeup(q, r) => At(s, q) && r < |s.lock|
       case PostNote(q, p) => At(s, q) && p < |s.pc|
       case Sleep(q, r) =>
         && At(s, q) && r < |s.lock| && s.lock[r].None?
         && (forall p :: 0 <= p < |s.pc| ==> !Uses(s.pc[p], r))
       case Step(q) => CanStep(s, q)
  }

  function Goto(s: Sys, q: Proc, c: Pc): Sys
    requires q < |s.pc|
  {
    s.(pc := s.pc[q := c])
  }

  /** sleep: the condition holds or a note is pending, never mind. */
  function NeverMind(s: Sys, q: Proc, r: Rend): Sys
    requires s.Shape() && q < |s.pc| && r < |s.lock|
  {
    Goto(s, q, Returning).(rp := s.rp[r := None], rlock := s.rlock[q := None], lock := s.lock[r := None])
  }

  /** sleep: change state and leave the processor. */
  function Commit(s: Sys, q: Proc, r: Rend): Sys
    requires s.Shape() && q < |s.pc| && r < |s.lock|
  {
    Goto(s, q, Asleep(r)).(st := s.st[q := Wakeme], pr := s.pr[q := Some(r)], commits := s.commits[q := s.commits[q] + 1],
                           rlock := s.rlock[q := None], lock := s.lock[r := None])
  }

  /** wakeup and postnote: unlink p and r, ready(p), release both locks; q is done. */
  function Awaken(s: Sys, q: Proc, p: Proc, r: Rend): Sys
    requires s.Shape() && q < |s.pc| && p < |s.pc| && r < |s.lock|
  {
    s.(pc := s.pc[p := Woken][q := Idle], st := s.st[p := Ready], readies := s.readies[p := s.readies[p] + 1],
       rp := s.rp[r := None], pr := s.pr[p := None], rlock := s.rlock[p := None], lock := s.lock[r := None])
  }

  function ApplyStep(s: Sys, q: Proc): Sys
    requires s.Shape() && CanStep(s, q)
  {
    match s.pc[q]
    case SleepLock(r) =>
      Goto(s, q, SleepTest(r)).(rlock := s.rlock[q := Some(q)], rp := s.rp[r := Some(q)])
    case SleepTest(r) =>
      if s.cond[r] then NeverMind(s, q, r) else Goto(s, q, SleepTested(r))
    case SleepTested(r) =>
      if s.note[q] then NeverMind(s, q, r) else Goto(s, q, SleepSure(r))
    case SleepSure(r) => Commit(s, q, r)
    case Woken => Goto(s, q, Returning).(st := s.st[q := Running])
    case Returning => Goto(s, q, Idle).(note := s.note[q := false])
    case WakeWant(r) =>
      if s.rp[r].None? then Goto(s, q, Idle)
      else Goto(s, q, WakeLocked(r, s.rp[r].value)).(lock := s.lock[r := Some(q)])
    case WakeLocked(r, p) => Awaken(s, q, p, r)
    case PostWant(p) =>
      if s.pr[p].None? then Goto(s, q, Idle)
      else Goto(s, q, PostLocked(p, s.pr[p].value)).(rlock := s.rlock[p := Some(q)])
    case PostLocked(p, r) =>
      if s.lock[r].None? then Awaken(s, q, p, r)
      else Goto(s, q, PostWant(p)).(rlock := s.rlock[p := None])
  }

  function Apply(s: Sys, e: Event): Sys
    requires Enabled(s, e)
  {
    match e
    case SetCond(q, r) => Goto(s, q, WakeWant(r)).(cond := s.cond[r := true])
    case ClearCond(q, r) => s.(cond := s.cond[r := false])
    case CallWakeup(q, r) => Goto(s, q, WakeWant(r))
    case PostNote(q, p) => Goto(s, q, PostWant(p)).(note := s.note[p := true])
    case Sleep(q, r) => Goto(s, q, SleepLock(r)).(lock := s.lock[r := Some(q)])
    case Step(q) => ApplyStep(s, q)
  }

  /** The checks in the code: "double sleep", and the two panics on state, r->p and p->r. */
  predicate NoPanic(s: Sys, q: Proc)
    requires s.Shape() && CanStep(s, q)
  {
    match s.pc[q]
    case SleepLock(r) => s.rp[r].None?
    case WakeLocked(r, p) => s.st[p].Wakeme? && s.pr[p] == Some(r)
    case PostLocked(p, r) => s.lock[r].None? ==> s.st[p].Wakeme? && s.rp[r] == Some(p)
    case _ => true
  }

  /** All processes running outside the protocol, nothing locked. */
  function Start(procs: nat, rends: nat): Sys {
    Sys(seq(procs, _ => Idle), seq(procs, _ => Running), seq(procs, _ => false), seq(procs, _ => None),
        seq(procs, _ => None), seq(procs, _ => 0), seq(procs, _ => 0),
        seq(rends, _ => None), seq(rends, _ => None), seq(rends, _ => false))
  }

  ghost predicate IsRun(ss: seq<Sys>, es: seq<Event>) {
    && |ss| == |es| + 1
    && (exists procs: nat, rends: nat :: ss[0] == Start(procs, rends))
    && forall i :: 0 <= i < |es| ==> Enabled(ss[i], es[i]) && ss[i + 1] == Apply(ss[i], es[i])
  }
}
