/** The run queue routines of doc/Process/proc.c as they run, on linked lists with a bitmap and counters. */
module RunQueueCode {
  import opened Options
  import opened WaitList
  import opened CpuShare
  import opened RunQueue

  const WORD: nat := 0x1_0000_0000

  /** The fields of a Proc that scheduling looks at, other than its link. `saved` is mach == nil. */
  datatype Proc = Proc(priority: int, basepri: nat, usage: Usage, mp: nat, saved: bool)

  /** The process has a base priority and a proper processor share. */
  predicate ProcOk(p: Proc, ticks: nat) {
    p.basepri < NPRIQ && 0 <= p.usage.cpu <= FULL && Current(p.usage, ticks)
  }

  /** x is on queue i. */
  predicate On(q: Queues, i: nat, x: Node) {
    i < |q| && x in q[i]
  }

  ghost predicate ProcsOk(procs: map<Node, Proc>, ticks: nat, q: Queues) {
    forall i, x {:trigger On(q, i, x)} :: On(q, i, x) ==> x in procs && ProcOk(procs[x], ticks) && procs[x].priority == i
  }

  class Sched {
    var head: seq<Option<Node>>
    var tail: seq<Option<Node>>
    var n: seq<int>
    var rnext: Links
    var nrdy: int
    /** The bits that are set in runvec. */
    var runvec: set<nat>
    var procs: map<Node, Proc>
    /** An unsigned word, so the time since then is taken modulo its range. */
    var balancetime: nat
    /** MACHP(0)->ticks, MACHP(0)->load and conf.nmach. */
    var ticks: nat
    var load: nat
    const nmach: nat
    /** Ticks in a second, and the half ticks over which processor use is averaged. */
    const hz: nat
    const D: int
    ghost var q: Queues

    ghost predicate Valid()
      reads this
    {
      && |q| == NRQ && Once(q) && D > 0
      && Linked(rnext, head, tail, q)
      && Counted(n, nrdy, runvec, q)
      && ProcsOk(procs, ticks, q)
    }

    constructor (nmach: nat, schedgain: nat, hz: nat)
      requires schedgain > 0 && hz > 0
      ensures Valid() && All(q) == multiset{} && D == schedgain * hz * SCALING && this.nmach == nmach && this.hz == hz
      ensures q == seq(NRQ, _ => []) && balancetime == 0 && ticks == 0 && load == 0
    {
      this.nmach, this.hz := nmach, hz;
      D := schedgain * hz * SCALING;
      head, tail, n := seq(NRQ, _ => None), seq(NRQ, _ => None), seq(NRQ, _ => 0);
      rnext, nrdy, runvec, procs, balancetime, ticks, load := map[], 0, {}, map[], 0, 0, 0;
      q := seq(NRQ, _ => []);
      new;
      AllEmpty(q);
      LinkedFrom(rnext, head, tail, q, |q|);
      Product(schedgain, 1, hz);
    }

    /** The link part of queueproc. */
    method LinkProc(pri: nat, p: Node)
      requires Linked(rnext, head, tail, q) && Once(q) && pri < |q| && All(q)[p] == 0
      modifies this`head, this`tail, this`rnext
      ensures Linked(rnext, head, tail, q[pri := q[pri] + [p]])
    {
      NotThere(q, p);
      LinkedAt(rnext, head, tail, q, |q|, pri);
      Append(rnext, head[pri], tail[pri], q[pri], p);
      var t := tail[pri];
      if t.Some? {
        rnext := rnext[t.value := Some(p)];
      } else {
        head := head[pri := Some(p)];
      }
      rnext := rnext[p := None];
      tail := tail[pri := Some(p)];
      ListGrows(old(rnext), rnext, old(head), old(tail), q, pri, p, head[pri]);
      assert head == old(head)[pri := head[pri]];
    }

    method CountUp(pri: nat, ghost p: Node)
      requires Counted(n, nrdy, runvec, q) && pri < |q|
      modifies this`n, this`nrdy, this`runvec
      ensures Counted(n, nrdy, runvec, q[pri := q[pri] + [p]])
    {
      AllAppend(q, pri, p);
      CountedGrows(n, nrdy, runvec, q, pri, p);
      n := n[pri := n[pri] + 1];
      nrdy := nrdy + 1;
      runvec := runvec + {pri};
    }

    method QueueProc(pri: nat, p: Node)
      requires Valid() && pri < NRQ && All(q)[p] == 0 && p in procs && ProcOk(procs[p], ticks)
      modifies this`head, this`tail, this`n, this`rnext, this`nrdy, this`runvec, this`procs, this`q
      ensures Valid() && q == old(q)[pri := old(q)[pri] + [p]]
      ensures procs == old(procs)[p := old(procs)[p].(priority := pri)]
    {
      ghost var q' := q[pri := q[pri] + [p]];
      ProcsGrow(procs, ticks, q, pri, p);
      OnceGrows(q, pri, p);
      LinkProc(pri, p);
      CountUp(pri, p);
      procs, q := procs[p := procs[p].(priority := pri)], q';
      assert Counted(n, nrdy, runvec, q);
      assert ProcsOk(procs, ticks, q);
    }

    /** Fails if the lock is taken, the process is gone from the queue, or its state is not saved. */
    method DequeueProc(pri: nat, tp: Node, locked: bool) returns (r: Option<Node>)
      requires Valid() && pri < NRQ
      modifies this`head, this`tail, this`n, this`rnext, this`nrdy, this`runvec, this`q
      ensures Valid() && (On(old(q), pri, tp) ==> tp in old(procs))
      ensures r == if !locked && On(old(q), pri, tp) && old(procs)[tp].saved then Some(tp) else None
      ensures r.None? ==> q == old(q)
      ensures r.Some? ==> exists k :: 0 <= k < |old(q)[pri]| && old(q)[pri][k] == tp && q == old(q)[pri := RemoveAt(old(q)[pri], k)]
    {
      if locked {
        return None;
      }
      ghost var k;
      var l, p;
      l, p, k := Find(pri, tp);
      if p.None? {
        return None;
      }
      assert On(q, pri, tp);
      if !procs[tp].saved {
        return None;
      }
      Cut(pri, l, tp, k);
      return p;
    }

    /** The search of dequeueproc, which stops with the process before tp in l. */
    method Find(pri: nat, tp: Node) returns (l: Option<Node>, p: Option<Node>, ghost k: nat)
      requires Valid() && pri < NRQ
      ensures k <= |q[pri]| && tp !in q[pri][..k]
      ensures l == if k == 0 then None else Some(q[pri][k - 1])
      ensures p == if k == |q[pri]| then None else Some(tp)
      ensures k < |q[pri]| ==> q[pri][k] == tp
      ensures tp in q[pri] <==> k < |q[pri]|
    {
      l, p, k := None, head[pri], 0;
      ghost var s := q[pri];
      LinkedAt(rnext, head, tail, q, |q|, pri);
      while p.Some? && p != Some(tp)
        invariant k <= |s| && tp !in s[..k]
        invariant l == if k == 0 then None else Some(s[k - 1])
        invariant p == if k < |s| then Some(s[k]) else None
        decreases |s| - k
      {
        LinkIs(rnext, head[pri], s, k);
        l := p;
        p := rnext[p.value];
        k := k + 1;
      }
    }

    /** The link part of dequeueproc. */
    method UnlinkProc(pri: nat, l: Option<Node>, p: Node, ghost k: nat)
      requires Linked(rnext, head, tail, q) && Once(q) && pri < |q| && k < |q[pri]| && q[pri][k] == p
      requires l == if k == 0 then None else Some(q[pri][k - 1])
      modifies this`head, this`tail, this`rnext
      ensures Linked(rnext, head, tail, q[pri := RemoveAt(q[pri], k)])
    {
      LinkedAt(rnext, head, tail, q, |q|, pri);
      Unlink(rnext, head[pri], tail[pri], q[pri], k);
      if rnext[p].None? {
        tail := tail[pri := l];
      }
      if l.Some? {
        rnext := rnext[l.value := rnext[p]];
      } else {
        head := head[pri := rnext[p]];
      }
      ListShrinks(old(rnext), rnext, old(head), old(tail), q, pri, k, head[pri], tail[pri]);
      assert head == old(head)[pri := head[pri]] && tail == old(tail)[pri := tail[pri]];
    }

    method CountDown(pri: nat, ghost k: nat)
      requires Counted(n, nrdy, runvec, q) && pri < |q| && k < |q[pri]|
      requires Linked(rnext, head, tail, q[pri := RemoveAt(q[pri], k)])
      modifies this`n, this`nrdy, this`runvec
      ensures Counted(n, nrdy, runvec, q[pri := RemoveAt(q[pri], k)])
    {
      AllRemove(q, pri, k);
      CountedShrinks(n, nrdy, runvec, q, pri, k);
      HeadTells(rnext, head, tail, q[pri := RemoveAt(q[pri], k)], pri);
      if head[pri].None? {
        runvec := runvec - {pri};
      }
      n := n[pri := n[pri] - 1];
      nrdy := nrdy - 1;
    }

    method Cut(pri: nat, l: Option<Node>, p: Node, ghost k: nat)
      requires Valid() && pri < NRQ && k < |q[pri]| && q[pri][k] == p
      requires l == if k == 0 then None else Some(q[pri][k - 1])
      modifies this`head, this`tail, this`n, this`rnext, this`nrdy, this`runvec, this`q
      ensures Valid() && q == old(q)[pri := RemoveAt(old(q)[pri], k)]
    {
      ghost var s := RemoveAt(q[pri], k);
      UnlinkProc(pri, l, p, k);
      CountDown(pri, k);
      OnceShrinks(q, pri, k);
      ProcsShrink(procs, ticks, q, pri, k);
      q := q[pri := s];
    }

    /** updatecpu. */
    method UpdateCpu(p: Node, running: bool)
      requires Valid() && p in procs && 0 <= procs[p].usage.cpu <= FULL && Current(procs[p].usage, ticks)
      modifies this`procs
      ensures Valid() && procs == old(procs)[p := old(procs)[p].(usage := Update(old(procs)[p].usage, ticks, running, D))]
    {
      UpdateIs(procs[p].usage, ticks, running, D);
      ProcsUpdate(procs, ticks, q, p, Update(procs[p].usage, ticks, running, D));
      var u := NewUsage(procs[p].usage, running);
      procs := procs[p := procs[p].(usage := u)];
    }

    method NewUsage(usage: Usage, running: bool) returns (u: Usage)
      requires D > 0
      ensures u == Update(usage, ticks, running, D)
    {
      u := usage;
      var t := ticks * SCALING + SCALING / 2;
      var k := t - u.lastupdate;
      u := u.(lastupdate := t);
      if k == 0 {
        return;
      }
      if k > D {
        k := D;
      }
      if !running {
        u := u.(cpu := (u.cpu * (D - k)) / D);
      } else {
        u := u.(cpu := FULL - ((FULL - u.cpu) * (D - k)) / D);
      }
    }

    /** ready: the process gets a new priority and goes to the end of that queue. */
    method Ready(p: Node, running: bool)
      requires Valid() && All(q)[p] == 0 && p in procs && ProcOk(procs[p], ticks)
      modifies this
      ensures Valid() && load == old(load) && ticks == old(ticks)
      ensures
        var proc := Readied(old(procs)[p], ticks, running, D, nmach, load);
        && 0 <= proc.priority <= proc.basepri && q == old(q)[proc.priority := old(q)[proc.priority] + [p]]
        && procs == old(procs)[p := proc]
      ensures All(q) == old(All(q)) + multiset{p}
    {
      ReadiedOk(procs[p], ticks, running, D, nmach, load);
      UpdateCpu(p, running);
      var pri := Reprioritize(procs[p].usage.cpu, procs[p].basepri, nmach, load);
      SetTwice(old(procs), p, procs[p], procs[p].(priority := pri));
      QueueProc(pri, p);
      AllAppend(old(q), pri, p);
    }

    function Here(m: nat): Clock
      reads this
    {
      Clock(m, ticks, D, nmach, load)
    }

    /** Every process on a queue has its state saved. */
    ghost predicate AllSaved()
      reads this
    {
      Saved(procs, q)
    }

    /**
     * rebalance on machine m, whose clock is t. Every process stays on exactly one queue. It ends, and
     * then no queue has a process of this machine at its head that belongs elsewhere; or it comes to a
     * queue whose head belongs elsewhere and has its state not saved, where it tries for ever. That is
     * the first queue that jams, and the queues before the call tell which one that is.
     */
    method Rebalance(m: nat, t: int) returns (stuck: Option<nat>)
      requires Valid()
      modifies this
      ensures Valid() && All(q) == old(All(q)) && load == old(load) && ticks == old(ticks) && nrdy == old(nrdy)
      ensures (t - old(balancetime)) % WORD < hz ==> q == old(q) && stuck.None?
      ensures (t - old(balancetime)) % WORD >= hz ==>
                balancetime == t % WORD && (stuck.None? ==> HeadsOk(q, NPRIQ, procs, m, ticks, nmach, load))
      ensures stuck.Some? <==> (t - old(balancetime)) % WORD >= hz && !NoJams(old(q), old(procs), old(Here(m)), NPRIQ)
      ensures stuck.Some? ==> stuck.value < NPRIQ && Blocked(q[stuck.value], procs, m, stuck.value, ticks, nmach, load)
      ensures stuck.Some? ==> FirstJam(old(q), old(procs), old(Here(m)), stuck.value)
      ensures old(AllSaved()) ==> stuck.None?
    {
      if (t - balancetime) % WORD < hz {
        return None;
      }
      balancetime := t % WORD;
      stuck := Rounds(m);
      if stuck.Some? {
        SavedNeverJams(old(q), old(procs), old(Here(m)), stuck.value);
      }
    }

    /** The loop of rebalance. */
    method Rounds(m: nat) returns (stuck: Option<nat>)
      requires Valid()
      modifies this
      ensures Valid() && All(q) == old(All(q)) && Here(m) == old(Here(m)) && balancetime == old(balancetime)
      ensures stuck.None? ==> HeadsOk(q, NPRIQ, procs, m, ticks, nmach, load) && NoJams(old(q), old(procs), Here(m), NPRIQ)
      ensures stuck.Some? ==> stuck.value < NPRIQ && Blocked(q[stuck.value], procs, m, stuck.value, ticks, nmach, load)
      ensures stuck.Some? ==> FirstJam(old(q), old(procs), Here(m), stuck.value)
    {
      var pri := 0;
      while pri < NPRIQ
        invariant 0 <= pri <= NPRIQ && Valid() && All(q) == old(All(q)) && Here(m) == old(Here(m)) && balancetime == old(balancetime)
        invariant HeadsOk(q, pri, procs, m, ticks, nmach, load)
        invariant SameJams(old(q), old(procs), q, procs, Here(m)) && NoJams(old(q), old(procs), Here(m), pri)
        decreases NPRIQ - pri, if pri < NPRIQ then |q[pri]| else 0
      {
        ghost var q0, procs0 := q, procs;
        var moved, blocked := Step(m, pri);
        JamsTwice(old(q), old(procs), q0, procs0, q, procs, Here(m));
        JamsHere(old(q), old(procs), q0, procs0, Here(m), pri);
        if blocked {
          return Some(pri);
        }
        if !moved {
          pri := pri + 1;
        }
      }
      return None;
    }

    /** One look at the head of a queue: it stays, or it moves to the queue it belongs to, or it cannot be moved. */
    method Step(m: nat, pri: nat) returns (moved: bool, blocked: bool)
      requires Valid() && pri < NPRIQ && HeadsOk(q, pri, procs, m, ticks, nmach, load)
      modifies this
      ensures Valid() && All(q) == old(All(q)) && balancetime == old(balancetime) && Here(m) == old(Here(m))
      ensures HeadsOk(q, if moved || blocked then pri else pri + 1, procs, m, ticks, nmach, load)
      ensures moved ==> |q[pri]| < |old(q)[pri]|
      ensures blocked ==> Blocked(q[pri], procs, m, pri, ticks, nmach, load)
      ensures SameJams(old(q), old(procs), q, procs, Here(m))
      ensures !moved ==> (blocked <==> Jams(old(q)[pri], old(procs), Here(m), pri))
    {
      var to, p := Look(m, pri);
      AlikeJams(q, old(procs), procs, Here(m));
      if to.None? {
        return false, false;
      }
      ghost var procs0 := procs;
      moved := Shift(m, pri, to.value, p);
      JamsTwice(old(q), old(procs), old(q), procs0, q, procs, Here(m));
      blocked := !moved;
    }

    /** The head of a queue, which belongs elsewhere, goes there if its state is saved. */
    method Shift(m: nat, pri: nat, npri: nat, p: Node) returns (moved: bool)
      requires Valid() && pri < NPRIQ && npri < NPRIQ && pri != npri && q[pri] != [] && q[pri][0] == p && p in procs
      requires Belongs(procs[p], npri, ticks, nmach, load) && Mobile(procs[p], Here(m), pri)
      requires HeadsOk(q, pri, procs, m, ticks, nmach, load)
      modifies this`head, this`tail, this`n, this`rnext, this`nrdy, this`runvec, this`procs, this`q
      ensures Valid() && All(q) == old(All(q)) && moved == old(procs)[p].saved
      ensures if moved then |q[pri]| < |old(q)[pri]| else q == old(q) && procs == old(procs)
      ensures HeadsOk(q, pri, procs, m, ticks, nmach, load)
      ensures SameJams(old(q), old(procs), q, procs, Here(m))
    {
      moved := Move(pri, npri, p);
      if moved {
        HeadsMove(old(q), old(procs), q, procs, m, pri, npri, p, ticks, nmach, load);
        MoveJams(old(q), old(procs), procs, Here(m), pri, npri, p);
      }
    }

    /** Brings the head of a queue up to date, if it is one to look at, and says where else it belongs. */
    method Look(m: nat, pri: nat) returns (to: Option<nat>, p: Node)
      requires Valid() && pri < NPRIQ && HeadsOk(q, pri, procs, m, ticks, nmach, load)
      modifies this`procs
      ensures Valid()
      ensures HeadsOk(q, if to.None? then pri + 1 else pri, procs, m, ticks, nmach, load)
      ensures to.Some? ==> to.value < NPRIQ && to.value != pri && q[pri] != [] && q[pri][0] == p && p in procs
      ensures to.Some? ==> Belongs(procs[p], to.value, ticks, nmach, load) && procs[p].mp == m && procs[p].basepri != pri
      ensures Alike(old(procs), procs, Here(m))
      ensures to.Some? <==> q[pri] != [] && q[pri][0] in procs && Mobile(procs[q[pri][0]], Here(m), pri)
    {
      HeadTells(rnext, head, tail, q, pri);
      var h := head[pri];
      if h.None? {
        return None, 0;
      }
      p := h.value;
      ProcAt(procs, ticks, q, pri, p);
      if procs[p].mp != m || procs[p].basepri == pri {
        return None, p;
      }
      ReadiedOk(procs[p], ticks, false, D, nmach, load);
      UpdateCpu(p, false);
      UpdateAlike(old(procs), Here(m), p);
      HeadsStay(q, old(procs), procs, m, pri, p, ticks, nmach, load);
      var npri := Reprioritize(procs[p].usage.cpu, procs[p].basepri, nmach, load);
      to := if npri == pri then None else Some(npri);
    }

    /** A process goes from the head of one queue to the tail of another, if its state is saved. */
    method Move(pri: nat, npri: nat, p: Node) returns (moved: bool)
      requires Valid() && pri < NRQ && npri < NRQ && pri != npri && q[pri] != [] && q[pri][0] == p
      modifies this`head, this`tail, this`n, this`rnext, this`nrdy, this`runvec, this`procs, this`q
      ensures Valid() && All(q) == old(All(q)) && p in old(procs)
      ensures moved == old(procs)[p].saved
      ensures q == if moved then old(q)[pri := old(q)[pri][1..]][npri := old(q)[npri] + [p]] else old(q)
      ensures procs == if moved then old(procs)[p := old(procs)[p].(priority := npri)] else old(procs)
    {
      ghost var q0 := q;
      ProcAt(procs, ticks, q, pri, p);
      assert On(q, pri, p);
      var r := DequeueProc(pri, p, false);
      if r.None? {
        return false;
      }
      ghost var k :| 0 <= k < |q0[pri]| && q0[pri][k] == p && q == q0[pri := RemoveAt(q0[pri], k)];
      TakenOff(q0, pri, k, p);
      QueueProc(npri, p);
      MovedAll(q0, pri, npri, p);
      return true;
    }
  }

  ghost predicate Saved(procs: map<Node, Proc>, q: Queues) {
    forall i, x {:trigger On(q, i, x)} :: On(q, i, x) ==> x in procs && procs[x].saved
  }

  /** The process with its share brought up to date and the priority that follows. */
  function Readied(p: Proc, ticks: nat, running: bool, D: int, nmach: nat, load: nat): Proc
    requires D > 0
  {
    var u := Update(p.usage, ticks, running, D);
    p.(usage := u, priority := if 0 <= u.cpu then Reprioritize(u.cpu, p.basepri, nmach, load) else 0)
  }

  lemma ReadiedOk(p: Proc, ticks: nat, running: bool, D: int, nmach: nat, load: nat)
    requires D > 0 && ProcOk(p, ticks)
    ensures
      var p' := Readied(p, ticks, running, D, nmach, load);
      && ProcOk(p', ticks) && p'.usage.lastupdate == ticks * SCALING + SCALING / 2
      && p'.priority == Reprioritize(p'.usage.cpu, p'.basepri, nmach, load) && 0 <= p'.priority <= p.basepri
  {
    UpdateIs(p.usage, ticks, running, D);
    PriorityInRange(Update(p.usage, ticks, running, D).cpu, p.basepri, nmach, load);
  }

  /** The process at the head of queue i need not be moved by rebalance on machine m. */
  ghost predicate HeadOk(s: seq<Node>, procs: map<Node, Proc>, m: nat, i: nat, ticks: nat, nmach: nat, load: nat) {
    s != [] && s[0] in procs && procs[s[0]].mp == m && procs[s[0]].basepri != i ==> Belongs(procs[s[0]], i, ticks, nmach, load)
  }

  /** The share of the process is up to date, and i is the priority that follows. */
  ghost predicate Belongs(p: Proc, i: nat, ticks: nat, nmach: nat, load: nat) {
    && p.usage.lastupdate == ticks * SCALING + SCALING / 2 && 0 <= p.usage.cpu
    && Reprioritize(p.usage.cpu, p.basepri, nmach, load) == i
  }

  /** It belongs elsewhere, as far as anybody knows in this tick, and it cannot be taken off the queue. */
  ghost predicate Blocked(s: seq<Node>, procs: map<Node, Proc>, m: nat, i: nat, ticks: nat, nmach: nat, load: nat) {
    && s != [] && s[0] in procs && !procs[s[0]].saved && procs[s[0]].mp == m && procs[s[0]].basepri != i
    && procs[s[0]].usage.lastupdate == ticks * SCALING + SCALING / 2 && 0 <= procs[s[0]].usage.cpu
    && Reprioritize(procs[s[0]].usage.cpu, procs[s[0]].basepri, nmach, load) != i
  }

  /** A machine, and what the priorities depend on. */
  datatype Clock = Clock(m: nat, ticks: nat, D: int, nmach: nat, load: nat)

  /** rebalance on the machine moves p away from the head of queue i. */
  predicate Mobile(p: Proc, c: Clock, i: nat) {
    c.D > 0 && p.mp == c.m && p.basepri != i && Readied(p, c.ticks, false, c.D, c.nmach, c.load).priority != i
  }

  /** Having moved those before it, rebalance comes to a process at the head of queue i that it cannot move. */
  predicate Jams(s: seq<Node>, procs: map<Node, Proc>, c: Clock, i: nat) {
    s != [] && s[0] in procs && Mobile(procs[s[0]], c, i) && (!procs[s[0]].saved || Jams(s[1..], procs, c, i))
  }

  /** The processes are the same to rebalance. */
  ghost predicate Alike(procs: map<Node, Proc>, procs': map<Node, Proc>, c: Clock) {
    && procs'.Keys == procs.Keys && c.D > 0
    && forall x {:trigger procs'[x]} :: x in procs ==>
         && procs'[x].mp == procs[x].mp && procs'[x].basepri == procs[x].basepri && procs'[x].saved == procs[x].saved
         && Update(procs'[x].usage, c.ticks, false, c.D) == Update(procs[x].usage, c.ticks, false, c.D)
  }

  ghost predicate SameJams(q: Queues, procs: map<Node, Proc>, q': Queues, procs': map<Node, Proc>, c: Clock) {
    |q'| == |q| && forall i {:trigger Jams(q[i], procs, c, i)} {:trigger Jams(q'[i], procs', c, i)} :: 0 <= i < |q| ==>
      Jams(q'[i], procs', c, i) == Jams(q[i], procs, c, i)
  }

  /** None of the first k queues jams. */
  ghost predicate NoJams(q: Queues, procs: map<Node, Proc>, c: Clock, k: nat) {
    k <= |q| && forall i :: 0 <= i < k ==> !Jams(q[i], procs, c, i)
  }

  ghost predicate FirstJam(q: Queues, procs: map<Node, Proc>, c: Clock, k: nat) {
    NoJams(q, procs, c, k) && k < |q| && Jams(q[k], procs, c, k)
  }

  lemma JamsHere(q: Queues, procs: map<Node, Proc>, q': Queues, procs': map<Node, Proc>, c: Clock, i: nat)
    requires SameJams(q, procs, q', procs', c) && i < |q|
    ensures Jams(q'[i], procs', c, i) == Jams(q[i], procs, c, i)
  {
  }

  /** Nor does a queue on which all states are saved. */
  lemma SavedNeverJams(q: Queues, procs: map<Node, Proc>, c: Clock, i: nat)
    requires i < |q|
    ensures Saved(procs, q) ==> !Jams(q[i], procs, c, i)
  {
    if Saved(procs, q) {
      assert forall x :: x in q[i] ==> On(q, i, x);
      SavedNoJam(q[i], procs, c, i);
    }
  }

  lemma {:induction false} SavedNoJam(s: seq<Node>, procs: map<Node, Proc>, c: Clock, i: nat)
    requires forall x :: x in s ==> x in procs && procs[x].saved
    ensures !Jams(s, procs, c, i)
  {
    if s != [] {
      SavedNoJam(s[1..], procs, c, i);
    }
  }

  lemma UpdateAlike(procs: map<Node, Proc>, c: Clock, p: Node)
    requires p in procs && c.D > 0
    ensures Alike(procs, procs[p := procs[p].(usage := Update(procs[p].usage, c.ticks, false, c.D))], c)
  {
    UpdateTwice(procs[p].usage, c.ticks, false, false, c.D);
  }

  lemma {:induction false} JamsAlike(s: seq<Node>, procs: map<Node, Proc>, procs': map<Node, Proc>, c: Clock, i: nat)
    requires Alike(procs, procs', c)
    ensures Jams(s, procs', c, i) == Jams(s, procs, c, i)
  {
    if s != [] {
      JamsAlike(s[1..], procs, procs', c, i);
      assert s[0] in procs ==> Mobile(procs'[s[0]], c, i) == Mobile(procs[s[0]], c, i);
    }
  }

  lemma AlikeJams(q: Queues, procs: map<Node, Proc>, procs': map<Node, Proc>, c: Clock)
    requires Alike(procs, procs', c)
    ensures SameJams(q, procs, q, procs', c)
  {
    forall i | 0 <= i < |q|
      ensures Jams(q[i], procs', c, i) == Jams(q[i], procs, c, i)
    {
      JamsAlike(q[i], procs, procs', c, i);
    }
  }

  /** A process that need not be moved jams no queue. */
  lemma {:induction false} JamsAppend(s: seq<Node>, procs: map<Node, Proc>, c: Clock, i: nat, p: Node)
    requires p in procs && !Mobile(procs[p], c, i)
    ensures Jams(s + [p], procs, c, i) == Jams(s, procs, c, i)
  {
    if s != [] {
      assert (s + [p])[1..] == s[1..] + [p];
      JamsAppend(s[1..], procs, c, i, p);
    }
  }

  lemma MoveJams(q: Queues, procs: map<Node, Proc>, procs': map<Node, Proc>, c: Clock, pri: nat, npri: nat, p: Node)
    requires pri < |q| && npri < |q| && pri != npri && q[pri] != [] && q[pri][0] == p && p in procs && c.D > 0
    requires procs[p].saved && Mobile(procs[p], c, pri) && Belongs(procs[p], npri, c.ticks, c.nmach, c.load)
    requires procs' == procs[p := procs[p].(priority := npri)]
    ensures SameJams(q, procs, q[pri := q[pri][1..]][npri := q[npri] + [p]], procs', c)
  {
    assert !Mobile(procs[p], c, npri);
    JamsAppend(q[npri], procs, c, npri, p);
    var q' := q[pri := q[pri][1..]][npri := q[npri] + [p]];
    forall i | 0 <= i < |q|
      ensures Jams(q'[i], procs', c, i) == Jams(q[i], procs, c, i)
    {
      JamsAlike(q'[i], procs, procs', c, i);
    }
  }

  lemma JamsTwice(q: Queues, procs: map<Node, Proc>, q': Queues, procs': map<Node, Proc>, q'': Queues, procs'': map<Node, Proc>, c: Clock)
    requires SameJams(q, procs, q', procs', c) && SameJams(q', procs', q'', procs'', c)
    ensures SameJams(q, procs, q'', procs'', c)
  {
  }

  /** One process on the wrong queue whose state is not saved jams it. */
  lemma OneJams(c: Clock)
    requires c == Clock(0, 0, 6000, 1, 0)
    ensures Jams([7], map[7 := Proc(0, 10, Usage(0, 0), 0, false)], c, 0)
  {
    var p := Proc(0, 10, Usage(0, 0), 0, false);
    assert Update(p.usage, 0, false, 6000).cpu == 0;
  }

  /** And then rebalance spins. */
  method SpinsForever() returns (s: Sched, stuck: Option<nat>)
    ensures fresh(s) && s.Valid() && stuck == Some(0)
  {
    s := Jammed();
    OneJams(s.Here(0));
    assert !NoJams(s.q, s.procs, s.Here(0), 1);
    stuck := s.Rebalance(0, 100);
  }

  method Jammed() returns (s: Sched)
    ensures fresh(s) && s.Valid() && s.hz == 100 && s.balancetime == 0 && s.Here(0) == Clock(0, 0, 6000, 1, 0)
    ensures s.q[0] == [7] && s.procs == map[7 := Proc(0, 10, Usage(0, 0), 0, false)]
  {
    s := new Sched(1, 30, 100);
    s.procs := map[7 := Proc(0, 10, Usage(0, 0), 0, false)];
    AllEmpty(s.q);
    s.QueueProc(0, 7);
  }

  /** So it is with the first k queues. */
  ghost predicate HeadsOk(q: Queues, k: nat, procs: map<Node, Proc>, m: nat, ticks: nat, nmach: nat, load: nat) {
    k <= |q| && forall i :: 0 <= i < k ==> HeadOk(q[i], procs, m, i, ticks, nmach, load)
  }

  /** Bringing the head of queue pri up to date does not concern the heads of the others. */
  lemma HeadsStay(q: Queues, procs: map<Node, Proc>, procs': map<Node, Proc>, m: nat, pri: nat, p: Node, ticks: nat, nmach: nat, load: nat)
    requires Once(q) && pri < |q| && p in q[pri] && (forall x :: x != p && x in procs' ==> x in procs && procs'[x] == procs[x])
    requires HeadsOk(q, pri, procs, m, ticks, nmach, load)
    ensures HeadsOk(q, pri, procs', m, ticks, nmach, load)
  {
    forall i | 0 <= i < pri
      ensures HeadOk(q[i], procs', m, i, ticks, nmach, load)
    {
      OnOneQueue(q, pri, i, p);
      if q[i] != [] {
        assert q[i][0] in q[i];
      }
    }
  }

  /** Nor does moving it to the queue where it belongs. */
  lemma HeadsMove(q: Queues, procs: map<Node, Proc>, q': Queues, procs': map<Node, Proc>, m: nat, pri: nat, npri: nat, p: Node,
                  ticks: nat, nmach: nat, load: nat)
    requires Once(q) && pri < |q| && npri < |q| && npri != pri && q[pri] != [] && q[pri][0] == p
    requires q' == q[pri := q[pri][1..]][npri := q[npri] + [p]]
    requires p in procs' && (forall x :: x != p && x in procs' ==> x in procs && procs'[x] == procs[x])
    requires Belongs(procs'[p], npri, ticks, nmach, load)
    requires HeadsOk(q, pri, procs, m, ticks, nmach, load)
    ensures HeadsOk(q', pri, procs', m, ticks, nmach, load)
  {
    HeadsStay(q, procs, procs', m, pri, p, ticks, nmach, load);
    forall i | 0 <= i < pri
      ensures HeadOk(q'[i], procs', m, i, ticks, nmach, load)
    {
      assert HeadOk(q[i], procs', m, i, ticks, nmach, load);
    }
  }

  lemma HeadTells(rnext: Links, head: seq<Option<Node>>, tail: seq<Option<Node>>, q: Queues, pri: nat)
    requires Linked(rnext, head, tail, q) && pri < |q|
    ensures head[pri] == First(q[pri])
  {
    LinkedAt(rnext, head, tail, q, |q|, pri);
  }

  lemma ProcAt(procs: map<Node, Proc>, ticks: nat, q: Queues, pri: nat, p: Node)
    requires ProcsOk(procs, ticks, q) && pri < |q| && First(q[pri]) == Some(p)
    ensures p in q[pri] && p in procs && ProcOk(procs[p], ticks)
  {
    assert On(q, pri, p);
  }

  lemma TakenOff(q: Queues, pri: nat, k: nat, p: Node)
    requires Once(q) && pri < |q| && k < |q[pri]| && q[pri][k] == p && q[pri][0] == p
    ensures k == 0 && RemoveAt(q[pri], k) == q[pri][1..]
    ensures var q' := q[pri := RemoveAt(q[pri], k)]; All(q')[p] == 0 && All(q') + multiset{p} == All(q)
  {
    AllRemove(q, pri, k);
    var q' := q[pri := RemoveAt(q[pri], k)];
    assert (All(q') + multiset{p})[p] == All(q)[p] <= 1;
    AllHas(q', pri, p);
  }

  lemma MovedAll(q: Queues, pri: nat, npri: nat, p: Node)
    requires Once(q) && pri < |q| && npri < |q| && pri != npri && q[pri] != [] && q[pri][0] == p
    ensures All(q[pri := q[pri][1..]][npri := q[npri] + [p]]) == All(q)
  {
    TakenOff(q, pri, 0, p);
    AllAppend(q[pri := q[pri][1..]], npri, p);
  }

  lemma OnceGrows(q: Queues, pri: nat, p: Node)
    requires Once(q) && pri < |q| && All(q)[p] == 0
    ensures Once(q[pri := q[pri] + [p]])
  {
    AllAppend(q, pri, p);
  }

  lemma ProcsGrow(procs: map<Node, Proc>, ticks: nat, q: Queues, pri: nat, p: Node)
    requires ProcsOk(procs, ticks, q) && pri < |q| && p in procs && ProcOk(procs[p], ticks) && All(q)[p] == 0
    ensures ProcsOk(procs[p := procs[p].(priority := pri)], ticks, q[pri := q[pri] + [p]])
  {
    NotThere(q, p);
    var q' := q[pri := q[pri] + [p]];
    forall i, x | On(q', i, x)
      ensures (On(q, i, x) && x != p) || (i == pri && x == p)
    {
    }
  }

  lemma ProcsUpdate(procs: map<Node, Proc>, ticks: nat, q: Queues, p: Node, u: Usage)
    requires ProcsOk(procs, ticks, q) && p in procs && 0 <= u.cpu <= FULL && Current(u, ticks)
    ensures ProcsOk(procs[p := procs[p].(usage := u)], ticks, q)
  {
  }

  lemma SetTwice(procs: map<Node, Proc>, p: Node, a: Proc, b: Proc)
    ensures procs[p := a][p := b] == procs[p := b]
  {
  }

  lemma NotThere(q: Queues, p: Node)
    requires All(q)[p] == 0
    ensures forall i :: 0 <= i < |q| ==> p !in q[i]
  {
    forall i | 0 <= i < |q|
      ensures p !in q[i]
    {
      AllHas(q, i, p);
    }
  }

  lemma ListGrows(a: Links, b: Links, head: seq<Option<Node>>, tail: seq<Option<Node>>, q: Queues, pri: nat, p: Node, h: Option<Node>)
    requires Linked(a, head, tail, q) && Once(q) && pri < |q| && (forall i :: 0 <= i < |q| ==> p !in q[i])
    requires b == (if tail[pri].Some? then a[tail[pri].value := Some(p)] else a)[p := None]
    requires IsList(b, h, Some(p), q[pri] + [p])
    ensures Linked(b, head[pri := h], tail[pri := Some(p)], q[pri := q[pri] + [p]])
  {
    LinkedAt(a, head, tail, q, |q|, pri);
    forall x | x in a && (exists i :: 0 <= i < |q| && i != pri && x in q[i])
      ensures x in b && b[x] == a[x]
    {
      var i :| 0 <= i < |q| && i != pri && x in q[i];
      if tail[pri] == Some(x) {
        OnOneQueue(q, i, pri, x);
      }
    }
    OneListChanges(a, b, head, tail, q, pri, h, Some(p), q[pri] + [p]);
  }

  lemma ListShrinks(a: Links, b: Links, head: seq<Option<Node>>, tail: seq<Option<Node>>, q: Queues, pri: nat, k: nat,
                    h: Option<Node>, t: Option<Node>)
    requires Linked(a, head, tail, q) && Once(q) && pri < |q| && k < |q[pri]| && q[pri][k] in a
    requires b == Bridged(a, q[pri], k)
    requires IsList(b, h, t, RemoveAt(q[pri], k))
    ensures Linked(b, head[pri := h], tail[pri := t], q[pri := RemoveAt(q[pri], k)])
  {
    forall x | x in a && (exists i :: 0 <= i < |q| && i != pri && x in q[i])
      ensures x in b && b[x] == a[x]
    {
      var i :| 0 <= i < |q| && i != pri && x in q[i];
      if k > 0 && x == q[pri][k - 1] {
        OnOneQueue(q, i, pri, x);
      }
    }
    OneListChanges(a, b, head, tail, q, pri, h, t, RemoveAt(q[pri], k));
  }

  lemma CountedGrows(n: seq<int>, nrdy: int, runvec: set<nat>, q: Queues, pri: nat, p: Node)
    requires Counted(n, nrdy, runvec, q) && pri < |q| && All(q[pri := q[pri] + [p]]) == All(q) + multiset{p}
    ensures Counted(n[pri := n[pri] + 1], nrdy + 1, runvec + {pri}, q[pri := q[pri] + [p]])
  {
    assert q[pri] == q[pri];
  }

  lemma CountedShrinks(n: seq<int>, nrdy: int, runvec: set<nat>, q: Queues, pri: nat, k: nat)
    requires Counted(n, nrdy, runvec, q) && pri < |q| && k < |q[pri]|
    requires All(q[pri := RemoveAt(q[pri], k)]) + multiset{q[pri][k]} == All(q)
    ensures Counted(n[pri := n[pri] - 1], nrdy - 1, if |q[pri]| == 1 then runvec - {pri} else runvec, q[pri := RemoveAt(q[pri], k)])
  {
    assert |All(q[pri := RemoveAt(q[pri], k)]) + multiset{q[pri][k]}| == |All(q)|;
  }

  lemma OnceShrinks(q: Queues, pri: nat, k: nat)
    requires Once(q) && pri < |q| && k < |q[pri]|
    ensures Once(q[pri := RemoveAt(q[pri], k)])
  {
    AllRemove(q, pri, k);
    var a := All(q[pri := RemoveAt(q[pri], k)]);
    assert forall x :: (a + multiset{q[pri][k]})[x] >= a[x];
  }

  lemma ProcsShrink(procs: map<Node, Proc>, ticks: nat, q: Queues, pri: nat, k: nat)
    requires ProcsOk(procs, ticks, q) && pri < |q| && k < |q[pri]|
    ensures ProcsOk(procs, ticks, q[pri := RemoveAt(q[pri], k)])
  {
    var q' := q[pri := RemoveAt(q[pri], k)];
    forall i, x | On(q', i, x)
      ensures On(q, i, x)
    {
    }
  }
}
