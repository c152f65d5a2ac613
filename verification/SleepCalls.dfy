/** One call of sleep from beginning to end, whatever the other processes do meanwhile. */
module SleepCalls {
  import opened Options
  import opened SleepWakeup
  import opened SleepInvariant
  import opened SleepTheorems

  /** q makes no step strictly between j and k. */
  ghost predicate Still(es: seq<Event>, q: Proc, j: int, k: nat) {
    forall x {:trigger es[x]} :: 0 <= x < |es| && j < x < k ==> es[x] != Step(q)
  }

  /** The k-th event is the next step of q after the j-th. */
  ghost predicate Next(es: seq<Event>, q: Proc, j: nat, k: nat) {
    j < k < |es| && es[k] == Step(q) && Still(es, q, j, k)
  }

  lemma {:induction false} FindNext(es: seq<Event>, q: Proc, j: nat, k: nat) returns (x: nat)
    requires j < k <= |es|
    ensures j < x <= k && Still(es, q, j, x) && (x < k ==> Next(es, q, j, x))
    decreases k
  {
    if j + 1 == k {
      x := k;
    } else {
      x := FindNext(es, q, j, k - 1);
      if x == k - 1 && es[x] != Step(q) {
        x := k;
      }
    }
  }

  /** How often q has gone to sleep and has been made ready. */
  predicate Counts(s: Sys, q: Proc, commits: int, readies: int) {
    s.Shape() && q < |s.pc| && s.commits[q] == commits && s.readies[q] == readies
  }

  /** What others do to q: nothing, unless it is asleep and they make it ready. */
  ghost predicate Untouched(s: Sys, s': Sys, q: Proc) {
    && s.Shape() && s'.Shape() && |s'.pc| == |s.pc| && q < |s.pc| && s'.commits[q] == s.commits[q]
    && ((s'.pc[q] == s.pc[q] && s'.readies[q] == s.readies[q])
        || (s.pc[q].Asleep? && s'.pc[q].Woken? && s'.readies[q] == s.readies[q] + 1))
  }

  lemma CallUntouched(s: Sys, e: Event, q: Proc)
    requires Enabled(s, e) && !e.Step? && q < |s.pc| && !s.pc[q].Idle?
    ensures Untouched(s, Apply(s, e), q)
  {
  }

  lemma StepUntouched(s: Sys, w: Proc, q: Proc)
    requires s.Shape() && TargetInv(s.pc) && CanStep(s, w) && w != q && q < |s.pc|
    ensures Untouched(s, ApplyStep(s, w), q)
  {
    if Wakens(s, w) {
      assert s.pc[s.pc[w].p].Asleep?;
    }
  }

  lemma OtherEvent(ss: seq<Sys>, es: seq<Event>, k: nat, q: Proc)
    requires IsRun(ss, es) && k < |es| && es[k] != Step(q) && q < |ss[k].pc| && !ss[k].pc[q].Idle?
    ensures Untouched(ss[k], ss[k + 1], q)
  {
    if es[k].Step? {
      RunInv(ss, es, k);
      StepUntouched(ss[k], es[k].q, q);
    } else {
      CallUntouched(ss[k], es[k], q);
    }
  }

  /** A process in a routine that is not asleep stays where it is until its next step. */
  lemma {:induction false} Stays(ss: seq<Sys>, es: seq<Event>, j: nat, k: nat, q: Proc)
    requires IsRun(ss, es) && j <= k < |ss| && Still(es, q, j - 1, k)
    requires q < |ss[j].pc| && !ss[j].pc[q].Idle? && !ss[j].pc[q].Asleep? && ss[j].Shape()
    ensures q < |ss[k].pc| && ss[k].pc[q] == ss[j].pc[q] && Counts(ss[k], q, ss[j].commits[q], ss[j].readies[q])
    decreases k
  {
    if j < k {
      Stays(ss, es, j, k - 1, q);
      OtherEvent(ss, es, k - 1, q);
    }
  }

  /** One that is asleep stays so until it is made ready, once. */
  lemma {:induction false} StaysAsleep(ss: seq<Sys>, es: seq<Event>, j: nat, k: nat, q: Proc)
    requires IsRun(ss, es) && j <= k < |ss| && Still(es, q, j - 1, k)
    requires q < |ss[j].pc| && ss[j].pc[q].Asleep? && ss[j].Shape()
    ensures q < |ss[k].pc|
    ensures if ss[k].pc[q].Woken? then Counts(ss[k], q, ss[j].commits[q], ss[j].readies[q] + 1)
            else ss[k].pc[q] == ss[j].pc[q] && Counts(ss[k], q, ss[j].commits[q], ss[j].readies[q])
    decreases k
  {
    if j < k {
      StaysAsleep(ss, es, j, k - 1, q);
      OtherEvent(ss, es, k - 1, q);
    }
  }

  // ---------------------------------------------------------------- the steps of the call

  /** The call begins with the i-th event; its first two steps are the a-th and the c-th event. */
  ghost predicate Begins(ss: seq<Sys>, es: seq<Event>, i: nat, a: nat, c: nat, q: Proc, r: Rend) {
    IsRun(ss, es) && i < |es| && es[i] == Sleep(q, r) && Next(es, q, i, a) && Next(es, q, a, c)
  }

  lemma Enters(ss: seq<Sys>, es: seq<Event>, i: nat, k: nat, q: Proc, r: Rend)
    requires IsRun(ss, es) && i < k < |ss| && es[i] == Sleep(q, r) && Still(es, q, i, k)
    ensures q < |ss[i].pc| && ss[i].Shape() && q < |ss[k].pc| && ss[k].pc[q] == SleepLock(r)
    ensures Counts(ss[k], q, ss[i].commits[q], ss[i].readies[q])
  {
    Stays(ss, es, i + 1, k, q);
  }

  lemma Locks(ss: seq<Sys>, es: seq<Event>, i: nat, a: nat, k: nat, q: Proc, r: Rend)
    requires IsRun(ss, es) && i < a < k < |ss| && es[i] == Sleep(q, r) && Next(es, q, i, a) && Still(es, q, a, k)
    ensures q < |ss[i].pc| && ss[i].Shape() && q < |ss[k].pc| && ss[k].pc[q] == SleepTest(r)
    ensures Counts(ss[k], q, ss[i].commits[q], ss[i].readies[q])
  {
    Enters(ss, es, i, a, q, r);
    Stays(ss, es, a + 1, k, q);
  }

  /** The second step tests the condition. */
  lemma TestsCondition(ss: seq<Sys>, es: seq<Event>, i: nat, a: nat, c: nat, k: nat, q: Proc, r: Rend)
    requires Begins(ss, es, i, a, c, q, r) && c < k < |ss| && Still(es, q, c, k)
    ensures q < |ss[i].pc| && ss[i].Shape() && q < |ss[k].pc| && r < |ss[c].cond|
    ensures ss[k].pc[q] == if ss[c].cond[r] then Returning else SleepTested(r)
    ensures Counts(ss[k], q, ss[i].commits[q], ss[i].readies[q])
  {
    Locks(ss, es, i, a, c, q, r);
    Stays(ss, es, c + 1, k, q);
  }

  /** The third one, if the condition was false, tests for a note. */
  lemma TestsNote(ss: seq<Sys>, es: seq<Event>, i: nat, a: nat, c: nat, d: nat, k: nat, q: Proc, r: Rend)
    requires Begins(ss, es, i, a, c, q, r) && Next(es, q, c, d) && d < k < |ss| && Still(es, q, d, k)
    requires r < |ss[c].cond| && !ss[c].cond[r]
    ensures q < |ss[i].pc| && ss[i].Shape() && q < |ss[k].pc| && q < |ss[d].note|
    ensures ss[k].pc[q] == if ss[d].note[q] then Returning else SleepSure(r)
    ensures Counts(ss[k], q, ss[i].commits[q], ss[i].readies[q])
  {
    TestsCondition(ss, es, i, a, c, d, q, r);
    Stays(ss, es, d + 1, k, q);
  }

  /** The process has seen the condition false and then no note; its fourth step is the b-th event. */
  ghost predicate SawNothing(ss: seq<Sys>, es: seq<Event>, i: nat, a: nat, c: nat, d: nat, b: nat, q: Proc, r: Rend) {
    && Begins(ss, es, i, a, c, q, r) && Next(es, q, c, d) && Next(es, q, d, b)
    && r < |ss[c].cond| && !ss[c].cond[r] && q < |ss[d].note| && !ss[d].note[q]
  }

  lemma GoesToSleep(ss: seq<Sys>, es: seq<Event>, i: nat, a: nat, c: nat, d: nat, b: nat, q: Proc, r: Rend)
    requires SawNothing(ss, es, i, a, c, d, b, q, r)
    ensures q < |ss[i].pc| && ss[i].Shape() && q < |ss[b + 1].pc| && ss[b + 1].pc[q] == Asleep(r)
    ensures Counts(ss[b + 1], q, ss[i].commits[q] + 1, ss[i].readies[q])
  {
    TestsNote(ss, es, i, a, c, d, b, q, r);
  }

  // ---------------------------------------------------------------- what sleep promises

  /**
   * A process that saw the condition false and no note pending sleeps: it has gone to sleep once more, waits on r in
   * state Wakeme and stays so until somebody makes it ready; and that happens at most once.
   */
  lemma SleepSleeps(ss: seq<Sys>, es: seq<Event>, i: nat, a: nat, c: nat, d: nat, b: nat, k: nat, q: Proc, r: Rend)
    requires SawNothing(ss, es, i, a, c, d, b, q, r) && b < k < |ss| && Still(es, q, b, k)
    ensures q < |ss[i].pc| && ss[i].Shape() && q < |ss[k].pc| && ss[k].Shape()
    ensures ss[k].commits[q] == ss[i].commits[q] + 1
    ensures ss[k].readies[q] == ss[i].readies[q] ==> ss[k].st[q] == Wakeme && ss[k].pr[q] == Some(r) && !CanStep(ss[k], q)
    ensures ss[k].readies[q] != ss[i].readies[q] ==> ss[k].readies[q] == ss[i].readies[q] + 1 && ss[k].st[q] == Ready && ss[k].pr[q].None?
  {
    GoesToSleep(ss, es, i, a, c, d, b, q, r);
    StaysAsleep(ss, es, b + 1, k, q);
    RunInv(ss, es, k);
  }

  /** One that saw the condition true, or a note, does not sleep: with its next step but one it is out of sleep again. */
  lemma NeverMinds(ss: seq<Sys>, es: seq<Event>, i: nat, a: nat, c: nat, d: nat, q: Proc, r: Rend)
    requires Begins(ss, es, i, a, c, q, r) && Next(es, q, c, d) && r < |ss[c].cond|
    ensures q < |ss[i].pc| && ss[i].Shape()
    ensures ss[c].cond[r] ==> At(ss[d + 1], q) && Counts(ss[d + 1], q, ss[i].commits[q], ss[i].readies[q])
    ensures forall b :: !ss[c].cond[r] && Next(es, q, d, b) && q < |ss[d].note| && ss[d].note[q] ==>
              At(ss[b + 1], q) && Counts(ss[b + 1], q, ss[i].commits[q], ss[i].readies[q])
  {
    TestsCondition(ss, es, i, a, c, d, q, r);
    forall b | !ss[c].cond[r] && Next(es, q, d, b) && q < |ss[d].note| && ss[d].note[q]
      ensures At(ss[b + 1], q) && Counts(ss[b + 1], q, ss[i].commits[q], ss[i].readies[q])
    {
      TestsNote(ss, es, i, a, c, d, b, q, r);
    }
  }

  /** One that slept can go on only when it has been made ready, and is then out of sleep with its next step but one. */
  lemma WakesUp(ss: seq<Sys>, es: seq<Event>, i: nat, a: nat, c: nat, d: nat, b: nat, x: nat, y: nat, q: Proc, r: Rend)
    requires SawNothing(ss, es, i, a, c, d, b, q, r) && Next(es, q, b, x) && Next(es, q, x, y)
    ensures q < |ss[i].pc| && ss[i].Shape() && At(ss[y + 1], q)
    ensures Counts(ss[y + 1], q, ss[i].commits[q] + 1, ss[i].readies[q] + 1)
  {
    GoesToSleep(ss, es, i, a, c, d, b, q, r);
    StaysAsleep(ss, es, b + 1, x, q);
    assert CanStep(ss[x], q);
    Stays(ss, es, x + 1, y, q);
  }

  /** Why a call of sleep may come to an end. */
  ghost predicate HasCause(ss: seq<Sys>, es: seq<Event>, i: nat, k: nat, q: Proc, r: Rend)
    requires i < k < |ss| == |es| + 1
  {
    || (exists a: nat, c: nat :: Begins(ss, es, i, a, c, q, r) && c < k && r < |ss[c].cond| && ss[c].cond[r])
    || (exists a: nat, c: nat, d: nat :: Begins(ss, es, i, a, c, q, r) && Next(es, q, c, d) && d < k && q < |ss[d].note| && ss[d].note[q])
    || (q < |ss[i].pc| && ss[i].Shape() && Counts(ss[k], q, ss[i].commits[q] + 1, ss[i].readies[q] + 1))
  }

  /**
   * A call of sleep that is over, or about to be, has found the condition true at its test, or a note pending at its
   * test, or the process has slept once and has been made ready once.
   */
  lemma ReturnsForCause(ss: seq<Sys>, es: seq<Event>, i: nat, k: nat, q: Proc, r: Rend)
    requires IsRun(ss, es) && i < k < |ss| && es[i] == Sleep(q, r) && q < |ss[k].pc|
    requires ss[k].pc[q].Returning? && forall j :: i < j < k && q < |ss[j].pc| ==> !ss[j].pc[q].Returning?
    ensures HasCause(ss, es, i, k, q, r)
  {
    var a := FindNext(es, q, i, k);
    Enters(ss, es, i, a, q, r);
    assert a < k;
    var c := FindNext(es, q, a, k);
    Locks(ss, es, i, a, c, q, r);
    assert c < k && Begins(ss, es, i, a, c, q, r);
    var d := FindNext(es, q, c, k);
    TestsCondition(ss, es, i, a, c, d, q, r);
    if !ss[c].cond[r] {
      assert d < k;
      var b := FindNext(es, q, d, k);
      TestsNote(ss, es, i, a, c, d, b, q, r);
      if !ss[d].note[q] {
        assert b < k;
        GoesToSleep(ss, es, i, a, c, d, b, q, r);
        ReturnsReady(ss, es, i, b, k, q);
      }
    }
  }

  lemma ReturnsReady(ss: seq<Sys>, es: seq<Event>, i: nat, b: nat, k: nat, q: Proc)
    requires IsRun(ss, es) && i < b < k < |ss| && q < |ss[i].pc| && ss[i].Shape() && q < |ss[b + 1].pc| && q < |ss[k].pc|
    requires ss[b + 1].pc[q].Asleep? && Counts(ss[b + 1], q, ss[i].commits[q] + 1, ss[i].readies[q])
    requires ss[k].pc[q].Returning? && forall j :: i < j < k && q < |ss[j].pc| ==> !ss[j].pc[q].Returning?
    ensures Counts(ss[k], q, ss[i].commits[q] + 1, ss[i].readies[q] + 1)
  {
    var x := FindNext(es, q, b, k);
    StaysAsleep(ss, es, b + 1, x, q);
    if x < k {
      assert CanStep(ss[x], q);
      assert ss[x + 1].pc[q].Returning?;
    }
  }

  // ---------------------------------------------------------------- notes

  /** The i-th event posts a note to p, and no sleep of p has ended since that took it. */
  ghost predicate Pending(ss: seq<Sys>, es: seq<Event>, i: nat, k: nat, p: Proc)
    requires |ss| == |es| + 1 && i < k <= |es|
  {
    && es[i].PostNote? && es[i].p == p
    && forall j {:trigger es[j]} :: i < j < k && es[j] == Step(p) ==> p < |ss[j].pc| && !ss[j].pc[p].Returning?
  }

  /** Some note to p is. */
  ghost predicate HasNote(ss: seq<Sys>, es: seq<Event>, k: nat, p: Proc)
    requires |ss| == |es| + 1 && k <= |es|
  {
    exists i: nat :: i < k && Pending(ss, es, i, k, p)
  }

  lemma NoteCall(s: Sys, e: Event, p: Proc)
    requires Enabled(s, e) && !e.Step? && p < |s.note|
    ensures p < |Apply(s, e).note| && (Apply(s, e).note[p] <==> (e.PostNote? && e.p == p) || s.note[p])
  {
  }

  lemma NoteStep(s: Sys, q: Proc, p: Proc)
    requires s.Shape() && CanStep(s, q) && p < |s.pc|
    ensures ApplyStep(s, q).note == if s.pc[q].Returning? then s.note[q := false] else s.note
  {
  }

  /** A note is pending from when it is posted until the end of a sleep takes it. */
  lemma {:induction false} NotePendingIff(ss: seq<Sys>, es: seq<Event>, k: nat, p: Proc)
    requires IsRun(ss, es) && k < |ss| && p < |ss[k].note|
    ensures ss[k].note[p] <==> HasNote(ss, es, k, p)
    decreases k
  {
    if k > 0 {
      NotesAt(ss, es, k - 1, p);
      NotePendingIff(ss, es, k - 1, p);
      PendingStep(ss, es, k, p);
    }
  }

  lemma NotesAt(ss: seq<Sys>, es: seq<Event>, k: nat, p: Proc)
    requires IsRun(ss, es) && k < |es| && p < |ss[k + 1].note|
    ensures p < |ss[k].note| && p < |ss[k].pc|
    ensures ss[k + 1].note[p] <==> (es[k].PostNote? && es[k].p == p) || (ss[k].note[p] && !(es[k] == Step(p) && ss[k].pc[p].Returning?))
  {
    SameProcs(ss[k], es[k]);
    if es[k].Step? {
      NoteStep(ss[k], es[k].q, p);
    } else {
      NoteCall(ss[k], es[k], p);
    }
  }

  lemma SameProcs(s: Sys, e: Event)
    requires Enabled(s, e)
    ensures |Apply(s, e).note| == |s.note|
  {
  }

  lemma PendingStep(ss: seq<Sys>, es: seq<Event>, k: nat, p: Proc)
    requires |ss| == |es| + 1 && 0 < k <= |es| && p < |ss[k - 1].pc|
    ensures
      var e := es[k - 1];
      HasNote(ss, es, k, p) <==>
      (e.PostNote? && e.p == p) || (HasNote(ss, es, k - 1, p) && !(e == Step(p) && ss[k - 1].pc[p].Returning?))
  {
    var e, m: nat := es[k - 1], k - 1;
    if e.PostNote? && e.p == p {
      assert Pending(ss, es, m, k, p);
    }
    if i: nat :| i < k && Pending(ss, es, i, k, p) && i < m {
      assert Pending(ss, es, i, m, p);
    }
    if HasNote(ss, es, m, p) && !(e == Step(p) && ss[m].pc[p].Returning?) {
      var i: nat :| i < m && Pending(ss, es, i, m, p);
      assert Pending(ss, es, i, k, p);
    }
  }

  // ---------------------------------------------------------------- conditions

  /** The i-th event makes the condition of r true, and none since has used it up. */
  ghost predicate Holds(es: seq<Event>, i: nat, k: nat, r: Rend)
    requires i < k <= |es|
  {
    && es[i].SetCond? && es[i].r == r
    && forall j {:trigger es[j]} :: i < j < k ==> !(es[j].ClearCond? && es[j].r == r)
  }

  ghost predicate HasCond(es: seq<Event>, k: nat, r: Rend)
    requires k <= |es|
  {
    exists i: nat :: i < k && Holds(es, i, k, r)
  }

  lemma CondStep(s: Sys, e: Event, r: Rend)
    requires Enabled(s, e) && r < |s.cond|
    ensures |Apply(s, e).cond| == |s.cond|
    ensures Apply(s, e).cond[r] <==> (e.SetCond? && e.r == r) || (s.cond[r] && !(e.ClearCond? && e.r == r))
  {
    if e.Step? {
      StepKeepsCond(s, e.q);
    }
  }

  lemma StepKeepsCond(s: Sys, q: Proc)
    requires s.Shape() && CanStep(s, q)
    ensures ApplyStep(s, q).cond == s.cond
  {
  }

  /** The routines do not touch the condition: it is true from when it is made so until it is used up. */
  lemma {:induction false} ConditionIff(ss: seq<Sys>, es: seq<Event>, k: nat, r: Rend)
    requires IsRun(ss, es) && k < |ss| && r < |ss[0].cond|
    ensures r < |ss[k].cond| && (ss[k].cond[r] <==> HasCond(es, k, r))
    decreases k
  {
    if k > 0 {
      ConditionIff(ss, es, k - 1, r);
      CondStep(ss[k - 1], es[k - 1], r);
      HoldsStep(es, k, r);
    }
  }

  lemma HoldsStep(es: seq<Event>, k: nat, r: Rend)
    requires 0 < k <= |es|
    ensures
      var e := es[k - 1];
      HasCond(es, k, r) <==> (e.SetCond? && e.r == r) || (HasCond(es, k - 1, r) && !(e.ClearCond? && e.r == r))
  {
    var e, m: nat := es[k - 1], k - 1;
    if e.SetCond? && e.r == r {
      assert Holds(es, m, k, r);
    }
    if i: nat :| i < k && Holds(es, i, k, r) && i < m {
      assert Holds(es, i, m, r);
    }
    if HasCond(es, m, r) && !(e.ClearCond? && e.r == r) {
      var i: nat :| i < m && Holds(es, i, m, r);
      assert Holds(es, i, k, r);
    }
  }
}
