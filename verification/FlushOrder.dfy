/** In which order the flushes of one request are answered. */
module FlushOrder {
  import opened Options
  import opened FlushProtocol
  import opened FlushInvariant
  import opened FlushTheorems
  import FlushDrain

  /** The event is the rflush of f, which finds that it has to wait for o. */
  predicate Parks(s: Srv, e: Event, f: Id, o: Id) {
    e == Check(f) && Enabled(s, e) && s.oldreq[f] == Some(o) && !s.responded[o]
  }

  // ---------------------------------------------------------------- a parked flush keeps its place

  ghost predicate InList(s: Srv, f: Id, o: Id) {
    s.Shape() && o < |s.msg| && (s.responded[o] || f in s.flush[o])
  }

  /** Flush lists only grow, at their end, until the request is done. */
  lemma ListsGrow(s: Srv, e: Event, o: Id)
    requires Enabled(s, e) && o < |s.flush|
    ensures o < |Apply(s, e).flush| && (e != Finish(o) ==> s.flush[o] <= Apply(s, e).flush[o])
  {
  }

  lemma RespondedStays(s: Srv, e: Event, o: Id)
    requires Enabled(s, e) && o < |s.responded| && s.responded[o]
    ensures o < |Apply(s, e).responded| && Apply(s, e).responded[o]
  {
  }

  lemma KeepInList(s: Srv, e: Event, f: Id, o: Id)
    requires s.Shape() && Enabled(s, e) && Apply(s, e).Shape() && RespondedInv(s.phase, s.responded) && InList(s, f, o)
    ensures InList(Apply(s, e), f, o)
  {
    ListsGrow(s, e, o);
    if s.responded[o] {
      RespondedStays(s, e, o);
    }
  }

  lemma InListStep(ss: seq<Srv>, es: seq<Event>, k: nat, f: Id, o: Id)
    requires IsRun(ss, es) && k < |es| && InList(ss[k], f, o)
    ensures InList(ss[k + 1], f, o)
  {
    RunInv(ss, es, k);
    RunInv(ss, es, k + 1);
    KeepInList(ss[k], es[k], f, o);
  }

  lemma ParksInList(ss: seq<Srv>, es: seq<Event>, i: nat, f: Id, o: Id)
    requires IsRun(ss, es) && i < |es| && Parks(ss[i], es[i], f, o)
    ensures InList(ss[i + 1], f, o)
  {
    assert ss[i + 1].flush[o] == ss[i].flush[o] + [f];
  }

  lemma {:induction false} StaysInList(ss: seq<Srv>, es: seq<Event>, i: nat, j: nat, f: Id, o: Id)
    requires IsRun(ss, es) && i < j < |ss| && Parks(ss[i], es[i], f, o)
    ensures InList(ss[j], f, o)
    decreases j
  {
    if i < j - 1 {
      StaysInList(ss, es, i, j - 1, f, o);
      InListStep(ss, es, j - 1, f, o);
    } else {
      ParksInList(ss, es, i, f, o);
    }
  }

  ghost predicate Behind(list: seq<Id>, f: Id, g: Id) {
    exists a, b :: 0 <= a < b < |list| && list[a] == f && list[b] == g
  }

  /** g has been answered after f, or comes after f in the list of o and has not been answered. */
  ghost predicate InTurn(s: Srv, f: Id, g: Id, o: Id) {
    Before(s.log, f, g) || (o < |s.flush| && Behind(s.flush[o], f, g) && g !in s.log)
  }

  lemma BeforeGrows(log: seq<Id>, log': seq<Id>, f: Id, g: Id)
    requires log <= log' && Before(log, f, g)
    ensures Before(log', f, g)
  {
  }

  lemma LogGrows(s: Srv, e: Event)
    requires Enabled(s, e)
    ensures Apply(s, e).log == if e.Write? then s.log + [e.r] else s.log
  {
  }

  /** When the later of two flushes in a list writes its reply, the drain loop has passed the earlier one. */
  lemma PassedBefore(s: Srv, f: Id, g: Id, o: Id)
    requires Inv(s) && o < |s.flush| && Behind(s.flush[o], f, g) && g < |s.msg| && s.phase[g].Writing?
    ensures f in s.log
  {
    var a, b :| 0 <= a < b < |s.flush[o]| && s.flush[o][a] == f && s.flush[o][b] == g;
    assert ChildOk(s.phase[o], b, s.phase[g]);
    assert ChildOk(s.phase[o], a, s.phase[f]);
  }

  /** When the drain loop ends it has passed both. */
  lemma PassedBoth(s: Srv, f: Id, g: Id, o: Id)
    requires Inv(s) && o < |s.flush| && Behind(s.flush[o], f, g) && s.phase[o] == Draining(|s.flush[o]|)
    ensures g in s.log
  {
    var a, b :| 0 <= a < b < |s.flush[o]| && s.flush[o][a] == f && s.flush[o][b] == g;
    assert ChildOk(s.phase[o], b, s.phase[g]);
  }

  lemma ListStays(s: Srv, e: Event, f: Id, g: Id, o: Id)
    requires Enabled(s, e) && o < |s.flush| && Behind(s.flush[o], f, g) && e != Finish(o)
    ensures o < |Apply(s, e).flush| && Behind(Apply(s, e).flush[o], f, g)
  {
    ListsGrow(s, e, o);
    var a, b :| 0 <= a < b < |s.flush[o]| && s.flush[o][a] == f && s.flush[o][b] == g;
    var list := Apply(s, e).flush[o];
    assert list[a] == f && list[b] == g;
  }

  lemma KeepInTurn(s: Srv, e: Event, f: Id, g: Id, o: Id)
    requires Inv(s) && Enabled(s, e) && InTurn(s, f, g, o)
    ensures InTurn(Apply(s, e), f, g, o)
  {
    LogGrows(s, e);
    if Before(s.log, f, g) {
      BeforeGrows(s.log, Apply(s, e).log, f, g);
    } else if e == Write(g) {
      PassedBefore(s, f, g, o);
      Lands(s.log, f, g);
    } else {
      if e == Finish(o) {
        PassedBoth(s, f, g, o);
      }
      ListStays(s, e, f, g, o);
    }
  }

  lemma Lands(log: seq<Id>, f: Id, g: Id)
    requires f in log
    ensures Before(log + [g], f, g)
  {
    var i :| 0 <= i < |log| && log[i] == f;
    assert (log + [g])[i] == f && (log + [g])[|log|] == g;
  }

  /** The second of two flushes that park on the same request goes behind the first. */
  lemma ParksBehind(ss: seq<Srv>, es: seq<Event>, i: nat, j: nat, f: Id, g: Id, o: Id)
    requires IsRun(ss, es) && i < j < |es| && Parks(ss[i], es[i], f, o) && Parks(ss[j], es[j], g, o)
    ensures f != g && InTurn(ss[j + 1], f, g, o)
  {
    StaysInList(ss, es, i, j, f, o);
    RunInv(ss, es, j);
    ParkedHere(ss[j].phase, ss[j].flush, ss[j].responded, f, o);
    NotAnswered(ss[j].phase, ss[j].log, g);
    var list := ss[j].flush[o];
    assert ss[j + 1].flush[o] == list + [g];
    LastIsBehind(list, f, g);
  }

  lemma ParkedHere(phase: seq<Phase>, flush: seq<seq<Id>>, responded: seq<bool>, f: Id, o: Id)
    requires DrainInv(phase, flush) && RespondedInv(phase, responded) && o < |phase| && !responded[o] && f in flush[o]
    ensures f < |phase| && phase[f].Parked?
  {
    var a :| 0 <= a < |flush[o]| && flush[o][a] == f;
    assert ChildOk(phase[o], a, phase[f]);
  }

  lemma NotAnswered(phase: seq<Phase>, log: seq<Id>, g: Id)
    requires LogInv(phase, log) && g < |phase| && phase[g].Called?
    ensures g !in log
  {
  }

  lemma LastIsBehind(list: seq<Id>, f: Id, g: Id)
    requires f in list
    ensures Behind(list + [g], f, g)
  {
    var a :| 0 <= a < |list| && list[a] == f;
    assert (list + [g])[a] == f && (list + [g])[|list|] == g;
  }

  lemma InTurnStep(ss: seq<Srv>, es: seq<Event>, k: nat, f: Id, g: Id, o: Id)
    requires IsRun(ss, es) && k < |es| && InTurn(ss[k], f, g, o)
    ensures InTurn(ss[k + 1], f, g, o)
  {
    RunInv(ss, es, k);
    KeepInTurn(ss[k], es[k], f, g, o);
  }

  lemma {:induction false} StaysInTurn(ss: seq<Srv>, es: seq<Event>, j: nat, k: nat, f: Id, g: Id, o: Id)
    requires IsRun(ss, es) && j <= k < |ss| && InTurn(ss[j], f, g, o)
    ensures InTurn(ss[k], f, g, o)
    decreases k
  {
    if j < k {
      StaysInTurn(ss, es, j, k - 1, f, g, o);
      InTurnStep(ss, es, k - 1, f, g, o);
    }
  }

  /** flush(5): flushes that have to wait for the same request are answered in the order in which they began to wait. */
  lemma FlushesInOrder(ss: seq<Srv>, es: seq<Event>, i: nat, j: nat, k: nat, f: Id, g: Id, o: Id)
    requires IsRun(ss, es) && i < j < |es| && j < k < |ss|
    requires Parks(ss[i], es[i], f, o) && Parks(ss[j], es[j], g, o)
    ensures g in ss[k].log ==> Before(ss[k].log, f, g)
  {
    ParksBehind(ss, es, i, j, f, g, o);
    StaysInTurn(ss, es, j + 1, k, f, g, o);
  }

  // ---------------------------------------------------------------- a flush that comes too late to wait

  /** g has its answer and f has not, or has it later. */
  ghost predicate Overtaken(log: seq<Id>, f: Id, g: Id) {
    g in log && !Before(log, f, g)
  }

  /** ss', es' is a run that goes on from ss, es with the event e. */
  ghost predicate Continues(ss: seq<Srv>, es: seq<Event>, e: Event, ss': seq<Srv>, es': seq<Event>) {
    IsRun(ss', es') && ss <= ss' && es + [e] <= es'
  }

  /** f is as good as answered, and g is not answered yet, or was after f. */
  ghost predicate First(s: Srv, f: Id, g: Id) {
    Before(s.log, f, g) || (g !in s.log && (f in s.log || s.wlock == Some(f)))
  }

  lemma KeepFirst(s: Srv, e: Event, f: Id, g: Id)
    requires Enabled(s, e) && First(s, f, g) && f != g
    ensures First(Apply(s, e), f, g)
  {
    LogGrows(s, e);
    if Before(s.log, f, g) {
      BeforeGrows(s.log, Apply(s, e).log, f, g);
    } else if e == Write(g) {
      Lands(s.log, f, g);
    }
  }

  lemma FirstStep(ss: seq<Srv>, es: seq<Event>, k: nat, f: Id, g: Id)
    requires IsRun(ss, es) && k < |es| && First(ss[k], f, g) && f != g
    ensures First(ss[k + 1], f, g)
  {
    KeepFirst(ss[k], es[k], f, g);
  }

  lemma {:induction false} StaysFirst(ss: seq<Srv>, es: seq<Event>, j: nat, k: nat, f: Id, g: Id)
    requires IsRun(ss, es) && j <= k < |ss| && First(ss[j], f, g) && f != g
    ensures First(ss[k], f, g)
    decreases k
  {
    if j < k {
      StaysFirst(ss, es, j, k - 1, f, g);
      FirstStep(ss, es, k - 1, f, g);
    }
  }

  /** Some run leads on from s to the answer of g, with f answered neither before nor by it. */
  ghost predicate CanOvertake(ss: seq<Srv>, es: seq<Event>, e: Event, f: Id, g: Id) {
    exists ss': seq<Srv>, es': seq<Event> :: Continues(ss, es, e, ss', es') && Overtaken(ss'[|es'|].log, f, g)
  }

  /** A run that goes on to s. */
  ghost predicate Reaches(ss: seq<Srv>, es: seq<Event>, e: Event, s: Srv) {
    exists ss': seq<Srv>, es': seq<Event> :: Continues(ss, es, e, ss', es') && ss'[|es'|] == s
  }

  lemma GoOn(ss: seq<Srv>, es: seq<Event>, e: Event, s: Srv, e': Event)
    requires Reaches(ss, es, e, s) && Enabled(s, e')
    ensures Reaches(ss, es, e, Apply(s, e'))
  {
    var ss', es' :| Continues(ss, es, e, ss', es') && ss'[|es'|] == s;
    var s' := Apply(s, e');
    FlushDrain.RunGrows(ss', es', e', s');
    assert (ss' + [s'])[|es' + [e']|] == s';
  }

  lemma ReachesInv(ss: seq<Srv>, es: seq<Event>, e: Event, s: Srv)
    requires Reaches(ss, es, e, s)
    ensures Inv(s)
  {
    var ss', es' :| Continues(ss, es, e, ss', es') && ss'[|es'|] == s;
    RunInv(ss', es', |es'|);
  }

  lemma GoesOnce(ss: seq<Srv>, es: seq<Event>, e: Event)
    requires IsRun(ss, es) && Enabled(ss[|es|], e)
    ensures Reaches(ss, es, e, Apply(ss[|es|], e))
  {
    var s := Apply(ss[|es|], e);
    FlushDrain.RunGrows(ss, es, e, s);
    assert Continues(ss, es, e, ss + [s], es + [e]) && (ss + [s])[|es + [e]|] == s;
  }

  /** From here g can get its answer before f. */
  ghost predicate Open(s: Srv, f: Id, g: Id) {
    f != g && f !in s.log && s.wlock != Some(f)
  }

  lemma ReachesReady(ss: seq<Srv>, es: seq<Event>, f: Id, g: Id, o: Id) returns (s: Srv)
    requires IsRun(ss, es) && Enabled(ss[|es|], Check(g)) && ss[|es|].oldreq[g] == Some(o) && ss[|es|].responded[o]
    requires Open(ss[|es|], f, g)
    ensures Reaches(ss, es, Check(g), s) && At(s, g, Ready) && Open(s, f, g)
  {
    var s0 := ss[|es|];
    GoesOnce(ss, es, Check(g));
    var s1 := Apply(s0, Check(g));
    assert At(s1, g, Releasing);
    GoOn(ss, es, Check(g), s1, Release(g));
    s := Apply(s1, Release(g));
  }

  /** The lock on writing becomes free by a write that is not that of f. */
  lemma ReachesFree(ss: seq<Srv>, es: seq<Event>, f: Id, g: Id, s: Srv) returns (s': Srv)
    requires Reaches(ss, es, Check(g), s) && At(s, g, Ready) && Open(s, f, g)
    ensures Reaches(ss, es, Check(g), s') && s'.Shape() && At(s', g, Ready) && Open(s', f, g) && s'.wlock.None?
  {
    ReachesInv(ss, es, Check(g), s);
    s' := s;
    if s.wlock.Some? {
      var h := s.wlock.value;
      GoOn(ss, es, Check(g), s, Write(h));
      s' := Apply(s, Write(h));
    }
  }

  lemma WritesNow(ss: seq<Srv>, es: seq<Event>, f: Id, g: Id, s: Srv) returns (s': Srv)
    requires Reaches(ss, es, Check(g), s) && s.Shape() && At(s, g, Ready) && Open(s, f, g) && s.wlock.None?
    ensures Reaches(ss, es, Check(g), s') && g in s'.log && f !in s'.log
  {
    GoOn(ss, es, Check(g), s, Remove(g));
    var s1 := Apply(s, Remove(g));
    GoOn(ss, es, Check(g), s1, Write(g));
    s' := Apply(s1, Write(g));
    assert s'.log == s.log + [g];
  }

  /** A flush that need not wait any more gets its answer with no other request answered but the one that is being written. */
  lemma GoesAhead(ss: seq<Srv>, es: seq<Event>, f: Id, g: Id, o: Id)
    requires IsRun(ss, es) && Enabled(ss[|es|], Check(g)) && ss[|es|].oldreq[g] == Some(o) && ss[|es|].responded[o]
    requires Open(ss[|es|], f, g)
    ensures CanOvertake(ss, es, Check(g), f, g)
  {
    var s := ReachesReady(ss, es, f, g, o);
    s := ReachesFree(ss, es, f, g, s);
    s := WritesNow(ss, es, f, g, s);
    var ss': seq<Srv>, es': seq<Event> :| Continues(ss, es, Check(g), ss', es') && ss'[|es'|] == s;
    assert Overtaken(ss'[|es'|].log, f, g);
  }

  /**
   * The order in which rflush is called is kept beyond that, but not always: a flush g that calls it after a
   * flush f has parked on the same request can be answered before f if and only if that request has
   * responded, and the answer to f has not been written and is not being written.
   */
  lemma OvertakesIff(ss: seq<Srv>, es: seq<Event>, i: nat, f: Id, g: Id, o: Id)
    requires IsRun(ss, es) && i < |es| && Parks(ss[i], es[i], f, o)
    requires Enabled(ss[|es|], Check(g)) && ss[|es|].oldreq[g] == Some(o) && f != g
    ensures CanOvertake(ss, es, Check(g), f, g) <==>
            ss[|es|].responded[o] && f !in ss[|es|].log && ss[|es|].wlock != Some(f)
  {
    var s := ss[|es|];
    RunInv(ss, es, |es|);
    if s.responded[o] && f !in s.log && s.wlock != Some(f) {
      GoesAhead(ss, es, f, g, o);
    } else {
      forall ss': seq<Srv>, es': seq<Event> | Continues(ss, es, Check(g), ss', es')
        ensures !Overtaken(ss'[|es'|].log, f, g)
      {
        var n := |es|;
        assert ss'[n] == s && es'[n] == (es + [Check(g)])[n] && ss'[i] == ss[i] && es'[i] == (es + [Check(g)])[i];
        if s.responded[o] {
          assert First(ss'[n], f, g);
          StaysFirst(ss', es', n, |es'|, f, g);
        } else {
          FlushesInOrder(ss', es', i, n, |es'|, f, g, o);
        }
      }
    }
  }

  /** The server with a request under tag 0, then with a flush of that tag too. */
  const ONE := Srv([Msg(0, Plain, false)], [Handling], [2], [false], [false], [[]], [None], [None], map[0 := 0], None, None, [])
  const TWO := Srv([Msg(0, Plain, false), Msg(1, Flush(0), false)], [Handling, Handling], [3, 2], [false, false], [false, false],
                   [[], []], [None, Some(0)], [None, Some(0)], map[0 := 0, 1 := 1], None, None, [])

  /** With two flushes of it, in the phases they go through; `gone` says that the request has left the tag pool. */
  function Three(p0: Phase, p1: Phase, p2: Phase, gone: bool): Srv {
    Srv([Msg(0, Plain, false), Msg(1, Flush(0), false), Msg(2, Flush(0), false)], [p0, p1, p2], [if gone then 3 else 4, 2, 2],
        [false, false, false], [p0.Draining?, false, false], [if p1.Parked? then [1] else [], [], []],
        [None, Some(0), Some(0)], [None, Some(0), Some(0)],
        if gone then map[1 := 1, 2 := 2] else map[0 := 0, 1 := 1, 2 := 2],
        if p0.Writing? then Some(0) else None, None, if p0.Written? || p0.Draining? then [0] else [])
  }

  /** The event e leads from s to s'. */
  predicate Leads(s: Srv, e: Event, s': Srv) {
    Enabled(s, e) && Apply(s, e) == s'
  }

  lemma Next(s: Srv, e: Event, s': Srv)
    requires FlushDrain.Reach(s) && Leads(s, e, s')
    ensures FlushDrain.Reach(s')
  {
    FlushDrain.ReachStep(s, e);
  }

  /** Reading a message and handing it on. */
  predicate Reads(s: Srv, tag: Tag, kind: Kind, s': Srv) {
    Enabled(s, Arrive(tag, kind)) && Leads(Apply(s, Arrive(tag, kind)), Dispatch, s')
  }

  lemma ReadNext(s: Srv, tag: Tag, kind: Kind, s': Srv)
    requires FlushDrain.Reach(s) && Reads(s, tag, kind, s')
    ensures FlushDrain.Reach(s')
  {
    Next(s, Arrive(tag, kind), Apply(s, Arrive(tag, kind)));
    Next(Apply(s, Arrive(tag, kind)), Dispatch, s');
  }

  lemma ToOne()
    ensures Reads(INIT, 0, Plain, ONE)
  {
  }

  lemma ToTwo()
    ensures Reads(ONE, 1, Flush(0), TWO)
  {
    assert ONE.ref + [2] == [2, 2] && ONE.pool[1 := 1] == map[0 := 0, 1 := 1];
  }

  lemma ToThree()
    ensures Reads(TWO, 2, Flush(0), Three(Handling, Handling, Handling, false))
  {
    assert TWO.ref + [2] == [3, 2, 2] && TWO.pool[2 := 2] == map[0 := 0, 1 := 1, 2 := 2];
  }

  lemma ToParked()
    ensures Leads(Three(Handling, Handling, Handling, false), Enter(1), Three(Handling, Called, Handling, false))
    ensures Leads(Three(Handling, Called, Handling, false), Check(1), Three(Handling, Parked, Handling, false))
  {
    var flush := Three(Handling, Called, Handling, false).flush;
    assert flush[0] + [1] == [1];
  }

  lemma ToReady()
    ensures Leads(Three(Handling, Parked, Handling, false), Enter(0), Three(Called, Parked, Handling, false))
    ensures Leads(Three(Called, Parked, Handling, false), Check(0), Three(Ready, Parked, Handling, false))
  {
  }

  lemma ToWritten()
    ensures Leads(Three(Ready, Parked, Handling, false), Remove(0), Three(Writing, Parked, Handling, true))
    ensures Leads(Three(Writing, Parked, Handling, true), Write(0), Three(Written, Parked, Handling, true))
  {
    assert Three(Ready, Parked, Handling, false).pool - {0} == map[1 := 1, 2 := 2];
  }

  lemma ToLate()
    ensures Leads(Three(Written, Parked, Handling, true), Mark(0), Three(Draining(0), Parked, Handling, true))
    ensures Leads(Three(Draining(0), Parked, Handling, true), Enter(2), Three(Draining(0), Parked, Called, true))
  {
  }

  lemma ChainTwo(a: Srv, e: Event, b: Srv, e': Event, c: Srv)
    requires FlushDrain.Reach(a) && Leads(a, e, b) && Leads(b, e', c)
    ensures FlushDrain.Reach(c)
  {
    Next(a, e, b);
    Next(b, e', c);
  }

  lemma ThreeReached()
    ensures FlushDrain.Reach(Three(Handling, Handling, Handling, false))
  {
    FlushDrain.InitReached();
    ToOne();
    ReadNext(INIT, 0, Plain, ONE);
    ToTwo();
    ReadNext(ONE, 1, Flush(0), TWO);
    ToThree();
    ReadNext(TWO, 2, Flush(0), Three(Handling, Handling, Handling, false));
  }

  lemma LateReached()
    ensures FlushDrain.Reach(Three(Draining(0), Parked, Called, true))
  {
    ThreeReached();
    ToParked();
    ChainTwo(Three(Handling, Handling, Handling, false), Enter(1), Three(Handling, Called, Handling, false),
             Check(1), Three(Handling, Parked, Handling, false));
    ToReady();
    ChainTwo(Three(Handling, Parked, Handling, false), Enter(0), Three(Called, Parked, Handling, false),
             Check(0), Three(Ready, Parked, Handling, false));
    ToWritten();
    ChainTwo(Three(Ready, Parked, Handling, false), Remove(0), Three(Writing, Parked, Handling, true),
             Write(0), Three(Written, Parked, Handling, true));
    ToLate();
    ChainTwo(Three(Written, Parked, Handling, true), Mark(0), Three(Draining(0), Parked, Handling, true),
             Enter(2), Three(Draining(0), Parked, Called, true));
  }

  lemma OvertakesFrom(s: Srv, f: Id, g: Id, o: Id)
    requires FlushDrain.Reach(s) && Enabled(s, Check(g)) && s.oldreq[g] == Some(o) && s.responded[o] && Open(s, f, g)
    ensures exists ss: seq<Srv>, es: seq<Event> :: IsRun(ss, es) && ss[|es|] == s && CanOvertake(ss, es, Check(g), f, g)
  {
    var ss: seq<Srv>, es: seq<Event> :| IsRun(ss, es) && ss[|es|] == s;
    GoesAhead(ss, es, f, g, o);
  }

  /** The failing case exists: the second flush asks when the request has responded and the first is still to be drained. */
  lemma LateFlushOvertakes()
    ensures
      var s := Three(Draining(0), Parked, Called, true);
      && s.found[1] == s.found[2] == Some(0)
      && exists ss: seq<Srv>, es: seq<Event> :: IsRun(ss, es) && ss[|es|] == s && CanOvertake(ss, es, Check(2), 1, 2)
  {
    LateReached();
    OvertakesFrom(Three(Draining(0), Parked, Called, true), 1, 2, 0);
  }
}
