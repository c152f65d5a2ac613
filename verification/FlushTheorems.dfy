/** What the request engine promises over every run. */
module FlushTheorems {
  import opened Counting
  import opened Options
  import opened FlushProtocol
  import opened FlushInvariant

  lemma KeepCheck(s: Srv, r: Id)
    requires Inv(s) && Enabled(s, Check(r))
    ensures Inv(ApplyCheck(s, r))
  {
    if s.oldreq[r].Some? && !s.responded[s.oldreq[r].value] {
      KeepPark(s, r, s.oldreq[r].value);
    } else {
      KeepCheckOn(s, r);
    }
  }

  /** The request a releasing flush lets go of: an earlier one that has responded. */
  lemma ReleaseTarget(s: Srv, r: Id)
    requires Inv(s) && At(s, r, Releasing)
    ensures s.oldreq[r].Some? && s.oldreq[r] == s.found[r]
    ensures s.oldreq[r].value < r && Responded(s.phase[s.oldreq[r].value])
  {
  }

  lemma KeepRespond(s: Srv, e: Event)
    requires Inv(s) && Enabled(s, e) && (e.Enter? || e.Check? || e.Release? || e.Remove? || e.Write?)
    ensures Inv(Apply(s, e))
  {
    match e
    case Enter(r) =>
      KeepEnter(s, r);
    case Check(r) =>
      KeepCheck(s, r);
    case Release(r) =>
      ReleaseTarget(s, r);
      KeepRelease(s, r, s.oldreq[r].value);
    case Remove(r) =>
      KeepRemove(s, r);
    case Write(r) =>
      KeepWrite(s, r);
  }

  lemma KeepDrain(s: Srv, e: Event)
    requires Inv(s) && Enabled(s, e) && (e.Mark? || e.DrainCall? || e.DrainNext? || e.Finish?)
    ensures Inv(Apply(s, e))
  {
    match e
    case Mark(r) =>
      KeepMark(s, r);
    case DrainCall(r) =>
      KeepDrainCall(s, r);
    case DrainNext(r) =>
      KeepDrainNext(s, r);
      assert Apply(s, e) == SetPhase(s, r, Draining(s.phase[r].next + 1));
    case Finish(r) =>
      KeepFinish(s, r);
  }

  /** Every step keeps the invariant. */
  lemma KeepInv(s: Srv, e: Event)
    requires Inv(s) && Enabled(s, e)
    ensures Inv(Apply(s, e))
  {
    match e
    case Arrive(tag, kind) =>
      KeepArrive(s, tag, kind);
    case Dispatch =>
      KeepDispatch(s, s.loop.value);
    case Enter(_) | Check(_) | Release(_) | Remove(_) | Write(_) =>
      KeepRespond(s, e);
    case Mark(_) | DrainCall(_) | DrainNext(_) | Finish(_) =>
      KeepDrain(s, e);
  }

  lemma {:induction false} RunInv(ss: seq<Srv>, es: seq<Event>, k: nat)
    requires IsRun(ss, es) && k < |ss|
    ensures Inv(ss[k])
  {
    if k > 0 {
      RunInv(ss, es, k - 1);
      KeepInv(ss[k - 1], es[k - 1]);
    }
  }

  // ---------------------------------------------------------------- safety over every run

  /**
   * flush(5): in every interleaving, once the reply to a Tflush is written, the reply to every
   * earlier request that came in under the flushed tag has been written before it. This covers
   * both a lookup that found the request and one that missed it between removal and write.
   */
  lemma RflushComesLast(ss: seq<Srv>, es: seq<Event>, k: nat, f: Id, o: Id)
    requires IsRun(ss, es) && k < |ss|
    requires Flushes(ss[k].msg, f, o) && f in ss[k].log
    ensures Before(ss[k].log, o, f)
  {
    RunInv(ss, es, k);
    assert Ordered(ss[k].phase[f], ss[k].phase[o], ss[k].found[f] == Some(o), ss[k].log, f, o);
  }

  /** No reply is written twice, and only for requests that were read. */
  lemma AnsweredAtMostOnce(ss: seq<Srv>, es: seq<Event>, k: nat)
    requires IsRun(ss, es) && k < |ss|
    ensures forall i :: 0 <= i < |ss[k].log| ==> ss[k].log[i] < |ss[k].msg|
    ensures forall i, j :: 0 <= i < j < |ss[k].log| ==> ss[k].log[i] != ss[k].log[j]
  {
    RunInv(ss, es, k);
  }

  /**
   * The count of a request is the number of references there are: one if the tag pool maps its
   * tag to it, one until its respond has finished, one for each flush whose oldreq it is. It is
   * freed exactly when there are none.
   */
  lemma CountIsExact(ss: seq<Srv>, es: seq<Event>, k: nat, r: Id)
    requires IsRun(ss, es) && k < |ss| && r < |ss[k].msg|
    ensures
      var s := ss[k];
      && s.Shape()
      && s.ref[r] == B(s.msg[r].tag in s.pool && s.pool[s.msg[r].tag] == r) + B(!s.phase[r].Done?) + Naming(s.oldreq, r)
      && (s.freed[r] <==>
            && !(s.msg[r].tag in s.pool && s.pool[s.msg[r].tag] == r)
            && s.phase[r].Done?
            && Some(r) !in s.oldreq)
  {
    RunInv(ss, es, k);
    NamingPositive(ss[k].oldreq, r);
  }

  lemma NoFaultRespond(s: Srv, e: Event)
    requires Inv(s) && Enabled(s, e) && (e.Enter? || e.Check? || e.Release? || e.Remove? || e.Write?)
    ensures NoFault(s, e)
  {
    match e
    case Release(r) =>
      NamingPositive(s.oldreq, s.oldreq[r].value);
    case Check(r) =>
      if s.oldreq[r].Some? {
        NamingPositive(s.oldreq, s.oldreq[r].value);
      }
    case _ =>
  }

  lemma NoFaultRest(s: Srv, e: Event)
    requires Inv(s) && Enabled(s, e) && !(e.Enter? || e.Check? || e.Release? || e.Remove? || e.Write?)
    ensures NoFault(s, e)
  {
  }

  /** No assert of respond, rflush or closereq fails and no freed request is touched, in any run. */
  lemma NeverFaults(ss: seq<Srv>, es: seq<Event>, k: nat)
    requires IsRun(ss, es) && k < |es|
    ensures NoFault(ss[k], es[k])
  {
    RunInv(ss, es, k);
    if es[k].Enter? || es[k].Check? || es[k].Release? || es[k].Remove? || es[k].Write? {
      NoFaultRespond(ss[k], es[k]);
    } else {
      NoFaultRest(ss[k], es[k]);
    }
  }

  /** Each parked flush is in exactly one flush list, there exactly once. */
  lemma ParkedInOneList(ss: seq<Srv>, es: seq<Event>, k: nat, f: Id)
    requires IsRun(ss, es) && k < |ss| && At(ss[k], f, Parked)
    ensures |ss[k].flush| == |ss[k].msg| && |ss[k].found| == |ss[k].msg|
    ensures exists o, i :: 0 <= o < |ss[k].flush| && 0 <= i < |ss[k].flush[o]| && ss[k].flush[o][i] == f && o <= f
    ensures forall o, i, o', i' ::
              && 0 <= o < |ss[k].flush| && 0 <= i < |ss[k].flush[o]|
              && 0 <= o' < |ss[k].flush| && 0 <= i' < |ss[k].flush[o']|
              && ss[k].flush[o][i] == f && ss[k].flush[o'][i'] == f
              ==> o == o' && i == i'
  {
    RunInv(ss, es, k);
    var s := ss[k];
    assert f in s.flush[s.found[f].value];
    forall o, i | 0 <= o < |s.flush| && 0 <= i < |s.flush[o]| && s.flush[o][i] == f
      ensures s.found[f] == Some(o)
    {
    }
  }

  // ---------------------------------------------------------------- no flush is stranded

  /** Nothing is left to do except to read more requests. */
  ghost predicate Quiet(s: Srv) {
    forall e: Event :: Enabled(s, e) ==> e.Arrive?
  }

  /** The chain of found requests from r ends in a request that found itself. */
  predicate EndsInSelf(found: seq<Option<Id>>, r: Id)
    decreases r
  {
    && r < |found|
    && found[r].Some?
    && (found[r].value == r || (found[r].value < r && EndsInSelf(found, found[r].value)))
  }

  /** The chain of found requests leads from q to r. */
  predicate Under(found: seq<Option<Id>>, q: Id, r: Id)
    decreases q
  {
    q == r || (q < |found| && found[q].Some? && found[q].value < q && Under(found, found[q].value, r))
  }

  lemma {:induction false} UnderStep(found: seq<Option<Id>>, q: Id, c: Id, r: Id)
    requires Under(found, q, c) && c < |found| && found[c] == Some(r) && r < c
    ensures Under(found, q, r)
    decreases q
  {
    if q != c {
      UnderStep(found, found[q].value, c, r);
    }
  }

  /** e is the next step of x. */
  predicate StepOf(s: Srv, e: Event, x: Id) {
    match e
    case Arrive(_, _) => false
    case Dispatch => s.loop == Some(x)
    case Enter(r) => r == x
    case Check(r) => r == x
    case Release(r) => r == x
    case Remove(r) => r == x
    case Write(r) => r == x
    case Mark(r) => r == x
    case DrainCall(r) => r == x
    case DrainNext(r) => r == x
    case Finish(r) => r == x
  }

  /**
   * A request r that is neither done nor parked can always make a step, or a flush x that waits for it
   * and that it is answering can; or x waits for the lock on writing, and the request that has it can
   * write.
   */
  lemma {:induction false} Progress(s: Srv, r: Id) returns (e: Event, x: Id)
    requires Inv(s) && r < |s.msg| && !s.phase[r].Done? && !s.phase[r].Parked?
    ensures Enabled(s, e) && !e.Arrive? && Under(s.found, x, r) && (x != r ==> s.phase[r].Draining?)
    ensures StepOf(s, e, x) || (At(s, x, Ready) && s.wlock.Some? && e == Write(s.wlock.value))
    decreases |s.msg| - r
  {
    x := r;
    if !s.phase[r].Draining? {
      e := OwnStep(s, r);
    } else if s.phase[r].next == |s.flush[r]| {
      e := Finish(r);
    } else {
      ChildIs(s, r);
      var c := Child(s, r);
      if s.phase[c].Parked? {
        e := DrainCall(r);
      } else if s.phase[c].Done? {
        e := DrainNext(r);
      } else {
        e, x := Progress(s, c);
        UnderStep(s.found, x, c, r);
      }
    }
  }

  /** Before the drain loop a request waits for nothing but the lock on writing. */
  lemma OwnStep(s: Srv, r: Id) returns (e: Event)
    requires Inv(s) && r < |s.msg| && !s.phase[r].Done? && !s.phase[r].Parked? && !s.phase[r].Draining?
    ensures Enabled(s, e) && !e.Arrive?
    ensures StepOf(s, e, r) || (At(s, r, Ready) && s.wlock.Some? && e == Write(s.wlock.value))
  {
    match s.phase[r]
    case Taken =>
      LookupOk(s, r);
      e := Dispatch;
    case Handling =>
      e := Enter(r);
    case Called =>
      e := Check(r);
    case Releasing =>
      ReleaseTarget(s, r);
      e := Release(r);
    case Ready =>
      e := if s.wlock.Some? then Write(s.wlock.value) else Remove(r);
    case Writing =>
      e := Write(r);
    case Written =>
      e := Mark(r);
  }

  /** The flush that a draining request answers next came after it and found it. */
  lemma ChildIs(s: Srv, r: Id)
    requires Inv(s) && r < |s.msg| && s.phase[r].Draining? && s.phase[r].next != |s.flush[r]|
    ensures s.phase[r].next < |s.flush[r]|
    ensures var c := Child(s, r); r < c < |s.msg| && s.found[c] == Some(r)
  {
    assert s.found[Child(s, r)] == Some(r);
  }

  lemma {:induction false} QuietChains(s: Srv, r: Id)
    requires Inv(s) && r < |s.msg|
    requires forall x :: 0 <= x < |s.msg| ==> s.phase[x].Done? || s.phase[x].Parked?
    ensures s.phase[r].Done? <==> !EndsInSelf(s.found, r)
    decreases r
  {
    if s.found[r].Some? && s.found[r].value < r {
      QuietChains(s, s.found[r].value);
      if s.phase[r].Parked? {
        assert r in s.flush[s.found[r].value];
      }
    }
  }

  /**
   * When nothing is left to do, a request is answered, exactly once, if and only if the chain of
   * requests it waits for does not end in a flush of its own tag.
   */
  lemma AnsweredUnlessSelf(ss: seq<Srv>, es: seq<Event>, k: nat, r: Id)
    requires IsRun(ss, es) && k < |ss| && Quiet(ss[k]) && r < |ss[k].msg|
    ensures r in ss[k].log <==> !EndsInSelf(ss[k].found, r)
    ensures multiset(ss[k].log)[r] <= 1
  {
    RunInv(ss, es, k);
    var s := ss[k];
    forall x | 0 <= x < |s.msg|
      ensures s.phase[x].Done? || s.phase[x].Parked?
    {
      if !s.phase[x].Done? && !s.phase[x].Parked? {
        var e, y := Progress(s, x);
      }
    }
    QuietChains(s, r);
    OnceEach(s.log, r);
  }

  predicate FlushesItself(m: Msg) {
    m.kind == Flush(m.tag)
  }

  lemma {:induction false} SelfAtTheEnd(s: Srv, r: Id) returns (x: Id)
    requires Inv(s) && EndsInSelf(s.found, r)
    ensures x < |s.msg| && FlushesItself(s.msg[x])
    decreases r
  {
    if s.found[r].value == r {
      x := r;
    } else {
      x := SelfAtTheEnd(s, s.found[r].value);
    }
  }

  /** Every request gets its answer exactly when no client flushes its own tag. */
  lemma AllAnsweredIffNoSelfFlush(ss: seq<Srv>, es: seq<Event>, k: nat)
    requires IsRun(ss, es) && k < |ss| && Quiet(ss[k])
    ensures (forall r :: 0 <= r < |ss[k].msg| ==> r in ss[k].log)
            <==> (forall r :: 0 <= r < |ss[k].msg| ==> !FlushesItself(ss[k].msg[r]))
  {
    RunInv(ss, es, k);
    var s := ss[k];
    forall r | 0 <= r < |s.msg|
      ensures r in s.log <==> !EndsInSelf(s.found, r)
      ensures FlushesItself(s.msg[r]) ==> r !in s.log
    {
      AnsweredUnlessSelf(ss, es, k, r);
      assert !Enabled(s, Dispatch);
      if FlushesItself(s.msg[r]) && s.phase[r].Taken? {
        LookupOk(s, r);
        assert false;
      }
    }
    if r :| 0 <= r < |s.msg| && EndsInSelf(s.found, r) {
      var x := SelfAtTheEnd(s, r);
    }
  }

  /** The server after a first request that flushes itself, in the phases it goes through. */
  function SelfFlush(t: Tag, p: Phase): Srv {
    Srv([Msg(t, Flush(t), false)], [p], [if p.Taken? then 2 else 3], [false], [false], [if p.Parked? then [0] else []],
        [if p.Taken? then None else Some(0)], [if p.Taken? then None else Some(0)],
        map[t := 0], None, if p.Taken? then Some(0) else None, [])
  }

  lemma SelfFlushArrives(t: Tag)
    ensures Enabled(INIT, Arrive(t, Flush(t))) && Apply(INIT, Arrive(t, Flush(t))) == SelfFlush(t, Taken)
    ensures Enabled(SelfFlush(t, Taken), Dispatch) && Apply(SelfFlush(t, Taken), Dispatch) == SelfFlush(t, Handling)
  {
  }

  lemma SelfFlushParks(t: Tag)
    ensures Enabled(SelfFlush(t, Handling), Enter(0)) && Apply(SelfFlush(t, Handling), Enter(0)) == SelfFlush(t, Called)
    ensures Enabled(SelfFlush(t, Called), Check(0)) && Apply(SelfFlush(t, Called), Check(0)) == SelfFlush(t, Parked)
  {
    var s := SelfFlush(t, Called);
    var parked: seq<seq<Id>> := s.flush[0 := s.flush[0] + [0]];
    assert s.flush[0] + [0] == [0];
    assert parked[0] == [0] && parked == SelfFlush(t, Parked).flush;
  }

  lemma SelfFlushSticks(t: Tag)
    ensures Quiet(SelfFlush(t, Parked))
  {
  }

  /** The failing family is not empty: one Tflush of its own tag, and the server is stuck on it. */
  lemma SelfFlushIsStranded(t: Tag)
    ensures exists ss: seq<Srv>, es: seq<Event> :: IsRun(ss, es) && |es| == 4 && |ss[4].msg| == 1 && Quiet(ss[4]) && ss[4].log == []
  {
    var ss := [INIT, SelfFlush(t, Taken), SelfFlush(t, Handling), SelfFlush(t, Called), SelfFlush(t, Parked)];
    var es := [Arrive(t, Flush(t)), Dispatch, Enter(0), Check(0)];
    SelfFlushArrives(t);
    SelfFlushParks(t);
    SelfFlushSticks(t);
    assert IsRun(ss, es);
    assert ss[4] == SelfFlush(t, Parked);
  }

  // ---------------------------------------------------------------- no run goes on for ever

  function Sum(w: seq<nat>): nat {
    if w == [] then 0 else Sum(w[..|w| - 1]) + w[|w| - 1]
  }

  lemma {:induction false} SumChange(a: seq<nat>, b: seq<nat>, i: nat, d: int)
    requires |a| == |b| && i < |a|
    requires forall j :: 0 <= j < |a| && j != i ==> b[j] <= a[j]
    requires b[i] <= a[i] + d
    ensures Sum(b) <= Sum(a) + d
  {
    var n := |a| - 1;
    if i < n {
      SumChange(a[..n], b[..n], i, d);
    } else {
      SumLess(a[..n], b[..n]);
    }
  }

  lemma {:induction false} SumLess(a: seq<nat>, b: seq<nat>)
    requires |a| == |b| && forall j :: 0 <= j < |a| ==> b[j] <= a[j]
    ensures Sum(b) <= Sum(a)
  {
    if a != [] {
      SumLess(a[..|a| - 1], b[..|b| - 1]);
    }
  }

  /** Steps a request still has to make; a first call of respond may park, the second cannot. */
  function Steps(s: Srv, r: Id): nat
    requires s.Shape() && r < |s.msg|
  {
    match s.phase[r]
    case Taken => 40
    case Handling => 30
    case Called => if s.oldreq[r].Some? && s.oldreq[r].value < |s.msg| && !s.responded[s.oldreq[r].value] then 20 else 9
    case Parked => 10
    case Releasing => 8
    case Ready => 7
    case Writing => 6
    case Written => 5
    case Draining(_) => 4
    case Done => 0
  }

  /** Flushes still to be drained. */
  function Undrained(s: Srv, r: Id): nat
    requires s.Shape() && r < |s.msg|
  {
    if s.phase[r].Draining? && s.phase[r].next <= |s.flush[r]| then |s.flush[r]| - s.phase[r].next
    else |s.flush[r]|
  }

  function AllSteps(s: Srv): (w: seq<nat>)
    requires s.Shape()
    ensures |w| == |s.msg| && forall r :: 0 <= r < |s.msg| ==> w[r] == Steps(s, r)
  {
    seq(|s.msg|, r requires 0 <= r < |s.msg| => Steps(s, r))
  }

  function AllUndrained(s: Srv): (w: seq<nat>)
    requires s.Shape()
    ensures |w| == |s.msg| && forall r :: 0 <= r < |s.msg| ==> w[r] == Undrained(s, r)
  {
    seq(|s.msg|, r requires 0 <= r < |s.msg| => Undrained(s, r))
  }

  function Work(s: Srv): nat
    requires s.Shape()
  {
    Sum(AllSteps(s)) + Sum(AllUndrained(s))
  }

  lemma WorkDrops(s: Srv, s': Srv, r: Id, o: Id, d: int)
    requires s.Shape() && s'.Shape() && |s'.msg| == |s.msg| && r < |s.msg| && o < |s.msg|
    requires forall x :: 0 <= x < |s.msg| && x != r ==> Steps(s', x) <= Steps(s, x)
    requires forall x :: 0 <= x < |s.msg| && x != o ==> Undrained(s', x) <= Undrained(s, x)
    requires Steps(s', r) + d < Steps(s, r) && Undrained(s', o) <= Undrained(s, o) + d
    ensures Work(s') < Work(s)
  {
    SumChange(AllSteps(s), AllSteps(s'), r, Steps(s', r) - Steps(s, r));
    SumChange(AllUndrained(s), AllUndrained(s'), o, d);
  }

  /** A step that only moves r on, and perhaps sets responded flags or lets go of r's old request. */
  lemma WorkMove(s: Srv, s': Srv, r: Id)
    requires s.Shape() && s'.Shape() && s'.msg == s.msg && s'.flush == s.flush && r < |s.msg|
    requires forall x :: 0 <= x < |s.msg| && x != r ==> s'.phase[x] == s.phase[x] && s'.oldreq[x] == s.oldreq[x]
    requires forall x :: 0 <= x < |s.msg| ==> s.responded[x] ==> s'.responded[x]
    requires Steps(s', r) < Steps(s, r) && Undrained(s', r) <= Undrained(s, r)
    ensures Work(s') < Work(s)
  {
    WorkDrops(s, s', r, r, 0);
  }

  lemma WorkPark(s: Srv, r: Id, o: Id)
    requires s.Shape() && At(s, r, Called) && s.oldreq[r] == Some(o) && o < |s.msg| && !s.responded[o]
    requires !s.phase[o].Draining?
    ensures Work(SetPhase(s, r, Parked).(flush := s.flush[o := s.flush[o] + [r]])) < Work(s)
  {
    WorkDrops(s, SetPhase(s, r, Parked).(flush := s.flush[o := s.flush[o] + [r]]), r, o, 1);
  }

  lemma WorkFinish(s: Srv, r: Id)
    requires s.Shape() && r < |s.msg| && s.phase[r] == Draining(|s.flush[r]|)
    ensures Work(Close(SetPhase(s, r, Done).(flush := s.flush[r := []]), r)) < Work(s)
  {
    WorkDrops(s, Close(SetPhase(s, r, Done).(flush := s.flush[r := []]), r), r, r, 0);
  }

  lemma WorkNext(s: Srv, r: Id)
    requires s.Shape() && DrainChild(s, r, Done)
    ensures Work(SetPhase(s, r, Draining(s.phase[r].next + 1))) < Work(s)
  {
    WorkDrops(s, SetPhase(s, r, Draining(s.phase[r].next + 1)), r, r, -1);
  }

  /** The flush a drain calls again holds the draining request, which has responded: it cannot park again. */
  lemma DrainedCannotPark(s: Srv, r: Id)
    requires Inv(s) && DrainChild(s, r, Parked)
    ensures s.oldreq[Child(s, r)] == Some(r) && s.responded[r] && Child(s, r) != r
  {
  }

  lemma WorkCall(s: Srv, r: Id, c: Id)
    requires s.Shape() && At(s, c, Parked) && s.oldreq[c] == Some(r) && r < |s.msg| && s.responded[r]
    ensures Work(SetPhase(s, c, Called)) < Work(s)
  {
    WorkMove(s, SetPhase(s, c, Called), c);
  }

  lemma WorkRespond(s: Srv, e: Event)
    requires Enabled(s, e) && (e.Enter? || e.Check? || e.Release? || e.Remove? || e.Write? || e.Mark?)
    requires e.Check? && s.oldreq[e.r].Some? ==> s.responded[s.oldreq[e.r].value]
    ensures Apply(s, e).Shape() && Work(Apply(s, e)) < Work(s)
  {
    WorkMove(s, Apply(s, e), e.r);
  }

  lemma WorkCheck(s: Srv, r: Id)
    requires Inv(s) && Enabled(s, Check(r))
    ensures Apply(s, Check(r)).Shape() && Work(Apply(s, Check(r))) < Work(s)
  {
    if s.oldreq[r].Some? && !s.responded[s.oldreq[r].value] {
      WorkPark(s, r, s.oldreq[r].value);
    } else {
      WorkRespond(s, Check(r));
    }
  }

  lemma WorkDispatch(s: Srv)
    requires Enabled(s, Dispatch) && At(s, s.loop.value, Taken)
    ensures Apply(s, Dispatch).Shape() && Work(Apply(s, Dispatch)) < Work(s)
  {
    WorkMove(s, Apply(s, Dispatch), s.loop.value);
  }

  lemma WorkDrainCall(s: Srv, r: Id)
    requires Inv(s) && Enabled(s, DrainCall(r))
    ensures Apply(s, DrainCall(r)).Shape() && Work(Apply(s, DrainCall(r))) < Work(s)
  {
    DrainedCannotPark(s, r);
    WorkCall(s, r, Child(s, r));
  }

  lemma WorkDrain(s: Srv, e: Event)
    requires Enabled(s, e) && (e.DrainNext? || e.Finish?)
    ensures Apply(s, e).Shape() && Work(Apply(s, e)) < Work(s)
  {
    match e
    case DrainNext(r) =>
      WorkNext(s, r);
    case Finish(r) =>
      WorkFinish(s, r);
  }

  /** Every step other than reading a request uses up work, so between two arrivals a run is finite. */
  lemma WorkShrinks(s: Srv, e: Event)
    requires Inv(s) && Enabled(s, e) && !e.Arrive?
    ensures Apply(s, e).Shape() && Work(Apply(s, e)) < Work(s)
  {
    match e
    case Dispatch =>
      WorkDispatch(s);
    case Check(r) =>
      WorkCheck(s, r);
    case Enter(_) | Release(_) | Remove(_) | Write(_) | Mark(_) =>
      WorkRespond(s, e);
    case DrainCall(r) =>
      WorkDrainCall(s, r);
    case DrainNext(_) | Finish(_) =>
      WorkDrain(s, e);
  }

  /** A run that reads nothing after step k makes at most Work(ss[k]) further steps. */
  lemma {:induction false} RunEnds(ss: seq<Srv>, es: seq<Event>, k: nat)
    requires IsRun(ss, es) && k < |ss|
    requires forall i :: k <= i < |es| ==> !es[i].Arrive?
    ensures ss[k].Shape() && |es| - k <= Work(ss[k])
    decreases |ss| - k
  {
    RunInv(ss, es, k);
    if k < |es| {
      WorkShrinks(ss[k], es[k]);
      RunEnds(ss, es, k + 1);
    }
  }
}
