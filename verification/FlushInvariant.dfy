/** What every step of the request engine keeps. */
module FlushInvariant {
  import opened Counting
  import opened Options
  import opened FlushProtocol

  // ---------------------------------------------------------------- counting references

  /** The number of flushes that hold a reference to r through oldreq. */
  function Naming(oldreq: seq<Option<Id>>, r: Id): nat {
    if oldreq == [] then 0
    else Naming(oldreq[..|oldreq| - 1], r) + B(oldreq[|oldreq| - 1] == Some(r))
  }

  lemma {:induction false} NamingUpdate(oldreq: seq<Option<Id>>, i: nat, o: Option<Id>, r: Id)
    requires i < |oldreq|
    ensures Naming(oldreq[i := o], r) == Naming(oldreq, r) - B(oldreq[i] == Some(r)) + B(o == Some(r))
  {
    var n := |oldreq| - 1;
    if i == n {
      assert oldreq[i := o][..n] == oldreq[..n];
    } else {
      assert oldreq[i := o][..n] == oldreq[..n][i := o];
      NamingUpdate(oldreq[..n], i, o, r);
    }
  }

  lemma NamingAppend(oldreq: seq<Option<Id>>, r: Id)
    ensures Naming(oldreq + [None], r) == Naming(oldreq, r)
  {
    assert (oldreq + [None])[..|oldreq|] == oldreq;
  }

  /** The count is positive exactly when some flush names r. */
  lemma {:induction false} NamingPositive(oldreq: seq<Option<Id>>, r: Id)
    ensures Naming(oldreq, r) > 0 <==> Some(r) in oldreq
  {
    if oldreq != [] {
      NamingPositive(oldreq[..|oldreq| - 1], r);
      assert oldreq == oldreq[..|oldreq| - 1] + [oldreq[|oldreq| - 1]];
    }
  }

  // ---------------------------------------------------------------- the invariant

  /** The tag has not been removed yet. */
  predicate InPool(p: Phase) {
    p.Taken? || p.Handling? || p.Parked? || p.Called? || p.Releasing? || p.Ready?
  }

  predicate Answered(p: Phase) {
    p.Written? || p.Draining? || p.Done?
  }

  /** A flush in one of these phases still holds the reference its lookup took. */
  predicate HoldsOld(p: Phase) {
    p.Handling? || p.Called? || p.Parked? || p.Releasing?
  }

  /** The tag pool maps exactly the tags of the pooled requests that are not yet answered. */
  ghost predicate PoolInv(msg: seq<Msg>, phase: seq<Phase>, pool: map<Tag, Id>) {
    && |msg| == |phase|
    && (forall t :: t in pool ==>
          pool[t] < |msg| && !msg[pool[t]].fake && msg[pool[t]].tag == t && InPool(phase[pool[t]]))
    && (forall r :: 0 <= r < |msg| && !msg[r].fake && InPool(phase[r]) ==>
          msg[r].tag in pool && pool[msg[r].tag] == r)
  }

  /** The serve loop holds the newest request while that is not dispatched; wlock is held by the one Writing. */
  ghost predicate HolderInv(phase: seq<Phase>, loop: Option<Id>, wlock: Option<Id>) {
    && (loop.Some? ==> loop.value == |phase| - 1 && phase[loop.value].Taken?)
    && (wlock.Some? ==> wlock.value < |phase| && phase[wlock.value].Writing?)
    && (forall r :: 0 <= r < |phase| ==>
          (phase[r].Taken? ==> loop == Some(r)) && (phase[r].Writing? ==> wlock == Some(r)))
  }

  predicate Responded(p: Phase) {
    p.Draining? || p.Done?
  }

  ghost predicate RespondedInv(phase: seq<Phase>, responded: seq<bool>) {
    && |responded| == |phase|
    && (forall r :: 0 <= r < |phase| ==> responded[r] == Responded(phase[r]))
  }

  ghost predicate FakeInv(msg: seq<Msg>) {
    forall r :: 0 <= r < |msg| && msg[r].fake ==> msg[r].kind.Plain?
  }

  /** Each request is in the log exactly when it is answered, and only once. */
  ghost predicate LogInv(phase: seq<Phase>, log: seq<Id>) {
    && (forall i :: 0 <= i < |log| ==> log[i] < |phase| && Answered(phase[log[i]]))
    && (forall i, j :: 0 <= i < j < |log| ==> log[i] != log[j])
    && (forall r :: 0 <= r < |phase| && Answered(phase[r]) ==> r in log)
  }

  /** A flush holds the reference its lookup took until rflush lets it go on. */
  ghost predicate HoldInv(phase: seq<Phase>, oldreq: seq<Option<Id>>, found: seq<Option<Id>>) {
    && |oldreq| == |phase| && |found| == |phase|
    && (forall f {:trigger oldreq[f]} :: 0 <= f < |phase| ==> oldreq[f] == (if HoldsOld(phase[f]) then found[f] else None))
  }

  /** A found request came in no later than the flush, under the flushed tag. */
  ghost predicate FoundInv(msg: seq<Msg>, found: seq<Option<Id>>) {
    && |found| == |msg|
    && (forall f {:trigger found[f]} :: 0 <= f < |msg| && found[f].Some? ==>
          && found[f].value <= f
          && msg[f].kind == Flush(msg[found[f].value].tag)
          && !msg[found[f].value].fake)
  }

  /** How far a flush gets before the request it found has responded. */
  predicate Ahead(p: Phase) {
    p.Handling? || p.Called? || p.Parked?
  }

  /** A flush that found a request goes on only after it; one that found itself never goes on. */
  ghost predicate WaitInv(phase: seq<Phase>, found: seq<Option<Id>>) {
    && |found| == |phase|
    && (forall f {:trigger found[f]} :: 0 <= f < |phase| ==>
          && (phase[f].Taken? ==> found[f].None?)
          && (phase[f].Parked? || phase[f].Releasing? ==> found[f].Some?)
          && (found[f].Some? && !Ahead(phase[f]) ==>
                found[f].value < f && Responded(phase[found[f].value])))
  }

  /** Entry i of a flush list, given how far its request has drained. */
  predicate ChildOk(p: Phase, i: nat, c: Phase) {
    if p.Draining? then
      && (i < p.next ==> c.Done?)
      && (i == p.next ==> !c.Taken? && !c.Handling?)
      && (i > p.next ==> c.Parked?)
    else c.Parked?
  }

  /** Every entry of a flush list found the list's owner, and no entry occurs twice. */
  ghost predicate ListInv(flush: seq<seq<Id>>, found: seq<Option<Id>>) {
    && |flush| == |found|
    && (forall r, i :: 0 <= r < |flush| && 0 <= i < |flush[r]| ==>
          flush[r][i] < |found| && found[flush[r][i]] == Some(r))
    && (forall r, i, j :: 0 <= r < |flush| && 0 <= i < j < |flush[r]| ==> flush[r][i] != flush[r][j])
  }

  /** Entries already drained are done, entries still to drain are parked. */
  ghost predicate DrainInv(phase: seq<Phase>, flush: seq<seq<Id>>) {
    && |flush| == |phase|
    && (forall r :: 0 <= r < |phase| ==>
          && (phase[r].Done? ==> flush[r] == [])
          && (phase[r].Draining? ==> phase[r].next <= |flush[r]|))
    && (forall r, i :: 0 <= r < |phase| && 0 <= i < |flush[r]| ==>
          flush[r][i] < |phase| && ChildOk(phase[r], i, phase[flush[r][i]]))
  }

  /** Every parked flush is in the list of the request it found. */
  ghost predicate ParkInv(phase: seq<Phase>, flush: seq<seq<Id>>, found: seq<Option<Id>>) {
    && |flush| == |phase| && |found| == |phase|
    && (forall f :: 0 <= f < |phase| && phase[f].Parked? ==>
          found[f].Some? && found[f].value < |flush| && f in flush[found[f].value])
  }

  /** The references there are to a request: from the tag pool, from its respond, from flushes. */
  function Owed(msg: Msg, p: Phase, naming: nat): nat {
    B(!msg.fake && InPool(p)) + B(!p.Done?) + naming
  }

  /** The count is exact, and the request is freed exactly when nothing refers to it. */
  ghost predicate RefInv(msg: seq<Msg>, phase: seq<Phase>, ref: seq<int>, freed: seq<bool>, oldreq: seq<Option<Id>>) {
    && |phase| == |msg| && |ref| == |msg| && |freed| == |msg| && |oldreq| == |msg|
    && (forall r :: 0 <= r < |msg| ==>
          ref[r] == Owed(msg[r], phase[r], Naming(oldreq, r)) && (freed[r] <==> ref[r] == 0))
  }

  ghost predicate Before(log: seq<Id>, a: Id, b: Id) {
    exists i, j :: 0 <= i < j < |log| && log[i] == a && log[j] == b
  }

  /** f is a Tflush naming the tag under which the pooled request o came in earlier. */
  predicate Flushes(msg: seq<Msg>, f: Id, o: Id) {
    && o < f < |msg|
    && msg[f].kind == Flush(msg[o].tag)
    && !msg[o].fake
  }

  /** How the replies to f and to a request o it flushes are ordered, by the phases of the two. */
  ghost predicate Ordered(f: Phase, o: Phase, foundIt: bool, log: seq<Id>, fid: Id, oid: Id) {
    && (foundIt || !InPool(o))
    && (!HoldsOld(f) ==> !InPool(o))
    && (f.Writing? ==> Answered(o))
    && (Answered(f) ==> Before(log, oid, fid))
  }

  ghost predicate OrderInv(msg: seq<Msg>, phase: seq<Phase>, found: seq<Option<Id>>, log: seq<Id>) {
    && |phase| == |msg| && |found| == |msg|
    && (forall f: Id, o: Id :: Flushes(msg, f, o) && !phase[f].Taken? ==>
          Ordered(phase[f], phase[o], found[f] == Some(o), log, f, o))
  }

  /** A flush of its own tag finds itself. */
  ghost predicate SelfInv(msg: seq<Msg>, phase: seq<Phase>, found: seq<Option<Id>>) {
    && |phase| == |msg| && |found| == |msg|
    && (forall f {:trigger found[f]} :: 0 <= f < |msg| && msg[f].kind == Flush(msg[f].tag) && !phase[f].Taken? ==> found[f] == Some(f))
  }

  ghost predicate Inv(s: Srv) {
    && s.Shape()
    && PoolInv(s.msg, s.phase, s.pool)
    && HolderInv(s.phase, s.loop, s.wlock)
    && RespondedInv(s.phase, s.responded)
    && FakeInv(s.msg)
    && LogInv(s.phase, s.log)
    && HoldInv(s.phase, s.oldreq, s.found)
    && FoundInv(s.msg, s.found)
    && WaitInv(s.phase, s.found)
    && ListInv(s.flush, s.found)
    && DrainInv(s.phase, s.flush)
    && ParkInv(s.phase, s.flush, s.found)
    && RefInv(s.msg, s.phase, s.ref, s.freed, s.oldreq)
    && OrderInv(s.msg, s.phase, s.found, s.log)
    && SelfInv(s.msg, s.phase, s.found)
  }

  // ---------------------------------------------------------------- one request changes phase

  lemma PoolMove(msg: seq<Msg>, phase: seq<Phase>, pool: map<Tag, Id>, r: Id, p: Phase)
    requires PoolInv(msg, phase, pool) && r < |msg|
    requires msg[r].fake || InPool(p) == InPool(phase[r])
    ensures PoolInv(msg, phase[r := p], pool)
  {
  }

  lemma PoolRemove(msg: seq<Msg>, phase: seq<Phase>, pool: map<Tag, Id>, r: Id)
    requires PoolInv(msg, phase, pool) && r < |msg| && !msg[r].fake && InPool(phase[r])
    ensures PoolInv(msg, phase[r := Writing], pool - {msg[r].tag})
  {
  }

  lemma HolderMove(phase: seq<Phase>, loop: Option<Id>, wlock: Option<Id>, r: Id, p: Phase)
    requires HolderInv(phase, loop, wlock) && r < |phase| && !p.Taken?
    requires p.Writing? ==> wlock.None?
    ensures HolderInv(phase[r := p], if phase[r].Taken? then None else loop,
                      if p.Writing? then Some(r) else if phase[r].Writing? then None else wlock)
  {
  }

  lemma RespondedMove(phase: seq<Phase>, responded: seq<bool>, r: Id, p: Phase)
    requires RespondedInv(phase, responded) && r < |phase| && Responded(p) == Responded(phase[r])
    ensures RespondedInv(phase[r := p], responded)
  {
  }

  lemma LogMove(phase: seq<Phase>, log: seq<Id>, r: Id, p: Phase)
    requires LogInv(phase, log) && r < |phase| && Answered(p) == Answered(phase[r])
    ensures LogInv(phase[r := p], log)
  {
  }

  lemma LogWrite(phase: seq<Phase>, log: seq<Id>, r: Id)
    requires LogInv(phase, log) && r < |phase| && phase[r].Writing?
    ensures LogInv(phase[r := Written], log + [r])
  {
  }

  lemma HoldMove(phase: seq<Phase>, oldreq: seq<Option<Id>>, found: seq<Option<Id>>, r: Id, p: Phase)
    requires HoldInv(phase, oldreq, found) && r < |phase|
    requires HoldsOld(p) == HoldsOld(phase[r]) || found[r].None?
    ensures HoldInv(phase[r := p], oldreq, found)
  {
  }

  lemma WaitMove(phase: seq<Phase>, found: seq<Option<Id>>, r: Id, p: Phase)
    requires WaitInv(phase, found) && r < |phase| && !p.Taken?
    requires Responded(phase[r]) ==> Responded(p)
    requires p.Parked? || p.Releasing? ==> found[r].Some?
    requires found[r].Some? && !Ahead(p) ==> found[r].value < r && Responded(phase[found[r].value])
    ensures WaitInv(phase[r := p], found)
  {
  }

  lemma SelfMove(msg: seq<Msg>, phase: seq<Phase>, found: seq<Option<Id>>, r: Id, p: Phase)
    requires SelfInv(msg, phase, found) && r < |msg| && !phase[r].Taken?
    ensures SelfInv(msg, phase[r := p], found)
  {
  }

  /** A request that is neither parked nor done can only be the child its owner is answering. */
  lemma DrainMove(phase: seq<Phase>, flush: seq<seq<Id>>, r: Id, p: Phase)
    requires DrainInv(phase, flush) && r < |phase|
    requires !phase[r].Parked? && !phase[r].Done? && !p.Done? && !p.Taken?
    requires p.Handling? ==> phase[r].Taken?
    requires if p.Draining? then (p.next == 0 && !phase[r].Draining?) else !phase[r].Draining?
    ensures DrainInv(phase[r := p], flush)
  {
  }

  lemma DrainCalled(phase: seq<Phase>, flush: seq<seq<Id>>, found: seq<Option<Id>>, r: Id)
    requires DrainInv(phase, flush) && ListInv(flush, found) && r < |phase|
    requires phase[r].Draining? && phase[r].next < |flush[r]| && phase[flush[r][phase[r].next]].Parked?
    ensures DrainInv(phase[flush[r][phase[r].next] := Called], flush)
  {
    var c := flush[r][phase[r].next];
    forall o, i | 0 <= o < |phase| && 0 <= i < |flush[o]| && flush[o][i] == c
      ensures o == r && i == phase[r].next
    {
      assert found[c] == Some(o) && found[c] == Some(r);
    }
  }

  lemma DrainedNext(phase: seq<Phase>, flush: seq<seq<Id>>, r: Id)
    requires DrainInv(phase, flush) && r < |phase|
    requires phase[r].Draining? && phase[r].next < |flush[r]| && phase[flush[r][phase[r].next]].Done?
    ensures DrainInv(phase[r := Draining(phase[r].next + 1)], flush)
  {
  }

  lemma ParkMove(phase: seq<Phase>, flush: seq<seq<Id>>, found: seq<Option<Id>>, r: Id, p: Phase)
    requires ParkInv(phase, flush, found) && r < |phase| && !p.Parked?
    ensures ParkInv(phase[r := p], flush, found)
  {
  }

  lemma RefMove(msg: seq<Msg>, phase: seq<Phase>, ref: seq<int>, freed: seq<bool>, oldreq: seq<Option<Id>>, r: Id, p: Phase)
    requires RefInv(msg, phase, ref, freed, oldreq) && r < |msg|
    requires (msg[r].fake || InPool(p) == InPool(phase[r])) && p.Done? == phase[r].Done?
    ensures RefInv(msg, phase[r := p], ref, freed, oldreq)
  {
  }

  /** A reference of r goes together with what it was counted for. */
  lemma RefDrop(msg: seq<Msg>, phase: seq<Phase>, ref: seq<int>, freed: seq<bool>, oldreq: seq<Option<Id>>, r: Id, p: Phase)
    requires RefInv(msg, phase, ref, freed, oldreq) && r < |msg|
    requires Owed(msg[r], p, 0) + 1 == Owed(msg[r], phase[r], 0)
    ensures RefInv(msg, phase[r := p], ref[r := ref[r] - 1], freed[r := ref[r] == 1], oldreq)
  {
  }

  lemma OrderMove(msg: seq<Msg>, phase: seq<Phase>, found: seq<Option<Id>>, log: seq<Id>, r: Id, p: Phase)
    requires OrderInv(msg, phase, found, log) && r < |msg| && !phase[r].Taken?
    requires InPool(p) == InPool(phase[r]) && Answered(p) == Answered(phase[r]) && p.Writing? == phase[r].Writing?
    requires HoldsOld(phase[r]) && !HoldsOld(p) ==> found[r].None?
    ensures OrderInv(msg, phase[r := p], found, log)
  {
    forall f: Id, o: Id | Flushes(msg, f, o) && !phase[r := p][f].Taken?
      ensures Ordered(phase[r := p][f], phase[r := p][o], found[f] == Some(o), log, f, o)
    {
      assert Ordered(phase[f], phase[o], found[f] == Some(o), log, f, o);
    }
  }

  // ---------------------------------------------------------------- the remaining changes

  lemma OrderReady(msg: seq<Msg>, phase: seq<Phase>, found: seq<Option<Id>>, log: seq<Id>, r: Id)
    requires OrderInv(msg, phase, found, log) && WaitInv(phase, found) && r < |msg| && phase[r].Releasing?
    ensures OrderInv(msg, phase[r := Ready], found, log)
  {
    forall f: Id, o: Id | Flushes(msg, f, o) && !phase[r := Ready][f].Taken?
      ensures Ordered(phase[r := Ready][f], phase[r := Ready][o], found[f] == Some(o), log, f, o)
    {
      assert Ordered(phase[f], phase[o], found[f] == Some(o), log, f, o);
    }
  }

  /** Taking wlock: every earlier request with the flushed tag is out of the pool and not at its write. */
  lemma OrderWriting(msg: seq<Msg>, phase: seq<Phase>, found: seq<Option<Id>>, log: seq<Id>, loop: Option<Id>, r: Id)
    requires OrderInv(msg, phase, found, log) && HolderInv(phase, loop, None) && r < |msg| && phase[r].Ready?
    ensures OrderInv(msg, phase[r := Writing], found, log)
  {
    forall f: Id, o: Id | Flushes(msg, f, o) && !phase[r := Writing][f].Taken?
      ensures Ordered(phase[r := Writing][f], phase[r := Writing][o], found[f] == Some(o), log, f, o)
    {
      assert Ordered(phase[f], phase[o], found[f] == Some(o), log, f, o);
    }
  }

  lemma OrderWrite(msg: seq<Msg>, phase: seq<Phase>, found: seq<Option<Id>>, log: seq<Id>, r: Id)
    requires OrderInv(msg, phase, found, log) && LogInv(phase, log) && r < |msg| && phase[r].Writing?
    ensures OrderInv(msg, phase[r := Written], found, log + [r])
  {
    forall f: Id, o: Id | Flushes(msg, f, o) && !phase[r := Written][f].Taken?
      ensures Ordered(phase[r := Written][f], phase[r := Written][o], found[f] == Some(o), log + [r], f, o)
    {
      assert Ordered(phase[f], phase[o], found[f] == Some(o), log, f, o);
      if f == r {
        var i :| 0 <= i < |log| && log[i] == o;
        assert (log + [r])[i] == o && (log + [r])[|log|] == f;
      } else if Answered(phase[f]) {
        var i, j :| 0 <= i < j < |log| && log[i] == o && log[j] == f;
        assert (log + [r])[i] == o && (log + [r])[j] == f;
      }
    }
  }

  lemma KeepMove(s: Srv, r: Id, p: Phase)
    requires Inv(s) && r < |s.msg| && !s.phase[r].Taken? && !p.Taken?
    requires InPool(p) == InPool(s.phase[r]) && Responded(p) == Responded(s.phase[r])
    requires Answered(p) == Answered(s.phase[r]) && !p.Writing? && !s.phase[r].Writing?
    requires HoldsOld(p) == HoldsOld(s.phase[r]) || s.found[r].None?
    requires !p.Parked? && (p.Releasing? ==> s.found[r].Some?) && p.Done? == s.phase[r].Done?
    requires s.found[r].Some? && !Ahead(p) ==> s.found[r].value < r && Responded(s.phase[s.found[r].value])
    requires DrainInv(s.phase[r := p], s.flush)
    ensures Inv(SetPhase(s, r, p))
  {
    PoolMove(s.msg, s.phase, s.pool, r, p);
    HolderMove(s.phase, s.loop, s.wlock, r, p);
    RespondedMove(s.phase, s.responded, r, p);
    LogMove(s.phase, s.log, r, p);
    HoldMove(s.phase, s.oldreq, s.found, r, p);
    WaitMove(s.phase, s.found, r, p);
    SelfMove(s.msg, s.phase, s.found, r, p);
    ParkMove(s.phase, s.flush, s.found, r, p);
    RefMove(s.msg, s.phase, s.ref, s.freed, s.oldreq, r, p);
    OrderMove(s.msg, s.phase, s.found, s.log, r, p);
  }

  lemma KeepEnter(s: Srv, r: Id)
    requires Inv(s) && At(s, r, Handling)
    ensures Inv(SetPhase(s, r, Called))
  {
    DrainMove(s.phase, s.flush, r, Called);
    KeepMove(s, r, Called);
  }

  lemma KeepDrainCall(s: Srv, r: Id)
    requires Inv(s) && DrainChild(s, r, Parked)
    ensures Inv(SetPhase(s, Child(s, r), Called))
  {
    DrainCalled(s.phase, s.flush, s.found, r);
    KeepMove(s, Child(s, r), Called);
  }

  lemma KeepDrainNext(s: Srv, r: Id)
    requires Inv(s) && DrainChild(s, r, Done)
    ensures Inv(SetPhase(s, r, Draining(s.phase[r].next + 1)))
  {
    var p := Draining(s.phase[r].next + 1);
    DrainedNext(s.phase, s.flush, r);
    KeepMove(s, r, p);
  }

  lemma KeepCheckOn(s: Srv, r: Id)
    requires Inv(s) && At(s, r, Called) && (s.oldreq[r].Some? ==> s.responded[s.oldreq[r].value])
    ensures Inv(SetPhase(s, r, if s.oldreq[r].None? then Ready else Releasing))
  {
    var p := if s.oldreq[r].None? then Ready else Releasing;
    DrainMove(s.phase, s.flush, r, p);
    KeepMove(s, r, p);
  }

  lemma {:induction false} ListPark(flush: seq<seq<Id>>, found: seq<Option<Id>>, r: Id, o: Id)
    requires ListInv(flush, found) && r < |found| && found[r] == Some(o) && o < |flush|
    requires r !in flush[o]
    ensures ListInv(flush[o := flush[o] + [r]], found)
  {
  }

  lemma DrainPark(phase: seq<Phase>, flush: seq<seq<Id>>, r: Id, o: Id)
    requires DrainInv(phase, flush) && r < |phase| && o < |phase|
    requires phase[r].Called? && !Responded(phase[o])
    requires forall x, i :: 0 <= x < |flush| && 0 <= i < |flush[x]| && flush[x][i] == r ==> x == o
    ensures r !in flush[o]
    ensures DrainInv(phase[r := Parked], flush[o := flush[o] + [r]])
  {
    forall i | 0 <= i < |flush[o]|
      ensures flush[o][i] != r
    {
      assert ChildOk(phase[o], i, phase[flush[o][i]]);
    }
    var phase', flush' := phase[r := Parked], flush[o := flush[o] + [r]];
    forall x, i | 0 <= x < |phase'| && 0 <= i < |flush'[x]|
      ensures flush'[x][i] < |phase'| && ChildOk(phase'[x], i, phase'[flush'[x][i]])
    {
      if x != o || i < |flush[o]| {
        assert ChildOk(phase[x], i, phase[flush[x][i]]);
      }
    }
  }

  lemma ParkPark(phase: seq<Phase>, flush: seq<seq<Id>>, found: seq<Option<Id>>, r: Id, o: Id)
    requires ParkInv(phase, flush, found) && r < |phase| && o < |flush| && found[r] == Some(o)
    ensures ParkInv(phase[r := Parked], flush[o := flush[o] + [r]], found)
  {
  }

  lemma KeepPark(s: Srv, r: Id, o: Id)
    requires Inv(s) && At(s, r, Called) && s.oldreq[r] == Some(o) && !s.responded[o]
    ensures Inv(SetPhase(s, r, Parked).(flush := s.flush[o := s.flush[o] + [r]]))
  {
    assert s.found[r] == Some(o) && o <= r && !Responded(s.phase[o]);
    DrainPark(s.phase, s.flush, r, o);
    ListPark(s.flush, s.found, r, o);
    ParkPark(s.phase, s.flush, s.found, r, o);
    PoolMove(s.msg, s.phase, s.pool, r, Parked);
    HolderMove(s.phase, s.loop, s.wlock, r, Parked);
    RespondedMove(s.phase, s.responded, r, Parked);
    LogMove(s.phase, s.log, r, Parked);
    HoldMove(s.phase, s.oldreq, s.found, r, Parked);
    WaitMove(s.phase, s.found, r, Parked);
    SelfMove(s.msg, s.phase, s.found, r, Parked);
    RefMove(s.msg, s.phase, s.ref, s.freed, s.oldreq, r, Parked);
    OrderMove(s.msg, s.phase, s.found, s.log, r, Parked);
  }

  lemma HoldRelease(phase: seq<Phase>, oldreq: seq<Option<Id>>, found: seq<Option<Id>>, r: Id)
    requires HoldInv(phase, oldreq, found) && r < |phase|
    ensures HoldInv(phase[r := Ready], oldreq[r := None], found)
  {
  }

  lemma RefRelease(msg: seq<Msg>, phase: seq<Phase>, ref: seq<int>, freed: seq<bool>, oldreq: seq<Option<Id>>, r: Id, o: Id)
    requires RefInv(msg, phase, ref, freed, oldreq) && r < |msg| && o < |msg| && r != o
    requires phase[r].Releasing? && oldreq[r] == Some(o)
    ensures RefInv(msg, phase[r := Ready], ref[o := ref[o] - 1], freed[o := ref[o] == 1], oldreq[r := None])
  {
    forall x | 0 <= x < |msg|
      ensures Naming(oldreq[r := None], x) == Naming(oldreq, x) - B(x == o)
    {
      NamingUpdate(oldreq, r, None, x);
    }
  }

  /** The tables when a releasing flush has become ready. */
  lemma ReadyTables(s: Srv, r: Id, o: Id)
    requires s.Shape() && At(s, r, Releasing) && s.found[r] == Some(o) && o < r && Responded(s.phase[o])
    requires PoolInv(s.msg, s.phase, s.pool) && HolderInv(s.phase, s.loop, s.wlock) && RespondedInv(s.phase, s.responded)
    requires LogInv(s.phase, s.log) && WaitInv(s.phase, s.found) && SelfInv(s.msg, s.phase, s.found)
    ensures
      var phase := s.phase[r := Ready];
      && PoolInv(s.msg, phase, s.pool) && HolderInv(phase, s.loop, s.wlock) && RespondedInv(phase, s.responded)
      && LogInv(phase, s.log) && WaitInv(phase, s.found) && SelfInv(s.msg, phase, s.found)
  {
    PoolMove(s.msg, s.phase, s.pool, r, Ready);
    HolderMove(s.phase, s.loop, s.wlock, r, Ready);
    RespondedMove(s.phase, s.responded, r, Ready);
    LogMove(s.phase, s.log, r, Ready);
    WaitMove(s.phase, s.found, r, Ready);
    SelfMove(s.msg, s.phase, s.found, r, Ready);
  }

  /** The flush lists and the order of replies then. */
  lemma ReadyLists(s: Srv, r: Id)
    requires Inv(s) && At(s, r, Releasing)
    ensures
      var phase := s.phase[r := Ready];
      DrainInv(phase, s.flush) && ParkInv(phase, s.flush, s.found) && OrderInv(s.msg, phase, s.found, s.log)
  {
    DrainMove(s.phase, s.flush, r, Ready);
    ParkMove(s.phase, s.flush, s.found, r, Ready);
    OrderReady(s.msg, s.phase, s.found, s.log, r);
  }

  lemma KeepRelease(s: Srv, r: Id, o: Id)
    requires Inv(s) && At(s, r, Releasing) && s.oldreq[r] == Some(o)
    requires s.found[r] == Some(o) && o < r && Responded(s.phase[o])
    ensures Inv(Close(SetPhase(s, r, Ready).(oldreq := s.oldreq[r := None]), o))
  {
    RefRelease(s.msg, s.phase, s.ref, s.freed, s.oldreq, r, o);
    HoldRelease(s.phase, s.oldreq, s.found, r);
    ReadyTables(s, r, o);
    ReadyLists(s, r);
  }

  /** What is known about the old request stays known to a request that goes on. */
  lemma LaterTables(s: Srv, r: Id, p: Phase)
    requires s.Shape() && r < |s.msg| && !s.phase[r].Taken? && !Ahead(s.phase[r])
    requires HoldInv(s.phase, s.oldreq, s.found) && WaitInv(s.phase, s.found) && SelfInv(s.msg, s.phase, s.found)
    requires !p.Taken? && !p.Parked? && !p.Releasing? && !Ahead(p) && HoldsOld(p) == HoldsOld(s.phase[r])
    requires Responded(s.phase[r]) ==> Responded(p)
    ensures
      var phase := s.phase[r := p];
      HoldInv(phase, s.oldreq, s.found) && WaitInv(phase, s.found) && SelfInv(s.msg, phase, s.found)
  {
    HoldMove(s.phase, s.oldreq, s.found, r, p);
    WaitMove(s.phase, s.found, r, p);
    SelfMove(s.msg, s.phase, s.found, r, p);
  }

  lemma LaterLists(s: Srv, r: Id, p: Phase)
    requires s.Shape() && r < |s.msg| && DrainInv(s.phase, s.flush) && ParkInv(s.phase, s.flush, s.found)
    requires !s.phase[r].Parked? && !s.phase[r].Done? && !s.phase[r].Draining?
    requires !p.Parked? && !p.Done? && !p.Taken? && !p.Handling? && (p.Draining? ==> p.next == 0)
    ensures DrainInv(s.phase[r := p], s.flush) && ParkInv(s.phase[r := p], s.flush, s.found)
  {
    DrainMove(s.phase, s.flush, r, p);
    ParkMove(s.phase, s.flush, s.found, r, p);
  }

  lemma PoolRefRemove(s: Srv, r: Id)
    requires s.Shape() && PoolInv(s.msg, s.phase, s.pool) && RefInv(s.msg, s.phase, s.ref, s.freed, s.oldreq)
    requires At(s, r, Ready) && s.wlock.None?
    ensures var s' := ApplyRemove(s, r); PoolInv(s'.msg, s'.phase, s'.pool) && RefInv(s'.msg, s'.phase, s'.ref, s'.freed, s'.oldreq)
  {
    if s.msg[r].fake {
      PoolMove(s.msg, s.phase, s.pool, r, Writing);
      RefMove(s.msg, s.phase, s.ref, s.freed, s.oldreq, r, Writing);
    } else {
      PoolRemove(s.msg, s.phase, s.pool, r);
      RefDrop(s.msg, s.phase, s.ref, s.freed, s.oldreq, r, Writing);
    }
  }

  lemma KeepRemove(s: Srv, r: Id)
    requires Inv(s) && At(s, r, Ready) && s.wlock.None?
    ensures Inv(ApplyRemove(s, r))
  {
    PoolRefRemove(s, r);
    HolderMove(s.phase, s.loop, s.wlock, r, Writing);
    RespondedMove(s.phase, s.responded, r, Writing);
    LogMove(s.phase, s.log, r, Writing);
    LaterTables(s, r, Writing);
    LaterLists(s, r, Writing);
    OrderWriting(s.msg, s.phase, s.found, s.log, s.loop, r);
    assert Apply(s, Remove(r)) == ApplyRemove(s, r);
  }

  lemma KeepWrite(s: Srv, r: Id)
    requires Inv(s) && At(s, r, Writing)
    ensures Inv(SetPhase(s, r, Written).(wlock := None, log := s.log + [r]))
  {
    PoolMove(s.msg, s.phase, s.pool, r, Written);
    HolderMove(s.phase, s.loop, s.wlock, r, Written);
    RespondedMove(s.phase, s.responded, r, Written);
    LogWrite(s.phase, s.log, r);
    LaterTables(s, r, Written);
    DrainMove(s.phase, s.flush, r, Written);
    ParkMove(s.phase, s.flush, s.found, r, Written);
    RefMove(s.msg, s.phase, s.ref, s.freed, s.oldreq, r, Written);
    OrderWrite(s.msg, s.phase, s.found, s.log, r);
  }

  lemma KeepMark(s: Srv, r: Id)
    requires Inv(s) && At(s, r, Written)
    ensures Inv(SetPhase(s, r, Draining(0)).(responded := s.responded[r := true]))
  {
    var p := Draining(0);
    PoolMove(s.msg, s.phase, s.pool, r, p);
    HolderMove(s.phase, s.loop, s.wlock, r, p);
    LogMove(s.phase, s.log, r, p);
    LaterTables(s, r, p);
    LaterLists(s, r, p);
    RefMove(s.msg, s.phase, s.ref, s.freed, s.oldreq, r, p);
    OrderMove(s.msg, s.phase, s.found, s.log, r, p);
  }

  lemma ListFinish(flush: seq<seq<Id>>, found: seq<Option<Id>>, r: Id)
    requires ListInv(flush, found) && r < |flush|
    ensures ListInv(flush[r := []], found)
  {
  }

  /** When the drain loop ends, every entry of the list is done, so none is still parked. */
  lemma DrainFinish(phase: seq<Phase>, flush: seq<seq<Id>>, found: seq<Option<Id>>, r: Id)
    requires DrainInv(phase, flush) && ParkInv(phase, flush, found) && r < |phase|
    requires phase[r] == Draining(|flush[r]|)
    ensures DrainInv(phase[r := Done], flush[r := []])
    ensures ParkInv(phase[r := Done], flush[r := []], found)
  {
    forall i | 0 <= i < |flush[r]|
      ensures phase[flush[r][i]].Done?
    {
      assert ChildOk(phase[r], i, phase[flush[r][i]]);
    }
  }

  lemma KeepFinish(s: Srv, r: Id)
    requires Inv(s) && r < |s.msg| && s.phase[r] == Draining(|s.flush[r]|)
    ensures Inv(Close(SetPhase(s, r, Done).(flush := s.flush[r := []]), r))
  {
    PoolMove(s.msg, s.phase, s.pool, r, Done);
    HolderMove(s.phase, s.loop, s.wlock, r, Done);
    RespondedMove(s.phase, s.responded, r, Done);
    LogMove(s.phase, s.log, r, Done);
    LaterTables(s, r, Done);
    ListFinish(s.flush, s.found, r);
    DrainFinish(s.phase, s.flush, s.found, r);
    RefDrop(s.msg, s.phase, s.ref, s.freed, s.oldreq, r, Done);
    OrderMove(s.msg, s.phase, s.found, s.log, r, Done);
  }

  // ---------------------------------------------------------------- dispatch and arrival

  lemma HoldDispatch(phase: seq<Phase>, oldreq: seq<Option<Id>>, found: seq<Option<Id>>, r: Id, t: Option<Id>)
    requires HoldInv(phase, oldreq, found) && r < |phase|
    ensures HoldInv(phase[r := Handling], oldreq[r := t], found[r := t])
  {
  }

  lemma WaitDispatch(phase: seq<Phase>, found: seq<Option<Id>>, r: Id, t: Option<Id>)
    requires WaitInv(phase, found) && r < |phase| && phase[r].Taken?
    ensures WaitInv(phase[r := Handling], found[r := t])
  {
  }

  /** What the lookup finds: the pooled request under the flushed tag, which came in no later than r. */
  lemma LookupOk(s: Srv, r: Id)
    requires PoolInv(s.msg, s.phase, s.pool) && FakeInv(s.msg) && r == |s.msg| - 1 && InPool(s.phase[r])
    ensures
      var t := Lookup(s, r);
      t.Some? ==> t.value <= r && s.msg[r].kind == Flush(s.msg[t.value].tag) && !s.msg[t.value].fake && InPool(s.phase[t.value])
    ensures forall o: Id :: Flushes(s.msg, r, o) && InPool(s.phase[o]) ==> Lookup(s, r) == Some(o)
    ensures s.msg[r].kind == Flush(s.msg[r].tag) ==> Lookup(s, r) == Some(r)
  {
  }

  lemma FoundDispatch(msg: seq<Msg>, found: seq<Option<Id>>, r: Id, t: Option<Id>)
    requires FoundInv(msg, found) && r < |msg|
    requires t.Some? ==> t.value <= r && msg[r].kind == Flush(msg[t.value].tag) && !msg[t.value].fake
    ensures FoundInv(msg, found[r := t])
  {
  }

  lemma ListDispatch(phase: seq<Phase>, flush: seq<seq<Id>>, found: seq<Option<Id>>, r: Id, t: Option<Id>)
    requires ListInv(flush, found) && r < |found| && found[r].None?
    requires ParkInv(phase, flush, found) && phase[r].Taken?
    ensures ListInv(flush, found[r := t])
    ensures ParkInv(phase[r := Handling], flush, found[r := t])
  {
  }

  lemma RefDispatch(msg: seq<Msg>, phase: seq<Phase>, ref: seq<int>, freed: seq<bool>, oldreq: seq<Option<Id>>, r: Id, t: Option<Id>)
    requires RefInv(msg, phase, ref, freed, oldreq) && r < |msg| && phase[r].Taken? && oldreq[r].None?
    requires t.Some? ==> t.value < |msg| && InPool(phase[t.value]) && !msg[t.value].fake
    ensures RefInv(msg, phase[r := Handling], if t.Some? then ref[t.value := ref[t.value] + 1] else ref, freed, oldreq[r := t])
  {
    forall x | 0 <= x < |msg|
      ensures Naming(oldreq[r := t], x) == Naming(oldreq, x) + B(t == Some(x))
    {
      NamingUpdate(oldreq, r, t, x);
    }
  }

  lemma OrderDispatch(msg: seq<Msg>, phase: seq<Phase>, found: seq<Option<Id>>, log: seq<Id>, r: Id, t: Option<Id>)
    requires OrderInv(msg, phase, found, log) && r == |msg| - 1 && phase[r].Taken?
    requires forall o: Id :: Flushes(msg, r, o) && InPool(phase[o]) ==> t == Some(o)
    requires SelfInv(msg, phase, found) && (msg[r].kind == Flush(msg[r].tag) ==> t == Some(r))
    ensures OrderInv(msg, phase[r := Handling], found[r := t], log)
    ensures SelfInv(msg, phase[r := Handling], found[r := t])
  {
    forall f: Id, o: Id | Flushes(msg, f, o) && !phase[r := Handling][f].Taken?
      ensures Ordered(phase[r := Handling][f], phase[r := Handling][o], found[r := t][f] == Some(o), log, f, o)
    {
      if f != r {
        assert Ordered(phase[f], phase[o], found[f] == Some(o), log, f, o);
      }
    }
  }

  /** What does not depend on the lookup. */
  lemma DispatchTables(s: Srv, r: Id)
    requires Enabled(s, Dispatch) && s.loop == Some(r) && s.phase[r].Taken?
    requires PoolInv(s.msg, s.phase, s.pool) && HolderInv(s.phase, s.loop, s.wlock)
    requires RespondedInv(s.phase, s.responded) && LogInv(s.phase, s.log) && DrainInv(s.phase, s.flush)
    ensures
      var s' := ApplyDispatch(s);
      && s'.Shape() && PoolInv(s'.msg, s'.phase, s'.pool) && HolderInv(s'.phase, s'.loop, s'.wlock)
      && RespondedInv(s'.phase, s'.responded) && LogInv(s'.phase, s'.log) && DrainInv(s'.phase, s'.flush)
  {
    PoolMove(s.msg, s.phase, s.pool, r, Handling);
    HolderMove(s.phase, s.loop, s.wlock, r, Handling);
    RespondedMove(s.phase, s.responded, r, Handling);
    LogMove(s.phase, s.log, r, Handling);
    DrainMove(s.phase, s.flush, r, Handling);
  }

  /** What the lookup finds becomes the old request. */
  lemma DispatchFound(s: Srv, r: Id, t: Option<Id>)
    requires Enabled(s, Dispatch) && s.loop == Some(r) && s.phase[r].Taken? && t == Lookup(s, r)
    requires HoldInv(s.phase, s.oldreq, s.found) && FoundInv(s.msg, s.found) && WaitInv(s.phase, s.found)
    requires ListInv(s.flush, s.found) && ParkInv(s.phase, s.flush, s.found)
    requires t.Some? ==> t.value <= r && s.msg[r].kind == Flush(s.msg[t.value].tag) && !s.msg[t.value].fake
    ensures
      var s' := ApplyDispatch(s);
      && HoldInv(s'.phase, s'.oldreq, s'.found) && FoundInv(s'.msg, s'.found) && WaitInv(s'.phase, s'.found)
      && ListInv(s'.flush, s'.found) && ParkInv(s'.phase, s'.flush, s'.found)
  {
    HoldDispatch(s.phase, s.oldreq, s.found, r, t);
    FoundDispatch(s.msg, s.found, r, t);
    WaitDispatch(s.phase, s.found, r, t);
    ListDispatch(s.phase, s.flush, s.found, r, t);
  }

  /** It is the right one, so the replies stay in order, and it is counted. */
  lemma DispatchOrder(s: Srv, r: Id, t: Option<Id>)
    requires Enabled(s, Dispatch) && s.loop == Some(r) && s.phase[r].Taken? && t == Lookup(s, r)
    requires r == |s.msg| - 1 && s.oldreq[r].None?
    requires PoolInv(s.msg, s.phase, s.pool) && FakeInv(s.msg) && RefInv(s.msg, s.phase, s.ref, s.freed, s.oldreq)
    requires OrderInv(s.msg, s.phase, s.found, s.log) && SelfInv(s.msg, s.phase, s.found)
    ensures t.Some? ==> t.value <= r && s.msg[r].kind == Flush(s.msg[t.value].tag) && !s.msg[t.value].fake
    ensures
      var s' := ApplyDispatch(s);
      && s'.msg == s.msg && RefInv(s'.msg, s'.phase, s'.ref, s'.freed, s'.oldreq)
      && OrderInv(s'.msg, s'.phase, s'.found, s'.log) && SelfInv(s'.msg, s'.phase, s'.found)
  {
    LookupOk(s, r);
    RefDispatch(s.msg, s.phase, s.ref, s.freed, s.oldreq, r, t);
    OrderDispatch(s.msg, s.phase, s.found, s.log, r, t);
  }

  lemma KeepDispatch(s: Srv, r: Id)
    requires Inv(s) && s.loop == Some(r) && Enabled(s, Dispatch)
    ensures Inv(ApplyDispatch(s))
  {
    var t := Lookup(s, r);
    DispatchTables(s, r);
    DispatchOrder(s, r, t);
    DispatchFound(s, r, t);
  }

  lemma ArriveLists(s: Srv, p: Phase)
    requires Inv(s) && InPool(p) && !p.Parked? && !p.Releasing?
    ensures HoldInv(s.phase + [p], s.oldreq + [None], s.found + [None])
    ensures WaitInv(s.phase + [p], s.found + [None])
    ensures ListInv(s.flush + [[]], s.found + [None])
    ensures DrainInv(s.phase + [p], s.flush + [[]])
    ensures ParkInv(s.phase + [p], s.flush + [[]], s.found + [None])
    ensures LogInv(s.phase + [p], s.log)
    ensures RespondedInv(s.phase + [p], s.responded + [false])
  {
  }

  lemma ArriveFound(msg: seq<Msg>, found: seq<Option<Id>>, m: Msg)
    requires FoundInv(msg, found) && FakeInv(msg) && (m.fake ==> m.kind.Plain?)
    ensures FoundInv(msg + [m], found + [None]) && FakeInv(msg + [m])
  {
  }

  lemma ArrivePool(msg: seq<Msg>, phase: seq<Phase>, pool: map<Tag, Id>, wlock: Option<Id>, m: Msg, p: Phase)
    requires PoolInv(msg, phase, pool) && HolderInv(phase, None, wlock)
    requires m.fake == (m.tag in pool) && p == (if m.fake then Handling else Taken)
    ensures PoolInv(msg + [m], phase + [p], if m.fake then pool else pool[m.tag := |msg|])
    ensures HolderInv(phase + [p], if m.fake then None else Some(|msg|), wlock)
  {
  }

  lemma ArriveOrder(msg: seq<Msg>, phase: seq<Phase>, found: seq<Option<Id>>, log: seq<Id>, m: Msg, p: Phase)
    requires OrderInv(msg, phase, found, log) && (m.fake ==> m.kind.Plain?) && (!m.fake ==> p.Taken?)
    requires SelfInv(msg, phase, found)
    ensures OrderInv(msg + [m], phase + [p], found + [None], log)
    ensures SelfInv(msg + [m], phase + [p], found + [None])
  {
    var msg', phase', found' := msg + [m], phase + [p], found + [None];
    forall f: Id, o: Id | Flushes(msg', f, o) && !phase'[f].Taken?
      ensures Ordered(phase'[f], phase'[o], found'[f] == Some(o), log, f, o)
    {
      assert Flushes(msg, f, o);
      assert Ordered(phase[f], phase[o], found[f] == Some(o), log, f, o);
    }
  }

  lemma ArriveRef(msg: seq<Msg>, phase: seq<Phase>, ref: seq<int>, freed: seq<bool>, oldreq: seq<Option<Id>>, m: Msg, p: Phase)
    requires RefInv(msg, phase, ref, freed, oldreq) && InPool(p)
    requires forall r :: 0 <= r < |oldreq| && oldreq[r].Some? ==> oldreq[r].value < |msg|
    ensures RefInv(msg + [m], phase + [p], ref + [if m.fake then 1 else 2], freed + [false], oldreq + [None])
  {
    forall x: Id
      ensures Naming(oldreq + [None], x) == Naming(oldreq, x)
    {
      NamingAppend(oldreq, x);
    }
    NamingPositive(oldreq, |msg|);
  }

  lemma KeepArrive(s: Srv, tag: Tag, kind: Kind)
    requires Inv(s) && s.loop.None? && (tag in s.pool ==> kind.Plain?)
    ensures Inv(ApplyArrive(s, tag, kind))
  {
    var m := Msg(tag, kind, tag in s.pool);
    var p := if m.fake then Handling else Taken;
    ArriveLists(s, p);
    ArriveFound(s.msg, s.found, m);
    ArrivePool(s.msg, s.phase, s.pool, s.wlock, m, p);
    ArriveOrder(s.msg, s.phase, s.found, s.log, m, p);
    ArriveRef(s.msg, s.phase, s.ref, s.freed, s.oldreq, m, p);
  }
}
