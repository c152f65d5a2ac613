/** One whole call of respond, with its recursive drain of the parked flushes. */
module FlushDrain {
  import opened Options
  import opened FlushProtocol
  import opened FlushInvariant
  import opened FlushTheorems

  /** The order in which respond(r) writes: r, then for each flush parked on it, in park order, its own tree. */
  function Tree(flush: seq<seq<Id>>, r: Id): seq<Id>
    decreases |flush| - r, 1, 0
  {
    if r < |flush| then [r] + Forest(flush, r, flush[r]) else []
  }

  function Forest(flush: seq<seq<Id>>, r: Id, kids: seq<Id>): seq<Id>
    requires r < |flush|
    decreases |flush| - r, 0, |kids|
  {
    if kids == [] then []
    else (if r < kids[0] then Tree(flush, kids[0]) else []) + Forest(flush, r, kids[1..])
  }

  lemma {:induction false} UnderBelow(found: seq<Option<Id>>, q: Id, r: Id)
    requires Under(found, q, r)
    ensures r <= q
    decreases q
  {
    if q != r {
      UnderBelow(found, found[q].value, r);
    }
  }

  /** The trees under two different flushes of the same request are disjoint. */
  lemma {:induction false} UnderOne(found: seq<Option<Id>>, q: Id, a: Id, b: Id)
    requires a < |found| && b < |found| && found[a].Some? && found[a] == found[b]
    requires found[a].value < a && found[a].value < b
    requires Under(found, q, a) && Under(found, q, b)
    ensures a == b
    decreases q
  {
    if q == a && q != b {
      UnderBelow(found, found[q].value, b);
    } else if q == b && q != a {
      UnderBelow(found, found[q].value, a);
    } else if q != a {
      UnderOne(found, found[q].value, a, b);
    }
  }

  /** The tree of r only depends on the flush lists of the requests under r. */
  lemma {:induction false} TreeFrame(a: seq<seq<Id>>, b: seq<seq<Id>>, found: seq<Option<Id>>, r: Id)
    requires |a| == |b| && ListInv(a, found)
    requires forall q: Id :: q < |a| && Under(found, q, r) ==> a[q] == b[q]
    ensures Tree(a, r) == Tree(b, r)
    decreases |a| - r, 1, 0
  {
    if r < |a| {
      forall q: Id, k | q < |a| && 0 <= k < |a[r]| && r < a[r][k] && Under(found, q, a[r][k])
        ensures a[q] == b[q]
      {
        UnderStep(found, q, a[r][k], r);
      }
      ForestFrame(a, b, found, r, a[r]);
    }
  }

  lemma {:induction false} ForestFrame(a: seq<seq<Id>>, b: seq<seq<Id>>, found: seq<Option<Id>>, r: Id, kids: seq<Id>)
    requires |a| == |b| && ListInv(a, found) && r < |a|
    requires forall k :: 0 <= k < |kids| ==> kids[k] < |found| && found[kids[k]] == Some(r)
    requires forall q: Id, k :: q < |a| && 0 <= k < |kids| && r < kids[k] && Under(found, q, kids[k]) ==> a[q] == b[q]
    ensures Forest(a, r, kids) == Forest(b, r, kids)
    decreases |a| - r, 0, |kids|
  {
    if kids != [] {
      if r < kids[0] {
        TreeFrame(a, b, found, kids[0]);
      }
      ForestFrame(a, b, found, r, kids[1..]);
    }
  }

  lemma {:induction false} ForestSplit(flush: seq<seq<Id>>, r: Id, kids: seq<Id>, k: nat)
    requires r < |flush| && k < |kids| && r < kids[k]
    ensures Forest(flush, r, kids[..k + 1]) == Forest(flush, r, kids[..k]) + Tree(flush, kids[k])
    decreases k
  {
    if k == 0 {
      assert kids[..1] == [kids[0]] && kids[..1][1..] == [];
    } else {
      assert kids[..k + 1][1..] == kids[1..][..k] && kids[..k][1..] == kids[1..][..k - 1];
      ForestSplit(flush, r, kids[1..], k - 1);
    }
  }

  // ---------------------------------------------------------------- reachable states

  ghost predicate Reach(s: Srv) {
    exists ss, es :: IsRun(ss, es) && ss[|es|] == s
  }

  lemma ReachInv(s: Srv)
    requires Reach(s)
    ensures Inv(s)
  {
    var ss, es :| IsRun(ss, es) && ss[|es|] == s;
    RunInv(ss, es, |es|);
  }

  lemma RunGrows(ss: seq<Srv>, es: seq<Event>, e: Event, s: Srv)
    requires IsRun(ss, es) && Enabled(ss[|es|], e) && s == Apply(ss[|es|], e)
    ensures IsRun(ss + [s], es + [e])
  {
    var ss', es' := ss + [s], es + [e];
    forall i | 0 <= i < |es'|
      ensures Enabled(ss'[i], es'[i]) && ss'[i + 1] == Apply(ss'[i], es'[i])
    {
      if i < |es| {
        assert ss'[i] == ss[i] && es'[i] == es[i] && ss'[i + 1] == ss[i + 1];
      }
    }
  }

  lemma InitReached()
    ensures Reach(INIT)
  {
    var ss: seq<Srv>, es: seq<Event> := [INIT], [];
    assert IsRun(ss, es) && ss[|es|] == INIT;
  }

  lemma ReachStep(s: Srv, e: Event)
    requires Reach(s) && Enabled(s, e)
    ensures Reach(Apply(s, e))
  {
    var ss, es :| IsRun(ss, es) && ss[|es|] == s;
    var s' := Apply(s, e);
    RunGrows(ss, es, e, s');
    assert (ss + [s'])[|es + [e]|] == s';
  }

  /** s' differs from s in the phase of r only, as far as the drain can see. */
  ghost predicate Moved(s: Srv, s': Srv, r: Id, p: Phase) {
    && s.Shape() && s'.Shape() && r < |s.msg|
    && s'.msg == s.msg && s'.found == s.found && s'.loop == s.loop && s'.flush == s.flush
    && s'.phase == s.phase[r := p]
  }

  /** r is not a flush that has to wait for its old request. */
  predicate Admissible(s: Srv, r: Id) {
    && s.Shape() && At(s, r, Called)
    && (s.oldreq[r].Some? ==> s.oldreq[r].value < |s.msg| && s.responded[s.oldreq[r].value])
  }

  lemma CheckStep(s: Srv, r: Id)
    requires Reach(s) && Admissible(s, r)
    ensures Enabled(s, Check(r)) && Reach(Apply(s, Check(r)))
    ensures Moved(s, Apply(s, Check(r)), r, if s.oldreq[r].Some? then Releasing else Ready)
    ensures Apply(s, Check(r)).log == s.log && Apply(s, Check(r)).wlock == s.wlock
  {
    ReachStep(s, Check(r));
  }

  lemma ReleaseStep(s: Srv, r: Id)
    requires Reach(s) && At(s, r, Releasing)
    ensures Enabled(s, Release(r)) && Reach(Apply(s, Release(r)))
    ensures Moved(s, Apply(s, Release(r)), r, Ready)
    ensures Apply(s, Release(r)).log == s.log && Apply(s, Release(r)).wlock == s.wlock
  {
    ReachInv(s);
    ReleaseTarget(s, r);
    ReachStep(s, Release(r));
  }

  lemma SendStep(s: Srv, r: Id)
    requires Reach(s) && s.Shape() && At(s, r, Ready) && s.wlock.None?
    ensures Enabled(s, Remove(r)) && Enabled(Apply(s, Remove(r)), Write(r))
    ensures
      var s' := Apply(Apply(s, Remove(r)), Write(r));
      Reach(s') && Moved(s, s', r, Written) && s'.log == s.log + [r] && s'.wlock.None?
  {
    ReachStep(s, Remove(r));
    ReachStep(Apply(s, Remove(r)), Write(r));
    assert s.phase[r := Writing][r := Written] == s.phase[r := Written];
  }

  lemma MarkStep(s: Srv, r: Id)
    requires Reach(s) && s.Shape() && At(s, r, Written)
    ensures Enabled(s, Mark(r)) && Reach(Apply(s, Mark(r)))
    ensures Moved(s, Apply(s, Mark(r)), r, Draining(0))
    ensures Apply(s, Mark(r)).log == s.log && Apply(s, Mark(r)).wlock == s.wlock
  {
    ReachStep(s, Mark(r));
  }

  // ---------------------------------------------------------------- respond

  /** Nothing outside the tree of r has changed. */
  ghost predicate OnlyUnder(s: Srv, s': Srv, r: Id) {
    && s.Shape() && s'.Shape()
    && s'.msg == s.msg && s'.found == s.found && s'.loop == s.loop
    && (forall q: Id :: q < |s.msg| && !Under(s.found, q, r) ==> s'.phase[q] == s.phase[q] && s'.flush[q] == s.flush[q])
  }

  /** The drain loop of respond(r), called in state s0, has answered the first i parked flushes. */
  ghost predicate Drained(s0: Srv, s: Srv, r: Id, i: nat) {
    && Reach(s) && s.wlock.None? && OnlyUnder(s0, s, r)
    && r < |s.msg| && i <= |s0.flush[r]|
    && s.phase[r] == Draining(i) && s.flush[r] == s0.flush[r]
    && s.log == s0.log + [r] + Forest(s0.flush, r, s0.flush[r][..i])
    && Kept(s0, s, s0.flush[r], i)
  }

  /** The trees of the flushes from the i-th on are as they were. */
  ghost predicate Kept(s0: Srv, s: Srv, kids: seq<Id>, i: nat)
    requires s0.Shape() && s.Shape() && s.msg == s0.msg
  {
    forall q: Id, k :: i <= k < |kids| && q < |s.msg| && Under(s.found, q, kids[k]) ==>
      s.phase[q] == s0.phase[q] && s.flush[q] == s0.flush[q]
  }

  /** None of these trees has r in it. */
  ghost predicate Above(found: seq<Option<Id>>, kids: seq<Id>, r: Id) {
    forall q: Id, k :: 0 <= k < |kids| && Under(found, q, kids[k]) ==> q != r
  }

  /** What the list of a request that has not responded looks like. */
  lemma KidAt(msg: seq<Msg>, phase: seq<Phase>, flush: seq<seq<Id>>, found: seq<Option<Id>>, r: Id, k: nat)
    requires ListInv(flush, found) && DrainInv(phase, flush) && FoundInv(msg, found)
    requires r < |phase| && phase[r].Called? && k < |flush[r]|
    ensures flush[r][k] < |phase| && found[flush[r][k]] == Some(r) && phase[flush[r][k]].Parked?
    ensures found[r] != Some(r) ==> r < flush[r][k]
  {
    assert ChildOk(phase[r], k, phase[flush[r][k]]);
  }

  lemma Kids(s: Srv, r: Id)
    requires Reach(s) && At(s, r, Called)
    ensures s.Shape() && ListInv(s.flush, s.found)
    ensures s.found[r] != Some(r) ==>
              forall k :: 0 <= k < |s.flush[r]| ==> r < s.flush[r][k] < |s.msg| && s.phase[s.flush[r][k]].Parked?
    ensures forall k :: 0 <= k < |s.flush[r]| ==> s.found[s.flush[r][k]] == Some(r)
  {
    ReachInv(s);
    forall k | 0 <= k < |s.flush[r]|
      ensures s.found[s.flush[r][k]] == Some(r) && s.phase[s.flush[r][k]].Parked?
      ensures s.found[r] != Some(r) ==> r < s.flush[r][k] < |s.msg|
    {
      KidAt(s.msg, s.phase, s.flush, s.found, r, k);
    }
  }

  /** An admissible request is not a flush of itself. */
  lemma AdmissibleNotSelf(s: Srv, r: Id)
    requires Reach(s) && Admissible(s, r)
    ensures s.found[r] != Some(r)
  {
    ReachInv(s);
  }

  lemma StartDrain(s0: Srv, s: Srv, r: Id)
    requires Reach(s0) && Admissible(s0, r)
    requires Reach(s) && s.wlock.None? && Moved(s0, s, r, Draining(0)) && s.log == s0.log + [r]
    ensures Drained(s0, s, r, 0)
  {
    Kids(s0, r);
    AdmissibleNotSelf(s0, r);
    forall q: Id, k | 0 <= k < |s0.flush[r]| && Under(s.found, q, s0.flush[r][k])
      ensures q != r
    {
      UnderBelow(s.found, q, s0.flush[r][k]);
    }
  }

  lemma CallKid(s0: Srv, s: Srv, r: Id, i: nat)
    requires Reach(s0) && Admissible(s0, r) && Drained(s0, s, r, i) && i < |s0.flush[r]|
    ensures
      var c := s0.flush[r][i];
      && Enabled(s, DrainCall(r)) && Child(s, r) == c && r < c < |s.msg|
      && Reach(Apply(s, DrainCall(r)))
      && Moved(s, Apply(s, DrainCall(r)), c, Called) && Apply(s, DrainCall(r)).log == s.log
      && Apply(s, DrainCall(r)).wlock.None?
      && Admissible(Apply(s, DrainCall(r)), c)
      && Tree(s.flush, c) == Tree(s0.flush, c)
  {
    var c := s0.flush[r][i];
    Kids(s0, r);
    AdmissibleNotSelf(s0, r);
    assert Under(s.found, c, c);
    assert s.phase[c].Parked?;
    ReachStep(s, DrainCall(r));
    KidAdmissible(s, r);
    TreeFrame(s0.flush, s.flush, s.found, c);
  }

  lemma KidAdmissible(s: Srv, r: Id)
    requires Reach(s) && DrainChild(s, r, Parked)
    ensures s.Shape() && Child(s, r) < |s.msg| && s.oldreq[Child(s, r)] == Some(r) && r < |s.msg| && s.responded[r]
  {
    ReachInv(s);
    DrainedCannotPark(s, r);
  }

  /** The tree of c lies above r and under r. */
  ghost predicate Above1(found: seq<Option<Id>>, c: Id, r: Id) {
    forall q: Id {:trigger Under(found, q, c)} :: Under(found, q, c) ==> q > r && Under(found, q, r)
  }

  /** The trees of the later flushes have nothing in common with that of the i-th. */
  ghost predicate Apart(found: seq<Option<Id>>, kids: seq<Id>, i: nat)
    requires i < |kids|
  {
    forall q: Id, k {:trigger Under(found, q, kids[k])} :: i < k < |kids| && Under(found, q, kids[k]) ==> !Under(found, q, kids[i])
  }

  /** The trees of the flushes parked on r lie above r, under r, and apart from each other. */
  lemma KidsApart(found: seq<Option<Id>>, kids: seq<Id>, r: Id, i: nat)
    requires i < |kids|
    requires forall k :: 0 <= k < |kids| ==> r < kids[k] < |found| && found[kids[k]] == Some(r)
    requires forall k, l :: 0 <= k < l < |kids| ==> kids[k] != kids[l]
    ensures Above1(found, kids[i], r) && Apart(found, kids, i)
  {
    forall q: Id | Under(found, q, kids[i])
      ensures q > r && Under(found, q, r)
    {
      UnderBelow(found, q, kids[i]);
      UnderStep(found, q, kids[i], r);
    }
    forall q: Id, k | i < k < |kids| && Under(found, q, kids[k])
      ensures !Under(found, q, kids[i])
    {
      if Under(found, q, kids[i]) {
        UnderOne(found, q, kids[i], kids[k]);
      }
    }
  }

  /** Answering the i-th flush leaves the list and the later flushes as they were. */
  lemma KidFrame(s0: Srv, s: Srv, s1: Srv, s2: Srv, r: Id, i: nat)
    requires Reach(s0) && Admissible(s0, r) && Drained(s0, s, r, i) && i < |s0.flush[r]|
    requires Moved(s, s1, s0.flush[r][i], Called) && OnlyUnder(s1, s2, s0.flush[r][i])
    ensures OnlyUnder(s0, s2, r) && s2.phase[r] == s.phase[r] && s2.flush[r] == s0.flush[r]
    ensures Kept(s0, s2, s0.flush[r], i + 1)
  {
    Kids(s0, r);
    AdmissibleNotSelf(s0, r);
    KidsApart(s.found, s0.flush[r], r, i);
    var kids := s0.flush[r];
    CalledFrame(s, s1, s2, kids[i]);
    OnlyFrame(s0, s, s2, r, kids[i]);
    KeptFrame(s0, s, s2, kids, i);
  }

  /** Calling c and answering it changes nothing outside its tree. */
  lemma CalledFrame(s: Srv, s1: Srv, s2: Srv, c: Id)
    requires Moved(s, s1, c, Called) && OnlyUnder(s1, s2, c)
    ensures OnlyUnder(s, s2, c)
  {
    assert Under(s.found, c, c);
  }

  lemma OnlyFrame(s0: Srv, s: Srv, s2: Srv, r: Id, c: Id)
    requires OnlyUnder(s0, s, r) && OnlyUnder(s, s2, c) && r < |s.msg| && Above1(s.found, c, r)
    ensures OnlyUnder(s0, s2, r) && s2.phase[r] == s.phase[r] && s2.flush[r] == s.flush[r]
  {
    assert !Under(s.found, r, c);
    forall q: Id | q < |s0.msg| && !Under(s0.found, q, r)
      ensures s2.phase[q] == s0.phase[q] && s2.flush[q] == s0.flush[q]
    {
      assert !Under(s.found, q, c);
    }
  }

  lemma KeptFrame(s0: Srv, s: Srv, s2: Srv, kids: seq<Id>, i: nat)
    requires s0.Shape() && s.Shape() && s.msg == s0.msg && i < |kids| && Kept(s0, s, kids, i)
    requires OnlyUnder(s, s2, kids[i]) && Apart(s.found, kids, i)
    ensures Kept(s0, s2, kids, i + 1)
  {
  }

  lemma KidsAbove(s0: Srv, r: Id)
    requires Reach(s0) && Admissible(s0, r)
    ensures s0.Shape() && Above(s0.found, s0.flush[r], r)
  {
    Kids(s0, r);
    AdmissibleNotSelf(s0, r);
    forall q: Id, k | 0 <= k < |s0.flush[r]| && Under(s0.found, q, s0.flush[r][k])
      ensures q != r
    {
      UnderBelow(s0.found, q, s0.flush[r][k]);
    }
  }

  lemma NextKid(s0: Srv, s: Srv, s1: Srv, s2: Srv, r: Id, i: nat)
    requires Reach(s0) && Admissible(s0, r) && Drained(s0, s, r, i) && i < |s0.flush[r]|
    requires Moved(s, s1, s0.flush[r][i], Called) && s1.log == s.log
    requires Reach(s2) && s2.wlock.None? && At(s2, s0.flush[r][i], Done) && OnlyUnder(s1, s2, s0.flush[r][i])
    requires s2.log == s1.log + Tree(s0.flush, s0.flush[r][i])
    ensures Enabled(s2, DrainNext(r)) && Drained(s0, Apply(s2, DrainNext(r)), r, i + 1)
  {
    KidFrame(s0, s, s1, s2, r, i);
    KidsAbove(s0, r);
    NextLog(s0, r, i);
    StepPast(s0, s2, r, i);
  }

  /** A new phase of r is all that changes. */
  lemma KeptStep(s0: Srv, s: Srv, r: Id, i: nat, p: Phase)
    requires OnlyUnder(s0, s, r) && r < |s.msg| && Kept(s0, s, s0.flush[r], i) && Above(s.found, s0.flush[r], r)
    ensures OnlyUnder(s0, SetPhase(s, r, p), r) && Kept(s0, SetPhase(s, r, p), s0.flush[r], i)
  {
    assert Under(s.found, r, r);
  }

  lemma StepPast(s0: Srv, s: Srv, r: Id, i: nat)
    requires Reach(s) && s.wlock.None? && OnlyUnder(s0, s, r)
    requires At(s, r, Draining(i)) && s.flush[r] == s0.flush[r] && i < |s0.flush[r]| && At(s, s0.flush[r][i], Done)
    requires s.log == s0.log + [r] + Forest(s0.flush, r, s0.flush[r][..i + 1])
    requires Kept(s0, s, s0.flush[r], i + 1) && Above(s.found, s0.flush[r], r)
    ensures Enabled(s, DrainNext(r)) && Drained(s0, Apply(s, DrainNext(r)), r, i + 1)
  {
    DrainNextIs(s, r, i);
    ReachStep(s, DrainNext(r));
    KeptStep(s0, s, r, i + 1, Draining(i + 1));
  }

  lemma DrainNextIs(s: Srv, r: Id, i: nat)
    requires s.Shape() && At(s, r, Draining(i)) && i < |s.flush[r]| && At(s, s.flush[r][i], Done)
    ensures Enabled(s, DrainNext(r)) && Apply(s, DrainNext(r)) == SetPhase(s, r, Draining(i + 1))
  {
  }

  lemma NextLog(s0: Srv, r: Id, i: nat)
    requires Reach(s0) && Admissible(s0, r) && i < |s0.flush[r]|
    ensures s0.log + [r] + Forest(s0.flush, r, s0.flush[r][..i]) + Tree(s0.flush, s0.flush[r][i])
            == s0.log + [r] + Forest(s0.flush, r, s0.flush[r][..i + 1])
  {
    Kids(s0, r);
    AdmissibleNotSelf(s0, r);
    ForestSplit(s0.flush, r, s0.flush[r], i);
  }

  lemma EndDrain(s0: Srv, s: Srv, r: Id)
    requires r < |s0.flush| && Drained(s0, s, r, |s0.flush[r]|)
    ensures Enabled(s, Finish(r))
    ensures Reach(Apply(s, Finish(r))) && Apply(s, Finish(r)).wlock.None? && At(Apply(s, Finish(r)), r, Done)
    ensures Apply(s, Finish(r)).log == s0.log + Tree(s0.flush, r)
    ensures OnlyUnder(s0, Apply(s, Finish(r)), r)
  {
    ReachStep(s, Finish(r));
    assert s0.flush[r][..|s0.flush[r]|] == s0.flush[r];
  }

  class Engine {
    var s: Srv

    /** rflush for a flush whose old request has responded; nothing to do for other messages. */
    method Admit(r: Id)
      requires Reach(s) && Admissible(s, r)
      modifies this
      ensures Reach(s) && s.wlock == old(s.wlock) && s.log == old(s.log)
      ensures Moved(old(s), s, r, Ready)
    {
      CheckStep(s, r);
      s := Apply(s, Check(r));
      if s.phase[r].Releasing? {
        ReleaseStep(s, r);
        s := Apply(s, Release(r));
      }
    }

    /** The part of respond before the drain loop. */
    method Reply(r: Id)
      requires Reach(s) && s.wlock.None? && Admissible(s, r)
      modifies this
      ensures Reach(s) && s.wlock.None?
      ensures s.log == old(s.log) + [r]
      ensures Moved(old(s), s, r, Draining(0))
    {
      Admit(r);
      SendStep(s, r);
      s := Apply(s, Remove(r));
      s := Apply(s, Write(r));
      MarkStep(s, r);
      s := Apply(s, Mark(r));
    }

    /**
     * respond, from the switch on, for a request that need not wait: it writes the reply to r and
     * to every flush parked below r, and to nothing else, in the order of Tree, and returns.
     */
    method Respond(r: Id)
      requires Reach(s) && s.wlock.None? && Admissible(s, r)
      modifies this
      ensures Reach(s) && s.wlock.None? && At(s, r, Done)
      ensures s.log == old(s.log) + Tree(old(s.flush), r)
      ensures OnlyUnder(old(s), s, r)
      decreases |s.msg| - r
    {
      ghost var s0 := s;
      Reply(r);
      StartDrain(s0, s, r);
      var i := 0;
      while i < |s.flush[r]|
        invariant i <= |s0.flush[r]| && Drained(s0, s, r, i)
        decreases |s0.flush[r]| - i
      {
        CallKid(s0, s, r, i);
        ghost var before := s;
        var c := s.flush[r][i];
        s := Apply(s, DrainCall(r));
        ghost var called := s;
        Respond(c);
        NextKid(s0, before, called, s, r, i);
        s := Apply(s, DrainNext(r));
        i := i + 1;
      }
      EndDrain(s0, s, r);
      s := Apply(s, Finish(r));
    }
  }

  /** Every flush that is parked, directly or through other parked flushes, below r. */
  predicate ParkedBelow(s: Srv, q: Id, r: Id)
    requires s.Shape()
    decreases q
  {
    q == r ||
    (&& q < |s.msg| && s.phase[q].Parked? && s.found[q].Some? && s.found[q].value < q
     && ParkedBelow(s, s.found[q].value, r))
  }

  lemma {:induction false} ForestHas(flush: seq<seq<Id>>, r: Id, kids: seq<Id>, k: nat, q: Id)
    requires r < |flush| && k < |kids| && r < kids[k] && q in Tree(flush, kids[k])
    ensures q in Forest(flush, r, kids)
    decreases k
  {
    if k > 0 {
      ForestHas(flush, r, kids[1..], k - 1, q);
    }
  }

  lemma {:induction false} TreeDown(flush: seq<seq<Id>>, r: Id, o: Id, q: Id)
    requires o in Tree(flush, r) && o < |flush| && q in flush[o] && o < q < |flush|
    ensures q in Tree(flush, r)
    decreases |flush| - r, 1, 0
  {
    if o == r {
      var k :| 0 <= k < |flush[r]| && flush[r][k] == q;
      ForestHas(flush, r, flush[r], k, q);
    } else {
      ForestDown(flush, r, flush[r], o, q);
    }
  }

  lemma {:induction false} ForestDown(flush: seq<seq<Id>>, r: Id, kids: seq<Id>, o: Id, q: Id)
    requires r < |flush| && o in Forest(flush, r, kids) && o < |flush| && q in flush[o] && o < q < |flush|
    ensures q in Forest(flush, r, kids)
    decreases |flush| - r, 0, |kids|
  {
    if r < kids[0] && o in Tree(flush, kids[0]) {
      TreeDown(flush, kids[0], o, q);
    } else {
      ForestDown(flush, r, kids[1..], o, q);
    }
  }

  /** The tree that respond(r) answers contains every flush parked below r. */
  lemma {:induction false} ParkedBelowIsInTree(s: Srv, r: Id, q: Id)
    requires Reach(s) && s.Shape() && r < |s.msg| && q < |s.msg| && ParkedBelow(s, q, r)
    ensures q in Tree(s.flush, r)
    decreases q
  {
    if q != r {
      var o := s.found[q].value;
      ParkedBelowIsInTree(s, r, o);
      ReachInv(s);
      TreeDown(s.flush, r, o, q);
    }
  }

  /** Whatever is in a forest is in one of its trees. */
  lemma {:induction false} ForestFrom(flush: seq<seq<Id>>, r: Id, kids: seq<Id>, q: Id) returns (c: Id)
    requires r < |flush| && q in Forest(flush, r, kids)
    ensures c in kids && r < c && q in Tree(flush, c)
    decreases |kids|
  {
    var rest := Forest(flush, r, kids[1..]);
    assert Forest(flush, r, kids) == (if r < kids[0] then Tree(flush, kids[0]) else []) + rest;
    if q in rest {
      c := ForestFrom(flush, r, kids[1..], q);
    } else {
      c := kids[0];
    }
  }

  lemma {:induction false} ParkedUp(s: Srv, q: Id, c: Id, r: Id)
    requires s.Shape() && ParkedBelow(s, q, c) && c < |s.msg| && s.phase[c].Parked? && s.found[c] == Some(r) && r < c
    ensures ParkedBelow(s, q, r)
    decreases q
  {
    if q != c {
      ParkedUp(s, s.found[q].value, c, r);
    }
  }

  /** And it contains nothing else, unless its drain is already under way. */
  lemma {:induction false} TreeIsParkedBelow(s: Srv, r: Id, q: Id)
    requires Inv(s) && r < |s.msg| && !s.phase[r].Draining? && q in Tree(s.flush, r)
    ensures q < |s.msg| && ParkedBelow(s, q, r)
    decreases |s.msg| - r
  {
    if q != r {
      var c := ForestFrom(s.flush, r, s.flush[r], q);
      var k :| 0 <= k < |s.flush[r]| && s.flush[r][k] == c;
      assert ChildOk(s.phase[r], k, s.phase[c]);
      TreeIsParkedBelow(s, c, q);
      ParkedUp(s, q, c, r);
    }
  }

  /** All of a tree lies under its root. */
  lemma {:induction false} TreeUnder(flush: seq<seq<Id>>, found: seq<Option<Id>>, r: Id, q: Id)
    requires ListInv(flush, found) && r < |flush| && q in Tree(flush, r)
    ensures Under(found, q, r)
    decreases |flush| - r
  {
    if q != r {
      var c := ForestFrom(flush, r, flush[r], q);
      TreeUnder(flush, found, c, q);
      UnderStep(found, q, c, r);
    }
  }

  lemma {:induction false} TreeOnce(flush: seq<seq<Id>>, found: seq<Option<Id>>, r: Id, q: Id)
    requires ListInv(flush, found) && r < |flush|
    ensures multiset(Tree(flush, r))[q] <= 1
    decreases |flush| - r, 1, 0
  {
    ForestOnce(flush, found, r, flush[r], q);
    if q == r && q in Forest(flush, r, flush[r]) {
      var c := ForestFrom(flush, r, flush[r], q);
      TreeUnder(flush, found, c, q);
      UnderBelow(found, q, c);
    }
  }

  lemma {:induction false} ForestOnce(flush: seq<seq<Id>>, found: seq<Option<Id>>, r: Id, kids: seq<Id>, q: Id)
    requires ListInv(flush, found) && r < |flush|
    requires forall i :: 0 <= i < |kids| ==> kids[i] < |found| && found[kids[i]] == Some(r)
    requires forall i, j :: 0 <= i < j < |kids| ==> kids[i] != kids[j]
    ensures multiset(Forest(flush, r, kids))[q] <= 1
    decreases |flush| - r, 0, |kids|
  {
    if kids != [] {
      var rest := kids[1..];
      assert forall i :: 0 <= i < |rest| ==> rest[i] == kids[i + 1];
      ForestOnce(flush, found, r, rest, q);
      if r < kids[0] {
        TreeOnce(flush, found, kids[0], q);
        if q in Tree(flush, kids[0]) && q in Forest(flush, r, rest) {
          var c := ForestFrom(flush, r, rest, q);
          TreeUnder(flush, found, kids[0], q);
          TreeUnder(flush, found, c, q);
          UnderOne(found, q, kids[0], c);
        }
      }
    }
  }

  /** What respond(r) answers is r and every flush parked below r, each exactly once, and nothing else. */
  lemma TreeIsAllParkedBelow(s: Srv, r: Id, q: Id)
    requires Reach(s) && Admissible(s, r) && q < |s.msg|
    ensures multiset(Tree(s.flush, r))[q] == if ParkedBelow(s, q, r) then 1 else 0
  {
    ReachInv(s);
    TreeOnce(s.flush, s.found, r, q);
    if ParkedBelow(s, q, r) {
      ParkedBelowIsInTree(s, r, q);
    } else if q in Tree(s.flush, r) {
      TreeIsParkedBelow(s, r, q);
    }
  }

  /**
   * The chain of oldreq links of a parked flush goes strictly back in order of arrival, and ends at a
   * request that is neither parked nor done, unless it ends in a flush of its own tag.
   */
  lemma {:induction false} ChainEnds(s: Srv, f: Id) returns (r: Id)
    requires Inv(s) && At(s, f, Parked) && !EndsInSelf(s.found, f)
    ensures r < f && ParkedBelow(s, f, r) && !s.phase[r].Parked? && !s.phase[r].Done?
    decreases f
  {
    var o := s.found[f].value;
    assert f in s.flush[o];
    if s.phase[o].Parked? {
      r := ChainEnds(s, o);
    } else {
      r := o;
    }
  }

  lemma ParkedChainEnds(ss: seq<Srv>, es: seq<Event>, k: nat, f: Id)
    requires IsRun(ss, es) && k < |ss| && ss[k].Shape() && At(ss[k], f, Parked) && !EndsInSelf(ss[k].found, f)
    ensures exists r :: 0 <= r < f && ParkedBelow(ss[k], f, r) && !ss[k].phase[r].Parked? && !ss[k].phase[r].Done?
  {
    RunInv(ss, es, k);
    var r := ChainEnds(ss[k], f);
  }
}
