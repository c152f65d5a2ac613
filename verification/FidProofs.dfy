/** What every step of a request keeps of the fid counts. */
module FidProofs {
  import opened Counting
  import opened Options
  import opened Fids

  lemma UsesAppend(slots: seq<Slots>, sl: Slots, f: Fid)
    ensures Uses(slots + [sl], f) == Uses(slots, f) + Uses1(sl, f)
  {
    assert (slots + [sl])[..|slots|] == slots;
  }

  lemma {:induction false} UsesUpdate(slots: seq<Slots>, q: nat, sl: Slots, f: Fid)
    requires q < |slots|
    ensures Uses(slots[q := sl], f) == Uses(slots, f) - Uses1(slots[q], f) + Uses1(sl, f)
  {
    var n := |slots| - 1;
    if q == n {
      assert slots[q := sl][..n] == slots[..n];
    } else {
      assert slots[q := sl][..n] == slots[..n][q := sl];
      UsesUpdate(slots[..n], q, sl, f);
    }
  }

  /** A fid that does not exist yet is named nowhere. */
  lemma {:induction false} UsesNew(slots: seq<Slots>, n: nat, f: Fid)
    requires SlotInv(slots, n) && f >= n
    ensures Uses(slots, f) == 0
  {
    if slots != [] {
      UsesNew(slots[..|slots| - 1], n, f);
    }
  }

  lemma {:induction false} UsesPositive(slots: seq<Slots>, q: nat, f: Fid)
    requires q < |slots|
    ensures Uses(slots, f) >= Uses1(slots[q], f)
  {
    var n := |slots| - 1;
    if q < n {
      UsesPositive(slots[..n], q, f);
    }
  }

  // ---------------------------------------------------------------- counts move

  /** The table and the slots of the newest request change; the counts with them. */
  lemma CountStart(ref: seq<int>, ref': seq<int>, num: seq<Num>, pool: map<Num, Fid>, pool': map<Num, Fid>, slots: seq<Slots>, sl: Slots)
    requires CountInv(ref, num, pool, slots) && |ref'| == |ref|
    requires forall f :: 0 <= f < |ref| ==>
               ref'[f] - ref[f] == B(InPool(num, pool', f)) - B(InPool(num, pool, f)) + Uses1(sl, f)
    ensures CountInv(ref', num, pool', slots + [sl])
  {
    forall f | 0 <= f < |ref'|
      ensures ref'[f] == B(InPool(num, pool', f)) + Uses(slots + [sl], f)
    {
      UsesAppend(slots, sl, f);
    }
  }

  /** A new fid, in the table or not. */
  lemma CountAlloc(ref: seq<int>, num: seq<Num>, pool: map<Num, Fid>, slots: seq<Slots>, n: Num)
    requires CountInv(ref, num, pool, slots) && PoolInv(num, pool) && SlotInv(slots, |ref|)
    ensures n in pool ==> CountInv(ref + [0], num + [n], pool, slots)
    ensures n !in pool ==> CountInv(ref + [1], num + [n], pool[n := |ref|], slots)
  {
    UsesNew(slots, |ref|, |ref|);
    var pool' := if n in pool then pool else pool[n := |ref|];
    forall f | 0 <= f < |ref|
      ensures InPool(num + [n], pool', f) <==> InPool(num, pool, f)
    {
      assert (num + [n])[f] == num[f];
    }
  }

  // ---------------------------------------------------------------- the operations of fid.c

  /** A fid of the table is referred to. */
  lemma PoolAlive(s: Srv, n: Num)
    requires Inv(s) && n in s.pool
    ensures s.pool[n] < |s.ref| && s.num[s.pool[n]] == n && s.ref[s.pool[n]] > 0
  {
  }

  /** Inv with one request more, which holds sl and has not arrived yet. */
  ghost predicate Pending(s: Srv, sl: Slots) {
    && s.Shape() && PoolInv(s.num, s.pool) && CountInv(s.ref, s.num, s.pool, s.slots + [sl])
    && DestroyInv(s.ref, s.destroyed) && SlotInv(s.slots + [sl], |s.ref|)
  }

  lemma PendingNone(s: Srv)
    requires Inv(s)
    ensures Pending(s, NONE)
  {
    CountStart(s.ref, s.ref, s.num, s.pool, s.pool, s.slots, NONE);
  }

  lemma PendingArrives(s: Srv, m: Msg, sl: Slots, doomed: bool)
    requires Pending(s, sl)
    ensures Inv(Arrived(s, m, sl, doomed))
  {
  }

  /** One more slot names f. */
  lemma CountSlot(ref: seq<int>, num: seq<Num>, pool: map<Num, Fid>, slots: seq<Slots>, sl: Slots, sl': Slots, f: Fid)
    requires CountInv(ref, num, pool, slots + [sl]) && f < |ref|
    requires forall g :: Uses1(sl', g) == Uses1(sl, g) + B(g == f)
    ensures CountInv(ref[f := ref[f] + 1], num, pool, slots + [sl'])
  {
    forall g | 0 <= g < |ref|
      ensures Uses(slots + [sl'], g) == Uses(slots + [sl], g) + B(g == f)
    {
      UsesAppend(slots, sl, g);
      UsesAppend(slots, sl', g);
    }
  }

  ghost predicate OneMore(sl: Slots, sl': Slots, f: Option<Fid>) {
    || (f.None? && sl' == sl)
    || (sl.fid.None? && sl' == sl.(fid := f))
    || (sl.newfid.None? && sl' == sl.(newfid := f))
    || (sl.afid.None? && sl' == sl.(afid := f))
  }

  lemma PendingLookup(s: Srv, sl: Slots, n: Num, sl': Slots)
    requires Pending(s, sl) && OneMore(sl, sl', Found(s, n))
    ensures Pending(LookupFid(s, n), sl')
  {
    if n in s.pool {
      CountSlot(s.ref, s.num, s.pool, s.slots, sl, sl', s.pool[n]);
      DestroyMore(s.ref, s.destroyed, s.pool[n]);
    }
  }

  lemma PendingAlloc(s: Srv, sl: Slots, n: Num, q: Req, sl': Slots)
    requires Pending(s, sl) && OneMore(sl, sl', Allocated(s, n))
    ensures Pending(AllocFid(s, n, q), sl')
  {
    var f := |s.ref|;
    CountAlloc(s.ref, s.num, s.pool, s.slots + [sl], n);
    DestroyNew(s.ref, s.destroyed, 2);
    if n !in s.pool {
      CountSlot(s.ref + [1], s.num + [n], s.pool[n := f], s.slots, sl, sl', f);
      assert (s.ref + [1])[f := 2] == s.ref + [2];
    }
  }

  lemma PendingRemove(s: Srv, n: Num)
    requires Inv(s)
    ensures Pending(RemoveFid(s, n), NONE.(fid := Found(s, n)))
  {
    CountStart(s.ref, s.ref, s.num, s.pool, s.pool - {n}, s.slots, NONE.(fid := Found(s, n)));
  }

  // ---------------------------------------------------------------- the steps

  lemma KeepTauth(s: Srv, a: Num)
    requires Inv(s)
    ensures Inv(Start(s, Tauth(a)))
  {
    PendingNone(s);
    var sl := NONE.(afid := Allocated(s, a));
    PendingAlloc(s, NONE, a, |s.msg|, sl);
    PendingArrives(AllocFid(s, a, |s.msg|), Tauth(a), sl, a in s.pool);
  }

  lemma KeepTattach(s: Srv, n: Num, a: Num)
    requires Inv(s)
    ensures Inv(Start(s, Tattach(n, a)))
  {
    PendingNone(s);
    var f := Allocated(s, n);
    var s1 := AllocFid(s, n, |s.msg|);
    var sl := NONE.(fid := f);
    PendingAlloc(s, NONE, n, |s.msg|, sl);
    if f.None? || a == NOFID {
      PendingArrives(s1, Tattach(n, a), sl, f.None?);
    } else {
      PendingLookup(s1, sl, a, sl.(afid := Found(s1, a)));
      PendingArrives(LookupFid(s1, a), Tattach(n, a), sl.(afid := Found(s1, a)), a !in s1.pool);
    }
  }

  lemma KeepTwalk(s: Srv, m: Msg)
    requires Inv(s) && m.Twalk?
    ensures Inv(Start(s, m))
  {
    PendingNone(s);
    var f := Found(s, m.fid);
    var s1 := LookupFid(s, m.fid);
    var sl := NONE.(fid := f);
    PendingLookup(s, NONE, m.fid, sl);
    if f.None? || m.refused {
      PendingArrives(s1, m, sl, true);
    } else if m.newfid != m.fid {
      var sl' := sl.(newfid := Allocated(s, m.newfid));
      PendingAlloc(s1, sl, m.newfid, |s.msg|, sl');
      PendingArrives(AllocFid(s1, m.newfid, |s.msg|), m, sl', m.newfid in s.pool);
    } else {
      PendingLookup(s1, sl, m.fid, sl.(newfid := f));
      PendingArrives(LookupFid(s1, m.fid), m, sl.(newfid := f), false);
    }
  }

  lemma KeepStart(s: Srv, m: Msg)
    requires Inv(s)
    ensures Inv(Start(s, m))
  {
    match m
    case Tauth(a) =>
      KeepTauth(s, a);
    case Tattach(n, a) =>
      KeepTattach(s, n, a);
    case Twalk(_, _, _, _) =>
      KeepTwalk(s, m);
    case Tuse(n) =>
      PendingNone(s);
      PendingLookup(s, NONE, n, NONE.(fid := Found(s, n)));
      PendingArrives(LookupFid(s, n), m, NONE.(fid := Found(s, n)), n !in s.pool);
    case Tclunk(n) =>
      PendingRemove(s, n);
      PendingArrives(RemoveFid(s, n), m, NONE.(fid := Found(s, n)), n !in s.pool);
    case Tremove(n) =>
      PendingRemove(s, n);
      PendingArrives(RemoveFid(s, n), m, NONE.(fid := Found(s, n)), n !in s.pool);
    case Tother =>
      PendingNone(s);
      PendingArrives(s, m, NONE, false);
  }

  lemma KeepDropNum(s: Srv, n: Num)
    requires Inv(s)
    ensures Inv(DropNum(s, n))
  {
    if n in s.pool {
      PoolAlive(s, n);
      DestroyLess(s.ref, s.destroyed, s.pool[n]);
    }
  }

  lemma KeepFinish(s: Srv, q: Req, error: bool, nwqid: nat)
    requires Inv(s) && q < |s.msg|
    ensures Inv(Finish(s, q, error, nwqid))
  {
    if Fails(s.msg[q], error, nwqid) && Made(s.msg[q], s.slots[q]).Some? {
      KeepDropNum(s, Adds(s.msg[q]).value);
    }
  }

  lemma CountClose(ref: seq<int>, num: seq<Num>, pool: map<Num, Fid>, slots: seq<Slots>, q: nat, sl: Slots, f: Option<Fid>)
    requires CountInv(ref, num, pool, slots) && q < |slots| && OneMore(sl, slots[q], f) && (f.Some? ==> f.value < |ref|)
    ensures f.None? ==> CountInv(ref, num, pool, slots[q := sl])
    ensures f.Some? ==> ref[f.value] > 0 && CountInv(ref[f.value := ref[f.value] - 1], num, pool, slots[q := sl])
  {
    forall g | 0 <= g < |ref|
      ensures Uses(slots[q := sl], g) == Uses(slots, g) - B(f == Some(g))
    {
      UsesUpdate(slots, q, sl, g);
    }
    if f.Some? {
      UsesPositive(slots, q, f.value);
    }
  }

  /** A slot of request q is closed. */
  lemma KeepCloseSlot(s: Srv, q: Req, sl: Slots, f: Option<Fid>)
    requires Inv(s) && q < |s.msg| && OneMore(sl, s.slots[q], f)
    requires SlotsOk(sl, |s.ref|) && (f.Some? ==> f.value < |s.ref|)
    ensures Inv(CloseSlot(s.(slots := s.slots[q := sl]), f))
  {
    CountClose(s.ref, s.num, s.pool, s.slots, q, sl, f);
    if f.Some? {
      DestroyLess(s.ref, s.destroyed, f.value);
    }
  }

  /** closefid does not look at the slots. */
  lemma CloseSlotKeeps(s: Srv, f: Option<Fid>, slots: seq<Slots>)
    requires f.Some? ==> f.value < |s.ref|
    ensures CloseSlot(s.(slots := slots), f) == CloseSlot(s, f).(slots := slots)
    ensures |CloseSlot(s, f).ref| == |s.ref| && CloseSlot(s, f).slots == s.slots
  {
  }

  /** closereq empties one slot after the other. */
  lemma FreeInSteps(s: Srv, q: Req)
    requires s.Shape() && q < |s.msg| && SlotsOk(s.slots[q], |s.ref|)
    ensures
      var sl := s.slots[q];
      var s0 := s.(phase := s.phase[q := Freed]);
      var s1 := CloseSlot(s0.(slots := s0.slots[q := sl.(fid := None)]), sl.fid);
      var s2 := CloseSlot(s1.(slots := s1.slots[q := sl.(fid := None, newfid := None)]), sl.newfid);
      Free(s, q) == CloseSlot(s2.(slots := s2.slots[q := NONE]), sl.afid)
  {
    var sl := s.slots[q];
    var a, b := s.slots[q := sl.(fid := None)], s.slots[q := sl.(fid := None, newfid := None)];
    assert a[q := sl.(fid := None, newfid := None)] == b && b[q := NONE] == s.slots[q := NONE];
    var s0 := s.(phase := s.phase[q := Freed]);
    CloseSlotKeeps(s0, sl.fid, s.slots[q := NONE]);
    CloseSlotKeeps(s0, sl.fid, a);
    var s1 := CloseSlot(s0, sl.fid);
    CloseSlotKeeps(s1, sl.newfid, s.slots[q := NONE]);
    CloseSlotKeeps(s1, sl.newfid, b);
  }

  lemma KeepFree(s: Srv, q: Req)
    requires Inv(s) && q < |s.msg|
    ensures Inv(Free(s, q))
  {
    FreeInSteps(s, q);
    var sl := s.slots[q];
    var s0 := s.(phase := s.phase[q := Freed]);
    KeepCloseSlot(s0, q, sl.(fid := None), sl.fid);
    var s1 := CloseSlot(s0.(slots := s0.slots[q := sl.(fid := None)]), sl.fid);
    KeepCloseSlot(s1, q, sl.(fid := None, newfid := None), sl.newfid);
    var s2 := CloseSlot(s1.(slots := s1.slots[q := sl.(fid := None, newfid := None)]), sl.newfid);
    KeepCloseSlot(s2, q, NONE, sl.afid);
  }

  lemma KeepInv(s: Srv, e: Event)
    requires Inv(s) && Enabled(s, e)
    ensures Inv(Apply(s, e))
  {
    match e
    case Starts(m) =>
      KeepStart(s, m);
    case Finishes(q, error, nwqid) =>
      KeepFinish(s, q, error, nwqid);
    case Frees(q) =>
      KeepFree(s, q);
  }
}
