/**
 * Directories that are freed while they are read. The directory of an open Readdir lives as long as
 * somebody refers to it, and the Readdir itself does not: its caller must keep a handle for it.
 */
module FileReaders {
  import opened Counting
  import opened Options
  import opened Directory
  import DirectoryProofs
  import opened FileTree
  import opened FileTreeProofs
  import opened FileTreeRuns

  /** Each open reader has a handle of its own. */
  ghost predicate ReaderInv(t: Tree)
    requires t.Shape()
  {
    forall f {:trigger t.handles[f]} :: 0 <= f < |t.ref| ==> |t.dir[f].open| <= t.handles[f]
  }

  /** A reader is open on a directory that has been freed. */
  ghost predicate Dangling(t: Tree)
    requires t.Shape()
  {
    exists d :: 0 <= d < |t.ref| && d in t.destroyed && t.dir[d].open != map[]
  }

  /** The file to which the call gives up a handle. */
  function GivesUp(t: Tree, c: Call): Option<File>
    requires t.Shape()
  {
    match c
    case Removes(f) => Some(f)
    case Closes(f) => Some(f)
    case Walks(d, elem) => if d < |t.ref| && (WalkCrashes(t, d, elem) || Walked(t, d, elem) == Some(d)) then None else Some(d)
    case _ => None
  }

  /** The call leaves the readers of a file with fewer handles than there are readers. */
  predicate Careless(t: Tree, c: Call)
    requires t.Shape() && Allowed(t, c)
  {
    || (GivesUp(t, c).Some? && t.handles[GivesUp(t, c).value] <= |t.dir[GivesUp(t, c).value].open|)
    || (c.OpensDir? && t.isdir[c.d] && t.handles[c.d] <= |t.dir[c.d].open|)
  }

  /** The call gives up the last handle of a directory that is being read, is empty, and is in no list, or no longer. */
  predicate FreesRead(t: Tree, c: Call)
    requires t.Shape() && Allowed(t, c)
  {
    var f := GivesUp(t, c);
    && f.Some? && f.value != ROOT && t.dir[f.value].open != map[] && t.handles[f.value] == 1
    && t.dir[f.value].nchild == 0 && (c.Removes? || t.parent[f.value].None?)
  }

  /** What the calls that are not about readers do to handles, links and readers. */
  ghost predicate HandsOn(t: Tree, c: Call, t': Tree)
    requires t.Shape()
  {
    && t'.Shape() && |t.ref| <= |t'.ref|
    && (forall f {:trigger t'.handles[f]} :: 0 <= f < |t.ref| ==>
          && t'.dir[f].open == t.dir[f].open
          && (GivesUp(t, c) == Some(f) ==> t'.handles[f] == t.handles[f] - 1)
          && (GivesUp(t, c) == Some(f) ==> t'.dir[f].nchild == t.dir[f].nchild)
          && (GivesUp(t, c) == Some(f) ==> t'.parent[f] == if c.Removes? && CanRemove(t, f) then None else t.parent[f])
          && (GivesUp(t, c) != Some(f) ==> t'.handles[f] >= t.handles[f]))
    && (forall f :: |t.ref| <= f < |t'.ref| ==> t'.dir[f].open == map[])
  }

  lemma UnlinkHandsOn(t: Tree, f: File)
    requires t.Shape() && f < |t.ref|
    requires CanRemove(t, f) ==> t.parent[f].value < |t.ref| && t.parent[f].value != f
    requires CanRemove(t, f) ==> FindFile(t.dir[t.parent[f].value].list, f) < |t.dir[t.parent[f].value].list|
    ensures HandsOn(t, Removes(f), RemoveFile(t, f))
  {
  }

  lemma RemoveHandsOn(t: Tree, f: File)
    requires TreeInv(t) && t.Held(f)
    ensures HandsOn(t, Removes(f), Does(t, Removes(f)))
  {
    KeepRemoveFile(t, f);
    if CanRemove(t, f) {
      RemoveFinds(t, f);
    }
    UnlinkHandsOn(t, f);
  }

  lemma TradeHandsOn(t: Tree, d: File, elem: string)
    requires t.Shape() && d < |t.ref| && (Walked(t, d, elem).Some? ==> Walked(t, d, elem).value < |t.ref|)
    ensures HandsOn(t, Walks(d, elem), WalkFile1(t, d, elem))
  {
  }

  lemma WalkHandsOn(t: Tree, d: File, elem: string)
    requires TreeInv(t) && t.Held(d)
    ensures HandsOn(t, Walks(d, elem), Does(t, Walks(d, elem)))
  {
    WalkedAlive(t, d, elem);
    TradeHandsOn(t, d, elem);
  }

  lemma CallHandsOn(t: Tree, c: Call)
    requires TreeInv(t) && Allowed(t, c) && !c.OpensDir? && !c.ReadsDir? && !c.ClosesDir?
    ensures HandsOn(t, c, Does(t, c))
  {
    match c
    case Removes(f) =>
      RemoveHandsOn(t, f);
    case Walks(d, elem) =>
      WalkHandsOn(t, d, elem);
    case _ =>
  }

  // ---------------------------------------------------------------- the rule for callers

  lemma FewerReaders(a: map<Reader, Cursor>, r: Reader)
    ensures |a - {r}| <= |a|
  {
    assert (a - {r}).Keys <= a.Keys;
    assert a.Keys == (a - {r}).Keys + (a.Keys - (a - {r}).Keys);
  }

  /** The readers of one directory change, and nothing else does that counts here. */
  ghost predicate ReadersChange(t: Tree, d: File, t': Tree)
    requires t.Shape() && d < |t.ref|
  {
    && t'.Shape() && |t'.ref| == |t.ref| && t'.destroyed == t.destroyed && t'.handles == t.handles
    && (forall f :: 0 <= f < |t.ref| && f != d ==> t'.dir[f].open == t.dir[f].open)
  }

  lemma ReadersRule(t: Tree, d: File, t': Tree)
    requires t.Shape() && d < |t.ref| && ReaderInv(t) && ReadersChange(t, d, t')
    ensures ReaderInv(t') <==> |t'.dir[d].open| <= t.handles[d]
  {
    assert t'.handles[d] == t.handles[d];
  }

  lemma ReaderCalls(t: Tree, c: Call)
    requires t.Shape() && Allowed(t, c) && (c.OpensDir? || c.ReadsDir? || c.ClosesDir?)
    ensures
      var t' := if c.OpensDir? then OpenDir(t, c.d, c.r) else if c.ReadsDir? then ReadDir(t, c.d, c.r, c.n, c.size) else CloseDir(t, c.d, c.r);
      && ReadersChange(t, c.d, t')
      && (if c.OpensDir? && t.isdir[c.d] then |t'.dir[c.d].open| == |t.dir[c.d].open| + 1 else |t'.dir[c.d].open| <= |t.dir[c.d].open|)
  {
    match c
    case OpensDir(d, r) =>
    case ReadsDir(d, r, n, size) =>
      assert Read(t.dir[d], r, n, size).open.Keys == t.dir[d].open.Keys;
    case ClosesDir(d, r) =>
      FewerReaders(t.dir[d].open, r);
  }

  /** A call keeps a handle for each reader if and only if it does not take one that a reader needs. */
  lemma RuleIff(t: Tree, c: Call)
    requires TreeInv(t) && Allowed(t, c) && ReaderInv(t)
    ensures Does(t, c).Shape() && (ReaderInv(Does(t, c)) <==> !Careless(t, c))
  {
    KeepDoes(t, c);
    if c.OpensDir? || c.ReadsDir? || c.ClosesDir? {
      ReaderCalls(t, c);
      ReadersRule(t, c.d, Does(t, c));
      assert t.handles[c.d] >= |t.dir[c.d].open|;
    } else {
      CallHandsOn(t, c);
      HandsOnRule(t, c, Does(t, c));
    }
  }

  lemma HandsOnRule(t: Tree, c: Call, t': Tree)
    requires TreeInv(t) && Allowed(t, c) && ReaderInv(t) && HandsOn(t, c, t') && HandleInv(t'.handles) && !c.OpensDir?
    ensures ReaderInv(t') <==> !Careless(t, c)
  {
    if GivesUp(t, c).Some? {
      var f := GivesUp(t, c).value;
      assert t'.handles[f] == t.handles[f] - 1;
    }
    if !Careless(t, c) {
      forall f | 0 <= f < |t'.ref|
        ensures |t'.dir[f].open| <= t'.handles[f]
      {
        if f < |t.ref| {
          assert t.handles[f] >= |t.dir[f].open|;
        }
      }
    }
  }

  /** A run in which every caller keeps a handle for each reader it has open. */
  ghost predicate CarefulRun(ts: seq<Tree>, cs: seq<Call>) {
    IsRun(ts, cs) && forall i :: 0 <= i < |cs| ==> !Careless(ts[i], cs[i])
  }

  lemma {:induction false} CarefulRunInv(ts: seq<Tree>, cs: seq<Call>, k: nat)
    requires CarefulRun(ts, cs) && k < |ts|
    ensures TreeInv(ts[k]) && ReaderInv(ts[k])
  {
    RunInv(ts, cs, k);
    if k > 0 {
      CarefulRunInv(ts, cs, k - 1);
      RuleIff(ts[k - 1], cs[k - 1]);
    }
  }

  lemma NoneDangling(t: Tree)
    requires TreeInv(t) && ReaderInv(t)
    ensures !Dangling(t)
  {
    if Dangling(t) {
      var d :| 0 <= d < |t.ref| && d in t.destroyed && t.dir[d].open != map[];
      assert t.handles[d] >= |t.dir[d].open|;
      DirCount(t, d);
    }
  }

  /** Then no directory is freed while it is read, in any run, and every reader can be used and closed. */
  lemma ReadersKeepTheirDirectory(ts: seq<Tree>, cs: seq<Call>, k: nat)
    requires CarefulRun(ts, cs) && k < |ts|
    ensures ts[k].Shape() && !Dangling(ts[k])
    ensures forall d, r :: 0 <= d < |ts[k].ref| && r in ts[k].dir[d].open ==> Allowed(ts[k], ClosesDir(d, r))
  {
    CarefulRunInv(ts, cs, k);
    NoneDangling(ts[k]);
    forall d, r | 0 <= d < |ts[k].ref| && r in ts[k].dir[d].open
      ensures ts[k].ref[d] > 0
    {
      DirCount(ts[k], d);
      assert d !in ts[k].destroyed;
    }
  }

  // ---------------------------------------------------------------- the exact condition

  /** An empty directory does not list itself. */
  lemma NotOwnParent(t: Tree, f: File)
    requires TreeInv(t) && 0 < f < |t.ref| && t.dir[f].nchild == 0
    ensures t.parent[f] != Some(f)
  {
    if t.parent[f] == Some(f) {
      var e :| e in t.dir[f].list && e.f == Some(f);
      LiveSome(t.dir[f].list, e);
      DirCount(t, f);
    }
  }

  /** The call removes the last live entry of a directory that is being read and to which nothing else refers. */
  predicate FreesParent(t: Tree, c: Call)
    requires t.Shape() && Allowed(t, c)
  {
    && c.Removes? && CanRemove(t, c.f)
    && var p := t.parent[c.f].value;
       && 0 < p < |t.ref| && t.dir[p].open != map[] && t.handles[p] == 0 && t.parent[p].None? && t.dir[p].nchild == 1
  }

  /** What those calls do to the files that are not given up: only the parent of a removed file loses something. */
  ghost predicate KeepsOthers(t: Tree, c: Call, t': Tree)
    requires t.Shape() && (c.Removes? ==> c.f < |t.ref|)
  {
    && t'.Shape() && |t.ref| <= |t'.ref|
    && (forall f {:trigger t'.parent[f]} :: 0 <= f < |t.ref| && GivesUp(t, c) != Some(f) ==>
          && t'.parent[f] == t.parent[f]
          && (c.Removes? ==> t'.handles[f] == t.handles[f])
          && if c.Removes? && CanRemove(t, c.f) && t.parent[c.f] == Some(f)
             then t'.dir[f].nchild == t.dir[f].nchild - 1
             else t'.dir[f].nchild >= t.dir[f].nchild)
  }

  lemma RemoveKeepsOthers(t: Tree, f: File)
    requires TreeInv(t) && t.Held(f)
    ensures KeepsOthers(t, Removes(f), Does(t, Removes(f)))
  {
    KeepRemoveFile(t, f);
    if CanRemove(t, f) {
      RemoveFinds(t, f);
    }
  }

  lemma CallKeepsOthers(t: Tree, c: Call)
    requires TreeInv(t) && Allowed(t, c) && !c.OpensDir? && !c.ReadsDir? && !c.ClosesDir?
    ensures KeepsOthers(t, c, Does(t, c))
  {
    match c
    case Removes(f) =>
      RemoveKeepsOthers(t, f);
    case Walks(d, elem) =>
      WalkedAlive(t, d, elem);
    case _ =>
  }

  lemma FreedIfAsked(t: Tree, c: Call, t': Tree)
    requires TreeInv(t) && TreeInv(t') && Allowed(t, c) && HandsOn(t, c, t') && FreesRead(t, c)
    ensures Dangling(t')
  {
    var f := GivesUp(t, c).value;
    NotOwnParent(t, f);
    assert t'.handles[f] == 0;
    DirCount(t', f);
    assert f in t'.destroyed;
  }

  lemma FreedByItsChild(t: Tree, c: Call, t': Tree)
    requires TreeInv(t) && TreeInv(t') && Allowed(t, c) && HandsOn(t, c, t') && KeepsOthers(t, c, t') && FreesParent(t, c)
    ensures Dangling(t')
  {
    var p := t.parent[c.f].value;
    assert t'.handles[p] == 0 && t'.parent[p].None?;
    DirCount(t', p);
    assert p in t'.destroyed;
  }

  lemma AskedIfFreed(t: Tree, c: Call, t': Tree)
    requires TreeInv(t) && TreeInv(t') && Allowed(t, c) && !Dangling(t) && HandsOn(t, c, t') && KeepsOthers(t, c, t') && Dangling(t')
    ensures FreesRead(t, c) || FreesParent(t, c)
  {
    var d :| 0 <= d < |t'.ref| && d in t'.destroyed && t'.dir[d].open != map[];
    DirCount(t', d);
    assert t'.handles[d] == 0 && t'.parent[d].None?;
    DirCount(t, d);
  }

  lemma ReaderCallsFreeNothing(t: Tree, c: Call)
    requires TreeInv(t) && Allowed(t, c) && !Dangling(t) && (c.OpensDir? || c.ReadsDir? || c.ClosesDir?)
    ensures Does(t, c).Shape() && !Dangling(Does(t, c))
  {
    ReaderCalls(t, c);
    var t' := Does(t, c);
    DirCount(t, c.d);
    assert c.d !in t'.destroyed;
  }

  /**
   * In any run, as long as no directory has been freed while it was read, a call frees one if and only
   * if nothing but the handle it gives up, or the entry it removes, refers to the directory any more.
   */
  lemma FreedWhileReadIff(ts: seq<Tree>, cs: seq<Call>, k: nat, c: Call)
    requires IsRun(ts, cs) && k < |ts| && ts[k].Shape() && Allowed(ts[k], c) && !Dangling(ts[k])
    ensures TreeInv(ts[k]) && Does(ts[k], c).Shape()
    ensures Dangling(Does(ts[k], c)) <==> FreesRead(ts[k], c) || FreesParent(ts[k], c)
  {
    RunInv(ts, cs, k);
    var t := ts[k];
    KeepDoes(t, c);
    if c.OpensDir? || c.ReadsDir? || c.ClosesDir? {
      ReaderCallsFreeNothing(t, c);
    } else {
      CallHandsOn(t, c);
      CallKeepsOthers(t, c);
      if FreesRead(t, c) {
        FreedIfAsked(t, c, Does(t, c));
      }
      if FreesParent(t, c) {
        FreedByItsChild(t, c, Does(t, c));
      }
      if Dangling(Does(t, c)) {
        AskedIfFreed(t, c, Does(t, c));
      }
    }
  }

  /** After a careful run the removal of an entry cannot do it. */
  lemma CarefullyFreedIff(ts: seq<Tree>, cs: seq<Call>, k: nat, c: Call)
    requires CarefulRun(ts, cs) && k < |ts| && ts[k].Shape() && Allowed(ts[k], c)
    ensures TreeInv(ts[k]) && Does(ts[k], c).Shape()
    ensures Dangling(Does(ts[k], c)) <==> FreesRead(ts[k], c)
  {
    ReadersKeepTheirDirectory(ts, cs, k);
    FreedWhileReadIff(ts, cs, k, c);
    CarefulRunInv(ts, cs, k);
    assert !FreesParent(ts[k], c);
  }
}
