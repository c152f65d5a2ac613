/** All runs of the file tree: any calls, in any order, by callers that use only references they hold. */
module FileTreeRuns {
  import opened Counting
  import opened Options
  import opened Directory
  import opened DirectoryProofs
  import opened FileTree
  import opened FileTreeProofs

  datatype Call =
    | Creates(fp: File, nm: string, isdir: bool)
    | Removes(f: File)
    | Walks(d: File, elem: string)
    | Closes(f: File)
    | Dups(f: File)
    | OpensDir(d: File, r: Reader)
    | ReadsDir(d: File, r: Reader, n: int, size: File -> nat)
    | ClosesDir(d: File, r: Reader)

  /**
   * The caller has a reference to the file it names; a Readdir is new when it is opened, and its
   * directory has not been freed when it is used. So a run ends before the first use of freed memory.
   */
  predicate Allowed(t: Tree, c: Call)
    requires t.Shape()
  {
    match c
    case Creates(fp, nm, isdir) => t.Held(fp)
    case Removes(f) => t.Held(f)
    case Walks(d, elem) => t.Held(d)
    case Closes(f) => t.Held(f)
    case Dups(f) => f == ROOT || t.Held(f)
    case OpensDir(d, r) => t.Held(d) && r !in t.dir[d].open
    case ReadsDir(d, r, n, size) => d < |t.ref| && t.ref[d] > 0 && r in t.dir[d].open
    case ClosesDir(d, r) => d < |t.ref| && t.ref[d] > 0 && r in t.dir[d].open
  }

  ghost function Does(t: Tree, c: Call): Tree
    requires TreeInv(t) && Allowed(t, c)
  {
    match c
    case Creates(fp, nm, isdir) => CreateFile(t, fp, nm, isdir)
    case Removes(f) =>
      KeepRemoveFile(t, f);
      RemoveFile(t, f)
    case Walks(d, elem) =>
      WalkedAlive(t, d, elem);
      WalkFile1(t, d, elem)
    case Closes(f) => CloseFile(t, f)
    case Dups(f) => Dup(t, f)
    case OpensDir(d, r) => OpenDir(t, d, r)
    case ReadsDir(d, r, n, size) => ReadDir(t, d, r, n, size)
    case ClosesDir(d, r) => CloseDir(t, d, r)
  }

  /** A run from alloctree. That every state has the invariant, and so a next state, is RunInv. */
  ghost predicate IsRun(ts: seq<Tree>, cs: seq<Call>) {
    && |ts| == |cs| + 1
    && ts[0] == START
    && forall i :: 0 <= i < |cs| ==> ts[i].Shape() && Allowed(ts[i], cs[i]) && (TreeInv(ts[i]) ==> ts[i + 1] == Does(ts[i], cs[i]))
  }

  lemma KeepDoes(t: Tree, c: Call)
    requires TreeInv(t) && Allowed(t, c)
    ensures TreeInv(Does(t, c))
  {
    match c
    case Creates(fp, nm, isdir) =>
      DirCount(t, fp);
      KeepCreateFile(t, fp, nm, isdir);
    case Removes(f) =>
      KeepRemoveFile(t, f);
    case Walks(d, elem) =>
      WalkedAlive(t, d, elem);
      KeepWalkFile1(t, d, elem);
    case Closes(f) =>
      KeepCloseFile(t, f);
    case Dups(f) =>
      DirCount(t, f);
      KeepDup(t, f);
    case OpensDir(d, r) =>
      KeepOpenDir(t, d, r);
    case ReadsDir(d, r, n, size) =>
      KeepReadDir(t, d, r, n, size);
    case ClosesDir(d, r) =>
      KeepCloseDir(t, d, r);
  }

  lemma {:induction false} RunInv(ts: seq<Tree>, cs: seq<Call>, k: nat)
    requires IsRun(ts, cs) && k < |ts|
    ensures TreeInv(ts[k])
  {
    if k > 0 {
      RunInv(ts, cs, k - 1);
      KeepDoes(ts[k - 1], cs[k - 1]);
    }
  }

  /** The number of directories that list f is one or none. */
  ghost predicate Listed(t: Tree, f: File) {
    exists p :: 0 <= p < |t.dir| && Lists(t.dir[p].list, f)
  }

  /**
   * The count of a file is the number of references there are to it: one if a directory lists it,
   * one for each of its own live entries, one for each that a caller holds, and one more for the root.
   */
  lemma CountIsExact(ts: seq<Tree>, cs: seq<Call>, k: nat, f: File)
    requires IsRun(ts, cs) && k < |ts| && f < |ts[k].ref| && ts[k].Shape()
    ensures ts[k].ref[f] == B(f == ROOT) + (if Listed(ts[k], f) then 1 else 0) + Live(ts[k].dir[f].list) + ts[k].handles[f]
    ensures ts[k].dir[f].nchild == Live(ts[k].dir[f].list) && ts[k].dir[f].nxchild == |ts[k].dir[f].list| - Live(ts[k].dir[f].list)
  {
    RunInv(ts, cs, k);
    DirCount(ts[k], f);
    ListedIs(ts[k], f);
  }

  lemma ListedIs(t: Tree, f: File)
    requires TreeInv(t) && f < |t.ref|
    ensures Listed(t, f) <==> f != ROOT && t.parent[f].Some?
  {
    if f != ROOT && t.parent[f].Some? {
      assert Lists(t.dir[t.parent[f].value].list, f);
    }
    if Listed(t, f) {
      var p :| 0 <= p < |t.dir| && Lists(t.dir[p].list, f);
      var e :| e in t.dir[p].list && e.f == Some(f);
    }
  }

  /** Destroy runs once for a file, exactly when its last reference has gone, and never for the root. */
  lemma DestroyedOnce(ts: seq<Tree>, cs: seq<Call>, k: nat, f: File)
    requires IsRun(ts, cs) && k < |ts| && f < |ts[k].ref|
    ensures multiset(ts[k].destroyed)[f] == if ts[k].ref[f] == 0 then 1 else 0
    ensures ts[k].ref[f] >= 0 && ts[k].ref[ROOT] > 0
  {
    RunInv(ts, cs, k);
    DirCount(ts[k], ROOT);
    OnceEach(ts[k].destroyed, f);
  }

  /** No two files in a directory have the same name, and no file is in two places. */
  lemma NamesAreDistinct(ts: seq<Tree>, cs: seq<Call>, k: nat, p: File, q: File, e: Entry, e': Entry)
    requires IsRun(ts, cs) && k < |ts| && ts[k].Shape() && p < |ts[k].ref| && q < |ts[k].ref|
    requires e in ts[k].dir[p].list && e' in ts[k].dir[q].list && e.f.Some? && e'.f.Some?
    ensures e.f.value < |ts[k].ref| && e'.f.value < |ts[k].ref|
    ensures p == q && ts[k].name[e.f.value] == ts[k].name[e'.f.value] ==> e == e'
    ensures e.f == e'.f ==> p == q && e == e'
  {
    RunInv(ts, cs, k);
  }

  /** removefile always finds the entry it looks for, so its assert holds. */
  lemma RemoveAssertHolds(ts: seq<Tree>, cs: seq<Call>, k: nat)
    requires IsRun(ts, cs) && k < |cs| && cs[k].Removes? && ts[k].Shape() && CanRemove(ts[k], cs[k].f)
    ensures ts[k].parent[cs[k].f].value < |ts[k].dir|
    ensures Lists(ts[k].dir[ts[k].parent[cs[k].f].value].list, cs[k].f)
  {
    RunInv(ts, cs, k);
    RemoveFinds(ts[k], cs[k].f);
    FindFileIs(ts[k].dir[ts[k].parent[cs[k].f].value].list, cs[k].f);
  }

  /**
   * The asserts of freefile: a file that is freed has no reference left and only blank entries, and
   * no entries at all unless it is a directory that is still being read.
   */
  lemma FreeAssertHolds(ts: seq<Tree>, cs: seq<Call>, k: nat, f: File)
    requires IsRun(ts, cs) && k < |ts| && f in ts[k].destroyed
    ensures ts[k].Shape() && f < |ts[k].ref| && ts[k].ref[f] == 0 && ts[k].handles[f] == 0 && !Listed(ts[k], f)
    ensures forall e :: e in ts[k].dir[f].list ==> e.f.None?
    ensures ts[k].dir[f].open == map[] ==> ts[k].dir[f].list == []
  {
    RunInv(ts, cs, k);
    var i :| 0 <= i < |ts[k].destroyed| && ts[k].destroyed[i] == f;
    DirCount(ts[k], f);
    ListedIs(ts[k], f);
    forall e | e in ts[k].dir[f].list
      ensures e.f.None?
    {
      if e.f.Some? {
        LiveSome(ts[k].dir[f].list, e);
      }
    }
    LiveAll(ts[k].dir[f].list);
  }

  /** A walk that finds a file finds one that has not been freed, and gives the caller a reference to it. */
  lemma WalkFindsLive(ts: seq<Tree>, cs: seq<Call>, k: nat)
    requires IsRun(ts, cs) && k < |cs| && cs[k].Walks? && ts[k].Shape()
    requires Walked(ts[k], cs[k].d, cs[k].elem).Some?
    ensures
      var f := Walked(ts[k], cs[k].d, cs[k].elem).value;
      && f < |ts[k].ref| && f !in ts[k].destroyed
      && f < |ts[k + 1].handles| && ts[k + 1].handles[f] == ts[k].handles[f] + B(f != cs[k].d)
  {
    RunInv(ts, cs, k);
    WalkedAlive(ts[k], cs[k].d, cs[k].elem);
  }

  /** A walk crashes exactly for ".." in a directory that has been removed. */
  lemma WalkCrashesIff(ts: seq<Tree>, cs: seq<Call>, k: nat)
    requires IsRun(ts, cs) && k < |cs| && cs[k].Walks? && ts[k].Shape() && cs[k].d < |ts[k].ref|
    ensures WalkCrashes(ts[k], cs[k].d, cs[k].elem) <==> cs[k].elem == ".." && cs[k].d != ROOT && !Listed(ts[k], cs[k].d)
  {
    RunInv(ts, cs, k);
    ListedIs(ts[k], cs[k].d);
  }
}
