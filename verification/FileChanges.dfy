/** What createfile and removefile do to the tree, told from the entries of the directories alone, in every run. */
module FileChanges {
  import opened Counting
  import opened Options
  import opened Directory
  import opened FileTree
  import opened FileTreeProofs
  import opened FileTreeRuns
  import opened FileWalks

  /** Some file of directory d is called nm. */
  ghost predicate NameTaken(t: Tree, d: File, nm: string) {
    exists f: File :: HasEntry(t, d, nm, f)
  }

  /** Directory d has no files. */
  ghost predicate Empty(t: Tree, d: File) {
    d < |t.dir| && forall f: File :: !Lists(t.dir[d].list, f)
  }

  lemma TakenIff(t: Tree, d: File, nm: string)
    requires TreeInv(t) && d < |t.ref|
    ensures FindName(t.dir[d].list, t.name, nm) < |t.dir[d].list| <==> NameTaken(t, d, nm)
  {
    var list := t.dir[d].list;
    var i := FindName(list, t.name, nm);
    if i < |list| {
      assert list[i] in list && HasEntry(t, d, nm, list[i].f.value);
    }
    if NameTaken(t, d, nm) {
      var f: File :| HasEntry(t, d, nm, f);
      var e :| e in list && e.f == Some(f);
      NamedIs(t, d, nm, e);
    }
  }

  lemma {:induction false} NoneLive(list: seq<Entry>)
    ensures Live(list) == 0 <==> forall f: File :: !Lists(list, f)
  {
    if list != [] {
      NoneLive(list[1..]);
      assert list[0] in list && forall e :: e in list <==> e == list[0] || e in list[1..];
      if list[0].f.Some? {
        assert Lists(list, list[0].f.value);
      } else {
        forall f: File
          ensures Lists(list, f) <==> Lists(list[1..], f)
        {
        }
      }
    }
  }

  lemma EmptyIff(t: Tree, d: File)
    requires TreeInv(t) && d < |t.ref|
    ensures t.dir[d].nchild == 0 <==> Empty(t, d)
  {
    DirCount(t, d);
    NoneLive(t.dir[d].list);
  }

  // ---------------------------------------------------------------- createfile

  /** The entries of t', which has one file more, are those of t and one for it in fp. */
  ghost predicate OneFileMore(t: Tree, fp: File, nm: string, isdir: bool, t': Tree)
    requires t.Shape()
  {
    var g := |t.ref|;
    && t'.Shape() && |t'.ref| == g + 1 && t'.name == t.name + [nm] && t'.isdir == t.isdir + [isdir]
    && HasEntry(t', fp, nm, g) && Empty(t', g) && t'.handles == t.handles + [1]
    && forall d: File, f: File :: d < g ==> (Lists(t'.dir[d].list, f) <==> Lists(t.dir[d].list, f) || (d == fp && f == g))
  }

  lemma CreateAdds(t: Tree, fp: File, nm: string, isdir: bool)
    requires TreeInv(t) && fp < |t.ref| && CanCreate(t, fp, nm)
    ensures OneFileMore(t, fp, nm, isdir, CreateFile(t, fp, nm, isdir))
  {
    var t', g := CreateFile(t, fp, nm, isdir), |t.ref|;
    var x := Entry(t.dir[fp].made, Some(g));
    assert t'.dir[fp].list == t.dir[fp].list + [x];
    assert forall e :: e in t'.dir[fp].list <==> e in t.dir[fp].list || e == x;
    assert x in t'.dir[fp].list;
  }

  /**
   * createfile makes a file exactly if its parent is a directory that has no file of that name. Then the file is there
   * under that name, has no files itself and one reference for the caller, and all other entries stay; else nothing
   * changes.
   */
  lemma CreatesIff(ts: seq<Tree>, cs: seq<Call>, k: nat)
    requires IsRun(ts, cs) && k < |cs| && cs[k].Creates?
    ensures
      var Creates(fp, nm, isdir) := cs[k];
      && ts[k].Shape() && fp < |ts[k].ref|
      && (if ts[k].isdir[fp] && !NameTaken(ts[k], fp, nm) then OneFileMore(ts[k], fp, nm, isdir, ts[k + 1]) else ts[k + 1] == ts[k])
  {
    RunInv(ts, cs, k);
    var Creates(fp, nm, isdir) := cs[k];
    TakenIff(ts[k], fp, nm);
    if CanCreate(ts[k], fp, nm) {
      CreateAdds(ts[k], fp, nm, isdir);
    }
  }

  /** What has been made is found. */
  lemma CreateThenWalk(ts: seq<Tree>, cs: seq<Call>, k: nat)
    requires IsRun(ts, cs) && k < |cs| && cs[k].Creates? && cs[k].nm != ".."
    requires ts[k].Shape() && cs[k].fp < |ts[k].ref| && ts[k].isdir[cs[k].fp] && !NameTaken(ts[k], cs[k].fp, cs[k].nm)
    ensures TreeInv(ts[k + 1]) && cs[k].fp < |ts[k + 1].ref| && Walked(ts[k + 1], cs[k].fp, cs[k].nm) == Some(|ts[k].ref|)
  {
    RunInv(ts, cs, k + 1);
    CreatesIff(ts, cs, k);
    WalkedIff(ts[k + 1], cs[k].fp, cs[k].nm);
    assert Goes(ts[k + 1], cs[k].fp, cs[k].nm, |ts[k].ref|);
  }

  // ---------------------------------------------------------------- removefile

  /** The entries of t' are those of t without those for f. */
  ghost predicate OneFileLess(t: Tree, f: File, t': Tree)
    requires t.Shape()
  {
    && t'.Shape() && |t'.ref| == |t.ref| && t'.name == t.name && t'.isdir == t.isdir
    && forall d: File, g: File :: d < |t.dir| ==> (Lists(t'.dir[d].list, g) <==> Lists(t.dir[d].list, g) && g != f)
  }

  lemma RemoveTakes(t: Tree, f: File)
    requires TreeInv(t) && t.Held(f) && CanRemove(t, f)
    ensures Does(t, Removes(f)).Shape() && OneFileLess(t, f, Does(t, Removes(f)))
  {
    RemoveFinds(t, f);
    var fp := t.parent[f].value;
    var i := FindFile(t.dir[fp].list, f);
    var x := t.dir[fp].list[i];
    assert DirInv(t.dir[fp]);
    RemoveLive(t.dir[fp], i);
    RemoveIs(t, f);
    LessIn(t, f, fp, Remove(t.dir[fp], i), x);
  }

  lemma LessIn(t: Tree, f: File, fp: File, d: Dir, x: Entry)
    requires LinkInv(t.parent, t.dir) && fp < |t.dir| && x in t.dir[fp].list && x.f == Some(f) && Without(t.dir[fp].list, d.list, x)
    ensures forall c: File, g: File :: c < |t.dir| ==> (Lists(t.dir[fp := d][c].list, g) <==> Lists(t.dir[c].list, g) && g != f)
  {
  }

  /**
   * removefile removes a file exactly if it is not the root, some directory lists it, and it has no files itself. Then
   * it is the only one whose entry goes; else all entries stay. The reference of the caller goes in every case.
   */
  lemma RemovesIff(ts: seq<Tree>, cs: seq<Call>, k: nat)
    requires IsRun(ts, cs) && k < |cs| && cs[k].Removes?
    ensures
      var f := cs[k].f;
      && ts[k].Shape() && f < |ts[k].ref| && ts[k + 1].Shape()
      && (if f != ROOT && Listed(ts[k], f) && Empty(ts[k], f) then OneFileLess(ts[k], f, ts[k + 1]) && !Listed(ts[k + 1], f)
          else ts[k + 1].dir == ts[k].dir)
      && ts[k + 1].handles == ts[k].handles[f := ts[k].handles[f] - 1]
  {
    RunInv(ts, cs, k);
    RunInv(ts, cs, k + 1);
    var f := cs[k].f;
    EmptyIff(ts[k], f);
    ListedIs(ts[k], f);
    if CanRemove(ts[k], f) {
      RemoveTakes(ts[k], f);
    }
  }
}
