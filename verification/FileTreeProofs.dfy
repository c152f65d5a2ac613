/** What every routine of the file tree keeps. */
module FileTreeProofs {
  import opened Counting
  import opened Options
  import opened Directory
  import opened DirectoryProofs
  import opened FileTree

  // ---------------------------------------------------------------- searching a list

  lemma {:induction false} FindFileIs(list: seq<Entry>, f: File)
    ensures FindFile(list, f) < |list| <==> Lists(list, f)
  {
    var i := FindFile(list, f);
    if i < |list| {
      assert list[i] in list;
    }
  }

  /** Two lists with the same live entries. */
  ghost predicate SameLive(a: seq<Entry>, b: seq<Entry>) {
    forall e: Entry :: e.f.Some? ==> (e in a <==> e in b)
  }

  // ---------------------------------------------------------------- references come and go

  lemma KeepCloseFile(t: Tree, f: File)
    requires TreeInv(t) && t.Held(f)
    ensures TreeInv(CloseFile(t, f))
  {
    DirCount(t, f);
    DestroyLess(t.ref, t.destroyed, f);
  }

  lemma DirCount(t: Tree, f: File)
    requires TreeInv(t) && f < |t.ref|
    ensures t.dir[f].nchild == Live(t.dir[f].list) && t.ref[f] == Owed(f, t.parent[f], t.dir[f], t.handles[f])
    ensures t.handles[f] >= 0
    ensures t.dir[f].nxchild == |t.dir[f].list| - Live(t.dir[f].list) && (t.dir[f].open == map[] ==> t.dir[f].nxchild == 0)
    ensures t.ref[f] > 0 <==> (f == ROOT || t.parent[f].Some? || t.dir[f].nchild > 0 || t.handles[f] > 0)
  {
    assert DirInv(t.dir[f]);
  }

  lemma KeepDup(t: Tree, f: File)
    requires TreeInv(t) && f < |t.ref| && t.ref[f] > 0
    ensures TreeInv(Dup(t, f))
  {
    DestroyMore(t.ref, t.destroyed, f);
  }

  // ---------------------------------------------------------------- a list changes

  lemma LinkSame(parent: seq<Option<File>>, dir: seq<Dir>, p: File, d: Dir)
    requires LinkInv(parent, dir) && p < |dir| && SameLive(dir[p].list, d.list)
    ensures LinkInv(parent, dir[p := d])
  {
    forall f | 0 < f < |parent| && parent[f].Some?
      ensures Lists(dir[p := d][parent[f].value].list, f)
    {
      var e :| e in dir[parent[f].value].list && e.f == Some(f);
      assert e in dir[p := d][parent[f].value].list;
    }
  }

  lemma NameSame(dir: seq<Dir>, name: seq<string>, p: File, d: Dir)
    requires NameInv(dir, name) && p < |dir| && SameLive(dir[p].list, d.list)
    ensures NameInv(dir[p := d], name)
  {
  }

  /** A change to one directory that keeps its files. */
  lemma KeepDir(t: Tree, p: File, d: Dir)
    requires TreeInv(t) && p < |t.ref| && SameLive(t.dir[p].list, d.list) && DirInv(d)
    requires d.nchild == t.dir[p].nchild
    ensures TreeInv(t.(dir := t.dir[p := d]))
  {
    LinkSame(t.parent, t.dir, p, d);
    NameSame(t.dir, t.name, p, d);
  }

  lemma CleanSame(d: Dir)
    requires Counted(d)
    ensures SameLive(d.list, Clean(d).list) && Clean(d).nchild == d.nchild
  {
    KeepClean(d);
  }

  lemma KeepOpenDir(t: Tree, d: File, r: Reader)
    requires TreeInv(t) && t.Held(d) && r !in t.dir[d].open
    ensures TreeInv(OpenDir(t, d, r))
  {
    KeepOpen(t.dir[d], r);
    KeepDir(t, d, if t.isdir[d] then Open(t.dir[d], r) else t.dir[d]);
    assert t.dir[d := t.dir[d]] == t.dir;
  }

  lemma KeepReadDir(t: Tree, d: File, r: Reader, n: int, size: File -> nat)
    requires TreeInv(t) && d < |t.ref| && r in t.dir[d].open
    ensures TreeInv(ReadDir(t, d, r, n, size))
  {
    KeepRead(t.dir[d], r, n, size);
    KeepDir(t, d, Read(t.dir[d], r, n, size));
  }

  lemma KeepCloseDir(t: Tree, d: File, r: Reader)
    requires TreeInv(t) && d < |t.ref| && r in t.dir[d].open
    ensures TreeInv(CloseDir(t, d, r))
  {
    var closed := t.dir[d].(open := t.dir[d].open - {r});
    DirectoryProofs.KeepClose(t.dir[d], r);
    CleanSame(closed);
    KeepDir(t, d, Clean(closed));
  }

  // ---------------------------------------------------------------- walkfile1

  /** What a walk finds is a file somebody refers to. */
  lemma WalkedAlive(t: Tree, d: File, elem: string)
    requires TreeInv(t) && t.Held(d)
    ensures Walked(t, d, elem).Some? ==> Walked(t, d, elem).value < |t.ref| && t.ref[Walked(t, d, elem).value] > 0
  {
    if elem == ".." && t.parent[d].Some? {
      var p := t.parent[d].value;
      if d != ROOT {
        var e :| e in t.dir[p].list && e.f == Some(d);
        LiveSome(t.dir[p].list, e);
      }
      DirCount(t, p);
    } else if elem != ".." {
      var i := FindName(t.dir[d].list, t.name, elem);
      if i < |t.dir[d].list| {
        assert t.dir[d].list[i] in t.dir[d].list;
        DirCount(t, t.dir[d].list[i].f.value);
      }
    }
  }

  lemma {:induction false} LiveSome(list: seq<Entry>, e: Entry)
    requires e in list && e.f.Some?
    ensures Live(list) > 0
  {
    if list[0] != e {
      LiveSome(list[1..], e);
    }
  }

  lemma KeepWalkFile1(t: Tree, d: File, elem: string)
    requires TreeInv(t) && t.Held(d)
    requires Walked(t, d, elem).Some? ==> Walked(t, d, elem).value < |t.ref|
    ensures TreeInv(WalkFile1(t, d, elem))
  {
    WalkedAlive(t, d, elem);
    var f := Walked(t, d, elem);
    if f.Some? {
      KeepDup(t, f.value);
      KeepCloseFile(Dup(t, f.value), d);
    } else if !WalkCrashes(t, d, elem) {
      KeepCloseFile(t, d);
    }
  }

  // ---------------------------------------------------------------- createfile

  lemma LinkCreate(parent: seq<Option<File>>, dir: seq<Dir>, p: File, d: Dir, e: Entry)
    requires LinkInv(parent, dir) && p < |dir| && e.f == Some(|dir|) && d.list == dir[p].list + [e]
    ensures LinkInv(parent + [Some(p)], dir[p := d] + [EMPTY])
  {
    var n := |dir|;
    var parent', dir' := parent + [Some(p)], dir[p := d] + [EMPTY];
    assert forall x :: x in d.list <==> x in dir[p].list || x == e;
    forall f | 0 < f < |parent'| && parent'[f].Some?
      ensures parent'[f].value < |parent'| && Lists(dir'[parent'[f].value].list, f)
    {
      if f == n {
        assert e in dir'[p].list;
      } else {
        var x :| x in dir[parent[f].value].list && x.f == Some(f);
        assert x in dir'[parent'[f].value].list;
      }
    }
    forall q, x | 0 <= q < |dir'| && x in dir'[q].list
      ensures (q < n && x in dir[q].list) || (q == p && x == e)
    {
    }
  }

  lemma NameCreate(dir: seq<Dir>, name: seq<string>, p: File, d: Dir, e: Entry, nm: string)
    requires NameInv(dir, name) && p < |dir| && e.f == Some(|dir|) && d.list == dir[p].list + [e]
    requires FindName(dir[p].list, name, nm) == |dir[p].list|
    ensures NameInv(dir[p := d] + [EMPTY], name + [nm])
  {
    var dir', name' := dir[p := d] + [EMPTY], name + [nm];
    assert forall x :: x in d.list <==> x in dir[p].list || x == e;
    forall x | x in dir[p].list && x.f.Some?
      ensures name[x.f.value] != nm
    {
      var j :| 0 <= j < |dir[p].list| && dir[p].list[j] == x;
    }
    forall q, x | 0 <= q < |dir'| && x in dir'[q].list
      ensures (q < |dir| && x in dir[q].list) || (q == p && x == e)
    {
    }
  }

  lemma CountCreate(ref: seq<int>, parent: seq<Option<File>>, dir: seq<Dir>, handles: seq<int>, fp: File, d: Dir)
    requires CountInv(ref, parent, dir, handles) && fp < |ref| && 0 < |ref| && d.nchild == dir[fp].nchild + 1
    ensures CountInv(ref[fp := ref[fp] + 1] + [2], parent + [Some(fp)], dir[fp := d] + [EMPTY], handles + [1])
  {
  }

  lemma DirsCreate(dir: seq<Dir>, handles: seq<int>, fp: File, d: Dir)
    requires DirsInv(dir) && HandleInv(handles) && fp < |dir| && DirInv(d)
    ensures DirsInv(dir[fp := d] + [EMPTY]) && HandleInv(handles + [1])
  {
  }

  /** A directory gets one more entry, for a new file. */
  lemma KeepLinked(t: Tree, fp: File, nm: string, isdir: bool, d: Dir, e: Entry)
    requires TreeInv(t) && fp < |t.ref| && t.ref[fp] > 0
    requires DirInv(d) && e.f == Some(|t.ref|) && d.list == t.dir[fp].list + [e]
    requires d.nchild == t.dir[fp].nchild + 1
    requires FindName(t.dir[fp].list, t.name, nm) == |t.dir[fp].list|
    ensures TreeInv(Tree(t.ref[fp := t.ref[fp] + 1] + [2], t.parent + [Some(fp)], t.name + [nm], t.isdir + [isdir],
                         t.dir[fp := d] + [EMPTY], t.handles + [1], t.destroyed))
  {
    LinkCreate(t.parent, t.dir, fp, d, e);
    NameCreate(t.dir, t.name, fp, d, e, nm);
    CountCreate(t.ref, t.parent, t.dir, t.handles, fp, d);
    DirsCreate(t.dir, t.handles, fp, d);
    DestroyMore(t.ref, t.destroyed, fp);
    DestroyNew(t.ref[fp := t.ref[fp] + 1], t.destroyed, 2);
  }

  lemma KeepCreateFile(t: Tree, fp: File, nm: string, isdir: bool)
    requires TreeInv(t) && fp < |t.ref| && t.ref[fp] > 0
    ensures TreeInv(CreateFile(t, fp, nm, isdir))
  {
    if CanCreate(t, fp, nm) {
      KeepCreate(t.dir[fp], |t.ref|);
      KeepLinked(t, fp, nm, isdir, Create(t.dir[fp], |t.ref|), Entry(t.dir[fp].made, Some(|t.ref|)));
    }
  }

  // ---------------------------------------------------------------- removefile

  /** The live entries of b are those of a other than x. */
  ghost predicate Without(a: seq<Entry>, b: seq<Entry>, x: Entry) {
    forall e: Entry {:trigger e in b} :: e.f.Some? ==> (e in b <==> e in a && e != x)
  }

  /** Removing an entry leaves the other live ones. */
  lemma RemoveLive(d: Dir, i: nat)
    requires DirInv(d) && i < |d.list| && d.list[i].f.Some?
    ensures Without(d.list, Remove(d, i).list, d.list[i])
    ensures Remove(d, i).nchild == d.nchild - 1 && Remove(d, i).open == d.open
  {
    var blank := d.list[i := Entry(d.list[i].id, None)];
    forall e: Entry | e.f.Some?
      ensures e in blank <==> e in d.list && e != d.list[i]
    {
      if e in d.list && e != d.list[i] {
        var j :| 0 <= j < |d.list| && d.list[j] == e;
        assert blank[j] == e;
      }
      if e in blank {
        var j :| 0 <= j < |blank| && blank[j] == e;
        assert d.list[j] == e;
      }
    }
    KeptIs(blank, d.made);
  }

  lemma LinkRemove(parent: seq<Option<File>>, dir: seq<Dir>, fp: File, d: Dir, f: File, x: Entry)
    requires LinkInv(parent, dir) && fp < |dir| && 0 < f < |dir| && x in dir[fp].list && x.f == Some(f)
    requires Without(dir[fp].list, d.list, x)
    ensures LinkInv(parent[f := None], dir[fp := d])
  {
    forall g | 0 < g < |parent| && g != f && parent[g].Some?
      ensures parent[g].value < |parent| && Lists(dir[fp := d][parent[g].value].list, g)
    {
      var e :| e in dir[parent[g].value].list && e.f == Some(g);
      assert e in dir[fp := d][parent[g].value].list;
    }
    forall q, e | 0 <= q < |dir| && e in dir[fp := d][q].list && e.f.Some?
      ensures e in dir[q].list && e.f != Some(f)
    {
    }
  }

  lemma NameRemove(dir: seq<Dir>, name: seq<string>, fp: File, d: Dir, x: Entry)
    requires NameInv(dir, name) && fp < |dir|
    requires Without(dir[fp].list, d.list, x)
    ensures NameInv(dir[fp := d], name)
  {
  }

  lemma CountRemove(ref: seq<int>, parent: seq<Option<File>>, dir: seq<Dir>, handles: seq<int>, fp: File, f: File, d: Dir)
    requires CountInv(ref, parent, dir, handles) && fp < |ref| && 0 < f < |ref| && f != fp && parent[f].Some?
    requires d.nchild == dir[fp].nchild - 1
    ensures CountInv(ref[fp := ref[fp] - 1], parent[f := None], dir[fp := d], handles[f := handles[f] + 1])
  {
  }

  lemma DirsRemove(dir: seq<Dir>, handles: seq<int>, fp: File, f: File, d: Dir)
    requires DirsInv(dir) && HandleInv(handles) && fp < |dir| && f < |handles| && DirInv(d)
    ensures DirsInv(dir[fp := d]) && HandleInv(handles[f := handles[f] + 1])
  {
  }

  /** The search of removefile finds the entry, and parent and file are referred to often enough. */
  lemma RemoveFinds(t: Tree, f: File)
    requires TreeInv(t) && t.Held(f) && CanRemove(t, f)
    ensures
      var fp := t.parent[f].value;
      && 0 < f && fp < |t.ref| && fp != f && FindFile(t.dir[fp].list, f) < |t.dir[fp].list|
      && t.ref[fp] > 0 && t.ref[f] >= 2
  {
    var fp := t.parent[f].value;
    FindFileIs(t.dir[fp].list, f);
    var e :| e in t.dir[fp].list && e.f == Some(f);
    LiveSome(t.dir[fp].list, e);
    DirCount(t, fp);
    DirCount(t, f);
  }

  /** A directory with the entry x of file f gone; the reference of the entry is now the remover's. */
  function Unlinked(t: Tree, fp: File, f: File, d: Dir): Tree
    requires t.Shape() && fp < |t.ref| && f < |t.ref|
  {
    Drop(t.(dir := t.dir[fp := d], parent := t.parent[f := None], handles := t.handles[f := t.handles[f] + 1]), fp)
  }

  lemma KeepUnlinked(t: Tree, fp: File, f: File, d: Dir, x: Entry)
    requires TreeInv(t) && fp < |t.ref| && 0 < f < |t.ref| && f != fp && t.ref[fp] > 0
    requires x in t.dir[fp].list && x.f == Some(f) && t.parent[f].Some?
    requires DirInv(d) && d.nchild == t.dir[fp].nchild - 1
    requires Without(t.dir[fp].list, d.list, x)
    ensures TreeInv(Unlinked(t, fp, f, d))
  {
    UnlinkedLists(t, fp, f, d, x);
    UnlinkedCounts(t, fp, f, d);
  }

  lemma UnlinkedLists(t: Tree, fp: File, f: File, d: Dir, x: Entry)
    requires t.Shape() && LinkInv(t.parent, t.dir) && NameInv(t.dir, t.name) && fp < |t.ref| && 0 < f < |t.ref|
    requires x in t.dir[fp].list && x.f == Some(f) && Without(t.dir[fp].list, d.list, x)
    ensures var t' := Unlinked(t, fp, f, d); LinkInv(t'.parent, t'.dir) && NameInv(t'.dir, t'.name)
  {
    LinkRemove(t.parent, t.dir, fp, d, f, x);
    NameRemove(t.dir, t.name, fp, d, x);
  }

  lemma UnlinkedCounts(t: Tree, fp: File, f: File, d: Dir)
    requires t.Shape() && CountInv(t.ref, t.parent, t.dir, t.handles) && DirsInv(t.dir) && DestroyInv(t.ref, t.destroyed) && HandleInv(t.handles)
    requires fp < |t.ref| && 0 < f < |t.ref| && f != fp && t.ref[fp] > 0 && t.parent[f].Some?
    requires DirInv(d) && d.nchild == t.dir[fp].nchild - 1
    ensures
      var t' := Unlinked(t, fp, f, d);
      && CountInv(t'.ref, t'.parent, t'.dir, t'.handles) && DirsInv(t'.dir) && DestroyInv(t'.ref, t'.destroyed) && HandleInv(t'.handles)
  {
    CountRemove(t.ref, t.parent, t.dir, t.handles, fp, f, d);
    DirsRemove(t.dir, t.handles, fp, f, d);
    DestroyLess(t.ref, t.destroyed, fp);
  }

  lemma RemoveIs(t: Tree, f: File)
    requires t.Shape() && f < |t.ref| && CanRemove(t, f)
    requires t.parent[f].value < |t.ref|
    requires FindFile(t.dir[t.parent[f].value].list, f) < |t.dir[t.parent[f].value].list|
    ensures
      var fp := t.parent[f].value;
      RemoveFile(t, f) == CloseFile(CloseFile(Unlinked(t, fp, f, Remove(t.dir[fp], FindFile(t.dir[fp].list, f))), f), f)
  {
    var h := t.handles[f];
    assert t.handles[f := h + 1][f := h][f := h - 1] == t.handles[f := h - 1];
  }

  lemma KeepRemoveFile(t: Tree, f: File)
    requires TreeInv(t) && t.Held(f)
    ensures CanRemove(t, f) ==> t.parent[f].value < |t.ref| && FindFile(t.dir[t.parent[f].value].list, f) < |t.dir[t.parent[f].value].list|
    ensures TreeInv(RemoveFile(t, f))
  {
    if CanRemove(t, f) {
      RemoveFinds(t, f);
      RemoveIs(t, f);
      var fp := t.parent[f].value;
      var i := FindFile(t.dir[fp].list, f);
      var d := Remove(t.dir[fp], i);
      KeepRemove(t.dir[fp], i);
      RemoveLive(t.dir[fp], i);
      KeepUnlinked(t, fp, f, d, t.dir[fp].list[i]);
      var t' := Unlinked(t, fp, f, d);
      KeepCloseFile(t', f);
      KeepCloseFile(CloseFile(t', f), f);
    } else {
      KeepCloseFile(t, f);
    }
  }
}
