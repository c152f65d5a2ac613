/** The routines of src/lib9p/file.c as they run: fields changed in place and lists walked by loops. */
module FileCode {
  import opened Counting
  import opened Options
  import opened Directory
  import opened DirectoryProofs
  import opened FileTree
  import opened FileTreeProofs
  import opened FileWalks

  class Files {
    var t: Tree

    constructor ()
      ensures t == START && TreeInv(t)
    {
      t := START;
    }

    /** cleanfilelist. */
    method CleanFileList(d: File)
      requires t.Shape() && d < |t.ref|
      modifies this
      ensures t == old(t).(dir := old(t).dir[d := Clean(old(t).dir[d])])
    {
      var dd := t.dir[d];
      if dd.open != map[] || dd.nxchild == 0 {
        assert t.dir[d := t.dir[d]] == t.dir;
        return;
      }
      var kept, i := [], 0;
      while i < |dd.list|
        invariant i <= |dd.list|
        invariant kept + Kept(dd.list[i..]) == Kept(dd.list)
      {
        if dd.list[i].f.Some? {
          kept := kept + [dd.list[i]];
        }
        i := i + 1;
      }
      assert kept == Kept(dd.list);
      t := t.(dir := t.dir[d := dd.(list := kept, nxchild := 0)]);
    }

    /** closefile, when the reference is one the caller has put back already. */
    method DropFile(f: File)
      requires f < |t.ref|
      modifies this
      ensures t == Drop(old(t), f)
    {
      var n := t.ref[f] - 1;
      t := t.(ref := t.ref[f := n]);
      if n == 0 {
        t := t.(destroyed := t.destroyed + [f]);
      }
    }

    /** closefile by a caller that gives a handle back. */
    method GiveBack(f: File)
      requires t.Shape() && f < |t.ref|
      modifies this
      ensures t == FileTree.CloseFile(old(t), f)
    {
      t := t.(handles := t.handles[f := t.handles[f] - 1]);
      DropFile(f);
    }

    /**
     * closefile keeps the tree right, and the file is destroyed exactly if no directory lists it, it
     * has no children and nobody has another handle.
     */
    method CloseFile(f: File)
      requires TreeInv(t) && t.Held(f)
      modifies this
      ensures TreeInv(t) && t.handles == old(t).handles[f := old(t).handles[f] - 1]
      ensures t.dir == old(t).dir && t.parent == old(t).parent && t.name == old(t).name && t.isdir == old(t).isdir
      ensures f in t.destroyed <==> f != ROOT && t.parent[f].None? && Live(t.dir[f].list) == 0 && t.handles[f] == 0
      ensures forall g :: g != f ==> (g in t.destroyed <==> g in old(t).destroyed)
    {
      ghost var t0 := t;
      GiveBack(f);
      KeepCloseFile(t0, f);
      DirCount(t0, f);
      DirCount(t, f);
    }

    method FindName(d: File, nm: string) returns (i: nat)
      requires t.Shape() && d < |t.ref| && NameInv(t.dir, t.name)
      ensures i == FileTree.FindName(t.dir[d].list, t.name, nm)
    {
      i := 0;
      var list := t.dir[d].list;
      while i < |list|
        invariant i <= |list|
        invariant i + FileTree.FindName(list[i..], t.name, nm) == FileTree.FindName(list, t.name, nm)
      {
        assert list[i] in t.dir[d].list;
        if list[i].f.Some? && t.name[list[i].f.value] == nm {
          return;
        }
        i := i + 1;
      }
    }

    /** createfile: None where it returns nil. */
    method CreateFile(fp: File, nm: string, isdir: bool) returns (r: Option<File>)
      requires TreeInv(t) && t.Held(fp)
      modifies this
      ensures r == if CanCreate(old(t), fp, nm) then Some(|old(t).ref|) else None
      ensures TreeInv(t) && t == FileTree.CreateFile(old(t), fp, nm, isdir)
    {
      ghost var t0 := t;
      DirCount(t0, fp);
      r := AddFile(fp, nm, isdir);
      KeepCreateFile(t0, fp, nm, isdir);
    }

    method AddFile(fp: File, nm: string, isdir: bool) returns (r: Option<File>)
      requires t.Shape() && fp < |t.ref| && NameInv(t.dir, t.name)
      modifies this
      ensures r == if CanCreate(old(t), fp, nm) then Some(|old(t).ref|) else None
      ensures t == FileTree.CreateFile(old(t), fp, nm, isdir)
    {
      if !t.isdir[fp] {
        return None;
      }
      var i := FindName(fp, nm);
      if i < |t.dir[fp].list| {
        return None;
      }
      r := Some(|t.ref|);
      Link(fp, nm, isdir);
    }

    /** The new file, its entry at the end of the list, and the references they give. */
    method Link(fp: File, nm: string, isdir: bool)
      requires t.Shape() && fp < |t.ref|
      modifies this
      ensures t == Tree(old(t).ref[fp := old(t).ref[fp] + 1] + [2], old(t).parent + [Some(fp)], old(t).name + [nm], old(t).isdir + [isdir],
                        old(t).dir[fp := Create(old(t).dir[fp], |old(t).ref|)] + [EMPTY], old(t).handles + [1], old(t).destroyed)
    {
      var f, d := |t.ref|, t.dir[fp];
      t := Tree(t.ref + [0], t.parent + [Some(fp)], t.name + [nm], t.isdir + [isdir], t.dir + [EMPTY], t.handles + [1], t.destroyed);
      t := t.(ref := t.ref[fp := t.ref[fp] + 1]);
      t := t.(ref := t.ref[f := t.ref[f] + 1]);
      t := t.(ref := t.ref[f := t.ref[f] + 1]);
      t := t.(dir := t.dir[fp := d.(list := d.list + [Entry(d.made, Some(f))], nchild := d.nchild + 1, made := d.made + 1)]);
      assert t.ref == old(t).ref[fp := old(t).ref[fp] + 1] + [2];
      assert t.dir == old(t).dir[fp := Create(d, f)] + [EMPTY];
    }

    /** The search of removefile, with the assert that follows it. */
    method FindEntry(fp: File, f: File) returns (i: nat)
      requires t.Shape() && fp < |t.ref| && Lists(t.dir[fp].list, f)
      ensures i == FindFile(t.dir[fp].list, f) && i < |t.dir[fp].list| && t.dir[fp].list[i].f == Some(f)
    {
      i := 0;
      var list := t.dir[fp].list;
      FindFileIs(list, f);
      while i < |list| && list[i].f != Some(f)
        invariant i <= |list|
        invariant i + FindFile(list[i..], f) == FindFile(list, f)
      {
        i := i + 1;
      }
    }

    /** removefile: ok is false where it returns -1. */
    method RemoveFile(f: File) returns (ok: bool)
      requires TreeInv(t) && t.Held(f)
      modifies this
      ensures ok == CanRemove(old(t), f)
      ensures CanRemove(old(t), f) ==> FindFile(old(t).dir[old(t).parent[f].value].list, f) < |old(t).dir[old(t).parent[f].value].list|
      ensures TreeInv(t) && t == FileTree.RemoveFile(old(t), f)
    {
      KeepRemoveFile(t, f);
      if t.parent[f].None? || t.parent[f] == Some(f) || t.dir[f].nchild != 0 {
        GiveBack(f);
        return false;
      }
      RemoveFinds(t, f);
      var fp := t.parent[f].value;
      FindFileIs(t.dir[fp].list, f);
      var i := FindEntry(fp, f);
      Unlink(fp, f, i);
      DropFile(fp);
      DropFile(f);
      GiveBack(f);
      return true;
    }

    method Unlink(fp: File, f: File, i: nat)
      requires t.Shape() && fp < |t.ref| && f < |t.ref| && i < |t.dir[fp].list|
      modifies this
      ensures t == old(t).(dir := old(t).dir[fp := Remove(old(t).dir[fp], i)], parent := old(t).parent[f := None])
    {
      var d := t.dir[fp];
      t := t.(dir := t.dir[fp := d.(list := d.list[i := Entry(d.list[i].id, None)], nchild := d.nchild - 1, nxchild := d.nxchild + 1)]);
      t := t.(parent := t.parent[f := None]);
      CleanFileList(fp);
      assert t.dir == old(t).dir[fp := Remove(d, i)];
    }

    /** walkfile1: None where it returns nil; crash where it uses a parent that is nil. */
    method WalkFile1(d: File, elem: string) returns (r: Option<File>, crash: bool)
      requires TreeInv(t) && t.Held(d)
      modifies this
      ensures crash <==> elem == ".." && d != ROOT && forall p: File :: p < |old(t).dir| ==> !Lists(old(t).dir[p].list, d)
      ensures (forall f: File :: r == Some(f) <==> Goes(old(t), d, elem, f)) && (r.Some? ==> r.value < |old(t).ref|)
      ensures TreeInv(t) && t == FileTree.WalkFile1(old(t), d, elem)
    {
      WalkedAlive(t, d, elem);
      KeepWalkFile1(t, d, elem);
      WalkedIff(t, d, elem);
      CrashIff(t, d, elem);
      r, crash := WalkName(d, elem);
    }

    method WalkName(d: File, elem: string) returns (r: Option<File>, crash: bool)
      requires t.Shape() && NameInv(t.dir, t.name) && d < |t.ref|
      requires Walked(t, d, elem).Some? ==> Walked(t, d, elem).value < |t.ref|
      modifies this
      ensures crash == WalkCrashes(old(t), d, elem)
      ensures r == Walked(old(t), d, elem) && t == FileTree.WalkFile1(old(t), d, elem)
    {
      r, crash := None, false;
      if elem == ".." {
        r := t.parent[d];
        if r.None? {
          return None, true;
        }
      } else {
        var i := FindName(d, elem);
        if i < |t.dir[d].list| {
          r := t.dir[d].list[i].f;
        }
      }
      if r.Some? {
        t := Dup(t, r.value);
      }
      GiveBack(d);
    }

    /** opendirfile: false where it returns nil. */
    method OpenDir(d: File, r: Reader) returns (ok: bool)
      requires TreeInv(t) && t.Held(d) && r !in t.dir[d].open
      modifies this
      ensures ok == old(t).isdir[d]
      ensures TreeInv(t) && t == FileTree.OpenDir(old(t), d, r)
    {
      KeepOpenDir(t, d, r);
      ok := t.isdir[d];
      if ok {
        var dd := t.dir[d];
        var first := if dd.list == [] then None else Some(dd.list[0].id);
        t := t.(dir := t.dir[d := dd.(open := dd.open[r := Cursor(first, [], dd.made)])]);
      }
    }

    /** The loop of readdirfile: where it stops, the entries it has packed and the bytes they take. */
    static method ReadEntries(list: seq<Entry>, start: nat, n: int, size: File -> nat) returns (i: nat, seen: seq<nat>, m: nat)
      requires start <= |list| && forall f :: size(f) > 2
      ensures start <= i <= |list| && (n >= 0 ==> m <= n)
      ensures ScanList(list[start..], n, size) == Scan(i - start, seen, m)
    {
      i, seen, m := start, [], 0;
      ghost var s := ScanList(list[start..], n, size);
      while i < |list| && m + 2 <= n
        invariant start <= i <= |list| && (n >= 0 ==> m <= n)
        invariant s == Onward(i - start, seen, m, ScanList(list[i..], n - m, size))
      {
        assert list[i..][0] == list[i] && list[i..][1..] == list[i + 1..];
        var x := 0;
        if list[i].f.Some? {
          x := size(list[i].f.value);
          if x > n - m {
            break;
          }
          OnwardEntry(i - start, seen, m, list[i].id, x, ScanList(list[i + 1..], n - m - x, size));
          seen := seen + [list[i].id];
        }
        i, m := i + 1, m + x;
      }
      assert seen + [] == seen;
    }

    /**
     * readdirfile. The size of a packed directory entry is size(f), which is more than the two bytes
     * of its length; packing fails when it does not fit in the room left.
     */
    method ReadDir(d: File, r: Reader, n: int, size: File -> nat) returns (m: nat)
      requires TreeInv(t) && d < |t.ref| && r in t.dir[d].open
      requires forall f :: size(f) > 2
      modifies this
      ensures TreeInv(t) && t == FileTree.ReadDir(old(t), d, r, n, size) && (n >= 0 ==> m <= n)
      ensures
        var list := old(t).dir[d].list;
        r in t.dir[d].open && Moves(list, Where(list, old(t).dir[d].open[r]), Where(list, t.dir[d].open[r]), n, size, m)
    {
      ghost var t0 := t;
      assert DirInv(t.dir[d]);
      PackedIs(t.dir[d], r, n, size);
      m := MoveCursor(d, r, n, size);
      KeepReadDir(t0, d, r, n, size);
    }

    method MoveCursor(d: File, r: Reader, n: int, size: File -> nat) returns (m: nat)
      requires t.Shape() && d < |t.ref| && r in t.dir[d].open
      requires forall f :: size(f) > 2
      modifies this
      ensures m == Packed(old(t).dir[d], r, n, size) && (n >= 0 ==> m <= n)
      ensures t == FileTree.ReadDir(old(t), d, r, n, size)
    {
      var dd := t.dir[d];
      var c := dd.open[r];
      m := 0;
      if c.at.None? {
        assert dd.open[r := c] == dd.open;
        assert t.dir[d := dd] == t.dir;
        return;
      }
      var start := IndexOf(dd.list, c.at.value);
      var i, seen;
      i, seen, m := ReadEntries(dd.list, start, n, size);
      var c' := if i < |dd.list| then Cursor(Some(dd.list[i].id), c.seen + seen, c.stop) else Cursor(None, c.seen + seen, dd.made);
      t := t.(dir := t.dir[d := dd.(open := dd.open[r := c'])]);
    }

    /** closedirfile. */
    method CloseDir(d: File, r: Reader)
      requires TreeInv(t) && d < |t.ref| && r in t.dir[d].open
      modifies this
      ensures TreeInv(t) && t == FileTree.CloseDir(old(t), d, r)
    {
      KeepCloseDir(t, d, r);
      t := t.(dir := t.dir[d := t.dir[d].(open := t.dir[d].open - {r})]);
      if t.dir[d].open == map[] {
        CleanFileList(d);
      }
      assert t.dir == old(t).dir[d := Close(old(t).dir[d], r)];
    }

    /**
     * filewalk in srv.c: walks the names from f and counts how many were found. Whatever happens on
     * the way, the only reference it leaves behind is the one to the file it returns.
     */
    method FileWalk(f: File, names: seq<string>) returns (i: nat, r: Option<File>, crash: bool)
      requires TreeInv(t) && f < |t.ref| && t.ref[f] > 0
      modifies this
      ensures crash <==> LeadsAstray(old(t), f, names)
      ensures !crash ==> (forall g: File :: r == Some(g) <==> Leads(old(t), f, names, g)) && (r.Some? ==> r.value < |old(t).ref|)
      ensures !crash ==> IsLongest(old(t), f, names, i)
      ensures !crash ==> TreeInv(t) && t == if r.Some? then Dup(old(t), r.value) else old(t)
    {
      ghost var t0 := t;
      AllWalksLive(t0);
      i, r, crash := WalkNames(f, names);
      AstrayIff(t0, f, names);
      ResolveIs(t0, f, names);
      if !crash && r.Some? {
        KeepDup(t0, r.value);
      }
    }

    /** One name, walked with a reference of one's own on top of the tree t0. */
    method WalkOn(d: File, elem: string, ghost t0: Tree) returns (r: Option<File>, crash: bool)
      requires t0.Shape() && NameInv(t0.dir, t0.name) && d < |t0.ref| && t0.ref[d] > 0 && t == Dup(t0, d)
      requires Walked(t0, d, elem).Some? ==> Walked(t0, d, elem).value < |t0.ref|
      modifies this
      ensures r == Walked(t0, d, elem) && crash == WalkCrashes(t0, d, elem)
      ensures !crash ==> t == if r.Some? then Dup(t0, r.value) else t0
    {
      WalkTrade(t0, d, elem);
      r, crash := WalkName(d, elem);
    }

    method WalkNames(f: File, names: seq<string>) returns (i: nat, r: Option<File>, crash: bool)
      requires t.Shape() && NameInv(t.dir, t.name) && WalksLive(t) && f < |t.ref| && t.ref[f] > 0
      modifies this
      ensures crash == !DotDotOk(old(t), f, names)
      ensures !crash ==> (i, r) == Resolve(old(t), f, names)
      ensures !crash && r.Some? ==> r.value < |old(t).ref| && old(t).ref[r.value] > 0
      ensures !crash ==> t == if r.Some? then Dup(old(t), r.value) else old(t)
    {
      ghost var t0 := t;
      t := Dup(t, f);
      r, i, crash := Some(f), 0, false;
      while i < |names|
        invariant i <= |names| && r.Some? && r.value < |t0.ref| && t0.ref[r.value] > 0 && t == Dup(t0, r.value) && !crash
        invariant DotDotOk(t0, f, names) == DotDotOk(t0, r.value, names[i..])
        invariant Resolve(t0, f, names) == Later(i, Resolve(t0, r.value, names[i..]))
      {
        NextName(t0, f, names, i, r.value);
        r, crash := WalkOn(r.value, names[i], t0);
        if r.None? {
          return;
        }
        i := i + 1;
      }
    }
  }

  /** How many bytes readdirfile packs. */
  function Packed(d: Dir, r: Reader, n: int, size: File -> nat): nat
    requires r in d.open
  {
    if d.open[r].at.None? then 0 else ScanList(d.list[IndexOf(d.list, d.open[r].at.value)..], n, size).used
  }

  lemma PackedIs(d: Dir, r: Reader, n: int, size: File -> nat)
    requires DirInv(d) && r in d.open
    ensures Moves(d.list, Where(d.list, d.open[r]), Where(d.list, Read(d, r, n, size).open[r]), n, size, Packed(d, r, n, size))
  {
    AdvanceIsFull(d.list, d.made, d.open[r], n, size);
  }

  /** A walk from a file that is referred to finds only such files. */
  ghost predicate WalksLive(t: Tree)
    requires t.Shape()
  {
    forall d, elem :: 0 <= d < |t.ref| && t.ref[d] > 0 && Walked(t, d, elem).Some? ==>
      Walked(t, d, elem).value < |t.ref| && t.ref[Walked(t, d, elem).value] > 0
  }

  lemma AllWalksLive(t: Tree)
    requires TreeInv(t)
    ensures WalksLive(t)
  {
    forall d, elem | 0 <= d < |t.ref| && t.ref[d] > 0 && Walked(t, d, elem).Some?
      ensures Walked(t, d, elem).value < |t.ref| && t.ref[Walked(t, d, elem).value] > 0
    {
      WalkAliveDup(t, d, elem);
    }
  }

  /** A scan that goes on with another one. */
  function Onward(passed: nat, ids: seq<nat>, used: nat, s: Scan): Scan {
    Scan(passed + s.passed, ids + s.ids, used + s.used)
  }

  lemma OnwardEntry(passed: nat, ids: seq<nat>, used: nat, id: nat, x: nat, s: Scan)
    ensures Onward(passed, ids, used, Scan(s.passed + 1, [id] + s.ids, s.used + x)) == Onward(passed + 1, ids + [id], used + x, s)
  {
    assert ids + ([id] + s.ids) == ids + [id] + s.ids;
  }

  function Later(i: nat, p: (nat, Option<File>)): (nat, Option<File>) {
    (i + p.0, p.1)
  }

  /** No name is ".." where the walk stands in a directory that has been removed. */
  predicate DotDotOk(t: Tree, d: File, names: seq<string>)
    requires t.Shape()
    decreases |names|
  {
    names == [] || d >= |t.ref|
    || (!WalkCrashes(t, d, names[0])
        && (Walked(t, d, names[0]).Some? ==> DotDotOk(t, Walked(t, d, names[0]).value, names[1..])))
  }

  /** How many of the names lead somewhere from d, and where all of them lead. */
  function Resolve(t: Tree, d: File, names: seq<string>): (nat, Option<File>)
    requires t.Shape()
    decreases |names|
  {
    if names == [] then (0, Some(d))
    else if d >= |t.ref| || Walked(t, d, names[0]).None? then (0, None)
    else
      var rest := Resolve(t, Walked(t, d, names[0]).value, names[1..]);
      (rest.0 + 1, rest.1)
  }

  /** All names are walked exactly when a file is found. */
  lemma {:induction false} ResolvedIff(t: Tree, d: File, names: seq<string>)
    requires t.Shape()
    ensures Resolve(t, d, names).0 <= |names|
    ensures Resolve(t, d, names).0 == |names| <==> Resolve(t, d, names).1.Some?
    decreases |names|
  {
    if names != [] && d < |t.ref| && Walked(t, d, names[0]).Some? {
      ResolvedIff(t, Walked(t, d, names[0]).value, names[1..]);
    }
  }

  /** The first i names lead somewhere, and no more do. */
  ghost predicate IsLongest(t: Tree, d: File, names: seq<string>, i: nat) {
    i <= |names| && LeadsOn(t, d, names[..i]) && forall j :: i < j <= |names| ==> !LeadsOn(t, d, names[..j])
  }

  /** Some of the names lead to a directory other than the root that no directory lists, and the next is "..". */
  ghost predicate LeadsAstray(t: Tree, d: File, names: seq<string>) {
    exists j, f: File :: 0 <= j < |names| && names[j] == ".." && StraysAt(t, d, names[..j], f)
  }

  ghost predicate StraysAt(t: Tree, d: File, names: seq<string>, f: File) {
    Leads(t, d, names, f) && f != ROOT && forall p: File :: p < |t.dir| ==> !Lists(t.dir[p].list, f)
  }

  /** What filewalk computes is where the names lead. */
  lemma {:induction false} ResolveIs(t: Tree, d: File, names: seq<string>)
    requires TreeInv(t) && d < |t.ref|
    ensures
      var (i, r) := Resolve(t, d, names);
      IsLongest(t, d, names, i) && forall f: File :: r == Some(f) <==> Leads(t, d, names, f)
    decreases |names|
  {
    var (i, r) := Resolve(t, d, names);
    forall f: File
      ensures Leads(t, d, [], f) <==> d == f
    {
      NoName(t, d, f);
    }
    assert names[..0] == [] && Leads(t, d, names[..0], d);
    if names != [] {
      if Walked(t, d, names[0]).None? {
        Nowhere(t, d, names);
      } else {
        var w := Walked(t, d, names[0]).value;
        WalkedInRange(t, d, names[0]);
        ResolveIs(t, w, names[1..]);
        Onwards(t, d, names, w, i - 1);
        forall f: File
          ensures r == Some(f) <==> Leads(t, d, names, f)
        {
          FirstName(t, d, names, w, f);
        }
      }
    } else {
      assert names == [];
    }
  }

  lemma WalkedInRange(t: Tree, d: File, elem: string)
    requires TreeInv(t) && d < |t.ref|
    ensures Walked(t, d, elem).Some? ==> Walked(t, d, elem).value < |t.ref|
  {
    var list := t.dir[d].list;
    var i := FileTree.FindName(list, t.name, elem);
    if elem != ".." && i < |list| {
      assert list[i] in list;
    }
  }

  lemma Nowhere(t: Tree, d: File, names: seq<string>)
    requires TreeInv(t) && d < |t.ref| && names != [] && Walked(t, d, names[0]).None?
    ensures forall j :: 0 < j <= |names| ==> !LeadsOn(t, d, names[..j])
    ensures forall f: File :: !Leads(t, d, names, f)
  {
    forall j, f: File | 0 < j <= |names|
      ensures !Leads(t, d, names[..j], f)
    {
      FirstNowhere(t, d, names[..j], f);
    }
    assert names[..|names|] == names;
  }

  lemma Onwards(t: Tree, d: File, names: seq<string>, w: File, i: nat)
    requires TreeInv(t) && d < |t.ref| && names != [] && Walked(t, d, names[0]) == Some(w) && IsLongest(t, w, names[1..], i)
    ensures IsLongest(t, d, names, i + 1)
  {
    forall j | 0 < j <= |names|
      ensures LeadsOn(t, d, names[..j]) <==> LeadsOn(t, w, names[1..][..j - 1])
    {
      OneMoreName(t, d, names, w, j);
    }
  }

  lemma OneMoreName(t: Tree, d: File, names: seq<string>, w: File, j: nat)
    requires TreeInv(t) && d < |t.ref| && 0 < j <= |names| && Walked(t, d, names[0]) == Some(w)
    ensures LeadsOn(t, d, names[..j]) <==> LeadsOn(t, w, names[1..][..j - 1])
    ensures forall f: File :: Leads(t, d, names[..j], f) <==> Leads(t, w, names[1..][..j - 1], f)
  {
    assert names[..j][1..] == names[1..][..j - 1];
    forall f: File
      ensures Leads(t, d, names[..j], f) <==> Leads(t, w, names[1..][..j - 1], f)
    {
      FirstName(t, d, names[..j], w, f);
    }
    if LeadsOn(t, d, names[..j]) {
      var f: File :| Leads(t, d, names[..j], f);
      assert Leads(t, w, names[1..][..j - 1], f);
    }
    if LeadsOn(t, w, names[1..][..j - 1]) {
      var f: File :| Leads(t, w, names[1..][..j - 1], f);
      assert Leads(t, d, names[..j], f);
    }
  }

  /** A walk from d crashes at its first name. */
  lemma CrashIff(t: Tree, d: File, elem: string)
    requires TreeInv(t) && d < |t.ref|
    ensures WalkCrashes(t, d, elem) <==> elem == ".." && d != ROOT && forall p: File :: p < |t.dir| ==> !Lists(t.dir[p].list, d)
  {
    WalkedIff(t, d, "..");
    if Walked(t, d, "..").Some? {
      assert Goes(t, d, "..", Walked(t, d, "..").value);
    }
    if elem == ".." && d != ROOT && !WalkCrashes(t, d, elem) {
      assert Lists(t.dir[t.parent[d].value].list, d);
    }
    forall p: File | p < |t.dir| && d != ROOT && Lists(t.dir[p].list, d)
      ensures !WalkCrashes(t, d, elem)
    {
      assert Goes(t, d, "..", p);
    }
  }

  lemma {:induction false} AstrayIff(t: Tree, d: File, names: seq<string>)
    requires TreeInv(t) && d < |t.ref|
    ensures DotDotOk(t, d, names) <==> !LeadsAstray(t, d, names)
    decreases |names|
  {
    if names != [] {
      CrashIff(t, d, names[0]);
      NoName(t, d, d);
      WalkedInRange(t, d, names[0]);
      if WalkCrashes(t, d, names[0]) {
        assert names[..0] == [] && StraysAt(t, d, names[..0], d);
      } else if Walked(t, d, names[0]).Some? {
        AstrayIff(t, Walked(t, d, names[0]).value, names[1..]);
        AstrayLater(t, d, names, Walked(t, d, names[0]).value);
      } else {
        Nowhere(t, d, names);
        NotHere(t, d, names);
      }
    }
  }

  lemma NotHere(t: Tree, d: File, names: seq<string>)
    requires TreeInv(t) && d < |t.ref| && names != [] && !WalkCrashes(t, d, names[0])
    ensures names[0] == ".." ==> forall f: File :: !StraysAt(t, d, names[..0], f)
  {
    CrashIff(t, d, names[0]);
    assert names[..0] == [];
    forall f: File
      ensures Leads(t, d, names[..0], f) ==> f == d
    {
      NoName(t, d, f);
    }
  }

  lemma AstrayLater(t: Tree, d: File, names: seq<string>, w: File)
    requires TreeInv(t) && d < |t.ref| && names != [] && !WalkCrashes(t, d, names[0]) && Walked(t, d, names[0]) == Some(w)
    ensures LeadsAstray(t, d, names) <==> LeadsAstray(t, w, names[1..])
  {
    if LeadsAstray(t, d, names) {
      AstrayTail(t, d, names, w);
    }
    if LeadsAstray(t, w, names[1..]) {
      AstrayCons(t, d, names, w);
    }
  }

  lemma StraysLater(t: Tree, d: File, names: seq<string>, w: File, j: nat, f: File)
    requires TreeInv(t) && d < |t.ref| && 0 < j <= |names| && Walked(t, d, names[0]) == Some(w)
    ensures StraysAt(t, d, names[..j], f) <==> StraysAt(t, w, names[1..][..j - 1], f)
  {
    OneMoreName(t, d, names, w, j);
  }

  lemma AstrayTail(t: Tree, d: File, names: seq<string>, w: File)
    requires TreeInv(t) && d < |t.ref| && names != [] && !WalkCrashes(t, d, names[0]) && Walked(t, d, names[0]) == Some(w)
    requires LeadsAstray(t, d, names)
    ensures LeadsAstray(t, w, names[1..])
  {
    var j, f: File :| 0 <= j < |names| && names[j] == ".." && StraysAt(t, d, names[..j], f);
    NotHere(t, d, names);
    StraysLater(t, d, names, w, j, f);
    assert names[1..][j - 1] == "..";
  }

  lemma AstrayCons(t: Tree, d: File, names: seq<string>, w: File)
    requires TreeInv(t) && d < |t.ref| && names != [] && Walked(t, d, names[0]) == Some(w) && LeadsAstray(t, w, names[1..])
    ensures LeadsAstray(t, d, names)
  {
    var j, f: File :| 0 <= j < |names[1..]| && names[1..][j] == ".." && StraysAt(t, w, names[1..][..j], f);
    StraysLater(t, d, names, w, j + 1, f);
    assert names[j + 1] == "..";
  }

  /** One name of a walk. */
  lemma OneName(t: Tree, d: File, names: seq<string>)
    requires t.Shape() && d < |t.ref| && names != []
    ensures
      var r := Walked(t, d, names[0]);
      if r.Some? then
        DotDotOk(t, d, names) == DotDotOk(t, r.value, names[1..]) && Resolve(t, d, names) == Later(1, Resolve(t, r.value, names[1..]))
      else DotDotOk(t, d, names) == !WalkCrashes(t, d, names[0]) && Resolve(t, d, names) == (0, None)
  {
  }

  /** The walk has come to d with the first i names. */
  lemma NextName(t: Tree, f: File, names: seq<string>, i: nat, d: File)
    requires t.Shape() && d < |t.ref| && i < |names| && DotDotOk(t, f, names) == DotDotOk(t, d, names[i..])
    requires Resolve(t, f, names) == Later(i, Resolve(t, d, names[i..]))
    ensures
      var r := Walked(t, d, names[i]);
      if r.Some? then
        DotDotOk(t, f, names) == DotDotOk(t, r.value, names[i + 1..]) && Resolve(t, f, names) == Later(i + 1, Resolve(t, r.value, names[i + 1..]))
      else DotDotOk(t, f, names) == !WalkCrashes(t, d, names[i]) && Resolve(t, f, names) == (i, None)
  {
    assert names[i..][0] == names[i] && names[i..][1..] == names[i + 1..];
    OneName(t, d, names[i..]);
  }

  lemma TradeReference(ref: seq<int>, d: nat, r: nat)
    requires d < |ref| && r < |ref|
    ensures
      var ref1 := ref[d := ref[d] + 1];
      var ref2 := ref1[r := ref1[r] + 1];
      ref1[d := ref1[d] - 1] == ref && ref2[d := ref2[d] - 1] == ref[r := ref[r] + 1]
      && ref2[d] == ref[d] + 1 + B(d == r)
  {
  }

  /** Walking one name with a reference of one's own trades that reference and nothing else. */
  lemma WalkTrade(t: Tree, d: File, elem: string)
    requires t.Shape() && d < |t.ref| && t.ref[d] > 0
    requires Walked(t, d, elem).Some? ==> Walked(t, d, elem).value < |t.ref|
    ensures
      var r := Walked(t, d, elem);
      && Walked(Dup(t, d), d, elem) == r && WalkCrashes(Dup(t, d), d, elem) == WalkCrashes(t, d, elem)
      && (!WalkCrashes(t, d, elem) ==> FileTree.WalkFile1(Dup(t, d), d, elem) == if r.Some? then Dup(t, r.value) else t)
  {
    var r := Walked(t, d, elem);
    TradeReference(t.ref, d, if r.Some? then r.value else d);
    TradeReference(t.handles, d, if r.Some? then r.value else d);
  }

  lemma WalkAliveDup(t: Tree, d: File, elem: string)
    requires TreeInv(t) && d < |t.ref| && t.ref[d] > 0
    ensures Walked(t, d, elem).Some? ==> Walked(t, d, elem).value < |t.ref| && t.ref[Walked(t, d, elem).value] > 0
  {
    KeepDup(t, d);
    DirCount(t, d);
    WalkedAlive(Dup(t, d), d, elem);
  }
}
