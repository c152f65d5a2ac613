/** Where a walk leads, told from the entries of the directories alone. */
module FileWalks {
  import opened Counting
  import opened Options
  import opened Directory
  import opened FileTree
  import opened FileTreeProofs

  /** Directory d has a live entry for file f, whose name is nm. */
  ghost predicate HasEntry(t: Tree, d: File, nm: string, f: File) {
    d < |t.dir| && f < |t.name| && t.name[f] == nm && Lists(t.dir[d].list, f)
  }

  /** One name leads from d to f: "..", to the directory that lists d, and from the root to itself; else an entry. */
  ghost predicate Goes(t: Tree, d: File, elem: string, f: File) {
    if elem == ".." then (d == ROOT && f == ROOT) || (d != ROOT && f < |t.dir| && Lists(t.dir[f].list, d))
    else HasEntry(t, d, elem, f)
  }

  lemma NamedIs(t: Tree, d: File, elem: string, e: Entry)
    requires TreeInv(t) && d < |t.ref| && e in t.dir[d].list && e.f.Some? && t.name[e.f.value] == elem
    ensures
      var list := t.dir[d].list;
      FindName(list, t.name, elem) < |list| && list[FindName(list, t.name, elem)] == e
  {
    var list := t.dir[d].list;
    var j :| 0 <= j < |list| && list[j] == e;
    var i := FindName(list, t.name, elem);
    assert i <= j;
    assert list[i] in list;
  }

  lemma EntryIff(t: Tree, d: File, elem: string, f: File)
    requires TreeInv(t) && d < |t.ref| && elem != ".."
    ensures Walked(t, d, elem) == Some(f) <==> HasEntry(t, d, elem, f)
  {
    var list := t.dir[d].list;
    var i := FindName(list, t.name, elem);
    if i < |list| {
      assert list[i] in list;
    }
    if HasEntry(t, d, elem, f) {
      var e :| e in list && e.f == Some(f);
      NamedIs(t, d, elem, e);
    }
  }

  lemma DotDotIff(t: Tree, d: File, f: File)
    requires TreeInv(t) && d < |t.ref|
    ensures Walked(t, d, "..") == Some(f) <==> Goes(t, d, "..", f)
  {
    if d != ROOT && f < |t.dir| && Lists(t.dir[f].list, d) {
      var e :| e in t.dir[f].list && e.f == Some(d);
    }
  }

  /** walkfile1 finds exactly what the name leads to, and nothing exactly if it leads nowhere. */
  lemma WalkedIff(t: Tree, d: File, elem: string)
    requires TreeInv(t) && d < |t.ref|
    ensures forall f: File :: Walked(t, d, elem) == Some(f) <==> Goes(t, d, elem, f)
    ensures Walked(t, d, elem).None? <==> forall f: File :: !Goes(t, d, elem, f)
  {
    forall f: File
      ensures Walked(t, d, elem) == Some(f) <==> Goes(t, d, elem, f)
    {
      if elem == ".." {
        DotDotIff(t, d, f);
      } else {
        EntryIff(t, d, elem, f);
      }
    }
    if Walked(t, d, elem).Some? {
      assert Goes(t, d, elem, Walked(t, d, elem).value);
    }
  }

  // ---------------------------------------------------------------- several names

  /** The names lead from each file of the path to the next. */
  ghost predicate IsPath(t: Tree, path: seq<File>, names: seq<string>) {
    && |path| == |names| + 1
    && forall i {:trigger path[i]} :: 0 <= i < |names| ==> path[i] < |t.ref| && Goes(t, path[i], names[i], path[i + 1])
  }

  /** There is a path along all names from d to f. */
  ghost predicate Leads(t: Tree, d: File, names: seq<string>, f: File) {
    exists path :: IsPath(t, path, names) && path[0] == d && path[|names|] == f
  }

  ghost predicate LeadsOn(t: Tree, d: File, names: seq<string>) {
    exists f: File :: Leads(t, d, names, f)
  }

  lemma NoName(t: Tree, d: File, f: File)
    ensures Leads(t, d, [], f) <==> d == f
  {
    if d == f {
      var path, names: seq<string> := [d], [];
      assert IsPath(t, path, names) && path[|names|] == f;
    }
  }

  lemma LeadsTail(t: Tree, d: File, names: seq<string>, w: File, f: File)
    requires names != [] && (forall g: File :: Goes(t, d, names[0], g) ==> g == w) && Leads(t, d, names, f)
    ensures Leads(t, w, names[1..], f)
  {
    var path :| IsPath(t, path, names) && path[0] == d && path[|names|] == f;
    TailPath(t, path, names);
    assert path[1..][0] == w && path[1..][|names[1..]|] == f;
  }

  lemma LeadsCons(t: Tree, d: File, names: seq<string>, w: File, f: File)
    requires names != [] && d < |t.ref| && Goes(t, d, names[0], w) && Leads(t, w, names[1..], f)
    ensures Leads(t, d, names, f)
  {
    var path :| IsPath(t, path, names[1..]) && path[0] == w && path[|names[1..]|] == f;
    ConsPath(t, d, path, names);
    assert ([d] + path)[0] == d && ([d] + path)[|names|] == f;
  }

  /** If the first name leads from d to w, all names lead from d where the others lead from w. */
  lemma FirstName(t: Tree, d: File, names: seq<string>, w: File, f: File)
    requires TreeInv(t) && d < |t.ref| && names != [] && Walked(t, d, names[0]) == Some(w)
    ensures Leads(t, d, names, f) <==> Leads(t, w, names[1..], f)
  {
    WalkedIff(t, d, names[0]);
    assert Goes(t, d, names[0], w);
    if Leads(t, d, names, f) {
      LeadsTail(t, d, names, w, f);
    }
    if Leads(t, w, names[1..], f) {
      LeadsCons(t, d, names, w, f);
    }
  }

  lemma TailPath(t: Tree, path: seq<File>, names: seq<string>)
    requires IsPath(t, path, names) && names != []
    ensures IsPath(t, path[1..], names[1..]) && path[0] < |t.ref| && Goes(t, path[0], names[0], path[1])
  {
    forall i | 0 <= i < |names[1..]|
      ensures path[1..][i] < |t.ref| && Goes(t, path[1..][i], names[1..][i], path[1..][i + 1])
    {
      assert path[1..][i] == path[i + 1];
    }
  }

  lemma ConsPath(t: Tree, d: File, path: seq<File>, names: seq<string>)
    requires names != [] && IsPath(t, path, names[1..]) && d < |t.ref| && Goes(t, d, names[0], path[0])
    ensures IsPath(t, [d] + path, names)
  {
    var path' := [d] + path;
    forall i | 0 <= i < |names|
      ensures path'[i] < |t.ref| && Goes(t, path'[i], names[i], path'[i + 1])
    {
      if i == 0 {
        assert path'[1] == path[0];
      } else {
        assert path'[i] == path[i - 1] && names[i] == names[1..][i - 1] && path'[i + 1] == path[i];
      }
    }
  }

  /** If the first name leads nowhere, nor do more. */
  lemma FirstNowhere(t: Tree, d: File, names: seq<string>, f: File)
    requires TreeInv(t) && names != [] && (d >= |t.ref| || Walked(t, d, names[0]).None?)
    ensures !Leads(t, d, names, f)
  {
    if Leads(t, d, names, f) {
      var path :| IsPath(t, path, names) && path[0] == d && path[|names|] == f;
      TailPath(t, path, names);
      WalkedIff(t, d, names[0]);
    }
  }
}
