/**
 * The file tree of src/lib9p/file.c at the level of its routines: reference counts, parent
 * links and directory lists. Each routine is atomic, as its locks make it. A file is known by
 * its number, the root is file 0.
 */
module FileTree {
  import opened Counting
  import opened Options
  import opened Directory

  const ROOT: File := 0

  /**
   * The fields of the File structures, indexed by file, and the calls of the destroy function.
   * `handles` counts the references that callers hold.
   */
  datatype Tree = Tree(
    ref: seq<int>, parent: seq<Option<File>>, name: seq<string>, isdir: seq<bool>, dir: seq<Dir>,
    handles: seq<int>, destroyed: seq<File>)
  {
    predicate Shape() {
      && 0 < |ref| && |parent| == |ref| && |name| == |ref| && |isdir| == |ref| && |dir| == |ref| && |handles| == |ref|
    }

    /** The file exists and the caller holds a reference to it. */
    predicate Held(f: File) {
      f < |ref| && f < |handles| && handles[f] > 0
    }
  }

  /** alloctree. */
  const START := Tree([1], [Some(0)], ["/"], [true], [EMPTY], [0], [])

  /** The decref part of closefile, with destroy and freefile at zero. */
  function Drop(t: Tree, f: File): Tree
    requires f < |t.ref|
  {
    t.(ref := t.ref[f := t.ref[f] - 1], destroyed := if t.ref[f] == 1 then t.destroyed + [f] else t.destroyed)
  }

  /** closefile: the caller gives its reference back. */
  function CloseFile(t: Tree, f: File): Tree
    requires t.Shape() && f < |t.ref|
  {
    Drop(t.(handles := t.handles[f := t.handles[f] - 1]), f)
  }

  /** incref by a caller that already has the file. */
  function Dup(t: Tree, f: File): Tree
    requires t.Shape() && f < |t.ref|
  {
    t.(ref := t.ref[f := t.ref[f] + 1], handles := t.handles[f := t.handles[f] + 1])
  }

  /** The index of the first live entry called nm, or the length of the list. */
  function FindName(list: seq<Entry>, name: seq<string>, nm: string): (i: nat)
    ensures i <= |list|
    ensures i < |list| ==> list[i].f.Some? && list[i].f.value < |name| && name[list[i].f.value] == nm
    ensures forall j :: 0 <= j < i ==> !(list[j].f.Some? && list[j].f.value < |name| && name[list[j].f.value] == nm)
  {
    if list == [] || (list[0].f.Some? && list[0].f.value < |name| && name[list[0].f.value] == nm) then 0
    else 1 + FindName(list[1..], name, nm)
  }

  /** The index of the entry of file f, or the length of the list. */
  function FindFile(list: seq<Entry>, f: File): (i: nat)
    ensures i <= |list|
    ensures i < |list| ==> list[i].f == Some(f)
    ensures forall j :: 0 <= j < i ==> list[j].f != Some(f)
  {
    if list == [] || list[0].f == Some(f) then 0 else 1 + FindFile(list[1..], f)
  }

  predicate CanCreate(t: Tree, fp: File, nm: string)
    requires t.Shape() && fp < |t.ref|
  {
    t.isdir[fp] && FindName(t.dir[fp].list, t.name, nm) == |t.dir[fp].list|
  }

  /** createfile: one reference for the caller, one for the tree, and one on the parent. */
  function CreateFile(t: Tree, fp: File, nm: string, isdir: bool): Tree
    requires t.Shape() && fp < |t.ref|
  {
    if !CanCreate(t, fp, nm) then t
    else
      Tree(t.ref[fp := t.ref[fp] + 1] + [2], t.parent + [Some(fp)], t.name + [nm], t.isdir + [isdir],
           t.dir[fp := Create(t.dir[fp], |t.ref|)] + [EMPTY], t.handles + [1], t.destroyed)
  }

  predicate CanRemove(t: Tree, f: File)
    requires t.Shape() && f < |t.ref|
  {
    t.parent[f].Some? && t.parent[f] != Some(f) && t.dir[f].nchild == 0
  }

  /** removefile: the caller's reference goes in every case. */
  function RemoveFile(t: Tree, f: File): Tree
    requires t.Shape() && f < |t.ref|
    requires CanRemove(t, f) ==> t.parent[f].value < |t.ref| && FindFile(t.dir[t.parent[f].value].list, f) < |t.dir[t.parent[f].value].list|
  {
    if !CanRemove(t, f) then CloseFile(t, f)
    else
      var fp := t.parent[f].value;
      var unlinked := t.(dir := t.dir[fp := Remove(t.dir[fp], FindFile(t.dir[fp].list, f))], parent := t.parent[f := None]);
      CloseFile(Drop(Drop(unlinked, fp), f), f)
  }

  /** The file that walkfile1 finds. */
  function Walked(t: Tree, d: File, elem: string): Option<File>
    requires t.Shape() && d < |t.ref|
  {
    if elem == ".." then t.parent[d]
    else
      var i := FindName(t.dir[d].list, t.name, elem);
      if i < |t.dir[d].list| then t.dir[d].list[i].f else None
  }

  /** walkfile1 takes the parent for ".." as it finds it, also where a removed directory has none. */
  predicate WalkCrashes(t: Tree, d: File, elem: string)
    requires t.Shape() && d < |t.ref|
  {
    elem == ".." && t.parent[d].None?
  }

  /** walkfile1: the reference to the directory is traded for one to the file found. A crash changes nothing. */
  function WalkFile1(t: Tree, d: File, elem: string): Tree
    requires t.Shape() && d < |t.ref|
    requires Walked(t, d, elem).Some? ==> Walked(t, d, elem).value < |t.ref|
  {
    var f := Walked(t, d, elem);
    if WalkCrashes(t, d, elem) then t else if f.None? then CloseFile(t, d) else CloseFile(Dup(t, f.value), d)
  }

  function OpenDir(t: Tree, d: File, r: Reader): Tree
    requires t.Shape() && d < |t.ref|
  {
    if t.isdir[d] then t.(dir := t.dir[d := Open(t.dir[d], r)]) else t
  }

  function ReadDir(t: Tree, d: File, r: Reader, n: int, size: File -> nat): Tree
    requires t.Shape() && d < |t.ref| && r in t.dir[d].open
  {
    t.(dir := t.dir[d := Read(t.dir[d], r, n, size)])
  }

  function CloseDir(t: Tree, d: File, r: Reader): Tree
    requires t.Shape() && d < |t.ref|
  {
    t.(dir := t.dir[d := Close(t.dir[d], r)])
  }

  // ---------------------------------------------------------------- the invariant

  ghost predicate Lists(list: seq<Entry>, f: File) {
    exists e :: e in list && e.f == Some(f)
  }

  /** Every entry of a directory is a file whose parent it is, and every file with a parent has one entry there. */
  ghost predicate LinkInv(parent: seq<Option<File>>, dir: seq<Dir>) {
    && |dir| == |parent| && 0 < |parent| && parent[ROOT] == Some(ROOT)
    && (forall f {:trigger parent[f]} :: 0 < f < |parent| && parent[f].Some? ==>
          parent[f].value < |parent| && Lists(dir[parent[f].value].list, f))
    && (forall p, e {:trigger e in dir[p].list} :: 0 <= p < |dir| && e in dir[p].list && e.f.Some? ==>
          0 < e.f.value < |parent| && parent[e.f.value] == Some(p))
    && (forall p, e, e' {:trigger e in dir[p].list, e' in dir[p].list} ::
          0 <= p < |dir| && e in dir[p].list && e' in dir[p].list && e.f.Some? && e.f == e'.f ==> e == e')
  }

  /** No two files of a directory have the same name. */
  ghost predicate NameInv(dir: seq<Dir>, name: seq<string>) {
    && |name| == |dir|
    && (forall p, e {:trigger e in dir[p].list} :: 0 <= p < |dir| && e in dir[p].list && e.f.Some? ==> e.f.value < |name|)
    && (forall p, e, e' {:trigger e in dir[p].list, e' in dir[p].list} ::
          0 <= p < |dir| && e in dir[p].list && e' in dir[p].list && e.f.Some? && e'.f.Some? ==>
            name[e.f.value] == name[e'.f.value] ==> e == e')
  }

  /** The references there are to a file: the tree's own to the root, its entry, its children, its callers. */
  function Owed(f: File, parent: Option<File>, d: Dir, handles: int): int {
    B(f == ROOT) + B(f != ROOT && parent.Some?) + d.nchild + handles
  }

  ghost predicate CountInv(ref: seq<int>, parent: seq<Option<File>>, dir: seq<Dir>, handles: seq<int>) {
    && |parent| == |ref| && |dir| == |ref| && |handles| == |ref|
    && (forall f {:trigger ref[f]} :: 0 <= f < |ref| ==> ref[f] == Owed(f, parent[f], dir[f], handles[f]))
  }

  ghost predicate DirsInv(dir: seq<Dir>) {
    forall f {:trigger DirInv(dir[f])} :: 0 <= f < |dir| ==> DirInv(dir[f])
  }

  ghost predicate HandleInv(handles: seq<int>) {
    forall f :: 0 <= f < |handles| ==> handles[f] >= 0
  }

  ghost predicate TreeInv(t: Tree) {
    && t.Shape()
    && LinkInv(t.parent, t.dir) && NameInv(t.dir, t.name) && CountInv(t.ref, t.parent, t.dir, t.handles)
    && DirsInv(t.dir) && DestroyInv(t.ref, t.destroyed) && HandleInv(t.handles)
  }
}
