/**
 * The entry list of one directory of src/lib9p/file.c, with the directory readers that are
 * open on it. Removed files leave a blank entry behind while a reader is open, because the
 * reader's cursor may point to it.
 */
module Directory {
  import opened Options

  type File = nat
  type Reader = nat

  /** A Filelist node; nodes are numbered in the order they are made. */
  datatype Entry = Entry(id: nat, f: Option<File>)

  /**
   * A Readdir: the node it points to. `seen` and `stop` record its past: the nodes whose files it
   * has returned, and how many nodes had been made when the cursor ran off the end.
   */
  datatype Cursor = Cursor(at: Option<nat>, seen: seq<nat>, stop: nat)

  datatype Dir = Dir(list: seq<Entry>, nchild: int, nxchild: int, open: map<Reader, Cursor>, made: nat)

  const EMPTY := Dir([], 0, 0, map[], 0)

  function Live(list: seq<Entry>): nat {
    if list == [] then 0 else (if list[0].f.Some? then 1 else 0) + Live(list[1..])
  }

  /** The entries that are not blank. */
  function Kept(list: seq<Entry>): seq<Entry> {
    if list == [] then [] else (if list[0].f.Some? then [list[0]] else []) + Kept(list[1..])
  }

  /** cleanfilelist. */
  function Clean(d: Dir): Dir {
    if d.open == map[] && d.nxchild != 0 then d.(list := Kept(d.list), nxchild := 0) else d
  }

  function FirstId(list: seq<Entry>): Option<nat> {
    if list == [] then None else Some(list[0].id)
  }

  /** opendirfile. */
  function Open(d: Dir, r: Reader): Dir {
    d.(open := d.open[r := Cursor(FirstId(d.list), [], d.made)])
  }

  /** closedirfile. */
  function Close(d: Dir, r: Reader): Dir {
    Clean(d.(open := d.open - {r}))
  }

  /** createfile, once the name is known to be new. */
  function Create(d: Dir, f: File): Dir {
    d.(list := d.list + [Entry(d.made, Some(f))], nchild := d.nchild + 1, made := d.made + 1)
  }

  /** removefile on the entry at index i. */
  function Remove(d: Dir, i: nat): Dir
    requires i < |d.list|
  {
    Clean(d.(list := d.list[i := Entry(d.list[i].id, None)], nchild := d.nchild - 1, nxchild := d.nxchild + 1))
  }

  /** What readdirfile returns, and how many nodes it passes, given the room left in the buffer. */
  datatype Scan = Scan(passed: nat, ids: seq<nat>, used: nat)

  function ScanList(list: seq<Entry>, room: int, size: File -> nat): Scan {
    if list == [] || room < 2 then Scan(0, [], 0)
    else
      match list[0].f
      case None =>
        var s := ScanList(list[1..], room, size);
        s.(passed := s.passed + 1)
      case Some(f) =>
        if size(f) > room then Scan(0, [], 0)
        else
          var s := ScanList(list[1..], room - size(f), size);
          Scan(s.passed + 1, [list[0].id] + s.ids, s.used + size(f))
  }

  /** The index of node id, or the length of the list. */
  function IndexOf(list: seq<Entry>, id: nat): (i: nat)
    ensures i <= |list|
    ensures i < |list| ==> list[i].id == id
    ensures forall j :: 0 <= j < i ==> list[j].id != id
  {
    if list == [] || list[0].id == id then 0 else 1 + IndexOf(list[1..], id)
  }

  /** Where readdirfile leaves the cursor. */
  function Advance(list: seq<Entry>, made: nat, c: Cursor, n: int, size: File -> nat): Cursor {
    if c.at.None? then c
    else
      var i := IndexOf(list, c.at.value);
      var s := ScanList(list[i..], n, size);
      if i + s.passed < |list| then Cursor(Some(list[i + s.passed].id), c.seen + s.ids, c.stop)
      else Cursor(None, c.seen + s.ids, made)
  }

  /** readdirfile. */
  function Read(d: Dir, r: Reader, n: int, size: File -> nat): Dir
    requires r in d.open
  {
    d.(open := d.open[r := Advance(d.list, d.made, d.open[r], n, size)])
  }

  // ---------------------------------------------------------------- the invariant

  /** The list is in the order of creation. */
  ghost predicate InOrder(list: seq<Entry>, made: nat) {
    && (forall i, j :: 0 <= i < j < |list| ==> list[i].id < list[j].id)
    && (forall i :: 0 <= i < |list| ==> list[i].id < made)
  }

  ghost predicate Increasing(ids: seq<nat>) {
    forall i, j :: 0 <= i < j < |ids| ==> ids[i] < ids[j]
  }

  /** Where a reader has got to: everything before it that is still there has been returned. */
  function Limit(c: Cursor): nat {
    if c.at.Some? then c.at.value else c.stop
  }

  ghost predicate CursorOk(list: seq<Entry>, made: nat, c: Cursor) {
    && (c.at.Some? ==> exists i :: 0 <= i < |list| && list[i].id == c.at.value)
    && Limit(c) <= made
    && Increasing(c.seen)
    && (forall k :: 0 <= k < |c.seen| ==> c.seen[k] < Limit(c))
    && (forall i :: 0 <= i < |list| && list[i].f.Some? && list[i].id < Limit(c) ==> list[i].id in c.seen)
  }

  ghost predicate DirInv(d: Dir) {
    && InOrder(d.list, d.made)
    && d.nchild == Live(d.list)
    && d.nxchild == |d.list| - Live(d.list)
    && (d.open == map[] ==> d.nxchild == 0)
    && (forall r :: r in d.open ==> CursorOk(d.list, d.made, d.open[r]))
  }
}
