/** What every operation on a directory keeps, and what a directory reader sees. */
module DirectoryProofs {
  import opened Counting
  import opened Options
  import opened Directory

  // ---------------------------------------------------------------- counting

  lemma {:induction false} LiveAppend(list: seq<Entry>, e: Entry)
    ensures Live(list + [e]) == Live(list) + (if e.f.Some? then 1 else 0)
  {
    if list != [] {
      assert (list + [e])[1..] == list[1..] + [e];
      LiveAppend(list[1..], e);
    }
  }

  lemma {:induction false} LiveUpdate(list: seq<Entry>, i: nat, e: Entry)
    requires i < |list|
    ensures Live(list[i := e]) == Live(list) - (if list[i].f.Some? then 1 else 0) + (if e.f.Some? then 1 else 0)
  {
    if i == 0 {
      assert list[i := e][1..] == list[1..];
    } else {
      assert list[i := e][1..] == list[1..][i - 1 := e];
      LiveUpdate(list[1..], i - 1, e);
    }
  }

  lemma {:induction false} LiveAll(list: seq<Entry>)
    ensures Live(list) <= |list|
    ensures Live(list) == |list| <==> forall i :: 0 <= i < |list| ==> list[i].f.Some?
  {
    if list != [] {
      LiveAll(list[1..]);
      assert forall i :: 0 < i < |list| ==> list[i] == list[1..][i - 1];
      assert forall i :: 0 <= i < |list[1..]| ==> list[1..][i] == list[i + 1];
    }
  }

  lemma {:induction false} KeptCount(list: seq<Entry>)
    ensures |Kept(list)| == Live(list) && Live(Kept(list)) == Live(list)
  {
    if list != [] {
      KeptCount(list[1..]);
      if list[0].f.Some? {
        assert Kept(list)[1..] == Kept(list[1..]);
      } else {
        assert Kept(list) == Kept(list[1..]);
      }
    }
  }

  lemma {:induction false} KeptMembers(list: seq<Entry>)
    ensures forall e :: e in Kept(list) <==> e in list && e.f.Some?
  {
    if list != [] {
      KeptMembers(list[1..]);
      assert list == [list[0]] + list[1..];
    }
  }

  lemma RestInOrder(list: seq<Entry>, made: nat)
    requires InOrder(list, made) && list != []
    ensures InOrder(list[1..], made) && forall e :: e in list[1..] ==> list[0].id < e.id
  {
    var tail := list[1..];
    assert forall i :: 0 <= i < |tail| ==> tail[i] == list[i + 1];
  }

  lemma FirstInOrder(x: Entry, list: seq<Entry>, made: nat)
    requires InOrder(list, made) && x.id < made && forall e :: e in list ==> x.id < e.id
    ensures InOrder([x] + list, made)
  {
    var list' := [x] + list;
    forall j | 0 < j < |list'|
      ensures x.id < list'[j].id
    {
      assert list'[j] in list;
    }
  }

  lemma {:induction false} KeptInOrder(list: seq<Entry>, made: nat)
    requires InOrder(list, made)
    ensures InOrder(Kept(list), made)
  {
    if list != [] {
      RestInOrder(list, made);
      KeptInOrder(list[1..], made);
      KeptMembers(list[1..]);
      if list[0].f.Some? {
        FirstInOrder(list[0], Kept(list[1..]), made);
      } else {
        assert Kept(list) == Kept(list[1..]);
      }
    }
  }

  /** Cleaning keeps exactly the live entries, in order. */
  lemma KeptIs(list: seq<Entry>, made: nat)
    requires InOrder(list, made)
    ensures InOrder(Kept(list), made) && |Kept(list)| == Live(list) && Live(Kept(list)) == Live(list)
    ensures forall e :: e in Kept(list) <==> e in list && e.f.Some?
  {
    KeptInOrder(list, made);
    KeptCount(list);
    KeptMembers(list);
  }

  // ---------------------------------------------------------------- reading

  ghost predicate LiveAt(list: seq<Entry>, k: nat, m: nat, id: nat)
    requires k <= m <= |list|
  {
    exists i :: k <= i < m && list[i].id == id && list[i].f.Some?
  }

  /** ids are the numbers of the live entries from index k up to index m, in order. */
  ghost predicate LiveBetween(list: seq<Entry>, k: nat, m: nat, ids: seq<nat>) {
    && k <= m <= |list| && Increasing(ids)
    && (forall j :: 0 <= j < |ids| ==> LiveAt(list, k, m, ids[j]))
    && (forall i :: k <= i < m && list[i].f.Some? ==> list[i].id in ids)
  }

  lemma LiveShift(list: seq<Entry>, k: nat, m: nat, ids: seq<nat>)
    requires k <= |list| && LiveBetween(list[k..], 0, m, ids)
    ensures LiveBetween(list, k, k + m, ids)
  {
    var rest := list[k..];
    forall j | 0 <= j < |ids|
      ensures LiveAt(list, k, k + m, ids[j])
    {
      assert LiveAt(rest, 0, m, ids[j]);
      var i :| 0 <= i < m && rest[i].id == ids[j] && rest[i].f.Some?;
      assert list[k + i] == rest[i];
    }
    forall i | k <= i < k + m && list[i].f.Some?
      ensures list[i].id in ids
    {
      assert rest[i - k] == list[i];
    }
  }

  /** The first entry belongs to it if it is live. */
  lemma LiveFirst(list: seq<Entry>, made: nat, m: nat, ids: seq<nat>)
    requires InOrder(list, made) && list != [] && LiveBetween(list, 1, m, ids)
    ensures LiveBetween(list, 0, m, if list[0].f.Some? then [list[0].id] + ids else ids)
  {
    var ids' := if list[0].f.Some? then [list[0].id] + ids else ids;
    forall j | 0 <= j < |ids|
      ensures LiveAt(list, 0, m, ids[j]) && list[0].id < ids[j]
    {
      assert LiveAt(list, 1, m, ids[j]);
      var i :| 1 <= i < m && list[i].id == ids[j] && list[i].f.Some?;
    }
    if list[0].f.Some? {
      assert LiveAt(list, 0, m, ids'[0]);
    }
  }

  /** The scan goes on behind the first entry, if that is blank or fits. */
  predicate Passes(list: seq<Entry>, room: int, size: File -> nat) {
    list != [] && room >= 2 && (list[0].f.Some? ==> size(list[0].f.value) <= room)
  }

  /** Room behind the first entry. */
  function RoomAfter(list: seq<Entry>, room: int, size: File -> nat): int
    requires list != []
  {
    if list[0].f.Some? then room - size(list[0].f.value) else room
  }

  function WithFirst(list: seq<Entry>, ids: seq<nat>): seq<nat>
    requires list != []
  {
    if list[0].f.Some? then [list[0].id] + ids else ids
  }

  lemma ScanCons(list: seq<Entry>, room: int, size: File -> nat)
    ensures
      var s := ScanList(list, room, size);
      if !Passes(list, room, size) then s == Scan(0, [], 0)
      else
        var t := ScanList(list[1..], RoomAfter(list, room, size), size);
        s.passed == t.passed + 1 && s.ids == WithFirst(list, t.ids) && s.used == t.used + room - RoomAfter(list, room, size)
  {
  }

  lemma LiveCons(list: seq<Entry>, made: nat, m: nat, ids: seq<nat>)
    requires InOrder(list, made) && list != [] && LiveBetween(list[1..], 0, m, ids)
    ensures LiveBetween(list, 0, m + 1, WithFirst(list, ids))
  {
    LiveShift(list, 1, m, ids);
    LiveFirst(list, made, m + 1, ids);
  }

  /** A scan passes a prefix of the list and returns exactly the live entries in it, in order. */
  lemma {:induction false} ScanIs(list: seq<Entry>, made: nat, room: int, size: File -> nat)
    requires InOrder(list, made)
    ensures
      var s := ScanList(list, room, size);
      s.passed <= |list| && LiveBetween(list, 0, s.passed, s.ids) && (room >= 0 ==> s.used <= room)
    decreases |list|
  {
    ScanCons(list, room, size);
    if Passes(list, room, size) {
      var left := RoomAfter(list, room, size);
      RestInOrder(list, made);
      ScanIs(list[1..], made, left, size);
      var t := ScanList(list[1..], left, size);
      LiveCons(list, made, t.passed, t.ids);
    }
  }

  /** The bytes that the files of the list take. */
  function Bytes(list: seq<Entry>, size: File -> nat): nat {
    if list == [] then 0 else (if list[0].f.Some? then size(list[0].f.value) else 0) + Bytes(list[1..], size)
  }

  /** With all entries before the j-th packed there is room for two bytes more and, if it is a file, for that one. */
  predicate Fits(list: seq<Entry>, j: nat, room: int, size: File -> nat)
    requires j < |list|
  {
    var left := room - Bytes(list[..j], size);
    left >= 2 && (list[j].f.Some? ==> size(list[j].f.value) <= left)
  }

  /** The first m entries fit one after the other, and the next one, if any, does not. */
  ghost predicate IsFull(list: seq<Entry>, m: nat, room: int, size: File -> nat) {
    m <= |list| && (forall j :: 0 <= j < m ==> Fits(list, j, room, size)) && (m < |list| ==> !Fits(list, m, room, size))
  }

  lemma FitsBehind(list: seq<Entry>, j: nat, room: int, size: File -> nat)
    requires 0 < j < |list|
    ensures Fits(list, j, room, size) <==> Fits(list[1..], j - 1, room - Bytes(list[..1], size), size)
    ensures Bytes(list[..j], size) == Bytes(list[..1], size) + Bytes(list[1..][..j - 1], size)
  {
    assert list[..j][1..] == list[1..][..j - 1] && list[..1] == [list[0]] && list[..j][0] == list[0];
    assert list[..1][1..] == [];
  }

  /** A scan stops only at the end or at an entry that does not fit any more, and it takes what it has passed. */
  lemma {:induction false} ScanIsFull(list: seq<Entry>, room: int, size: File -> nat)
    ensures
      var s := ScanList(list, room, size);
      IsFull(list, s.passed, room, size) && s.used == Bytes(list[..s.passed], size)
    decreases |list|
  {
    ScanCons(list, room, size);
    if list != [] {
      assert list[..0] == [] && list[..1] == [list[0]] && list[..1][1..] == [];
      assert Fits(list, 0, room, size) <==> Passes(list, room, size);
      if Passes(list, room, size) {
        var left := RoomAfter(list, room, size);
        assert left == room - Bytes(list[..1], size);
        ScanIsFull(list[1..], left, size);
        FullBehind(list, ScanList(list[1..], left, size).passed, room, size);
      }
    }
  }

  lemma FullBehind(list: seq<Entry>, m: nat, room: int, size: File -> nat)
    requires list != [] && Fits(list, 0, room, size) && IsFull(list[1..], m, room - Bytes(list[..1], size), size)
    ensures IsFull(list, m + 1, room, size) && Bytes(list[..m + 1], size) == Bytes(list[..1], size) + Bytes(list[1..][..m], size)
  {
    forall j | 0 < j < |list|
      ensures Fits(list, j, room, size) <==> Fits(list[1..], j - 1, room - Bytes(list[..1], size), size)
    {
      FitsBehind(list, j, room, size);
    }
    assert list[..m + 1][1..] == list[1..][..m] && list[..m + 1][0] == list[0];
    assert list[..1] == [list[0]] && list[..1][1..] == [];
  }

  /** The index of the node a cursor points to, or the length of the list. */
  function Where(list: seq<Entry>, c: Cursor): nat {
    if c.at.None? then |list| else IndexOf(list, c.at.value)
  }

  /** From index a to b are as many entries as fit, and their files take m bytes. */
  ghost predicate Moves(list: seq<Entry>, a: nat, b: nat, room: int, size: File -> nat, m: nat) {
    a <= b <= |list| && m == Bytes(list[a..b], size) && (a < |list| ==> IsFull(list[a..], b - a, room, size))
  }

  /** readdirfile moves the cursor over as many entries as fit. */
  lemma AdvanceIsFull(list: seq<Entry>, made: nat, c: Cursor, room: int, size: File -> nat)
    requires InOrder(list, made)
    ensures
      Moves(list, Where(list, c), Where(list, Advance(list, made, c, room, size)), room, size,
            if c.at.None? then 0 else ScanList(list[Where(list, c)..], room, size).used)
  {
    if c.at.Some? {
      ScanMoves(list, Where(list, c), room, size);
      AdvanceTo(list, made, c, room, size);
    }
  }

  lemma AdvanceTo(list: seq<Entry>, made: nat, c: Cursor, room: int, size: File -> nat)
    requires InOrder(list, made) && c.at.Some? && Where(list, c) + ScanList(list[Where(list, c)..], room, size).passed <= |list|
    ensures Where(list, Advance(list, made, c, room, size)) == Where(list, c) + ScanList(list[Where(list, c)..], room, size).passed
  {
    var j := Where(list, c) + ScanList(list[Where(list, c)..], room, size).passed;
    if j < |list| {
      IndexIs(list, made, j);
    }
  }

  lemma ScanMoves(list: seq<Entry>, i: nat, room: int, size: File -> nat)
    requires i <= |list|
    ensures var s := ScanList(list[i..], room, size); Moves(list, i, i + s.passed, room, size, s.used)
  {
    ScanIsFull(list[i..], room, size);
    var m := ScanList(list[i..], room, size).passed;
    assert list[i..][..m] == list[i..i + m];
  }

  /** A node's number finds the node. */
  lemma IndexIs(list: seq<Entry>, made: nat, i: nat)
    requires InOrder(list, made) && i < |list|
    ensures IndexOf(list, list[i].id) == i
  {
  }

  // ---------------------------------------------------------------- every operation keeps the invariant

  /** What holds of a directory even before it is cleaned. */
  ghost predicate Counted(d: Dir) {
    && InOrder(d.list, d.made)
    && d.nchild == Live(d.list)
    && d.nxchild == |d.list| - Live(d.list)
    && (forall r :: r in d.open ==> CursorOk(d.list, d.made, d.open[r]))
  }

  lemma KeepClean(d: Dir)
    requires Counted(d)
    ensures DirInv(Clean(d))
    ensures forall e: Entry :: e.f.Some? ==> (e in Clean(d).list <==> e in d.list)
  {
    KeptIs(d.list, d.made);
  }

  lemma CursorAppend(list: seq<Entry>, made: nat, c: Cursor, e: Entry)
    requires CursorOk(list, made, c) && e.id == made
    ensures CursorOk(list + [e], made + 1, c)
  {
    if c.at.Some? {
      var i :| 0 <= i < |list| && list[i].id == c.at.value;
      assert (list + [e])[i].id == c.at.value;
    }
  }

  lemma KeepCreate(d: Dir, f: File)
    requires DirInv(d)
    ensures DirInv(Create(d, f))
  {
    LiveAppend(d.list, Entry(d.made, Some(f)));
    forall r | r in d.open
      ensures CursorOk(Create(d, f).list, d.made + 1, d.open[r])
    {
      CursorAppend(d.list, d.made, d.open[r], Entry(d.made, Some(f)));
    }
  }

  lemma CursorBlank(list: seq<Entry>, made: nat, c: Cursor, i: nat)
    requires CursorOk(list, made, c) && i < |list|
    ensures CursorOk(list[i := Entry(list[i].id, None)], made, c)
  {
    if c.at.Some? {
      var k :| 0 <= k < |list| && list[k].id == c.at.value;
      assert list[i := Entry(list[i].id, None)][k].id == c.at.value;
    }
  }

  lemma KeepRemove(d: Dir, i: nat)
    requires DirInv(d) && i < |d.list| && d.list[i].f.Some?
    ensures DirInv(Remove(d, i))
  {
    var blank := d.list[i := Entry(d.list[i].id, None)];
    LiveUpdate(d.list, i, Entry(d.list[i].id, None));
    forall r | r in d.open
      ensures CursorOk(blank, d.made, d.open[r])
    {
      CursorBlank(d.list, d.made, d.open[r], i);
    }
    KeepClean(d.(list := blank, nchild := d.nchild - 1, nxchild := d.nxchild + 1));
  }

  lemma KeepOpen(d: Dir, r: Reader)
    requires DirInv(d)
    ensures DirInv(Open(d, r))
  {
    var c := Cursor(FirstId(d.list), [], d.made);
    assert d.list != [] ==> d.list[0].id == c.at.value;
    assert CursorOk(d.list, d.made, c);
    assert r in Open(d, r).open;
  }

  lemma KeepClose(d: Dir, r: Reader)
    requires DirInv(d)
    ensures DirInv(Close(d, r))
  {
    KeepClean(d.(open := d.open - {r}));
  }

  lemma ScanAt(list: seq<Entry>, made: nat, k: nat, room: int, size: File -> nat)
    requires InOrder(list, made) && k <= |list|
    ensures
      var s := ScanList(list[k..], room, size);
      k + s.passed <= |list| && LiveBetween(list, k, k + s.passed, s.ids)
  {
    ScanIs(list[k..], made, room, size);
    var s := ScanList(list[k..], room, size);
    LiveShift(list, k, s.passed, s.ids);
  }

  /** Reading on: what the cursor passes and is still there is added to what it has returned. */
  lemma CursorMove(list: seq<Entry>, made: nat, c: Cursor, c': Cursor, k: nat, m: nat, ids: seq<nat>)
    requires InOrder(list, made) && CursorOk(list, made, c) && k < |list| && c.at == Some(list[k].id)
    requires LiveBetween(list, k, m, ids)
    requires c' == Moved(list, made, c, m, ids)
    ensures CursorOk(list, made, c')
  {
    forall j | 0 <= j < |ids|
      ensures list[k].id <= ids[j] < Limit(c')
    {
      assert LiveAt(list, k, m, ids[j]);
      var i :| k <= i < m && list[i].id == ids[j] && list[i].f.Some?;
    }
    forall i | 0 <= i < |list| && list[i].f.Some? && list[i].id < Limit(c')
      ensures list[i].id in c'.seen
    {
      if k <= i {
        assert i < m;
      }
    }
  }

  /** Where a scan from index k that passes the entries before index m leaves the cursor. */
  function Moved(list: seq<Entry>, made: nat, c: Cursor, m: nat, ids: seq<nat>): Cursor {
    if m < |list| then Cursor(Some(list[m].id), c.seen + ids, c.stop) else Cursor(None, c.seen + ids, made)
  }

  lemma AdvanceIs(list: seq<Entry>, made: nat, c: Cursor, n: int, size: File -> nat, k: nat)
    requires c.at.Some? && IndexOf(list, c.at.value) == k <= |list|
    ensures var s := ScanList(list[k..], n, size); Advance(list, made, c, n, size) == Moved(list, made, c, k + s.passed, s.ids)
  {
  }

  lemma CursorScan(list: seq<Entry>, made: nat, c: Cursor, k: nat, s: Scan)
    requires InOrder(list, made) && CursorOk(list, made, c) && k < |list| && c.at == Some(list[k].id)
    requires LiveBetween(list, k, k + s.passed, s.ids)
    ensures CursorOk(list, made, Moved(list, made, c, k + s.passed, s.ids))
  {
    CursorMove(list, made, c, Moved(list, made, c, k + s.passed, s.ids), k, k + s.passed, s.ids);
  }

  lemma CursorRead(list: seq<Entry>, made: nat, c: Cursor, n: int, size: File -> nat)
    requires InOrder(list, made) && CursorOk(list, made, c)
    ensures CursorOk(list, made, Advance(list, made, c, n, size))
  {
    if c.at.Some? {
      var k :| 0 <= k < |list| && list[k].id == c.at.value;
      assert IndexOf(list, c.at.value) == k by {
        IndexIs(list, made, k);
      }
      AdvanceIs(list, made, c, n, size, k);
      ScanAt(list, made, k, n, size);
      CursorScan(list, made, c, k, ScanList(list[k..], n, size));
    }
  }

  lemma KeepRead(d: Dir, r: Reader, n: int, size: File -> nat)
    requires DirInv(d) && r in d.open
    ensures DirInv(Read(d, r, n, size))
  {
    CursorRead(d.list, d.made, d.open[r], n, size);
  }

  // ---------------------------------------------------------------- over every run

  datatype Event =
    | DoCreate(f: File)
    | DoRemove(i: nat)
    | DoOpen(r: Reader)
    | DoRead(r: Reader, n: int, size: File -> nat)
    | DoClose(r: Reader)

  predicate Enabled(d: Dir, e: Event) {
    match e
    case DoCreate(_) => true
    case DoRemove(i) => i < |d.list| && d.list[i].f.Some?
    case DoOpen(r) => r !in d.open
    case DoRead(r, _, _) => r in d.open
    case DoClose(r) => r in d.open
  }

  function Apply(d: Dir, e: Event): Dir
    requires Enabled(d, e)
  {
    match e
    case DoCreate(f) => Create(d, f)
    case DoRemove(i) => Remove(d, i)
    case DoOpen(r) => Open(d, r)
    case DoRead(r, n, size) => Read(d, r, n, size)
    case DoClose(r) => Close(d, r)
  }

  ghost predicate IsRun(ds: seq<Dir>, es: seq<Event>) {
    && |ds| == |es| + 1
    && ds[0] == EMPTY
    && forall i :: 0 <= i < |es| ==> Enabled(ds[i], es[i]) && ds[i + 1] == Apply(ds[i], es[i])
  }

  lemma KeepInv(d: Dir, e: Event)
    requires DirInv(d) && Enabled(d, e)
    ensures DirInv(Apply(d, e))
  {
    match e
    case DoCreate(f) =>
      KeepCreate(d, f);
    case DoRemove(i) =>
      KeepRemove(d, i);
    case DoOpen(r) =>
      KeepOpen(d, r);
    case DoRead(r, n, size) =>
      KeepRead(d, r, n, size);
    case DoClose(r) =>
      KeepClose(d, r);
  }

  lemma {:induction false} RunInv(ds: seq<Dir>, es: seq<Event>, k: nat)
    requires IsRun(ds, es) && k < |ds|
    ensures DirInv(ds[k])
  {
    if k > 0 {
      RunInv(ds, es, k - 1);
      KeepInv(ds[k - 1], es[k - 1]);
    }
  }

  /** Every open cursor is nil or points to a node of the list. */
  lemma CursorsStayValid(ds: seq<Dir>, es: seq<Event>, k: nat, r: Reader)
    requires IsRun(ds, es) && k < |ds| && r in ds[k].open && ds[k].open[r].at.Some?
    ensures exists i :: 0 <= i < |ds[k].list| && ds[k].list[i].id == ds[k].open[r].at.value
  {
    RunInv(ds, es, k);
  }

  /** With no reader open there is no blank entry, and the counters count live and blank entries. */
  lemma BlanksOnlyWhileRead(ds: seq<Dir>, es: seq<Event>, k: nat)
    requires IsRun(ds, es) && k < |ds|
    ensures ds[k].nchild == Live(ds[k].list) && ds[k].nxchild == |ds[k].list| - Live(ds[k].list)
    ensures ds[k].open == map[] ==> forall i :: 0 <= i < |ds[k].list| ==> ds[k].list[i].f.Some?
  {
    RunInv(ds, es, k);
    LiveAll(ds[k].list);
  }

  /** From its opening at step a, reader r has not been closed. */
  ghost predicate OpenSince(es: seq<Event>, a: nat, k: nat, r: Reader) {
    && a < k <= |es| && es[a] == DoOpen(r)
    && forall j :: a < j < k ==> es[j] != DoClose(r)
  }

  lemma CleanKeepsOpen(d: Dir)
    ensures Clean(d).open == d.open && Clean(d).made == d.made
  {
  }

  lemma StepKeepsCursor(d: Dir, e: Event, r: Reader, made: nat)
    requires Enabled(d, e) && e != DoClose(r) && r in d.open && made <= d.made
    requires d.open[r].at.None? ==> made <= d.open[r].stop
    ensures r in Apply(d, e).open && made <= Apply(d, e).made
    ensures Apply(d, e).open[r].at.None? ==> made <= Apply(d, e).open[r].stop
  {
    match e
    case DoClose(q) =>
      CleanKeepsOpen(d.(open := d.open - {q}));
    case _ =>
  }

  lemma {:induction false} StaysOpen(ds: seq<Dir>, es: seq<Event>, a: nat, k: nat, r: Reader)
    requires IsRun(ds, es) && OpenSince(es, a, k, r)
    ensures r in ds[k].open && ds[a].made <= ds[k].made
    ensures ds[k].open[r].at.None? ==> ds[a].made <= ds[k].open[r].stop
    decreases k
  {
    if k > a + 1 {
      StaysOpen(ds, es, a, k - 1, r);
      StepKeepsCursor(ds[k - 1], es[k - 1], r, ds[a].made);
    }
  }

  /**
   * A file that is in the directory when a reader is opened, and still there when the reader has
   * run to the end, has been returned to it exactly once; and the reader gets files in the order
   * they were created, whatever the sizes of its reads and whatever was created or removed.
   */
  lemma ReaderSeesEachFileOnce(ds: seq<Dir>, es: seq<Event>, a: nat, k: nat, r: Reader, e: Entry)
    requires IsRun(ds, es) && OpenSince(es, a, k, r)
    requires e in ds[a].list && e.f.Some? && e in ds[k].list
    ensures r in ds[k].open && Increasing(ds[k].open[r].seen)
    ensures ds[k].open[r].at.None? ==> multiset(ds[k].open[r].seen)[e.id] == 1
  {
    RunInv(ds, es, a);
    RunInv(ds, es, k);
    StaysOpen(ds, es, a, k, r);
    OnceEach(ds[k].open[r].seen, e.id);
  }

  /** A read returns only files that are in the directory at that time. */
  lemma ReadReturnsLive(ds: seq<Dir>, es: seq<Event>, k: nat, x: nat)
    requires IsRun(ds, es) && k < |es| && es[k].DoRead?
    requires x in ds[k + 1].open[es[k].r].seen && x !in ds[k].open[es[k].r].seen
    ensures exists e :: e in ds[k].list && e.id == x && e.f.Some?
  {
    RunInv(ds, es, k);
    var d, c := ds[k], ds[k].open[es[k].r];
    var i := IndexOf(d.list, c.at.value);
    ScanAt(d.list, d.made, i, es[k].n, es[k].size);
    var s := ScanList(d.list[i..], es[k].n, es[k].size);
    var j :| 0 <= j < |s.ids| && s.ids[j] == x;
    assert LiveAt(d.list, i, i + s.passed, s.ids[j]);
    var m :| i <= m < i + s.passed && d.list[m].id == s.ids[j] && d.list[m].f.Some?;
    assert d.list[m] in d.list;
  }
}
