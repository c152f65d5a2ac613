/** Runs of the file tree that go wrong. */
module FileFailures {
  import opened Counting
  import opened Options
  import opened Directory
  import opened FileTree
  import opened FileTreeProofs
  import opened FileTreeRuns
  import opened FileReaders

  lemma OneMore(ts: seq<Tree>, cs: seq<Call>, c: Call, t: Tree)
    requires IsRun(ts, cs) && TreeInv(ts[|cs|]) && Allowed(ts[|cs|], c) && t == Does(ts[|cs|], c)
    ensures IsRun(ts + [t], cs + [c]) && (ts + [t])[|cs + [c]|] == t && TreeInv(t)
  {
    KeepDoes(ts[|cs|], c);
    var ts', cs' := ts + [t], cs + [c];
    forall i | 0 <= i < |cs'|
      ensures ts'[i].Shape() && Allowed(ts'[i], cs'[i]) && (TreeInv(ts'[i]) ==> ts'[i + 1] == Does(ts'[i], cs'[i]))
    {
      if i < |cs| {
        assert ts'[i] == ts[i] && ts'[i + 1] == ts[i + 1] && cs'[i] == cs[i];
      }
    }
  }

  /** A run of some calls leads to t. */
  ghost predicate Reached(t: Tree) {
    exists ts: seq<Tree>, cs: seq<Call> :: IsRun(ts, cs) && ts[|cs|] == t
  }

  lemma ReachedInv(t: Tree)
    requires Reached(t)
    ensures TreeInv(t)
  {
    var ts, cs :| IsRun(ts, cs) && ts[|cs|] == t;
    RunInv(ts, cs, |cs|);
  }

  lemma StartReached()
    ensures Reached(START)
  {
    var ts: seq<Tree>, cs: seq<Call> := [START], [];
    assert IsRun(ts, cs) && ts[|cs|] == START;
  }

  lemma NextReached(t: Tree, c: Call, t': Tree)
    requires Reached(t) && TreeInv(t) && Allowed(t, c) && t' == Does(t, c)
    ensures Reached(t')
  {
    var ts, cs :| IsRun(ts, cs) && ts[|cs|] == t;
    OneMore(ts, cs, c, t');
  }

  lemma FreedIff(t: Tree, c: Call)
    requires Reached(t) && t.Shape() && Allowed(t, c) && !Dangling(t)
    ensures TreeInv(t) && Does(t, c).Shape()
    ensures Dangling(Does(t, c)) <==> FreesRead(t, c) || FreesParent(t, c)
  {
    var ts, cs :| IsRun(ts, cs) && ts[|cs|] == t;
    FreedWhileReadIff(ts, cs, |cs|, c);
  }

  // ---------------------------------------------------------------- the states

  const LISTED := Dir([Entry(0, Some(1))], 1, 0, map[], 1)
  const OPENED := Dir([], 0, 0, map[0 := Cursor(None, [], 0)], 0)
  const FILLED := Dir([Entry(0, Some(2))], 1, 0, map[0 := Cursor(None, [], 0)], 1)

  /** A handle to the root, a new directory in it, and a reader on its one handle. */
  const HELD := Tree([2], [Some(0)], ["/"], [true], [EMPTY], [1], [])
  const MADE := Tree([3, 2], [Some(0), Some(0)], ["/", "a"], [true, true], [LISTED, EMPTY], [1, 1], [])
  const READ := Tree([3, 2], [Some(0), Some(0)], ["/", "a"], [true, true], [LISTED, OPENED], [1, 1], [])

  /** Then a second handle, through which the directory is removed; a file in it; and the last handle to it is closed. */
  const TWICE := Tree([3, 3], [Some(0), Some(0)], ["/", "a"], [true, true], [LISTED, OPENED], [1, 2], [])
  const LOOSE := Tree([2, 1], [Some(0), None], ["/", "a"], [true, true], [EMPTY.(made := 1), OPENED], [1, 1], [])
  const REFILLED := Tree([2, 2, 2], [Some(0), None, Some(1)], ["/", "a", "c"], [true, true, false],
                         [EMPTY.(made := 1), FILLED, EMPTY], [1, 1, 1], [])
  const LEFT := Tree([2, 1, 2], [Some(0), None, Some(1)], ["/", "a", "c"], [true, true, false],
                     [EMPTY.(made := 1), FILLED, EMPTY], [1, 0, 1], [])

  lemma ToMade()
    ensures Dup(START, ROOT) == HELD && CreateFile(HELD, ROOT, "a", true) == MADE
  {
    assert CanCreate(HELD, ROOT, "a");
    assert Create(EMPTY, 1).list == [Entry(0, Some(1))];
    assert HELD.dir[0 := Create(EMPTY, 1)] + [EMPTY] == MADE.dir;
    assert HELD.ref[0 := 3] + [2] == MADE.ref;
  }

  lemma ToTwice()
    ensures OpenDir(MADE, 1, 0) == READ && Dup(READ, 1) == TWICE
  {
    assert MADE.dir[1 := Open(EMPTY, 0)] == READ.dir;
  }

  lemma ToLoose()
    ensures FindFile(LISTED.list, 1) == 0 && RemoveFile(TWICE, 1) == LOOSE
  {
    assert LISTED.list[0 := Entry(0, None)] == [Entry(0, None)];
    assert Kept([Entry(0, None)]) == [];
    assert Remove(LISTED, 0) == EMPTY.(made := 1);
    assert TWICE.dir[0 := EMPTY.(made := 1)] == LOOSE.dir;
  }

  /** createfile in a directory without entries. */
  lemma FirstFile(t: Tree, fp: File, nm: string, isdir: bool)
    requires t.Shape() && fp < |t.ref| && t.isdir[fp] && t.dir[fp].list == []
    ensures CreateFile(t, fp, nm, isdir) ==
            Tree(t.ref[fp := t.ref[fp] + 1] + [2], t.parent + [Some(fp)], t.name + [nm], t.isdir + [isdir],
                 t.dir[fp := Create(t.dir[fp], |t.ref|)] + [EMPTY], t.handles + [1], t.destroyed)
  {
  }

  lemma ToRefilled()
    ensures CreateFile(LOOSE, 1, "c", false) == REFILLED
  {
    FirstFile(LOOSE, 1, "c", false);
    assert Create(OPENED, 2) == FILLED;
    assert LOOSE.dir[1 := FILLED] + [EMPTY] == REFILLED.dir;
  }

  lemma ToLeft()
    ensures CloseFile(REFILLED, 1) == LEFT
  {
    assert REFILLED.ref[1 := 1] == LEFT.ref;
  }

  lemma MadeReached()
    ensures Reached(MADE) && TreeInv(MADE)
  {
    StartReached();
    ToMade();
    ReachedInv(START);
    NextReached(START, Dups(ROOT), HELD);
    ReachedInv(HELD);
    NextReached(HELD, Creates(ROOT, "a", true), MADE);
    ReachedInv(MADE);
  }

  lemma ReadReached()
    ensures Reached(READ) && TreeInv(READ)
  {
    MadeReached();
    ToTwice();
    NextReached(MADE, OpensDir(1, 0), READ);
    ReachedInv(READ);
  }

  lemma LooseReached()
    ensures Reached(LOOSE) && TreeInv(LOOSE)
  {
    ReadReached();
    ToTwice();
    ToLoose();
    NextReached(READ, Dups(1), TWICE);
    ReachedInv(TWICE);
    NextReached(TWICE, Removes(1), LOOSE);
    ReachedInv(LOOSE);
  }

  lemma LeftReached()
    ensures Reached(LEFT) && TreeInv(LEFT)
  {
    LooseReached();
    ToRefilled();
    ToLeft();
    NextReached(LOOSE, Creates(1, "c", false), REFILLED);
    ReachedInv(REFILLED);
    NextReached(REFILLED, Closes(1), LEFT);
    ReachedInv(LEFT);
  }

  // ---------------------------------------------------------------- what goes wrong there

  /** A directory is removed while it is read, as Topen and Tremove of one fid do it: it is freed, and the reader is still open. */
  lemma RemovedWhileRead()
    ensures Reached(READ) && TreeInv(READ) && !Dangling(READ) && Allowed(READ, Removes(1))
    ensures Does(READ, Removes(1)).Shape() && Dangling(Does(READ, Removes(1)))
  {
    ReadReached();
    assert 0 in READ.dir[1].open;
    FreedIff(READ, Removes(1));
  }

  /** A directory that has been removed and closed, but is still being read, is freed with the last file in it. */
  lemma FreedWithItsLastFile()
    ensures Reached(LEFT) && TreeInv(LEFT) && !Dangling(LEFT) && Allowed(LEFT, Removes(2)) && !FreesRead(LEFT, Removes(2))
    ensures Does(LEFT, Removes(2)).Shape() && Dangling(Does(LEFT, Removes(2)))
  {
    LeftReached();
    assert 0 in LEFT.dir[1].open;
    FreedIff(LEFT, Removes(2));
  }

  /** A walk to ".." from a directory that has been removed uses a nil pointer. */
  lemma DotDotCrashes()
    ensures Reached(LOOSE) && TreeInv(LOOSE) && Allowed(LOOSE, Walks(1, "..")) && WalkCrashes(LOOSE, 1, "..")
  {
    LooseReached();
  }
}
