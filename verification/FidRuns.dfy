/** All runs of the fid engine, and sessions in which one request is handled at a time. */
module FidRuns {
  import opened Counting
  import opened Options
  import opened Fids
  import opened FidProofs

  /** A run from the empty server. That every state has the invariant, and so a next state, is RunInv. */
  ghost predicate IsRun(ss: seq<Srv>, es: seq<Event>) {
    && |ss| == |es| + 1
    && ss[0] == START
    && forall i :: 0 <= i < |es| ==> ss[i].Shape() && Enabled(ss[i], es[i]) && (Inv(ss[i]) ==> ss[i + 1] == Apply(ss[i], es[i]))
  }

  lemma {:induction false} RunInv(ss: seq<Srv>, es: seq<Event>, k: nat)
    requires IsRun(ss, es) && k < |ss|
    ensures Inv(ss[k])
  {
    if k > 0 {
      RunInv(ss, es, k - 1);
      KeepInv(ss[k - 1], es[k - 1]);
    }
  }

  /** In every interleaving a count is the number of references: the table's and those of live requests. */
  lemma CountIsExact(ss: seq<Srv>, es: seq<Event>, k: nat, f: Fid)
    requires IsRun(ss, es) && k < |ss| && f < |ss[k].ref|
    ensures f < |ss[k].num| && ss[k].ref[f] == B(InPool(ss[k].num, ss[k].pool, f)) + Uses(ss[k].slots, f)
  {
    RunInv(ss, es, k);
  }

  /** Destroy has run once for a fid that nothing refers to, and not for any other. */
  lemma DestroyedOnce(ss: seq<Srv>, es: seq<Event>, k: nat, f: Fid)
    requires IsRun(ss, es) && k < |ss| && f < |ss[k].ref|
    ensures multiset(ss[k].destroyed)[f] == if ss[k].ref[f] == 0 then 1 else 0
  {
    RunInv(ss, es, k);
    OnceEach(ss[k].destroyed, f);
  }

  /** Neither the table nor a live request names a fid that has been destroyed. */
  lemma NoFreedFidIsNamed(ss: seq<Srv>, es: seq<Event>, k: nat, f: Fid)
    requires IsRun(ss, es) && k < |ss| && f in ss[k].destroyed
    ensures forall n :: n in ss[k].pool ==> ss[k].pool[n] != f
    ensures forall q :: 0 <= q < |ss[k].slots| ==> Uses1(ss[k].slots[q], f) == 0
  {
    RunInv(ss, es, k);
    var i :| 0 <= i < |ss[k].destroyed| && ss[k].destroyed[i] == f;
    forall q | 0 <= q < |ss[k].slots|
      ensures Uses1(ss[k].slots[q], f) == 0
    {
      UsesPositive(ss[k].slots, q, f);
    }
  }

  // ---------------------------------------------------------------- fids that are still being made

  /** The fid that a request has made has the number asked for, and is its own. */
  ghost predicate MadeInv(msg: seq<Msg>, slots: seq<Slots>, num: seq<Num>, maker: seq<Req>) {
    && |slots| == |msg| && |maker| == |num|
    && forall q {:trigger slots[q]} :: 0 <= q < |msg| && Made(msg[q], slots[q]).Some? ==>
         var f := Made(msg[q], slots[q]).value;
         f < |num| && Adds(msg[q]) == Some(num[f]) && maker[f] == q
  }

  /** While it is not answered the table has it. */
  ghost predicate OwnInv(msg: seq<Msg>, phase: seq<Phase>, slots: seq<Slots>, pool: map<Num, Fid>) {
    && |slots| == |msg| && |phase| == |msg|
    && forall q {:trigger slots[q]} :: 0 <= q < |msg| && phase[q] == Waiting && Made(msg[q], slots[q]).Some? ==>
         Adds(msg[q]).Some? && Adds(msg[q]).value in pool && Some(pool[Adds(msg[q]).value]) == Made(msg[q], slots[q])
  }

  /** Some unanswered request has made a fid with number n. */
  ghost predicate BeingMade(s: Srv, n: Num)
    requires s.Shape()
  {
    exists q :: 0 <= q < |s.msg| && s.phase[q] == Waiting && Made(s.msg[q], s.slots[q]).Some? && Adds(s.msg[q]) == Some(n)
  }

  predicate Takes(m: Msg, n: Num) {
    m == Tclunk(n) || m == Tremove(n)
  }

  /** The client does not clunk or remove a fid whose making is not answered yet. */
  ghost predicate Polite(s: Srv, e: Event)
    requires s.Shape()
  {
    forall n :: e.Starts? && Takes(e.m, n) ==> !BeingMade(s, n)
  }

  /** What the handler of a message does to table and requests. */
  ghost predicate Started(s: Srv, m: Msg, s': Srv) {
    && s'.msg == s.msg + [m] && s'.phase == s.phase + [Waiting]
    && |s'.slots| == |s.slots| + 1 && s'.slots == s.slots + [s'.slots[|s.slots|]]
    && s'.fault == s.fault && |s'.doomed| == |s.doomed| + 1
    && s.num <= s'.num && s.maker <= s'.maker && |s'.num| == |s'.maker|
    && (var f := Made(m, s'.slots[|s.slots|]);
        if f.Some? then
          && f == Some(|s.ref|) && Adds(m).Some? && Adds(m).value !in s.pool
          && s'.num == s.num + [Adds(m).value] && s'.maker == s.maker + [|s.msg|] && s'.pool == s.pool[Adds(m).value := |s.ref|]
        else
          && (Adds(m).Some? ==> s'.doomed[|s.doomed|])
          && s'.pool == if m.Tclunk? || m.Tremove? then s.pool - {m.fid} else s.pool)
  }

  lemma StartWalkIs(s: Srv, m: Msg)
    requires s.Shape() && PoolOk(s) && m.Twalk?
    ensures Started(s, m, Start(s, m))
  {
  }

  lemma StartAttachIs(s: Srv, m: Msg)
    requires s.Shape() && PoolOk(s) && m.Tattach?
    ensures Started(s, m, Start(s, m))
  {
  }

  lemma StartIs(s: Srv, m: Msg)
    requires s.Shape() && PoolOk(s)
    ensures Started(s, m, Start(s, m))
  {
    match m
    case Twalk(_, _, _, _) =>
      StartWalkIs(s, m);
    case Tattach(_, _) =>
      StartAttachIs(s, m);
    case _ =>
  }

  lemma KeepMadeStart(s: Srv, m: Msg)
    requires Inv(s) && MadeInv(s.msg, s.slots, s.num, s.maker)
    ensures var s' := Start(s, m); MadeInv(s'.msg, s'.slots, s'.num, s'.maker)
  {
    StartIs(s, m);
    var s' := Start(s, m);
  }

  lemma KeepOwnStart(s: Srv, m: Msg)
    requires Inv(s) && OwnInv(s.msg, s.phase, s.slots, s.pool) && Polite(s, Starts(m))
    ensures var s' := Start(s, m); OwnInv(s'.msg, s'.phase, s'.slots, s'.pool)
  {
    StartIs(s, m);
    var s' := Start(s, m);
    if m.Tclunk? || m.Tremove? {
      assert Takes(m, m.fid) && !BeingMade(s, m.fid);
    }
  }

  /** Answering a request touches only its own number. */
  lemma KeepOwnFinish(s: Srv, q: Req, error: bool, nwqid: nat)
    requires Inv(s) && Enabled(s, Finishes(q, error, nwqid))
    requires OwnInv(s.msg, s.phase, s.slots, s.pool) && MadeInv(s.msg, s.slots, s.num, s.maker)
    ensures
      var s' := Finish(s, q, error, nwqid);
      OwnInv(s'.msg, s'.phase, s'.slots, s'.pool) && MadeInv(s'.msg, s'.slots, s'.num, s'.maker) && !s'.fault
  {
    assert s.slots[q] == s.slots[q];
  }

  lemma FreeIs(s: Srv, q: Req)
    requires Inv(s) && q < |s.msg|
    ensures
      var s' := Free(s, q);
      && s'.msg == s.msg && s'.phase == s.phase[q := Freed] && s'.slots == s.slots[q := NONE] && s'.num == s.num
      && s'.maker == s.maker && s'.pool == s.pool && s'.fault == s.fault && s'.doomed == s.doomed
  {
  }

  ghost predicate PoliteInv(s: Srv) {
    && Inv(s) && MadeInv(s.msg, s.slots, s.num, s.maker) && OwnInv(s.msg, s.phase, s.slots, s.pool) && !s.fault
  }

  lemma KeepPolite(s: Srv, e: Event)
    requires PoliteInv(s) && Enabled(s, e) && Polite(s, e)
    ensures PoliteInv(Apply(s, e))
  {
    KeepInv(s, e);
    match e
    case Starts(m) =>
      StartIs(s, m);
      KeepMadeStart(s, m);
      KeepOwnStart(s, m);
    case Finishes(q, error, nwqid) =>
      KeepOwnFinish(s, q, error, nwqid);
    case Frees(q) =>
      FreeIs(s, q);
  }

  ghost predicate PoliteRun(ss: seq<Srv>, es: seq<Event>) {
    IsRun(ss, es) && forall i :: 0 <= i < |es| ==> Polite(ss[i], es[i])
  }

  lemma {:induction false} PoliteRunInv(ss: seq<Srv>, es: seq<Event>, k: nat)
    requires PoliteRun(ss, es) && k < |ss|
    ensures PoliteInv(ss[k])
  {
    if k > 0 {
      PoliteRunInv(ss, es, k - 1);
      KeepPolite(ss[k - 1], es[k - 1]);
    }
  }

  /** With a polite client the server never takes back a fid that is not there: no interleaving faults. */
  lemma PoliteNeverFaults(ss: seq<Srv>, es: seq<Event>, k: nat)
    requires PoliteRun(ss, es) && k < |ss|
    ensures !ss[k].fault
  {
    PoliteRunInv(ss, es, k);
  }

  /** And what a failing request takes out of the table is the fid it made itself, and nothing else. */
  lemma FailureTakesBackItsOwn(ss: seq<Srv>, es: seq<Event>, k: nat)
    requires PoliteRun(ss, es) && k < |es| && es[k].Finishes? && ss[k].Shape() && es[k].q < |ss[k].msg|
    requires Fails(ss[k].msg[es[k].q], es[k].error, es[k].nwqid) && Made(ss[k].msg[es[k].q], ss[k].slots[es[k].q]).Some?
    ensures
      var q, n := es[k].q, Adds(ss[k].msg[es[k].q]);
      && n.Some? && n.value in ss[k].pool && Some(ss[k].pool[n.value]) == Made(ss[k].msg[q], ss[k].slots[q])
      && ss[k + 1].pool == ss[k].pool - {n.value}
  {
    PoliteRunInv(ss, es, k);
    assert ss[k].slots[es[k].q] == ss[k].slots[es[k].q];
  }

  /** Some request could now be answered with an error and fault. */
  ghost predicate AtRisk(s: Srv)
    requires s.Shape() && PoolOk(s)
  {
    exists q :: 0 <= q < |s.msg| && s.phase[q] == Waiting && Finish(s, q, true, 0).fault
  }

  lemma RiskFromMaking(s: Srv, n: Num, s': Srv)
    requires Inv(s) && Inv(s') && BeingMade(s, n) && n !in s'.pool && s.msg <= s'.msg && s.phase <= s'.phase && s.slots <= s'.slots
    ensures AtRisk(s')
  {
    var q :| 0 <= q < |s.msg| && s.phase[q] == Waiting && Made(s.msg[q], s.slots[q]).Some? && Adds(s.msg[q]) == Some(n);
    assert s'.msg[q] == s.msg[q] && s'.slots[q] == s.slots[q] && s'.phase[q] == Waiting;
    assert Finish(s', q, true, 0).fault;
  }

  lemma MakingFromRisk(s: Srv, m: Msg, n: Num, s': Srv)
    requires PoliteInv(s) && Inv(s') && Started(s, m, s') && Takes(m, n) && AtRisk(s')
    ensures BeingMade(s, n)
  {
    var q :| 0 <= q < |s'.msg| && s'.phase[q] == Waiting && Finish(s', q, true, 0).fault;
    assert Made(s'.msg[q], s'.slots[q]).Some?;
    assert q < |s.msg| && s.slots[q] == s'.slots[q];
  }

  /**
   * The rule is exact: after a clunk or remove of n by a client that has been polite so far, some
   * pending request can fault by failing if and only if n was still being made.
   */
  lemma ClunkIsSafeIff(ss: seq<Srv>, es: seq<Event>, k: nat, m: Msg, n: Num)
    requires PoliteRun(ss, es) && k < |ss| && Takes(m, n)
    ensures Inv(ss[k]) && Inv(Start(ss[k], m))
    ensures AtRisk(Start(ss[k], m)) <==> BeingMade(ss[k], n)
  {
    PoliteRunInv(ss, es, k);
    KeepStart(ss[k], m);
    StartIs(ss[k], m);
    var s' := Start(ss[k], m);
    if BeingMade(ss[k], n) {
      RiskFromMaking(ss[k], n, s');
    }
    if AtRisk(s') {
      MakingFromRisk(ss[k], m, n, s');
    }
  }

  /** The server after an attach to fid 5, and after a clunk of 5 while the attach is with its handler. */
  const ATTACHED := Srv([5], [2], [0], [], map[5 := 0], [Tattach(5, NOFID)], [Waiting], [NONE.(fid := Some(0))], [false], false)
  const CLUNKED := Srv([5], [2], [0], [], map[], [Tattach(5, NOFID), Tclunk(5)], [Waiting, Waiting],
                       [NONE.(fid := Some(0)), NONE.(fid := Some(0))], [false, false], false)

  lemma ImpoliteStart()
    ensures Start(START, Tattach(5, NOFID)) == ATTACHED && PoolOk(ATTACHED)
    ensures Start(ATTACHED, Tclunk(5)) == CLUNKED
  {
    assert ATTACHED.pool - {5} == map[];
  }

  lemma RunGrows(ss: seq<Srv>, es: seq<Event>, e: Event, s: Srv)
    requires IsRun(ss, es) && ss[|es|].Shape() && Enabled(ss[|es|], e) && (Inv(ss[|es|]) ==> s == Apply(ss[|es|], e))
    ensures IsRun(ss + [s], es + [e])
  {
    var ss', es' := ss + [s], es + [e];
    forall i | 0 <= i < |es'|
      ensures ss'[i].Shape() && Enabled(ss'[i], es'[i]) && (Inv(ss'[i]) ==> ss'[i + 1] == Apply(ss'[i], es'[i]))
    {
      if i < |es| {
        assert ss'[i] == ss[i] && es'[i] == es[i] && ss'[i + 1] == ss[i + 1];
      }
    }
  }

  lemma ImpoliteEnd()
    ensures CLUNKED.Shape() && Enabled(CLUNKED, Finishes(0, true, 0)) && Finish(CLUNKED, 0, true, 0).fault
  {
    assert CLUNKED.slots[0] == NONE.(fid := Some(0));
  }

  lemma ImpoliteRun()
    ensures IsRun([START, ATTACHED, CLUNKED], [Starts(Tattach(5, NOFID)), Starts(Tclunk(5))])
  {
    ImpoliteStart();
    assert IsRun([START], []);
    RunGrows([START], [], Starts(Tattach(5, NOFID)), ATTACHED);
    RunGrows([START, ATTACHED], [Starts(Tattach(5, NOFID))], Starts(Tclunk(5)), CLUNKED);
  }

  /** When the attach then fails, the fid it takes back is not there. */
  lemma ImpoliteClunkFaults()
    ensures exists ss: seq<Srv>, es: seq<Event> :: IsRun(ss, es) && ss[|es|].fault
  {
    var ss, es := [START, ATTACHED, CLUNKED], [Starts(Tattach(5, NOFID)), Starts(Tclunk(5))];
    ImpoliteRun();
    ImpoliteEnd();
    var s := Finish(CLUNKED, 0, true, 0);
    RunGrows(ss, es, Finishes(0, true, 0), s);
    assert (ss + [s])[|es + [Finishes(0, true, 0)]|] == s && s.fault;
  }

  // ---------------------------------------------------------------- one request at a time

  /** A message and how its handler answers it. */
  datatype Turn = Turn(m: Msg, error: bool, nwqid: nat)

  ghost predicate TurnOk(s: Srv, t: Turn)
    requires Inv(s)
  {
    KeepStart(s, t.m);
    StartIs(s, t.m);
    Enabled(Start(s, t.m), Finishes(|s.msg|, t.error, t.nwqid))
  }

  /** The serve loop takes a message, its handler answers it, and it is freed. */
  ghost function Handle(s: Srv, t: Turn): Srv
    requires Inv(s) && TurnOk(s, t)
  {
    KeepStart(s, t.m);
    StartIs(s, t.m);
    KeepFinish(Start(s, t.m), |s.msg|, t.error, t.nwqid);
    Free(Finish(Start(s, t.m), |s.msg|, t.error, t.nwqid), |s.msg|)
  }

  /** The fids as a client must believe them to be, from messages and replies alone: who made each number. */
  function View(v: map<Num, Req>, q: Req, m: Msg, r: Reply): map<Num, Req> {
    match m
    case Tauth(a) => if r.Rok? then v[a := q] else v
    case Tattach(n, _) => if r.Rok? then v[n := q] else v
    case Twalk(n, n', nwname, _) => if n != n' && r == Rok(nwname) then v[n' := q] else v
    case Tclunk(n) => v - {n}
    case Tremove(n) => v - {n}
    case _ => v
  }

  ghost predicate Agrees(s: Srv, v: map<Num, Req>) {
    && (forall n :: n in s.pool <==> n in v)
    && (forall n :: n in s.pool ==> s.pool[n] < |s.maker| && s.maker[s.pool[n]] == v[n])
  }

  /** Not an error that comes with all names walked: rwalk reports that as a success and yet drops the fid. */
  predicate Straight(t: Turn) {
    t.m.Twalk? && t.m.fid != t.m.newfid && t.error ==> t.m.nwname == 0 || t.nwqid < t.m.nwname
  }

  /** What a turn does to the table. */
  ghost predicate Handled(s: Srv, t: Turn, s': Srv) {
    && s'.msg == s.msg + [t.m] && s.maker <= s'.maker && s'.slots == s.slots + [NONE] && s'.fault == s.fault
    && (if Adds(t.m).None? then s'.pool == if t.m.Tclunk? || t.m.Tremove? then s.pool - {t.m.fid} else s.pool
        else if Fails(t.m, t.error, t.nwqid) then s'.pool == s.pool && (t.nwqid > 0 ==> Adds(t.m).value !in s.pool)
        else
          && Adds(t.m).value !in s.pool && s'.pool == s.pool[Adds(t.m).value := |s.ref|]
          && s'.maker == s.maker + [|s.msg|])
  }

  /** Answering and freeing the newest request. */
  lemma AnswerIs(s: Srv, s1: Srv, t: Turn)
    requires Started(s, t.m, s1) && Inv(s) && Inv(s1) && Enabled(s1, Finishes(|s.msg|, t.error, t.nwqid))
    ensures
      var s2 := Finish(s1, |s.msg|, t.error, t.nwqid);
      |s2.slots| == |s.msg| + 1 && Handled(s, t, s2.(slots := s2.slots[|s.msg| := NONE]))
  {
    if Adds(t.m).Some? && Adds(t.m).value !in s.pool {
      assert s.pool[Adds(t.m).value := |s.ref|] - {Adds(t.m).value} == s.pool;
    }
  }

  lemma HandleIs(s: Srv, t: Turn)
    requires Inv(s) && TurnOk(s, t)
    ensures Handled(s, t, Handle(s, t))
  {
    KeepStart(s, t.m);
    StartIs(s, t.m);
    var s1 := Start(s, t.m);
    KeepFinish(s1, |s.msg|, t.error, t.nwqid);
    AnswerIs(s, s1, t);
    FreeIs(Finish(s1, |s.msg|, t.error, t.nwqid), |s.msg|);
  }

  lemma AgreesIff(s: Srv, v: map<Num, Req>, t: Turn, s': Srv)
    requires Handled(s, t, s') && Agrees(s, v) && |s.maker| == |s.ref|
    requires t.m.Twalk? ==> t.nwqid <= t.m.nwname
    ensures Agrees(s', View(v, |s.msg|, t.m, ReplyOf(t.m, t.error, t.nwqid))) <==> Straight(t)
  {
    var v' := View(v, |s.msg|, t.m, ReplyOf(t.m, t.error, t.nwqid));
    if !Straight(t) {
      assert t.m.newfid in v' && t.m.newfid !in s'.pool;
    }
  }

  /** Table and client's view stay the same over a turn if and only if the turn is straight. */
  lemma TurnAgreesIff(s: Srv, v: map<Num, Req>, t: Turn)
    requires Inv(s) && TurnOk(s, t) && Agrees(s, v)
    ensures Agrees(Handle(s, t), View(v, |s.msg|, t.m, ReplyOf(t.m, t.error, t.nwqid))) <==> Straight(t)
  {
    HandleIs(s, t);
    AgreesIff(s, v, t, Handle(s, t));
  }

  ghost predicate IsSession(ss: seq<Srv>, ts: seq<Turn>) {
    && |ss| == |ts| + 1
    && ss[0] == START
    && forall i :: 0 <= i < |ts| ==> Inv(ss[i]) && TurnOk(ss[i], ts[i]) && ss[i + 1] == Handle(ss[i], ts[i])
  }

  /** The client's view after the first k turns. */
  function ViewAfter(ts: seq<Turn>, k: nat): map<Num, Req>
    requires k <= |ts|
  {
    if k == 0 then map[] else View(ViewAfter(ts, k - 1), k - 1, ts[k - 1].m, ReplyOf(ts[k - 1].m, ts[k - 1].error, ts[k - 1].nwqid))
  }

  lemma {:induction false} SessionInv(ss: seq<Srv>, ts: seq<Turn>, k: nat)
    requires IsSession(ss, ts) && k < |ss|
    ensures Inv(ss[k]) && |ss[k].msg| == k && forall q :: 0 <= q < k ==> ss[k].slots[q] == NONE
  {
    if k > 0 {
      SessionInv(ss, ts, k - 1);
      HandleIs(ss[k - 1], ts[k - 1]);
      HandleKeeps(ss[k - 1], ts[k - 1]);
    }
  }

  lemma HandleKeeps(s: Srv, t: Turn)
    requires Inv(s) && TurnOk(s, t)
    ensures Inv(Handle(s, t))
  {
    KeepStart(s, t.m);
    StartIs(s, t.m);
    KeepFinish(Start(s, t.m), |s.msg|, t.error, t.nwqid);
    KeepFree(Finish(Start(s, t.m), |s.msg|, t.error, t.nwqid), |s.msg|);
  }

  /**
   * After any sequence of straight turns the fid table is the client's view of it: attach and auth
   * add on success only, a walk adds only if every name was walked, a number in use changes
   * nothing, and clunk and remove drop the fid whatever they answer.
   */
  lemma {:induction false} TableIsClientView(ss: seq<Srv>, ts: seq<Turn>, k: nat)
    requires IsSession(ss, ts) && k < |ss|
    requires forall i :: 0 <= i < k ==> Straight(ts[i])
    ensures Agrees(ss[k], ViewAfter(ts, k))
  {
    if k > 0 {
      TableIsClientView(ss, ts, k - 1);
      SessionInv(ss, ts, k - 1);
      TurnAgreesIff(ss[k - 1], ViewAfter(ts, k - 1), ts[k - 1]);
    }
  }

  lemma {:induction false} UsesNone(slots: seq<Slots>, f: Fid)
    requires forall q :: 0 <= q < |slots| ==> slots[q] == NONE
    ensures Uses(slots, f) == 0
  {
    if slots != [] {
      UsesNone(slots[..|slots| - 1], f);
    }
  }

  /** Between turns only the table holds fids: each fid is in it, with count one, or has been destroyed. */
  lemma NothingLeaks(ss: seq<Srv>, ts: seq<Turn>, k: nat, f: Fid)
    requires IsSession(ss, ts) && k < |ss| && f < |ss[k].ref|
    ensures f < |ss[k].num| && ss[k].ref[f] == B(InPool(ss[k].num, ss[k].pool, f))
    ensures f in ss[k].destroyed <==> !InPool(ss[k].num, ss[k].pool, f)
  {
    SessionInv(ss, ts, k);
    UsesNone(ss[k].slots, f);
  }

  const CROOKED := [Turn(Tattach(1, NOFID), false, 0), Turn(Twalk(1, 2, 1, false), true, 1)]

  lemma CrookedStart()
    ensures TurnOk(START, CROOKED[0])
    ensures
      var s := Handle(START, CROOKED[0]);
      Inv(s) && s.pool == map[1 := 0] && !s.fault && |s.msg| == 1 && Agrees(s, map[1 := 0])
  {
    HandleIs(START, CROOKED[0]);
    HandleKeeps(START, CROOKED[0]);
  }

  lemma CrookedWalk(s: Srv)
    requires Inv(s) && s.pool == map[1 := 0] && !s.fault && |s.msg| == 1 && Agrees(s, map[1 := 0])
    ensures TurnOk(s, CROOKED[1])
    ensures !Agrees(Handle(s, CROOKED[1]), View(map[1 := 0], 1, CROOKED[1].m, Rok(1)))
  {
    assert 2 !in s.pool;
    TurnAgreesIff(s, map[1 := 0], CROOKED[1]);
  }

  /** A walk whose handler reports an error with all its names walked: the client believes in a fid that is gone. */
  lemma CrookedWalkMisleads()
    ensures TurnOk(START, CROOKED[0]) && Inv(Handle(START, CROOKED[0])) && TurnOk(Handle(START, CROOKED[0]), CROOKED[1])
    ensures !Agrees(Handle(Handle(START, CROOKED[0]), CROOKED[1]), ViewAfter(CROOKED, 2))
  {
    CrookedStart();
    CrookedWalk(Handle(START, CROOKED[0]));
    assert ViewAfter(CROOKED, 0) == map[];
    assert ViewAfter(CROOKED, 1) == map[1 := 0];
  }
}
