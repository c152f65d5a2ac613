/** What every message is answered and which fids a request holds, in every run. */
module FidReplies {
  import opened Options
  import opened Fids
  import opened FidProofs
  import opened FidRuns

  // ---------------------------------------------------------------- replies

  /**
   * A walk that got somewhere is answered with how far it got, also if the handler calls it an error. A walk that got
   * nowhere is an error if it was to get somewhere or the handler says so; every other message only if the handler
   * says so.
   */
  lemma ReplyIs(ss: seq<Srv>, es: seq<Event>, k: nat)
    requires IsRun(ss, es) && k < |es| && es[k].Finishes?
    ensures
      var q, error, nwqid := es[k].q, es[k].error, es[k].nwqid;
      && q < |ss[k].msg| && |ss[k + 1].phase| == |ss[k].msg| && ss[k + 1].phase[q].Answered?
      && var m, reply := ss[k].msg[q], ss[k + 1].phase[q].reply;
         && (m.Twalk? && nwqid > 0 ==> reply == Rok(nwqid))
         && (m.Twalk? && nwqid == 0 ==> reply == if error || m.nwname > 0 then Rerror else Rok(0))
         && (!m.Twalk? ==> reply == if error then Rerror else Rok(0))
  {
    RunInv(ss, es, k);
  }

  /** The i-th event starts request q with message m. */
  ghost predicate Begins(ss: seq<Srv>, es: seq<Event>, i: nat, q: Req, m: Msg) {
    IsRun(ss, es) && i < |es| && es[i] == Starts(m) && q == |ss[i].msg|
  }

  /** The handler refuses the message: a number that is not there, one that is, or a walk that must not be. */
  predicate Refuses(s: Srv, m: Msg) {
    match m
    case Tauth(a) => a in s.pool
    case Tattach(n, a) => n in s.pool || (a != NOFID && a != n && a !in s.pool)
    case Twalk(n, n', _, refused) => n !in s.pool || refused || (n' != n && n' in s.pool)
    case Tuse(n) => n !in s.pool
    case Tclunk(n) => n !in s.pool
    case Tremove(n) => n !in s.pool
    case Tother => false
  }

  predicate Joins(s: Srv, m: Msg, s': Srv) {
    s'.msg == s.msg + [m] && s'.phase == s.phase + [Waiting] && s'.doomed == s.doomed + [Refuses(s, m)]
  }

  lemma WalkRefuses(s: Srv, m: Msg)
    requires s.Shape() && PoolOk(s) && m.Twalk?
    ensures Joins(s, m, Start(s, m))
  {
  }

  lemma StartRefuses(s: Srv, m: Msg)
    requires s.Shape() && PoolOk(s)
    ensures Joins(s, m, Start(s, m))
  {
    if m.Twalk? {
      WalkRefuses(s, m);
    }
  }

  lemma Later(s: Srv, e: Event)
    requires Inv(s) && Enabled(s, e) && !e.Starts?
    ensures Apply(s, e).msg == s.msg && Apply(s, e).doomed == s.doomed
  {
  }

  lemma {:induction false} StaysRefused(ss: seq<Srv>, es: seq<Event>, i: nat, k: nat, q: Req, m: Msg)
    requires Begins(ss, es, i, q, m) && i < k < |ss|
    ensures q < |ss[k].msg| && q < |ss[k].doomed| && ss[k].msg[q] == m && ss[k].doomed[q] == Refuses(ss[i], m)
    decreases k
  {
    RunInv(ss, es, k - 1);
    if es[k - 1].Starts? {
      StartRefuses(ss[k - 1], es[k - 1].m);
    } else {
      Later(ss[k - 1], es[k - 1]);
    }
    if i < k - 1 {
      StaysRefused(ss, es, i, k - 1, q, m);
    }
  }

  /**
   * A message that names a fid which is not there, or makes one that is, is answered Rerror, however its handler ends.
   * All others are answered as their handlers say.
   */
  lemma RefusedIsError(ss: seq<Srv>, es: seq<Event>, i: nat, k: nat, q: Req, m: Msg)
    requires Begins(ss, es, i, q, m) && i < k < |es| && es[k].Finishes? && es[k].q == q
    ensures q < |ss[k + 1].phase|
    ensures Refuses(ss[i], m) ==> ss[k + 1].phase[q] == Answered(Rerror)
    ensures !Refuses(ss[i], m) && !m.Twalk? ==> ss[k + 1].phase[q] == Answered(if es[k].error then Rerror else Rok(0))
  {
    StaysRefused(ss, es, i, k, q, m);
    ReplyIs(ss, es, k);
  }

  /** And the handler is free to: a request that is not refused can be answered either way. */
  lemma FreeToAnswer(ss: seq<Srv>, es: seq<Event>, i: nat, k: nat, q: Req, m: Msg, error: bool)
    requires Begins(ss, es, i, q, m) && i < k < |ss| && ss[k].Shape() && q < |ss[k].phase| && ss[k].phase[q] == Waiting && !ss[k].fault
    ensures Enabled(ss[k], Finishes(q, error, 0)) <==> error || !Refuses(ss[i], m)
  {
    StaysRefused(ss, es, i, k, q, m);
  }

  // ---------------------------------------------------------------- the fids of a request

  /** The fid that number n names. */
  function Named(s: Srv, n: Num): Option<Fid> {
    if n in s.pool then Some(s.pool[n]) else None
  }

  /** The fids that a request gets from its handler: what its numbers name, and a new one where it makes one. */
  ghost predicate Gets(s: Srv, m: Msg, sl: Slots, s': Srv) {
    match m
    case Tauth(a) => sl == Slots(None, None, if a in s.pool then None else Named(s', a)) && a in s'.pool
    case Tattach(n, a) =>
      && n in s'.pool && sl.newfid.None?
      && sl.fid == (if n in s.pool then None else Named(s', n))
      && sl.afid == if n in s.pool || a == NOFID then None else Named(s', a)
    case Twalk(n, n', _, refused) =>
      && sl.fid == Named(s, n) && sl.afid.None?
      && (n !in s.pool || refused ==> sl.newfid.None?)
      && (n in s.pool && !refused ==>
            sl.newfid == if n' == n then Named(s, n) else if n' in s.pool then None else Named(s', n'))
    case Tuse(n) => sl == Slots(Named(s, n), None, None) && s'.pool == s.pool
    case Tclunk(n) => sl == Slots(Named(s, n), None, None) && s'.pool == s.pool - {n}
    case Tremove(n) => sl == Slots(Named(s, n), None, None) && s'.pool == s.pool - {n}
    case Tother => sl == NONE && s'.pool == s.pool
  }

  ghost predicate NewSlots(s: Srv, m: Msg, s': Srv) {
    |s'.slots| == |s.slots| + 1 && s.slots <= s'.slots && Gets(s, m, s'.slots[|s.slots|], s')
  }

  lemma WalkGets(s: Srv, m: Msg)
    requires s.Shape() && PoolOk(s) && m.Twalk?
    ensures NewSlots(s, m, Start(s, m))
  {
  }

  lemma AttachGets(s: Srv, m: Msg)
    requires s.Shape() && PoolOk(s) && m.Tattach?
    ensures NewSlots(s, m, Start(s, m))
  {
  }

  lemma StartGets(s: Srv, m: Msg)
    requires s.Shape() && PoolOk(s)
    ensures NewSlots(s, m, Start(s, m))
  {
    if m.Twalk? {
      WalkGets(s, m);
    } else if m.Tattach? {
      AttachGets(s, m);
    }
  }

  lemma SlotsStay(s: Srv, e: Event, q: Req)
    requires Inv(s) && Enabled(s, e) && q < |s.msg| && e != Frees(q)
    ensures q < |Apply(s, e).slots| && Apply(s, e).slots[q] == s.slots[q]
  {
    if e.Starts? {
      StartGets(s, e.m);
    }
  }

  /** It holds just these from then on until it is freed, whatever happens to the table. */
  lemma {:induction false} HoldsItsFids(ss: seq<Srv>, es: seq<Event>, i: nat, k: nat, q: Req, m: Msg)
    requires Begins(ss, es, i, q, m) && i < k < |ss| && forall j :: i < j < k ==> es[j] != Frees(q)
    ensures q < |ss[k].slots| && Gets(ss[i], m, ss[k].slots[q], ss[i + 1])
    decreases k
  {
    RunInv(ss, es, k - 1);
    if i < k - 1 {
      HoldsItsFids(ss, es, i, k - 1, q, m);
      SlotsStay(ss[k - 1], es[k - 1], q);
    } else {
      StartGets(ss[i], m);
    }
  }
}
