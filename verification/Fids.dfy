/**
 * The fids of src/lib9p/srv.c, fid.c and the part of closereq in req.c that gives fids back.
 *
 * A request has three steps: its handler in the serve loop (`Start`), its `respond` (`Finish`),
 * and the closereq that frees it (`Free`), which may come later because a flush can hold the
 * request. Steps of different requests interleave freely. The fid table is a map here; that the
 * 128 buckets of intmap.c are such a map is proved in Intmap.
 */
module Fids {
  import opened Counting
  import opened Options

  type Num = nat
  type Fid = nat
  type Req = nat

  const NOFID: Num := 0xFFFFFFFF

  /**
   * The messages, as far as fids go. `refused` says that swalk finds the fid open, or finds names
   * to walk in something that is no directory. Tuse stands for Topen, Tcreate, Tread, Twrite,
   * Tstat and Twstat, which only look a fid up.
   */
  datatype Msg =
    | Tauth(afid: Num)
    | Tattach(fid: Num, afid: Num)
    | Twalk(fid: Num, newfid: Num, nwname: nat, refused: bool)
    | Tuse(fid: Num)
    | Tclunk(fid: Num)
    | Tremove(fid: Num)
    | Tother

  /** The fid, newfid and afid fields of a Req. */
  datatype Slots = Slots(fid: Option<Fid>, newfid: Option<Fid>, afid: Option<Fid>)

  const NONE := Slots(None, None, None)

  datatype Phase = Waiting | Answered(reply: Reply) | Freed

  /** What the client sees: Rerror, or the R-message with the number of names walked. */
  datatype Reply = Rerror | Rok(nwqid: nat)

  /**
   * The fids by number of creation: number in the protocol, count, and the request that made it;
   * then the calls of destroy, the table, and the requests by order of arrival. `doomed` marks a
   * request whose handler has called respond with an error. `fault` is the use of a nil fid.
   */
  datatype Srv = Srv(
    num: seq<Num>, ref: seq<int>, maker: seq<Req>, destroyed: seq<Fid>, pool: map<Num, Fid>,
    msg: seq<Msg>, phase: seq<Phase>, slots: seq<Slots>, doomed: seq<bool>, fault: bool)
  {
    predicate Shape() {
      && |num| == |ref| && |maker| == |ref|
      && |phase| == |msg| && |slots| == |msg| && |doomed| == |msg|
    }
  }

  const START := Srv([], [], [], [], map[], [], [], [], [], false)

  // ---------------------------------------------------------------- fid.c

  /** closefid. */
  function CloseFid(s: Srv, f: Fid): Srv
    requires f < |s.ref|
  {
    s.(ref := s.ref[f := s.ref[f] - 1], destroyed := if s.ref[f] == 1 then s.destroyed + [f] else s.destroyed)
  }

  /** allocfid for request q: one reference for the table and one for the caller, both undone if the number is taken. */
  function AllocFid(s: Srv, n: Num, q: Req): Srv {
    var f := |s.ref|;
    if n in s.pool then
      s.(num := s.num + [n], ref := s.ref + [0], maker := s.maker + [q], destroyed := s.destroyed + [f])
    else
      s.(num := s.num + [n], ref := s.ref + [2], maker := s.maker + [q], pool := s.pool[n := f])
  }

  function Allocated(s: Srv, n: Num): Option<Fid> {
    if n in s.pool then None else Some(|s.ref|)
  }

  function Found(s: Srv, n: Num): Option<Fid> {
    if n in s.pool then Some(s.pool[n]) else None
  }

  /** lookupfid: a reference for the caller. */
  function LookupFid(s: Srv, n: Num): Srv
    requires n in s.pool ==> s.pool[n] < |s.ref|
  {
    if n in s.pool then s.(ref := s.ref[s.pool[n] := s.ref[s.pool[n]] + 1]) else s
  }

  /** removefid: the reference of the table becomes the caller's. */
  function RemoveFid(s: Srv, n: Num): Srv {
    s.(pool := s.pool - {n})
  }

  /** closefid(removefid(...)), which needs the number to be there. */
  function DropNum(s: Srv, n: Num): Srv
    requires n in s.pool ==> s.pool[n] < |s.ref|
  {
    if n in s.pool then CloseFid(RemoveFid(s, n), s.pool[n]) else s.(fault := true)
  }

  // ---------------------------------------------------------------- the steps

  function Arrived(s: Srv, m: Msg, sl: Slots, doomed: bool): Srv {
    s.(msg := s.msg + [m], phase := s.phase + [Waiting], slots := s.slots + [sl], doomed := s.doomed + [doomed])
  }

  predicate PoolOk(s: Srv) {
    forall n :: n in s.pool ==> s.pool[n] < |s.ref|
  }

  /** sauth, sattach, swalk, sclunk, sremove and the handlers that look a fid up. */
  function Start(s: Srv, m: Msg): Srv
    requires PoolOk(s)
  {
    var q := |s.msg|;
    match m
    case Tauth(a) =>
      Arrived(AllocFid(s, a, q), m, NONE.(afid := Allocated(s, a)), a in s.pool)
    case Tattach(n, a) =>
      var f := Allocated(s, n);
      var s1 := AllocFid(s, n, q);
      if f.None? || a == NOFID then Arrived(s1, m, NONE.(fid := f), f.None?)
      else Arrived(LookupFid(s1, a), m, NONE.(fid := f, afid := Found(s1, a)), a !in s1.pool)
    case Twalk(n, n', nwname, refused) =>
      var f := Found(s, n);
      var s1 := LookupFid(s, n);
      if f.None? || refused then Arrived(s1, m, NONE.(fid := f), true)
      else if n' != n then Arrived(AllocFid(s1, n', q), m, NONE.(fid := f, newfid := Allocated(s, n')), n' in s.pool)
      else Arrived(LookupFid(s1, n), m, NONE.(fid := f, newfid := f), false)
    case Tuse(n) =>
      Arrived(LookupFid(s, n), m, NONE.(fid := Found(s, n)), n !in s.pool)
    case Tclunk(n) =>
      Arrived(RemoveFid(s, n), m, NONE.(fid := Found(s, n)), n !in s.pool)
    case Tremove(n) =>
      Arrived(RemoveFid(s, n), m, NONE.(fid := Found(s, n)), n !in s.pool)
    case Tother =>
      Arrived(s, m, NONE, false)
  }

  /** The number that the request is to add to the table. */
  function Adds(m: Msg): Option<Num> {
    match m
    case Tauth(a) => Some(a)
    case Tattach(n, _) => Some(n)
    case Twalk(n, n', _, _) => if n != n' then Some(n') else None
    case _ => None
  }

  /** The fid it has made for that. */
  function Made(m: Msg, sl: Slots): Option<Fid> {
    match m
    case Tauth(_) => sl.afid
    case Tattach(_, _) => sl.fid
    case Twalk(n, n', _, _) => if n != n' then sl.newfid else None
    case _ => None
  }

  /** rauth, rattach, rwalk: whether the request, answered like this, takes its fid back. */
  predicate Fails(m: Msg, error: bool, nwqid: nat) {
    error || (m.Twalk? && nwqid < m.nwname)
  }

  /** The reply that respond sends: a walk that got somewhere is no error. */
  function ReplyOf(m: Msg, error: bool, nwqid: nat): Reply {
    if m.Twalk? then if Fails(m, error, nwqid) && nwqid == 0 then Rerror else Rok(nwqid)
    else if error then Rerror else Rok(0)
  }

  /** A failing request takes back the fid it has made. */
  function Undone(s: Srv, m: Msg, sl: Slots, error: bool, nwqid: nat): Srv
    requires PoolOk(s)
  {
    if Fails(m, error, nwqid) && Made(m, sl).Some? then DropNum(s, Adds(m).value) else s
  }

  /** The part of respond that concerns fids. */
  function Finish(s: Srv, q: Req, error: bool, nwqid: nat): Srv
    requires s.Shape() && PoolOk(s) && q < |s.msg|
  {
    Undone(s, s.msg[q], s.slots[q], error, nwqid).(phase := s.phase[q := Answered(ReplyOf(s.msg[q], error, nwqid))])
  }

  function CloseSlot(s: Srv, f: Option<Fid>): Srv
    requires f.Some? ==> f.value < |s.ref|
  {
    if f.Some? then CloseFid(s, f.value) else s
  }

  /** closereq at the last reference. */
  function Free(s: Srv, q: Req): Srv
    requires s.Shape() && q < |s.msg|
    requires SlotsOk(s.slots[q], |s.ref|)
  {
    var sl := s.slots[q];
    CloseSlot(CloseSlot(CloseSlot(s.(phase := s.phase[q := Freed], slots := s.slots[q := NONE]), sl.fid), sl.newfid), sl.afid)
  }

  predicate SlotsOk(sl: Slots, n: nat) {
    && (sl.fid.Some? ==> sl.fid.value < n)
    && (sl.newfid.Some? ==> sl.newfid.value < n)
    && (sl.afid.Some? ==> sl.afid.value < n)
  }

  datatype Event = Starts(m: Msg) | Finishes(q: Req, error: bool, nwqid: nat) | Frees(q: Req)

  predicate Enabled(s: Srv, e: Event)
    requires s.Shape()
  {
    && !s.fault
    && match e
       case Starts(m) => true
       case Finishes(q, error, nwqid) =>
         && q < |s.msg| && s.phase[q] == Waiting
         && (s.doomed[q] ==> error && nwqid == 0)
         && (s.msg[q].Twalk? ==> nwqid <= s.msg[q].nwname)
       case Frees(q) => q < |s.msg| && s.phase[q].Answered?
  }

  // ---------------------------------------------------------------- the invariant

  function Uses1(sl: Slots, f: Fid): nat {
    B(sl.fid == Some(f)) + B(sl.newfid == Some(f)) + B(sl.afid == Some(f))
  }

  /** The number of slots that name f. */
  function Uses(slots: seq<Slots>, f: Fid): nat {
    if slots == [] then 0 else Uses(slots[..|slots| - 1], f) + Uses1(slots[|slots| - 1], f)
  }

  ghost predicate PoolInv(num: seq<Num>, pool: map<Num, Fid>) {
    forall n :: n in pool ==> pool[n] < |num| && num[pool[n]] == n
  }

  predicate InPool(num: seq<Num>, pool: map<Num, Fid>, f: Fid)
    requires f < |num|
  {
    num[f] in pool && pool[num[f]] == f
  }

  ghost predicate CountInv(ref: seq<int>, num: seq<Num>, pool: map<Num, Fid>, slots: seq<Slots>) {
    && |num| == |ref|
    && forall f {:trigger ref[f]} :: 0 <= f < |ref| ==> ref[f] == B(InPool(num, pool, f)) + Uses(slots, f)
  }

  ghost predicate SlotInv(slots: seq<Slots>, n: nat) {
    forall q :: 0 <= q < |slots| ==> SlotsOk(slots[q], n)
  }

  ghost predicate Inv(s: Srv) {
    && s.Shape() && PoolInv(s.num, s.pool) && CountInv(s.ref, s.num, s.pool, s.slots)
    && DestroyInv(s.ref, s.destroyed) && SlotInv(s.slots, |s.ref|)
  }

  ghost function Apply(s: Srv, e: Event): Srv
    requires Inv(s) && Enabled(s, e)
  {
    match e
    case Starts(m) => Start(s, m)
    case Finishes(q, error, nwqid) => Finish(s, q, error, nwqid)
    case Frees(q) => Free(s, q)
  }
}
