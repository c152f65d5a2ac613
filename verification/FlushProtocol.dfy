/**
 * The request engine of src/lib9p/srv.c and src/lib9p/req.c as a transition system.
 *
 * Requests are numbered in the order the serve loop reads them. Every critical section of
 * `getreq`, `sflush`, `rflush` and `respond` is one step, and steps of different requests
 * interleave freely, because a handler may answer from any thread. The write lock is held
 * across two steps (tag removal, then write), so that a `Tflush` lookup can fall between.
 */
module FlushProtocol {
  import opened Options

  type Tag = nat
  type Id = nat

  /** The only message types the engine treats differently are Tflush and all the others. */
  datatype Kind = Flush(oldtag: Tag) | Plain

  /** The message of a request; `fake` marks one built for a duplicate tag, outside the pool. */
  datatype Msg = Msg(tag: Tag, kind: Kind, fake: bool)

  /** Where a request is. From `Called` on, a `respond` activation is running on it. */
  datatype Phase =
    | Taken               // read by the serve loop, not yet given to a handler
    | Handling            // with its handler, which has not called respond
    | Parked              // rflush put it on its old request's list and respond returned
    | Called              // respond entered
    | Releasing           // rflush saw the old request responded; it still has to be closed
    | Ready               // waiting for wlock
    | Writing             // wlock held, tag removed, reply not yet written
    | Written             // reply written, wlock released
    | Draining(next: nat) // responded set; flush[next] is being answered
    | Done

  /**
   * The fields of the Req structures, each a sequence indexed by request number, then the
   * fields of the Srv. `found` is what the lookup of sflush returned; unlike `oldreq` it is
   * never cleared. `log` is the order in which replies are written.
   */
  datatype Srv = Srv(
    msg: seq<Msg>, phase: seq<Phase>, ref: seq<int>, freed: seq<bool>, responded: seq<bool>,
    flush: seq<seq<Id>>, oldreq: seq<Option<Id>>, found: seq<Option<Id>>,
    pool: map<Tag, Id>, wlock: Option<Id>, loop: Option<Id>, log: seq<Id>)
  {
    predicate Shape() {
      && |phase| == |msg| && |ref| == |msg| && |freed| == |msg| && |responded| == |msg|
      && |flush| == |msg| && |oldreq| == |msg| && |found| == |msg|
    }
  }

  datatype Event =
    | Arrive(tag: Tag, kind: Kind)
    | Dispatch
    | Enter(r: Id)
    | Check(r: Id)
    | Release(r: Id)
    | Remove(r: Id)
    | Write(r: Id)
    | Mark(r: Id)
    | DrainCall(r: Id)
    | DrainNext(r: Id)
    | Finish(r: Id)

  const INIT := Srv([], [], [], [], [], [], [], [], map[], None, None, [])

  predicate At(s: Srv, r: Id, p: Phase) {
    r < |s.phase| && s.phase[r] == p
  }

  /** The flush that a draining request answers next. */
  function Child(s: Srv, r: Id): Id
    requires r < |s.phase| && r < |s.flush| && s.phase[r].Draining? && s.phase[r].next < |s.flush[r]|
  {
    s.flush[r][s.phase[r].next]
  }

  /** The request r is in its drain loop and has a flush left to answer, which is now in phase p. */
  predicate DrainChild(s: Srv, r: Id, p: Phase) {
    && r < |s.phase| && r < |s.flush|
    && s.phase[r].Draining?
    && s.phase[r].next < |s.flush[r]|
    && At(s, Child(s, r), p)
  }

  /** The old request that sflush's lookup returns; nothing for other messages. */
  function Lookup(s: Srv, r: Id): Option<Id>
    requires r < |s.msg|
  {
    match s.msg[r].kind
    case Plain => None
    case Flush(oldtag) => if oldtag in s.pool then Some(s.pool[oldtag]) else None
  }

  /** A link is nil or points to a request. */
  predicate InRange(s: Srv, link: Option<Id>) {
    link.Some? ==> link.value < |s.msg|
  }

  /**
   * When a step can happen. A duplicate tag on a Tflush is excluded: respond would then
   * assert on the error that getreq stored.
   */
  predicate Enabled(s: Srv, e: Event) {
    && s.Shape()
    && match e
       case Arrive(tag, kind) => s.loop.None? && (tag in s.pool ==> kind.Plain?)
       case Dispatch => s.loop.Some? && s.loop.value < |s.msg| && InRange(s, Lookup(s, s.loop.value))
       case Enter(r) => At(s, r, Handling)
       case Check(r) => At(s, r, Called) && InRange(s, s.oldreq[r])
       case Release(r) => At(s, r, Releasing) && s.oldreq[r].Some? && InRange(s, s.oldreq[r])
       case Remove(r) => At(s, r, Ready) && s.wlock.None?
       case Write(r) => At(s, r, Writing) && s.wlock == Some(r)
       case Mark(r) => At(s, r, Written)
       case DrainCall(r) => DrainChild(s, r, Parked)
       case DrainNext(r) => DrainChild(s, r, Done)
       case Finish(r) => r < |s.msg| && s.phase[r] == Draining(|s.flush[r]|)
  }

  function SetPhase(s: Srv, r: Id, p: Phase): Srv
    requires r < |s.phase|
  {
    s.(phase := s.phase[r := p])
  }

  /** The count part of closereq; CloseOk says that it never has anything else to do. */
  function Close(s: Srv, r: Id): Srv
    requires r < |s.ref| && r < |s.freed|
  {
    s.(ref := s.ref[r := s.ref[r] - 1], freed := s.freed[r := s.ref[r] == 1])
  }

  /** getreq and allocreq: two references for a pooled request, one for a fake. */
  function ApplyArrive(s: Srv, tag: Tag, kind: Kind): Srv {
    var fake := tag in s.pool;
    Srv(s.msg + [Msg(tag, kind, fake)], s.phase + [if fake then Handling else Taken],
        s.ref + [if fake then 1 else 2], s.freed + [false], s.responded + [false],
        s.flush + [[]], s.oldreq + [None], s.found + [None],
        if fake then s.pool else s.pool[tag := |s.msg|], s.wlock,
        if fake then s.loop else Some(|s.msg|), s.log)
  }

  /** The switch of the serve loop; sflush looks the old tag up and takes a reference. */
  function ApplyDispatch(s: Srv): Srv
    requires Enabled(s, Dispatch)
  {
    var r := s.loop.value;
    var t := Lookup(s, r);
    var s1 := SetPhase(s, r, Handling).(loop := None, oldreq := s.oldreq[r := t], found := s.found[r := t]);
    if t.Some? then s1.(ref := s.ref[t.value := s.ref[t.value] + 1]) else s1
  }

  /** rflush under the old request's lock: park, or go on once the old request has responded. */
  function ApplyCheck(s: Srv, r: Id): Srv
    requires Enabled(s, Check(r))
  {
    match s.oldreq[r]
    case None => SetPhase(s, r, Ready)
    case Some(o) =>
      if s.responded[o] then SetPhase(s, r, Releasing)
      else SetPhase(s, r, Parked).(flush := s.flush[o := s.flush[o] + [r]])
  }

  /** respond under wlock: closereq(removereq(...)) for a pooled request, nothing for a fake. */
  function ApplyRemove(s: Srv, r: Id): Srv
    requires Enabled(s, Remove(r))
  {
    var s1 := SetPhase(s, r, Writing).(wlock := Some(r));
    if s.msg[r].fake then s1 else Close(s1.(pool := s.pool - {s.msg[r].tag}), r)
  }

  function Apply(s: Srv, e: Event): Srv
    requires Enabled(s, e)
  {
    match e
    case Arrive(tag, kind) => ApplyArrive(s, tag, kind)
    case Dispatch => ApplyDispatch(s)
    case Enter(r) => SetPhase(s, r, Called)
    case Check(r) => ApplyCheck(s, r)
    case Release(r) => Close(SetPhase(s, r, Ready).(oldreq := s.oldreq[r := None]), s.oldreq[r].value)
    case Remove(r) => ApplyRemove(s, r)
    case Write(r) => SetPhase(s, r, Written).(wlock := None, log := s.log + [r])
    case Mark(r) => SetPhase(s, r, Draining(0)).(responded := s.responded[r := true])
    case DrainCall(r) => SetPhase(s, Child(s, r), Called)
    case DrainNext(r) => SetPhase(s, r, Draining(s.phase[r].next + 1))
    case Finish(r) => Close(SetPhase(s, r, Done).(flush := s.flush[r := []]), r)
  }

  /** closereq finds a live request, and if it frees it there is nothing more to close or answer. */
  predicate CloseOk(s: Srv, r: Id)
    requires s.Shape() && r < |s.msg|
  {
    s.ref[r] >= 1 && !s.freed[r] && (s.ref[r] == 1 ==> s.oldreq[r].None? && s.flush[r] == [])
  }

  /** What the C code takes for granted at a step: its asserts, and no use of freed memory. */
  predicate NoFault(s: Srv, e: Event)
    requires Enabled(s, e)
  {
    match e
    case Arrive(_, _) => true
    case Dispatch =>
      !s.freed[s.loop.value] && (Lookup(s, s.loop.value).Some? ==> !s.freed[Lookup(s, s.loop.value).value])
    case Enter(r) => !s.freed[r] && !s.responded[r]
    case Check(r) => !s.freed[r] && (s.oldreq[r].Some? ==> !s.freed[s.oldreq[r].value])
    case Release(r) => !s.freed[r] && CloseOk(s, s.oldreq[r].value)
    case Remove(r) =>
      && !s.freed[r]
      && (!s.msg[r].fake ==> s.msg[r].tag in s.pool && s.pool[s.msg[r].tag] == r && s.ref[r] > 1)
    case Write(r) => !s.freed[r]
    case Mark(r) => !s.freed[r]
    case DrainCall(r) => !s.freed[r] && !s.freed[Child(s, r)] && !s.responded[Child(s, r)]
    case DrainNext(r) => !s.freed[r]
    case Finish(r) => CloseOk(s.(flush := s.flush[r := []]), r)
  }

  ghost predicate IsRun(ss: seq<Srv>, es: seq<Event>) {
    && |ss| == |es| + 1
    && ss[0] == INIT
    && forall i :: 0 <= i < |es| ==> Enabled(ss[i], es[i]) && ss[i + 1] == Apply(ss[i], es[i])
  }
}
