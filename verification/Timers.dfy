/** The timer list of one processor: portclock.c in doc/tmp/p9-process.c. */
module Timers {
  datatype Mode = Trelative | Tperiodic

  /** A Timer; `ns` is its delay or period, `when` the time it goes off, in ticks. */
  datatype Timer = Timer(id: nat, mode: Mode, ns: int, when: int)

  /** A call of a timer's function, and the time it was due. */
  datatype Shot = Shot(id: nat, at: int)

  /** ns2fastticks. */
  type Conv = int -> nat

  // ---------------------------------------------------------------- the list

  ghost predicate Sorted(list: seq<Timer>) {
    forall i, j :: 0 <= i < j < |list| ==> list[i].when <= list[j].when
  }

  ghost predicate Distinct(list: seq<Timer>) {
    forall i, j :: 0 <= i < j < |list| ==> list[i].id != list[j].id
  }

  predicate Has(list: seq<Timer>, id: nat) {
    exists i :: 0 <= i < |list| && list[i].id == id
  }

  /** The first timer that goes off later than when is at position p. */
  ghost predicate PlaceAt(list: seq<Timer>, when: int, p: nat) {
    p <= |list| && (p < |list| ==> list[p].when > when) && forall i :: 0 <= i < p ==> list[i].when <= when
  }

  lemma PlaceExists(list: seq<Timer>, when: int)
    ensures exists p: nat :: PlaceAt(list, when, p)
  {
    var p := 0;
    while p < |list| && list[p].when <= when
      invariant p <= |list| && forall i :: 0 <= i < p ==> list[i].when <= when
    {
      p := p + 1;
    }
    assert PlaceAt(list, when, p);
  }

  ghost function Place(list: seq<Timer>, when: int): (p: nat)
    ensures PlaceAt(list, when, p)
  {
    PlaceExists(list, when);
    var p: nat :| PlaceAt(list, when, p);
    p
  }

  function InsertAt(list: seq<Timer>, p: nat, t: Timer): seq<Timer>
    requires p <= |list|
  {
    list[..p] + [t] + list[p..]
  }

  ghost function Insert(list: seq<Timer>, t: Timer): seq<Timer> {
    InsertAt(list, Place(list, t.when), t)
  }

  /** The position of timer id, or the length of the list. */
  function IndexOf(list: seq<Timer>, id: nat): (i: nat)
    ensures i <= |list|
    ensures i < |list| ==> list[i].id == id
    ensures forall j :: 0 <= j < i ==> list[j].id != id
  {
    if list == [] || list[0].id == id then 0 else 1 + IndexOf(list[1..], id)
  }

  function DeleteAt(list: seq<Timer>, i: nat): seq<Timer>
    requires i <= |list|
  {
    if i < |list| then list[..i] + list[i + 1..] else list
  }

  function Delete(list: seq<Timer>, id: nat): seq<Timer> {
    DeleteAt(list, IndexOf(list, id))
  }

  lemma InsertSorted(list: seq<Timer>, p: nat, t: Timer)
    requires Sorted(list) && p <= |list|
    requires forall i :: 0 <= i < p ==> list[i].when <= t.when
    requires p < |list| ==> list[p].when > t.when
    ensures Sorted(InsertAt(list, p, t))
  {
  }

  lemma InsertMembers(list: seq<Timer>, p: nat, t: Timer)
    requires p <= |list|
    ensures |InsertAt(list, p, t)| == |list| + 1
    ensures forall u :: u in InsertAt(list, p, t) <==> u in list || u == t
    ensures multiset(InsertAt(list, p, t)) == multiset(list) + multiset{t}
  {
    assert list == list[..p] + list[p..];
  }

  lemma InsertDistinct(list: seq<Timer>, p: nat, t: Timer)
    requires p <= |list| && Distinct(list) && !Has(list, t.id)
    ensures Distinct(InsertAt(list, p, t))
  {
  }

  lemma InsertKeeps(list: seq<Timer>, t: Timer)
    requires Sorted(list) && Distinct(list) && !Has(list, t.id)
    ensures Sorted(Insert(list, t)) && Distinct(Insert(list, t))
    ensures forall u :: u in Insert(list, t) <==> u in list || u == t
  {
    var p := Place(list, t.when);
    InsertSorted(list, p, t);
    InsertMembers(list, p, t);
    InsertDistinct(list, p, t);
  }

  lemma DeleteKeeps(list: seq<Timer>, i: nat)
    requires i <= |list| && Sorted(list) && Distinct(list)
    ensures Sorted(DeleteAt(list, i)) && Distinct(DeleteAt(list, i))
  {
  }

  lemma DeleteMembers(list: seq<Timer>, i: nat)
    requires i < |list| && Distinct(list)
    ensures forall u :: u in DeleteAt(list, i) <==> u in list && u.id != list[i].id
    ensures !Has(DeleteAt(list, i), list[i].id)
  {
    var list' := DeleteAt(list, i);
    forall u | u in list && u.id != list[i].id
      ensures u in list'
    {
      var j :| 0 <= j < |list| && list[j] == u;
      assert list'[if j < i then j else j - 1] == u;
    }
    forall j | 0 <= j < |list'|
      ensures list'[j].id != list[i].id && list'[j] in list
    {
      assert list'[j] == list[if j < i then j else j + 1];
    }
  }

  // ---------------------------------------------------------------- when a timer goes off

  /** The first periodic timer with the same period. */
  function SamePeriod(list: seq<Timer>, ns: int): (i: nat)
    ensures i <= |list|
    ensures i < |list| ==> list[i].mode == Tperiodic && list[i].ns == ns
    ensures forall j :: 0 <= j < i ==> !(list[j].mode == Tperiodic && list[j].ns == ns)
  {
    if list == [] || (list[0].mode == Tperiodic && list[0].ns == ns) then 0 else 1 + SamePeriod(list[1..], ns)
  }

  /** The timer as tadd stores it. */
  function Due(conv: Conv, list: seq<Timer>, now: int, t: Timer): Timer {
    match t.mode
    case Trelative =>
      var ns := if t.ns <= 0 then 1 else t.ns;
      t.(ns := ns, when := now + conv(ns))
    case Tperiodic =>
      var i := SamePeriod(list, t.ns);
      var base := if t.when != 0 then t.when else if i < |list| then list[i].when else now;
      t.(when := base + conv(t.ns))
  }

  // ---------------------------------------------------------------- what adding and deleting mean

  /** The timers of the list other than id, in their order. */
  function Others(list: seq<Timer>, id: nat): seq<Timer> {
    if list == [] then [] else (if list[0].id == id then [] else [list[0]]) + Others(list[1..], id)
  }

  lemma {:induction false} OthersSame(list: seq<Timer>, id: nat)
    requires !Has(list, id)
    ensures Others(list, id) == list
  {
    if list != [] {
      assert list[0].id != id;
      forall i | 0 <= i < |list[1..]|
        ensures list[1..][i].id != id
      {
        assert list[i + 1].id != id;
      }
      OthersSame(list[1..], id);
    }
  }

  /** Taking out the first timer with the number takes out all of them. */
  lemma {:induction false} DeleteIs(list: seq<Timer>, id: nat)
    requires Distinct(list)
    ensures Delete(list, id) == Others(list, id)
  {
    if list != [] {
      if list[0].id == id {
        assert Delete(list, id) == list[1..];
        OthersSame(list[1..], id);
      } else {
        DeleteIs(list[1..], id);
        assert Delete(list, id) == [list[0]] + Delete(list[1..], id);
      }
    }
  }

  /** The list is rest with t behind all timers that do not go off later. */
  ghost predicate Joined(rest: seq<Timer>, t: Timer, list: seq<Timer>) {
    exists p {:trigger rest[..p]} ::
      && 0 <= p <= |rest| && list == rest[..p] + [t] + rest[p..]
      && (forall i :: 0 <= i < p ==> rest[i].when <= t.when)
      && (forall i :: p <= i < |rest| ==> rest[i].when > t.when)
  }

  lemma InsertIs(rest: seq<Timer>, t: Timer)
    requires Sorted(rest)
    ensures Joined(rest, t, Insert(rest, t))
  {
    var p := Place(rest, t.when);
    assert Insert(rest, t) == rest[..p] + [t] + rest[p..];
  }

  /** u is the first periodic timer of the list with period ns. */
  ghost predicate FirstPeriodic(list: seq<Timer>, ns: int, u: Timer) {
    exists i :: 0 <= i < |list| && list[i] == u && u.mode == Tperiodic && u.ns == ns
                && forall j :: 0 <= j < i ==> list[j].mode != Tperiodic || list[j].ns != ns
  }

  /**
   * t is nt with the time it is to go off: a delay of at least one from now on; or a period after its last time; or
   * together with the first timer of the same period, or a period from now on, if it has no time yet.
   */
  ghost predicate Timed(conv: Conv, list: seq<Timer>, now: int, nt: Timer, t: Timer) {
    && t.id == nt.id && t.mode == nt.mode
    && (nt.mode == Trelative ==> t.ns == (if nt.ns < 1 then 1 else nt.ns) && t.when - conv(t.ns) == now)
    && (nt.mode == Tperiodic ==> t.ns == nt.ns)
    && (nt.mode == Tperiodic && nt.when != 0 ==> t.when - conv(nt.ns) == nt.when)
    && (nt.mode == Tperiodic && nt.when == 0 ==>
          && (forall u :: FirstPeriodic(list, nt.ns, u) ==> t.when - conv(nt.ns) == u.when)
          && ((forall u :: !FirstPeriodic(list, nt.ns, u)) ==> t.when - conv(nt.ns) == now))
  }

  lemma DueIs(conv: Conv, list: seq<Timer>, now: int, nt: Timer)
    ensures Timed(conv, list, now, nt, Due(conv, list, now, nt))
  {
    var i := SamePeriod(list, nt.ns);
    if i < |list| {
      assert FirstPeriodic(list, nt.ns, list[i]);
    }
    forall u | FirstPeriodic(list, nt.ns, u)
      ensures i < |list| && u == list[i]
    {
      var j :| 0 <= j < |list| && list[j] == u && u.mode == Tperiodic && u.ns == nt.ns
               && forall k :: 0 <= k < j ==> list[k].mode != Tperiodic || list[k].ns != nt.ns;
    }
  }

  // ---------------------------------------------------------------- an interrupt

  /** The n-th time of a timer that starts at w with period p. */
  function Nth(w: int, p: nat, n: nat): int {
    if n == 0 then w else Nth(w, p, n - 1) + p
  }

  /** The times at which timer id has gone off. */
  function Shots(log: seq<Shot>, id: nat): seq<int> {
    if log == [] then []
    else
      var n := |log| - 1;
      Shots(log[..n], id) + if log[n].id == id then [log[n].at] else []
  }

  /** Where the interrupt has got to with timer t of the list it found. */
  ghost predicate Track(conv: Conv, now: int, t: Timer, list: seq<Timer>, log: seq<Shot>) {
    var shots := Shots(log, t.id);
    var n := |shots|;
    && (forall i :: 0 <= i < n ==> shots[i] == Nth(t.when, conv(t.ns), i) && shots[i] <= now)
    && (if t.mode == Tperiodic then t.(when := Nth(t.when, conv(t.ns), n)) in list
        else if n == 0 then t in list
        else n == 1 && !Has(list, t.id))
  }

  /** What the loop of timerintr keeps: `all` is the list at the start, `log` what went off since. */
  ghost predicate Firing(conv: Conv, now: int, all: seq<Timer>, list: seq<Timer>, log: seq<Shot>) {
    && Sorted(list) && Distinct(list)
    && (forall t :: t in all ==> Track(conv, now, t, list, log))
    && (forall u :: u in list ==> Has(all, u.id))
    && (forall i, j :: 0 <= i < j < |log| ==> log[i].at <= log[j].at)
    && (forall i :: 0 <= i < |log| ==> log[i].at <= now && Has(all, log[i].id))
    && (forall i, u :: 0 <= i < |log| && u in list ==> log[i].at <= u.when)
  }

  ghost predicate Periods(conv: Conv, list: seq<Timer>) {
    forall t :: t in list && t.mode == Tperiodic ==> conv(t.ns) > 0
  }

  lemma ShotsAppend(log: seq<Shot>, s: Shot, id: nat)
    ensures Shots(log + [s], id) == Shots(log, id) + if s.id == id then [s.at] else []
  {
    assert (log + [s])[..|log|] == log;
  }

  /** The timer that goes off is where Track says. */
  lemma HeadIs(conv: Conv, now: int, all: seq<Timer>, list: seq<Timer>, log: seq<Shot>, t: Timer)
    requires Firing(conv, now, all, list, log) && list != [] && t in all && t.id == list[0].id
    ensures
      var n := |Shots(log, t.id)|;
      if t.mode == Tperiodic then list[0] == t.(when := Nth(t.when, conv(t.ns), n)) else n == 0 && list[0] == t
  {
    assert Track(conv, now, t, list, log);
    SameId(list, list[0], if t.mode == Tperiodic then t.(when := Nth(t.when, conv(t.ns), |Shots(log, t.id)|)) else t);
    HasIn(list, list[0]);
  }

  lemma SameId(list: seq<Timer>, t: Timer, u: Timer)
    requires Distinct(list) && t.id == u.id
    ensures t in list && u in list ==> t == u
  {
    if t in list && u in list {
      var i :| 0 <= i < |list| && list[i] == t;
      var j :| 0 <= j < |list| && list[j] == u;
    }
  }

  /** The list after the head has gone off. */
  ghost function Popped(conv: Conv, list: seq<Timer>): seq<Timer>
    requires list != []
  {
    if list[0].mode == Tperiodic then Insert(list[1..], list[0].(when := list[0].when + conv(list[0].ns))) else list[1..]
  }

  lemma RestKeeps(list: seq<Timer>)
    requires list != [] && Sorted(list) && Distinct(list)
    ensures Sorted(list[1..]) && Distinct(list[1..]) && !Has(list[1..], list[0].id)
  {
    assert DeleteAt(list, 0) == list[1..];
    DeleteKeeps(list, 0);
  }

  lemma RestMembers(list: seq<Timer>)
    requires list != [] && Distinct(list)
    ensures forall u :: u in list[1..] <==> u in list && u.id != list[0].id
  {
    assert DeleteAt(list, 0) == list[1..];
    DeleteMembers(list, 0);
  }

  lemma PoppedIs(conv: Conv, list: seq<Timer>)
    requires list != [] && Sorted(list) && Distinct(list)
    ensures Sorted(Popped(conv, list)) && Distinct(Popped(conv, list))
    ensures
      var h := list[0];
      var h' := h.(when := h.when + conv(h.ns));
      forall u :: u in Popped(conv, list) <==> (u in list && u.id != h.id) || (h.mode == Tperiodic && u == h')
  {
    RestKeeps(list);
    RestMembers(list);
    if list[0].mode == Tperiodic {
      InsertKeeps(list[1..], list[0].(when := list[0].when + conv(list[0].ns)));
    }
  }

  /** The timer that goes off. */
  lemma TrackOwn(conv: Conv, now: int, list: seq<Timer>, log: seq<Shot>, t: Timer, n: nat)
    requires Sorted(list) && Distinct(list) && list != [] && list[0].when <= now && t.id == list[0].id
    requires Track(conv, now, t, list, log) && n == |Shots(log, t.id)|
    requires if t.mode == Tperiodic then list[0] == t.(when := Nth(t.when, conv(t.ns), n)) else n == 0 && list[0] == t
    ensures Track(conv, now, t, Popped(conv, list), log + [Shot(list[0].id, list[0].when)])
  {
    var h := list[0];
    ShotsAppend(log, Shot(h.id, h.when), t.id);
    if t.mode == Tperiodic {
      var h' := h.(when := h.when + conv(h.ns));
      assert t.(when := Nth(t.when, conv(t.ns), n + 1)) == h';
      assert h' in Popped(conv, list) by {
        PoppedIs(conv, list);
      }
    } else {
      assert !Has(Popped(conv, list), t.id) by {
        RestKeeps(list);
      }
    }
  }

  /** The others. */
  lemma TrackOther(conv: Conv, now: int, all: seq<Timer>, list: seq<Timer>, log: seq<Shot>, t: Timer)
    requires Firing(conv, now, all, list, log) && list != [] && t in all && t.id != list[0].id
    ensures Track(conv, now, t, Popped(conv, list), log + [Shot(list[0].id, list[0].when)])
  {
    var list' := Popped(conv, list);
    ShotsAppend(log, Shot(list[0].id, list[0].when), t.id);
    PoppedIs(conv, list);
    assert Track(conv, now, t, list, log);
    if t.mode != Tperiodic && Has(list', t.id) {
      var i :| 0 <= i < |list'| && list'[i].id == t.id;
      assert list'[i] in list';
      HasIn(list, list'[i]);
    }
  }

  lemma HasIn(list: seq<Timer>, u: Timer)
    requires u in list
    ensures Has(list, u.id)
  {
    var i :| 0 <= i < |list| && list[i] == u;
  }

  lemma KeepFiring(conv: Conv, now: int, all: seq<Timer>, list: seq<Timer>, log: seq<Shot>)
    requires Firing(conv, now, all, list, log) && list != [] && list[0].when <= now
    ensures Firing(conv, now, all, Popped(conv, list), log + [Shot(list[0].id, list[0].when)])
  {
    var h := list[0];
    var log', list' := log + [Shot(h.id, h.when)], Popped(conv, list);
    PoppedIs(conv, list);
    forall t | t in all
      ensures Track(conv, now, t, list', log')
    {
      if t.id == h.id {
        HeadIs(conv, now, all, list, log, t);
        TrackOwn(conv, now, list, log, t, |Shots(log, t.id)|);
      } else {
        TrackOther(conv, now, all, list, log, t);
      }
    }
    forall u | u in list
      ensures h.when <= u.when
    {
      var i :| 0 <= i < |list| && list[i] == u;
    }
    assert list[0] in list;
  }

  lemma StartFiring(conv: Conv, now: int, all: seq<Timer>)
    requires Sorted(all) && Distinct(all)
    ensures Firing(conv, now, all, all, [])
  {
    forall u | u in all
      ensures Has(all, u.id)
    {
      HasIn(all, u);
    }
  }

  // ---------------------------------------------------------------- termination

  /** How much of the past a timer still has to make up for. */
  function Left(now: int, t: Timer): nat {
    if t.when > now then 0 else if t.mode == Tperiodic then now - t.when + 1 else 1
  }

  function Work(now: int, list: seq<Timer>): nat {
    if list == [] then 0 else Left(now, list[0]) + Work(now, list[1..])
  }

  lemma {:induction false} WorkConcat(now: int, a: seq<Timer>, b: seq<Timer>)
    ensures Work(now, a + b) == Work(now, a) + Work(now, b)
  {
    if a == [] {
      assert a + b == b;
    } else {
      assert (a + b)[1..] == a[1..] + b;
      WorkConcat(now, a[1..], b);
    }
  }

  lemma WorkInsert(now: int, list: seq<Timer>, p: nat, t: Timer)
    requires p <= |list|
    ensures Work(now, InsertAt(list, p, t)) == Work(now, list) + Left(now, t)
  {
    assert list == list[..p] + list[p..];
    WorkConcat(now, list[..p], list[p..]);
    WorkConcat(now, list[..p] + [t], list[p..]);
    WorkConcat(now, list[..p], [t]);
  }

  /** A timer that goes off leaves less to do, exactly if it is not one with a period of zero. */
  lemma WorkShrinks(conv: Conv, now: int, list: seq<Timer>)
    requires list != [] && list[0].when <= now
    ensures Work(now, Popped(conv, list)) <= Work(now, list)
    ensures Work(now, Popped(conv, list)) < Work(now, list) <==> !(list[0].mode == Tperiodic && conv(list[0].ns) == 0)
  {
    if list[0].mode == Tperiodic {
      var h' := list[0].(when := list[0].when + conv(list[0].ns));
      WorkInsert(now, list[1..], Place(list[1..], h'.when), h');
    }
  }

  // ---------------------------------------------------------------- what an interrupt has done

  lemma {:induction false} NthIs(w: int, p: nat, n: nat)
    ensures Nth(w, p, n) == w + n * p
  {
    if n > 0 {
      NthIs(w, p, n - 1);
    }
  }

  /** The number of times up to now of a timer that starts at w with period p. */
  lemma CountTimes(w: int, p: nat, n: nat, now: int)
    requires p > 0 && Nth(w, p, n) > now && (n > 0 ==> Nth(w, p, n - 1) <= now)
    ensures n == if w > now then 0 else (now - w) / p + 1
  {
    NthIs(w, p, n);
    if n > 0 {
      NthIs(w, p, n - 1);
      Quotient(now - w, p, n - 1);
    }
  }

  lemma Quotient(x: int, p: int, k: int)
    requires p > 0 && k * p <= x < k * p + p
    ensures x / p == k
  {
    var q := x / p;
    assert q * p <= x < q * p + p;
    if q < k {
      Larger(q + 1, k, p);
    } else if q > k {
      Larger(k + 1, q, p);
    }
  }

  lemma Larger(a: int, b: int, p: int)
    requires a <= b && p > 0
    ensures a * p <= b * p
  {
  }

  /** How often timer t goes off in an interrupt at time now. */
  function Count(conv: Conv, now: int, t: Timer): nat
    requires t.mode == Tperiodic ==> conv(t.ns) > 0
  {
    if t.when > now then 0 else if t.mode == Tperiodic then (now - t.when) / conv(t.ns) + 1 else 1
  }

  /** Each timer of the list has gone off exactly as often as it was due, at its own times. */
  ghost predicate ShotsExact(conv: Conv, now: int, all: seq<Timer>, log: seq<Shot>)
    requires Periods(conv, all)
  {
    forall t :: t in all ==> Shots(log, t.id) == seq(Count(conv, now, t), i requires i >= 0 => t.when + i * conv(t.ns))
  }

  lemma {:induction false} ShotsHas(log: seq<Shot>, i: nat)
    requires i < |log|
    ensures log[i].at in Shots(log, log[i].id)
  {
    var n := |log| - 1;
    if i < n {
      ShotsHas(log[..n], i);
    }
  }

  /** Timer id has not gone off since the log was of length from. */
  ghost predicate Silent(log: seq<Shot>, from: nat, id: nat) {
    forall i :: from <= i < |log| ==> log[i].id != id
  }

  lemma SilentIff(log: seq<Shot>, from: nat, id: nat)
    requires from <= |log|
    ensures Silent(log, from, id) <==> Shots(log[from..], id) == []
  {
    var shots := log[from..];
    if Silent(log, from, id) {
      ShotsNone(shots, id);
    } else {
      var i :| from <= i < |log| && log[i].id == id;
      assert shots[i - from] == log[i];
      ShotsHas(shots, i - from);
    }
  }

  /** A timer goes off in an interrupt if and only if its time has come. */
  lemma NotBeforeItsTime(conv: Conv, now: int, all: seq<Timer>, log: seq<Shot>, from: nat, t: Timer)
    requires Periods(conv, all) && from <= |log| && ShotsExact(conv, now, all, log[from..]) && t in all
    ensures Silent(log, from, t.id) <==> now < t.when
  {
    SilentIff(log, from, t.id);
    assert |Shots(log[from..], t.id)| == Count(conv, now, t);
    if t.when <= now && t.mode == Tperiodic {
      QuotientNat(now - t.when, conv(t.ns));
    }
  }

  lemma QuotientNat(x: int, p: int)
    requires x >= 0 && p > 0
    ensures x / p >= 0
  {
  }

  lemma {:induction false} ShotsNone(log: seq<Shot>, id: nat)
    requires forall i :: 0 <= i < |log| ==> log[i].id != id
    ensures Shots(log, id) == []
  {
    if log != [] {
      ShotsNone(log[..|log| - 1], id);
    }
  }

  /** A periodic timer is in the list for its first time after now, a one-shot one only if it was not due. */
  ghost predicate NextTimes(conv: Conv, now: int, all: seq<Timer>, list: seq<Timer>)
    requires Periods(conv, all)
  {
    && (forall t :: t in all && t.mode == Tperiodic ==> t.(when := t.when + Count(conv, now, t) * conv(t.ns)) in list)
    && (forall t :: t in all && t.mode == Trelative ==> (t in list <==> t.when > now))
    && (forall u :: u in list ==> Has(all, u.id))
  }

  lemma FiredExactly(conv: Conv, now: int, all: seq<Timer>, list: seq<Timer>, log: seq<Shot>, t: Timer)
    requires Firing(conv, now, all, list, log) && Periods(conv, all) && t in all
    requires forall u :: u in list ==> u.when > now
    ensures Shots(log, t.id) == seq(Count(conv, now, t), i requires i >= 0 => t.when + i * conv(t.ns))
    ensures t.mode == Tperiodic ==> t.(when := t.when + Count(conv, now, t) * conv(t.ns)) in list
    ensures t.mode == Trelative ==> (t in list <==> t.when > now)
  {
    assert Track(conv, now, t, list, log);
    var shots, p := Shots(log, t.id), conv(t.ns);
    var n := |shots|;
    if t.mode == Tperiodic {
      if n > 0 {
        assert shots[n - 1] == Nth(t.when, p, n - 1);
      }
      CountTimes(t.when, p, n, now);
      NthIs(t.when, p, n);
    } else {
      if n == 1 {
        assert shots[0] <= now;
        if t in list {
          HasIn(list, t);
        }
      }
    }
    forall i | 0 <= i < n
      ensures shots[i] == t.when + i * p
    {
      NthIs(t.when, p, i);
    }
  }

  /** When nothing is due any more, everything that was due has happened, and nothing else. */
  lemma AllFired(conv: Conv, now: int, all: seq<Timer>, list: seq<Timer>, log: seq<Shot>)
    requires Firing(conv, now, all, list, log) && Periods(conv, all)
    requires forall u :: u in list ==> u.when > now
    ensures ShotsExact(conv, now, all, log) && NextTimes(conv, now, all, list)
  {
    forall t | t in all
      ensures Shots(log, t.id) == seq(Count(conv, now, t), i requires i >= 0 => t.when + i * conv(t.ns))
      ensures t.mode == Tperiodic ==> t.(when := t.when + Count(conv, now, t) * conv(t.ns)) in list
      ensures t.mode == Trelative ==> (t in list <==> t.when > now)
    {
      FiredExactly(conv, now, all, list, log, t);
    }
  }
}
