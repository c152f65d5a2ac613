/** The timer routines as they run, on the list of one processor. */
module TimerCode {
  import opened Timers

  class Clock {
    const conv: Conv
    var list: seq<Timer>
    /** What the timer hardware was programmed with last. */
    var armed: int
    /** The timer functions called so far. */
    var log: seq<Shot>

    /**
     * The list is sorted, and the hardware never programmed later than its head: no timer is missed.
     * It can be earlier, because timeradd does not program it anew when it moves the head back.
     */
    ghost predicate Valid()
      reads this
    {
      && Sorted(list) && Distinct(list) && Proper(conv, list)
      && (list != [] ==> armed <= list[0].when)
    }

    constructor (conv: Conv)
      ensures Valid() && list == [] && log == [] && this.conv == conv
    {
      this.conv := conv;
      list, armed, log := [], 0, [];
    }

    /** The time that tadd computes for a timer. */
    method Schedule(now: int, nt: Timer) returns (t: Timer)
      ensures t == Due(conv, list, now, nt) && Timed(conv, list, now, nt, t)
    {
      DueIs(conv, list, now, nt);
      t := nt;
      match nt.mode
      case Trelative =>
        if t.ns <= 0 {
          t := t.(ns := 1);
        }
        t := t.(when := now + conv(t.ns));
      case Tperiodic =>
        if t.when == 0 {
          var i := 0;
          while i < |list| && !(list[i].mode == Tperiodic && list[i].ns == nt.ns)
            invariant i <= |list| && i + SamePeriod(list[i..], nt.ns) == SamePeriod(list, nt.ns)
          {
            i := i + 1;
          }
          t := t.(when := if i < |list| then list[i].when else now);
        }
        t := t.(when := t.when + conv(t.ns));
    }

    /** tadd: the time, if the timer is now the first. */
    method TAdd(now: int, nt: Timer) returns (when: int)
      requires Sorted(list) && Distinct(list) && !Has(list, nt.id)
      modifies this`list
      ensures list == Insert(old(list), Due(conv, old(list), now, nt))
      ensures Sorted(list) && Distinct(list)
      ensures when == if list[0] == Due(conv, old(list), now, nt) then list[0].when else 0
    {
      var t := Schedule(now, nt);
      InsertKeeps(list, t);
      var p := 0;
      while p < |list| && list[p].when <= t.when
        invariant p <= |list| && forall i :: 0 <= i < p ==> list[i].when <= t.when
      {
        p := p + 1;
      }
      assert PlaceAt(list, t.when, p) && p == Place(list, t.when);
      list := list[..p] + [t] + list[p..];
      return if p == 0 then t.when else 0;
    }

    /** tdel: the time of the new first timer, if it was the first that went. */
    method TDel(id: nat) returns (when: int)
      requires Sorted(list) && Distinct(list)
      modifies this`list
      ensures list == Delete(old(list), id) == Others(old(list), id) && Sorted(list) && Distinct(list)
      ensures Has(old(list), id) ==>
                when == if old(list)[0].id == id && list != [] then list[0].when else 0
    {
      var i := 0;
      while i < |list| && list[i].id != id
        invariant i <= |list| && i + IndexOf(list[i..], id) == IndexOf(list, id)
      {
        i := i + 1;
      }
      DeleteKeeps(list, i);
      DeleteIs(list, id);
      if i < |list| {
        list := list[..i] + list[i + 1..];
      }
      return if i == 0 && list != [] then list[0].when else 0;
    }

    /**
     * timeradd: add a timer, or move one; t is the timer as it is stored. All is well afterwards exactly if its
     * time is after zero, which to tadd means none, and its period not zero.
     */
    method TimerAdd(now: int, nt: Timer) returns (ghost t: Timer)
      requires Valid()
      modifies this`list, this`armed
      ensures Timed(conv, Others(old(list), nt.id), now, nt, t)
      ensures Joined(Others(old(list), nt.id), t, list) && Sorted(list) && Distinct(list)
      ensures Replaced(old(list), t, list)
      ensures Valid() <==> t.when > 0 && (nt.mode == Tperiodic ==> conv(nt.ns) > 0)
      ensures armed == if list[0] == t && t.when != 0 then t.when else old(armed)
    {
      AddedIs(conv, list, now, nt, armed);
      t := PutIn(now, nt);
    }

    method PutIn(now: int, nt: Timer) returns (ghost t: Timer)
      requires Sorted(list) && Distinct(list)
      modifies this`list, this`armed
      ensures
        var rest := Others(old(list), nt.id);
        t == Due(conv, rest, now, nt) && list == Insert(rest, t) && Sorted(list) && Distinct(list)
      ensures list != [] && armed == if list[0] == t && t.when != 0 then t.when else old(armed)
    {
      RemoveIs(list, nt.id);
      var _ := TDel(nt.id);
      t := Due(conv, list, now, nt);
      var when := TAdd(now, nt);
      if when != 0 {
        armed := when;
      }
    }

    /** timerdel. */
    method TimerDel(id: nat)
      requires Valid()
      modifies this`list, this`armed
      ensures Valid() && list == Others(old(list), id)
    {
      if Has(list, id) {
        RemoveIs(list, id);
        var when := TDel(id);
        if when != 0 {
          armed := list[0].when;
        }
      } else {
        OthersSame(list, id);
      }
    }

    /** The loop of timerintr: the head goes off, and comes back for its next time if it is periodic. */
    method FireDue(now: int) returns (ghost fired: seq<Shot>)
      requires Sorted(list) && Distinct(list) && Proper(conv, list)
      modifies this`list, this`log
      ensures Firing(conv, now, old(list), list, fired) && log == old(log) + fired
      ensures Proper(conv, list)
      ensures list != [] ==> list[0].when > now
    {
      fired := [];
      ghost var all, log0 := list, log;
      StartFiring(conv, now, list);
      while list != [] && list[0].when <= now
        invariant Firing(conv, now, all, list, fired) && log == log0 + fired
        invariant Proper(conv, list)
        decreases Work(now, list)
      {
        fired := FireHead(now, all, log0, fired);
      }
    }

    /** The head goes off. */
    method FireHead(now: int, ghost all: seq<Timer>, ghost log0: seq<Shot>, ghost fired: seq<Shot>) returns (ghost fired': seq<Shot>)
      requires list != [] && list[0].when <= now && Firing(conv, now, all, list, fired) && Proper(conv, list) && log == log0 + fired
      modifies this`list, this`log
      ensures Firing(conv, now, all, list, fired') && Proper(conv, list)
      ensures log == log0 + fired' && Work(now, list) < Work(now, old(list))
    {
      KeepFiring(conv, now, all, list, fired);
      PoppedKeeps(conv, list);
      HeadProper(conv, list);
      WorkShrinks(conv, now, list);
      var t := list[0];
      fired' := fired + [Shot(t.id, t.when)];
      log := log + [Shot(t.id, t.when)];
      Pop(now);
    }

    method Pop(now: int)
      requires Sorted(list) && Distinct(list) && list != [] && list[0].when > 0
      modifies this`list
      ensures list == Popped(conv, old(list))
    {
      var t := list[0];
      RestKeeps(list);
      list := list[1..];
      if t.mode == Tperiodic {
        Again(now, t);
      }
    }

    /** tadd of a periodic timer that has gone off. */
    method Again(now: int, t: Timer)
      requires Sorted(list) && Distinct(list) && !Has(list, t.id) && t.mode == Tperiodic && t.when != 0
      modifies this`list
      ensures list == Insert(old(list), t.(when := t.when + conv(t.ns)))
    {
      var _ := TAdd(now, t);
    }

    /**
     * timerintr: calls the functions of all timers that are due, in the order of their times, each as
     * often as it was due since; then programs the hardware for the first that is not.
     */
    method TimerIntr(now: int)
      requires Valid()
      modifies this
      ensures Valid() && old(log) <= log
      ensures list != [] ==> list[0].when > now && armed == list[0].when
      ensures list == [] ==> armed == old(armed)
      ensures forall i, j :: |old(log)| <= i < j < |log| ==> log[i].at <= log[j].at
      ensures forall i :: |old(log)| <= i < |log| ==> Has(old(list), log[i].id)
      ensures ShotsExact(conv, now, old(list), log[|old(log)|..])
      ensures NextTimes(conv, now, old(list), list)
    {
      ghost var fired := FireDue(now);
      if list != [] {
        armed := list[0].when;
      }
      assert log[|old(log)|..] == fired;
      NoneDue(now, list);
      AllFired(conv, now, old(list), list, fired);
      forall i | |old(log)| <= i < |log|
        ensures log[i] == fired[i - |old(log)|]
      {
      }
    }
  }

  /** A periodic timer whose period is no tick at all: an interrupt would call its function for ever. */
  method PeriodZero() returns (c: Clock)
    ensures fresh(c) && !c.Valid() && c.list != [] && c.list[0].mode == Tperiodic && c.list[0].when <= 1
    ensures Work(1, Popped(c.conv, c.list)) == Work(1, c.list)
  {
    c := new Clock(_ => 0);
    ghost var t := c.TimerAdd(1, Timer(0, Tperiodic, 100000, 0));
    assert t in c.list;
    WorkShrinks(c.conv, 1, c.list);
  }

  /** A timer that has just been added goes off in the next interrupt if and only if that comes at its time or later. */
  method AddThenInterrupt(c: Clock, now: int, nt: Timer, later: int) returns (ghost t: Timer)
    requires c.Valid() && now > 0 && nt.when >= 0 && (nt.mode == Tperiodic ==> c.conv(nt.ns) > 0)
    modifies c
    ensures Timed(c.conv, Others(old(c.list), nt.id), now, nt, t)
    ensures c.Valid() && |old(c.log)| <= |c.log|
    ensures Silent(c.log, |old(c.log)|, nt.id) <==> later < t.when
  {
    OthersMembers(c.list, nt.id);
    t := c.TimerAdd(now, nt);
    TimePositive(c.conv, Others(old(c.list), nt.id), now, nt, t);
    ghost var all := c.list;
    assert t in all;
    c.TimerIntr(later);
    NotBeforeItsTime(c.conv, later, all, c.log, |old(c.log)|, t);
  }

  lemma TimePositive(conv: Conv, rest: seq<Timer>, now: int, nt: Timer, t: Timer)
    requires Timed(conv, rest, now, nt, t) && now > 0 && nt.when >= 0 && forall u :: u in rest ==> u.when > 0
    ensures t.when > 0
  {
    if nt.mode == Tperiodic && nt.when == 0 {
      if u :| FirstPeriodic(rest, nt.ns, u) {
        assert u in rest;
      }
    }
  }

  lemma {:induction false} OthersMembers(list: seq<Timer>, id: nat)
    ensures forall u :: u in Others(list, id) <==> u in list && u.id != id
  {
    if list != [] {
      OthersMembers(list[1..], id);
      assert forall u :: u in list <==> u == list[0] || u in list[1..];
    }
  }

  /** The list and the programmed time after timeradd. */
  lemma AddedIs(conv: Conv, all: seq<Timer>, now: int, nt: Timer, armed: int)
    requires Sorted(all) && Distinct(all) && Proper(conv, all) && (all != [] ==> armed <= all[0].when)
    ensures !Has(Others(all, nt.id), nt.id)
    ensures
      var rest := Others(all, nt.id);
      var t := Due(conv, rest, now, nt);
      var list := Insert(rest, t);
      && Timed(conv, rest, now, nt, t) && Joined(rest, t, list)
      && Replaced(all, t, list) && list != []
      && (Proper(conv, list) && (if list[0] == t && t.when != 0 then t.when else armed) <= list[0].when
          <==> t.when > 0 && (nt.mode == Tperiodic ==> conv(nt.ns) > 0))
  {
    RemoveIs(all, nt.id);
    DeleteIs(all, nt.id);
    DeleteKeeps(all, IndexOf(all, nt.id));
    var rest := Others(all, nt.id);
    var t := Due(conv, rest, now, nt);
    DueIs(conv, rest, now, nt);
    InsertIs(rest, t);
    AddedMembers(all, t, Insert(rest, t));
    AddIs(conv, rest, now, nt);
  }

  /** The timers are those of all, but t is the only one with its number. */
  ghost predicate Replaced(all: seq<Timer>, t: Timer, list: seq<Timer>) {
    forall u {:trigger u in list} :: u in list <==> u == t || (u in all && u.id != t.id)
  }

  lemma AddedMembers(all: seq<Timer>, t: Timer, list: seq<Timer>)
    requires Joined(Others(all, t.id), t, list)
    ensures Replaced(all, t, list)
  {
    OthersMembers(all, t.id);
    JoinedMembers(Others(all, t.id), t, list);
  }

  lemma JoinedMembers(rest: seq<Timer>, t: Timer, list: seq<Timer>)
    requires Joined(rest, t, list)
    ensures forall u :: u in list <==> u == t || u in rest
  {
    var p :| 0 <= p <= |rest| && list == rest[..p] + [t] + rest[p..];
    assert rest == rest[..p] + rest[p..];
  }

  /** The times are times, and no period is zero. */
  ghost predicate Proper(conv: Conv, list: seq<Timer>) {
    Periods(conv, list) && forall t :: t in list ==> t.when > 0
  }

  lemma NoneDue(now: int, list: seq<Timer>)
    requires Sorted(list) && (list != [] ==> list[0].when > now)
    ensures forall u :: u in list ==> u.when > now
  {
  }

  /** Adding a timer keeps times positive and periods proper if its own are, and the head is the old one or the new timer. */
  lemma AddIs(conv: Conv, rest: seq<Timer>, now: int, nt: Timer)
    requires Proper(conv, rest) && !Has(rest, nt.id)
    ensures
      var t := Due(conv, rest, now, nt);
      var list := Insert(rest, t);
      && t.id == nt.id && (Proper(conv, list) <==> t.when > 0 && (nt.mode == Tperiodic ==> conv(nt.ns) > 0))
      && list[0] == (if rest == [] || rest[0].when > t.when then t else rest[0])
      && (rest != [] && list[0] == rest[0] ==> list[0].id != nt.id)
  {
    var t := Due(conv, rest, now, nt);
    InsertMembers(rest, Place(rest, t.when), t);
    assert t in Insert(rest, t);
  }

  lemma RemoveIs(list: seq<Timer>, id: nat)
    requires Sorted(list) && Distinct(list)
    ensures !Has(Delete(list, id), id) && (!Has(list, id) ==> Delete(list, id) == list)
    ensures forall u :: u in Delete(list, id) ==> u in list
    ensures list != [] && Delete(list, id) != [] ==> list[0].when <= Delete(list, id)[0].when
  {
    var i := IndexOf(list, id);
    if i < |list| {
      DeleteMembers(list, i);
    }
  }

  lemma PoppedKeeps(conv: Conv, list: seq<Timer>)
    requires list != [] && Sorted(list) && Distinct(list) && Proper(conv, list)
    ensures Proper(conv, Popped(conv, list))
  {
    PoppedIs(conv, list);
    assert list[0] in list;
  }

  lemma HeadProper(conv: Conv, list: seq<Timer>)
    requires list != [] && Proper(conv, list)
    ensures list[0].when > 0 && (list[0].mode == Tperiodic ==> conv(list[0].ns) > 0)
  {
    assert list[0] in list;
  }
}
