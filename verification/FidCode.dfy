/** The fid handlers as they run, on the 128-bucket table of intmap.c. */
module FidCode {
  import opened Options
  import opened Fids
  import opened FidProofs
  import opened FidRuns
  import Intmap

  class Server {
    const table: Intmap.Intmap<Fid>
    var num: seq<Num>
    var ref: seq<int>
    var maker: seq<Req>
    var destroyed: seq<Fid>
    var msg: seq<Msg>
    var phase: seq<Phase>
    var slots: seq<Slots>
    var doomed: seq<bool>
    var fault: bool

    ghost function S(): Srv
      reads this, table
    {
      Srv(num, ref, maker, destroyed, table.contents, msg, phase, slots, doomed, fault)
    }

    ghost predicate Valid()
      reads this, table, table.hash
    {
      table.Valid() && S().Shape() && PoolOk(S())
    }

    constructor ()
      ensures Valid() && S() == START && fresh(table) && fresh(table.hash)
    {
      table := new Intmap.Intmap();
      num, ref, maker, destroyed, msg, phase, slots, doomed, fault := [], [], [], [], [], [], [], [], false;
    }

    // ---------------------------------------------------------------- fid.c

    method IncFidRef(f: Fid)
      requires f < |ref|
      modifies this`ref
      ensures ref == old(ref)[f := old(ref)[f] + 1]
    {
      ref := ref[f := ref[f] + 1];
    }

    method CloseFid(f: Fid)
      requires Valid() && f < |ref|
      modifies this`ref, this`destroyed
      ensures Valid() && S() == Fids.CloseFid(old(S()), f)
    {
      ref := ref[f := ref[f] - 1];
      if ref[f] == 0 {
        destroyed := destroyed + [f];
      }
    }

    method AllocFid(n: Num) returns (r: Option<Fid>)
      requires Valid()
      modifies this`num, this`ref, this`maker, this`destroyed, table, table.hash
      ensures Valid() && S() == Fids.AllocFid(old(S()), n, |msg|) && r == Allocated(old(S()), n)
    {
      var f := |ref|;
      num, ref, maker := num + [n], ref + [0], maker + [|msg|];
      IncFidRef(f);
      IncFidRef(f);
      assert ref == old(ref) + [2];
      var ok := table.CanInsertKey(n, f);
      if !ok {
        CloseFid(f);
        CloseFid(f);
        assert ref == old(ref) + [0];
        return None;
      }
      return Some(f);
    }

    method LookupFid(n: Num) returns (r: Option<Fid>)
      requires Valid()
      modifies this`ref
      ensures Valid() && S() == Fids.LookupFid(old(S()), n) && r == Found(old(S()), n)
    {
      r := table.LookupKey(n);
      if r.Some? {
        IncFidRef(r.value);
      }
    }

    method RemoveFid(n: Num) returns (r: Option<Fid>)
      requires Valid()
      modifies table, table.hash
      ensures Valid() && S() == Fids.RemoveFid(old(S()), n) && r == Found(old(S()), n)
    {
      r := table.DeleteKey(n);
    }

    // ---------------------------------------------------------------- the handlers in the serve loop

    /** The request is with its handler, or has been answered with an error already. */
    method Arrive(m: Msg, sl: Slots, error: bool)
      requires Valid()
      modifies this`msg, this`phase, this`slots, this`doomed
      ensures Valid() && S() == Arrived(old(S()), m, sl, error)
    {
      msg, phase, slots, doomed := msg + [m], phase + [Waiting], slots + [sl], doomed + [error];
    }

    method SAuth(m: Msg)
      requires Valid() && m.Tauth?
      modifies this, table, table.hash
      ensures Valid() && S() == Start(old(S()), m)
    {
      var f := AllocFid(m.afid);
      Arrive(m, NONE.(afid := f), f.None?);
    }

    method SAttach(m: Msg)
      requires Valid() && m.Tattach?
      modifies this, table, table.hash
      ensures Valid() && S() == Start(old(S()), m)
    {
      var f := AllocFid(m.fid);
      if f.None? {
        Arrive(m, NONE, true);
        return;
      }
      var a: Option<Fid> := None;
      if m.afid != NOFID {
        a := LookupFid(m.afid);
        if a.None? {
          Arrive(m, NONE.(fid := f), true);
          return;
        }
      }
      Arrive(m, NONE.(fid := f, afid := a), false);
    }

    method SWalk(m: Msg)
      requires Valid() && m.Twalk?
      modifies this, table, table.hash
      ensures Valid() && S() == Start(old(S()), m)
    {
      var f := LookupFid(m.fid);
      if f.None? {
        Arrive(m, NONE, true);
        return;
      }
      if m.refused {
        Arrive(m, NONE.(fid := f), true);
        return;
      }
      if m.fid != m.newfid {
        var f' := AllocFid(m.newfid);
        Arrive(m, NONE.(fid := f, newfid := f'), f'.None?);
      } else {
        IncFidRef(f.value);
        Arrive(m, NONE.(fid := f, newfid := f), false);
      }
    }

    method SUse(m: Msg)
      requires Valid() && m.Tuse?
      modifies this, table, table.hash
      ensures Valid() && S() == Start(old(S()), m)
    {
      var f := LookupFid(m.fid);
      Arrive(m, NONE.(fid := f), f.None?);
    }

    method SClunk(m: Msg)
      requires Valid() && (m.Tclunk? || m.Tremove?)
      modifies this, table, table.hash
      ensures Valid() && S() == Start(old(S()), m)
    {
      var f := RemoveFid(m.fid);
      Arrive(m, NONE.(fid := f), f.None?);
    }

    /** The switch of the serve loop. */
    method Serve(m: Msg)
      requires Valid()
      modifies this, table, table.hash
      ensures Valid() && S() == Start(old(S()), m)
    {
      match m
      case Tauth(_) => SAuth(m);
      case Tattach(_, _) => SAttach(m);
      case Twalk(_, _, _, _) => SWalk(m);
      case Tuse(_) => SUse(m);
      case Tclunk(_) => SClunk(m);
      case Tremove(_) => SClunk(m);
      case Tother => Arrive(m, NONE, false);
    }

    // ---------------------------------------------------------------- respond and closereq

    /** closefid(removefid(...)). */
    method TakeBack(n: Num)
      requires Valid()
      modifies this`ref, this`destroyed, this`fault, table, table.hash
      ensures Valid() && S() == DropNum(old(S()), n)
    {
      var f := RemoveFid(n);
      if f.None? {
        assert table.contents == old(table.contents);
        fault := true;
      } else {
        CloseFid(f.value);
      }
    }

    method RAuth(m: Msg, sl: Slots, error: bool)
      requires Valid() && m.Tauth?
      modifies this`ref, this`destroyed, this`fault, table, table.hash
      ensures Valid() && S() == Undone(old(S()), m, sl, error, 0)
    {
      if error && sl.afid.Some? {
        TakeBack(m.afid);
      }
    }

    method RAttach(m: Msg, sl: Slots, error: bool)
      requires Valid() && m.Tattach?
      modifies this`ref, this`destroyed, this`fault, table, table.hash
      ensures Valid() && S() == Undone(old(S()), m, sl, error, 0)
    {
      if error && sl.fid.Some? {
        TakeBack(m.fid);
      }
    }

    /** rwalk: whether the reply is an error after all. */
    method RWalk(m: Msg, sl: Slots, error: bool, nwqid: nat) returns (rerror: bool)
      requires Valid() && m.Twalk?
      modifies this`ref, this`destroyed, this`fault, table, table.hash
      ensures Valid() && S() == Undone(old(S()), m, sl, error, nwqid)
      ensures rerror <==> nwqid == 0 && (error || m.nwname > 0)
    {
      rerror := error;
      if error || nwqid < m.nwname {
        if m.fid != m.newfid && sl.newfid.Some? {
          TakeBack(m.newfid);
        }
        if nwqid == 0 {
          rerror := error || m.nwname != 0;
        } else {
          rerror := false;
        }
      }
    }

    /** The fid part of respond. */
    method Respond(q: Req, error: bool, nwqid: nat)
      requires Valid() && q < |msg|
      modifies this, table, table.hash
      ensures Valid() && S() == Finish(old(S()), q, error, nwqid)
      ensures q < |phase| && msg == old(msg) && phase[q].Answered?
      ensures msg[q].Twalk? && nwqid > 0 ==> phase[q].reply == Rok(nwqid)
      ensures msg[q].Twalk? && nwqid == 0 ==> phase[q].reply == if error || msg[q].nwname > 0 then Rerror else Rok(0)
      ensures !msg[q].Twalk? ==> phase[q].reply == if error then Rerror else Rok(0)
    {
      var m, sl := msg[q], slots[q];
      var reply := if error then Rerror else Rok(0);
      match m {
        case Tauth(_) =>
          RAuth(m, sl, error);
        case Tattach(_, _) =>
          RAttach(m, sl, error);
        case Twalk(_, _, _, _) =>
          var rerror := RWalk(m, sl, error, nwqid);
          reply := if rerror then Rerror else Rok(nwqid);
        case _ =>
      }
      phase := phase[q := Answered(reply)];
    }

    /** closereq, when the last reference goes. */
    method CloseReq(q: Req)
      requires Valid() && q < |msg| && SlotsOk(slots[q], |ref|)
      modifies this
      ensures Valid() && S() == Free(old(S()), q)
    {
      var sl := slots[q];
      phase, slots := phase[q := Freed], slots[q := NONE];
      if sl.fid.Some? {
        CloseFid(sl.fid.value);
      }
      if sl.newfid.Some? {
        CloseFid(sl.newfid.value);
      }
      if sl.afid.Some? {
        CloseFid(sl.afid.value);
      }
    }

    /** A message taken by the loop, answered and freed before the next. */
    method OneTurn(t: Turn)
      requires Valid() && Inv(S()) && TurnOk(S(), t)
      modifies this, table, table.hash
      ensures Valid() && Inv(S()) && S() == Handle(old(S()), t)
    {
      ghost var s := S();
      KeepStart(s, t.m);
      StartIs(s, t.m);
      KeepFinish(Start(s, t.m), |s.msg|, t.error, t.nwqid);
      HandleKeeps(s, t);
      var q := |msg|;
      Serve(t.m);
      Respond(q, t.error, t.nwqid);
      CloseReq(q);
    }

    /** The serve loop: after all turns the table is what the messages and replies tell the client. */
    method Session(ts: seq<Turn>, ghost ss: seq<Srv>)
      requires Valid() && S() == START && IsSession(ss, ts) && forall i :: 0 <= i < |ts| ==> Straight(ts[i])
      modifies this, table, table.hash
      ensures Valid() && S() == ss[|ts|]
      ensures table.contents.Keys == ViewAfter(ts, |ts|).Keys
      ensures forall n :: n in table.contents ==> table.contents[n] < |maker| && maker[table.contents[n]] == ViewAfter(ts, |ts|)[n]
    {
      var i := 0;
      while i < |ts|
        invariant i <= |ts| && Valid() && S() == ss[i]
      {
        assert Inv(ss[i]) && TurnOk(ss[i], ts[i]);
        OneTurn(ts[i]);
        i := i + 1;
      }
      TableIsClientView(ss, ts, |ts|);
      assert forall n :: n in table.contents.Keys <==> n in ViewAfter(ts, |ts|).Keys;
    }
  }
}
