/** Programs that read through a Biobuf, whatever the reads of the file below return. */
module BiobufRuns {
  import opened Counting
  import opened Options
  import opened Biobuf
  import opened BiobufCode

  datatype Op = Getc | Ungetc | Read(count: int) | Rdline(delim: int) | Rdstr(delim: int) | Seek(off: int, base: nat)

  function Where(content: Bytes, p: int, off: int, base: nat): int {
    if base == 0 then off else if base == 1 then off + p else off + |content|
  }

  /** On an unbuffered stream at p, the call gives out and goes to p'. */
  ghost predicate Steps(content: Bytes, op: Op, p: int, p': int, out: Bytes) {
    match op
    case Seek(off, base) => out == [] && p' == Where(content, p, off, base)
    case Ungetc => out == [] && p' == p - 1
    case _ => 0 <= p <= p' && |out| == p' - p && (out != [] ==> p' <= |content| && out == content[p..p'])
  }

  /** It gives all that it should when no read fails. */
  ghost predicate Complete(b: Biobufhdr, op: Op, p: int, p': int) {
    var size := |b.file.content|;
    match op
    case Getc => p' == p + B(p < size)
    case Read(count) => p' == if count <= 0 || p >= size then p else p + Min(count, size - p)
    case Rdline(delim) => if b.HasLine(p, b.bsize, delim) then b.IsLine(p, p' - p, delim) else p' == p
    case Rdstr(delim) => if b.HasLine(p, size, delim) then b.IsLine(p, p' - p, delim) else p' == if p < size then size else p
    case _ => true
  }

  /** The call found its delimiter. */
  predicate Hit(op: Op, out: Bytes) {
    op.Rdstr? && out != [] && out[|out| - 1] == op.delim
  }

  /** How many bytes can be put back after a call, if c could before. */
  function CanAfter(c: nat, op: Op, out: Bytes): nat {
    match op
    case Getc => if out == [] then 0 else Min(c, BUNGETSIZE) + 1
    case Ungetc => if c == 0 then 0 else c - 1
    case _ => B(Hit(op, out))
  }

  /** Whether Bgetc or Brdstr has met the end of the file since the last seek. */
  predicate MetAfter(met: bool, op: Op, out: Bytes) {
    match op
    case Getc => met || out == []
    case Rdstr(_) => met || !Hit(op, out)
    case Seek(_, _) => false
    case _ => met
  }

  function Can(ops: seq<Op>, outs: seq<Bytes>): nat
    requires |outs| <= |ops|
  {
    if outs == [] then 0
    else
      var n := |outs| - 1;
      CanAfter(Can(ops, outs[..n]), ops[n], outs[n])
  }

  predicate Met(ops: seq<Op>, outs: seq<Bytes>)
    requires |outs| <= |ops|
  {
    if outs == [] then false
    else
      var n := |outs| - 1;
      MetAfter(Met(ops, outs[..n]), ops[n], outs[n])
  }

  /** What the calls demand: something to put back, a good buffer to seek in, room for a line. */
  predicate Ready(b: Biobufhdr, op: Op, can: nat, met: bool)
    reads b
  {
    && (op.Ungetc? ==> can > 0)
    && (op.Seek? ==> op.base <= 2 && Where(b.file.content, b.Pos(), op.off, op.base) >= 0 && (!met || b.state == Bracteof))
    && (op.Rdline? || op.Rdstr? ==> -b.icount <= b.bsize)
  }

  /** The state between calls, with what is known about pushback and seeks. */
  ghost predicate Known(b: Biobufhdr, can: nat, met: bool)
    reads b, b.buf, b.file
  {
    b.Valid() && b.Back() >= can && (!met ==> b.Seekable()) && (can > 0 ==> b.state != Bracteof)
  }

  method One(b: Biobufhdr, op: Op, ghost can: nat, ghost met: bool) returns (out: Bytes)
    requires Known(b, can, met) && b.state != Binactive && Ready(b, op, can, met)
    modifies b, b.buf, b.file
    ensures Known(b, CanAfter(can, op, out), MetAfter(met, op, out)) && old(b.file.calls) <= b.file.calls
    ensures Steps(b.file.content, op, old(b.Pos()), b.Pos(), out)
    ensures !b.file.Fails(old(b.file.calls), b.file.calls) ==> b.state != Binactive && Complete(b, op, old(b.Pos()), b.Pos())
  {
    match op
    case Getc =>
      out := OneGetc(b, can, met);
    case Ungetc =>
      var _ := b.Bungetc();
      out := [];
    case Read(count) =>
      var n;
      n, out := b.Bread(count);
    case Rdline(delim) =>
      out := OneLine(b, delim, met);
    case Rdstr(delim) =>
      out := OneString(b, delim, met);
    case Seek(off, base) =>
      var _ := b.Bseek(off, base);
      out := [];
  }

  method OneGetc(b: Biobufhdr, ghost can: nat, ghost met: bool) returns (out: Bytes)
    requires Known(b, can, met) && b.state != Binactive
    modifies b, b.buf, b.file
    ensures Known(b, CanAfter(can, Getc, out), MetAfter(met, Getc, out)) && old(b.file.calls) <= b.file.calls
    ensures Steps(b.file.content, Getc, old(b.Pos()), b.Pos(), out)
    ensures !b.file.Fails(old(b.file.calls), b.file.calls) ==> b.state != Binactive && Complete(b, Getc, old(b.Pos()), b.Pos())
  {
    var c := b.Bgetc();
    out := if c == BEOF then [] else [c];
  }

  method OneLine(b: Biobufhdr, delim: int, ghost met: bool) returns (out: Bytes)
    requires Known(b, 0, met) && b.state != Binactive && -b.icount <= b.bsize
    modifies b, b.buf, b.file
    ensures Known(b, 0, met) && b.state != Binactive && old(b.file.calls) <= b.file.calls
    ensures Steps(b.file.content, Rdline(delim), old(b.Pos()), b.Pos(), out)
    ensures !b.file.Fails(old(b.file.calls), b.file.calls) ==> Complete(b, Rdline(delim), old(b.Pos()), b.Pos())
  {
    var ip, failed := b.Brdline(delim);
    assert b.Finds(old(b.Pos()), 0, ip, delim, failed, false);
    var n := b.Blinelen();
    out := [];
    if ip.Some? {
      out := b.buf[ip.value..ip.value + n];
      assert out == b.file.content[old(b.Pos())..b.Pos()];
    }
  }

  method OneString(b: Biobufhdr, delim: int, ghost met: bool) returns (out: Bytes)
    requires Known(b, 0, met) && b.state != Binactive && -b.icount <= b.bsize
    modifies b, b.buf, b.file
    ensures Known(b, CanAfter(0, Rdstr(delim), out), MetAfter(met, Rdstr(delim), out))
    ensures b.state != Binactive && old(b.file.calls) <= b.file.calls
    ensures Steps(b.file.content, Rdstr(delim), old(b.Pos()), b.Pos(), out)
    ensures !b.file.Fails(old(b.file.calls), b.file.calls) ==> Complete(b, Rdstr(delim), old(b.Pos()), b.Pos())
  {
    assert b.Lost(delim) == 0;
    var r, all, hit, failed := b.Brdstr(delim, false);
    assert b.Consumes(old(b.Pos()), 0, all, delim, hit, failed, false);
    out := if r.Some? then r.value else [];
    assert out == all;
  }

  /** The i-th call takes the stream from ps[i] to ps[i + 1] with the reads from cs[i] to cs[i + 1]. */
  ghost predicate Agrees(b: Biobufhdr, ops: seq<Op>, outs: seq<Bytes>, ps: seq<int>, cs: seq<nat>, i: nat)
    requires i < |outs| <= |ops| && |ps| == |outs| + 1 == |cs|
  {
    && Steps(b.file.content, ops[i], ps[i], ps[i + 1], outs[i])
    && (!b.file.Fails(cs[i], cs[i + 1]) ==> Complete(b, ops[i], ps[i], ps[i + 1]))
  }

  ghost predicate Trace(b: Biobufhdr, ops: seq<Op>, outs: seq<Bytes>, ps: seq<int>, cs: seq<nat>) {
    && |outs| <= |ops| && |ps| == |outs| + 1 == |cs|
    && forall i {:trigger Agrees(b, ops, outs, ps, cs, i)} :: 0 <= i < |outs| ==> Agrees(b, ops, outs, ps, cs, i)
  }

  /** A read has failed in one of the calls. */
  ghost predicate Failed(b: Biobufhdr, cs: seq<nat>) {
    exists i {:trigger cs[i]} :: 0 <= i < |cs| - 1 && b.file.Fails(cs[i], cs[i + 1])
  }

  lemma TraceGrows(b: Biobufhdr, ops: seq<Op>, outs: seq<Bytes>, ps: seq<int>, cs: seq<nat>, out: Bytes, p: int, c: nat)
    requires Trace(b, ops, outs, ps, cs) && |outs| < |ops|
    requires Steps(b.file.content, ops[|outs|], ps[|outs|], p, out)
    requires !b.file.Fails(cs[|outs|], c) ==> Complete(b, ops[|outs|], ps[|outs|], p)
    ensures Trace(b, ops, outs + [out], ps + [p], cs + [c])
    ensures b.file.Fails(cs[|outs|], c) ==> Failed(b, cs + [c])
    ensures Can(ops, outs + [out]) == CanAfter(Can(ops, outs), ops[|outs|], out)
    ensures Met(ops, outs + [out]) == MetAfter(Met(ops, outs), ops[|outs|], out)
  {
    var outs', ps', cs' := outs + [out], ps + [p], cs + [c];
    forall i | 0 <= i < |outs'|
      ensures Agrees(b, ops, outs', ps', cs', i)
    {
      if i < |outs| {
        assert Agrees(b, ops, outs, ps, cs, i);
      }
    }
    assert cs'[|outs|] == cs[|outs|] && cs'[|outs| + 1] == c;
    assert outs'[..|outs|] == outs;
  }

  /**
   * Any mix of calls agrees with an unbuffered stream: ps are the positions of the stream, and in each
   * call during which no read fails the stream gives all it should. The program stops early only when
   * a read has failed, or at a call that has nothing to put back, would seek to a negative position or
   * after the end of the file was met and cleared, or has pushback before a full buffer.
   */
  method Mix(b: Biobufhdr, ops: seq<Op>) returns (outs: seq<Bytes>, ghost ps: seq<int>, ghost cs: seq<nat>)
    requires b.Valid() && b.Seekable() && b.state != Binactive
    modifies b, b.buf, b.file
    ensures Trace(b, ops, outs, ps, cs) && ps[0] == old(b.Pos()) && ps[|outs|] == b.Pos()
    ensures cs[0] == old(b.file.calls) && cs[|outs|] == b.file.calls
    ensures b.Valid() && (b.state == Binactive ==> Failed(b, cs))
    ensures |outs| == |ops| || b.state == Binactive || !Ready(b, ops[|outs|], Can(ops, outs), Met(ops, outs))
  {
    outs, ps, cs := [], [b.Pos()], [b.file.calls];
    var can, met := 0, false;
    while |outs| < |ops| && b.state != Binactive && Ready(b, ops[|outs|], can, met)
      invariant Trace(b, ops, outs, ps, cs) && ps[0] == old(b.Pos()) && ps[|outs|] == b.Pos()
      invariant cs[0] == old(b.file.calls) && cs[|outs|] == b.file.calls
      invariant b.state == Binactive ==> Failed(b, cs)
      invariant can == Can(ops, outs) && met == Met(ops, outs) && Known(b, can, met)
      decreases |ops| - |outs|
    {
      var op := ops[|outs|];
      var out := One(b, op, can, met);
      TraceGrows(b, ops, outs, ps, cs, out, b.Pos(), b.file.calls);
      can, met := CanAfter(can, op, out), MetAfter(met, op, out);
      outs, ps, cs := outs + [out], ps + [b.Pos()], cs + [b.file.calls];
    }
  }

  /** The bytes of the file at from. */
  ghost predicate Same(p: seq<int>, content: Bytes, from: int) {
    forall k {:trigger p[k]} :: 0 <= k < |p| ==> 0 <= from + k < |content| && p[k] == content[from + k]
  }

  /** Up to n bytes by Bgetc, each of which can be put back. */
  method GetSome(b: Biobufhdr, n: nat) returns (p: seq<int>)
    requires b.Valid() && b.state == Bractive && n <= BUNGETSIZE <= b.bsize
    modifies b, b.buf, b.file
    ensures b.Valid() && |p| <= n && b.Pos() == old(b.Pos()) + |p| && b.Back() >= |p| && Same(p, b.file.content, old(b.Pos()))
    ensures old(b.file.calls) <= b.file.calls && (b.state == Binactive <==> b.file.Fails(old(b.file.calls), b.file.calls))
    ensures |p| == n || b.state == Binactive || b.Pos() >= |b.file.content|
  {
    p := [];
    while |p| < n
      invariant b.Valid() && b.state == Bractive && |p| <= n && b.Pos() == old(b.Pos()) + |p| && b.Back() >= |p|
      invariant Same(p, b.file.content, old(b.Pos()))
      invariant old(b.file.calls) <= b.file.calls && !b.file.Fails(old(b.file.calls), b.file.calls)
    {
      var c := b.Bgetc();
      if c == BEOF {
        return;
      }
      p := p + [c];
    }
  }

  /**
   * Up to four bytes that Bgetc has handed out can be put back, even if every one of them came with
   * a refill of its own, or the end of the file came behind them; and then Bgetc hands out the same
   * bytes again. Only if a read fails nothing can be put back.
   */
  method PutBack(b: Biobufhdr, n: nat) returns (first: seq<int>, again: seq<int>)
    requires b.Valid() && b.state == Bractive && n <= BUNGETSIZE <= b.bsize
    modifies b, b.buf, b.file
    ensures old(b.file.calls) <= b.file.calls && (b.state == Binactive <==> b.file.Fails(old(b.file.calls), b.file.calls))
    ensures |first| <= n && Same(first, b.file.content, old(b.Pos()))
    ensures |first| == n || b.state == Binactive || old(b.Pos()) + |first| >= |b.file.content|
    ensures b.state != Binactive ==> again == first
    ensures b.Valid() && b.Pos() == old(b.Pos()) + |first|
  {
    first := GetSome(b, n);
    again := [];
    if b.state == Binactive {
      return;
    }
    ghost var calls := b.file.calls;
    var k := 0;
    while k < |first|
      invariant k <= |first| && b.Valid() && b.state != Binactive && b.Back() >= |first| - k && b.Pos() == old(b.Pos()) + |first| - k
      invariant b.icount <= -k && (k > 0 ==> b.state == Bractive) && b.file.calls == calls
    {
      var _ := b.Bungetc();
      k := k + 1;
    }
    while |again| < |first|
      invariant |again| <= |first| && b.Valid() && b.Pos() == old(b.Pos()) + |again| && b.state != Binactive
      invariant again == first[..|again|] && b.file.calls == calls
      invariant b.icount <= |again| - |first|
    {
      var c := b.Bgetc();
      again := again + [c];
    }
  }

  // ---------------------------------------------------------------- calls that go wrong

  /** A buffer for a file whose reads return one byte each. */
  method OneByOne(content: Bytes, size: nat) returns (b: Biobufhdr)
    requires size > BUNGETSIZE
    ensures fresh(b) && fresh(b.buf) && fresh(b.file) && b.Valid() && b.Seekable() && b.Pos() == 0 == b.icount && b.state == Bractive
    ensures b.file.content == content && b.bsize == size - BUNGETSIZE && b.buf.Length == size
    ensures (forall c :: b.file.script(c) == 1) && forall k {:trigger b.buf[k]} :: 0 <= k < size ==> b.buf[k] == 0
  {
    var file := new File(content, _ => 1);
    b := new Biobufhdr(file, size);
  }

  /** Two bytes are read and put back, and there is room for one: Brdline, which finds nothing, loses the first. */
  method LosesPushback() returns (b: Biobufhdr, ip: Option<nat>)
    ensures fresh(b) && b.Valid() && ip.None? && b.Pos() == 1
  {
    b := OneByOne([7, 8, 9], BUNGETSIZE + 1);
    var c := b.Bgetc();
    assert c == 7 && b.icount == 0;
    c := b.Bgetc();
    assert c == 8 && b.icount == 0;
    var _ := b.Bungetc();
    var _ := b.Bungetc();
    assert b.Valid() && b.Pos() == 0 && b.icount == -2;
    ghost var failed;
    ip, failed := b.Brdline(10);
    assert b.Finds(0, 1, ip, 10, failed, false);
  }

  /** A byte is put back that never was there. */
  method PutsBackNothing() returns (b: Biobufhdr)
    ensures fresh(b) && b.state == Bractive && b.Pos() == -1 && !b.Valid()
  {
    b := OneByOne([], BUNGETSIZE + 1);
    var _ := b.Bungetc();
  }

  /** A seek goes to a position before the beginning. */
  method SeeksBeforeStart() returns (b: Biobufhdr, n: int)
    ensures fresh(b) && b.state == Bractive && n == BEOF == b.Pos() && !b.Valid()
  {
    b := OneByOne([], BUNGETSIZE + 1);
    n := b.Bseek(-1, 0);
  }

  /**
   * After the end of the file was met and cleared, a seek back believes that the buffer is full of good
   * bytes. The one that is handed out next was never read.
   */
  method SeeksIntoStaleBytes() returns (b: Biobufhdr, n: int)
    ensures fresh(b) && b.state == Bractive && n == 4 == b.Pos() && b.icount == -1 && !b.Valid()
    ensures b.file.content == [1, 1, 1, 1, 1] && b.buf.Length > 0 && b.buf[b.buf.Length + b.icount] == 0
  {
    b := OneByOne([1, 1, 1, 1, 1], BUNGETSIZE + 1);
    n := b.Bseek(5, 0);
    assert b.icount == 0;
    var c := b.Bgetc();
    assert b.state == Bracteof && b.gbuf == BUNGETSIZE;
    c := b.Bgetc();
    assert b.offset == 5;
    n := b.Bseek(4, 0);
    assert b.buf[4] == 0 && b.file.content[4] == 1;
  }
}
