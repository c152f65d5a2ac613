/**
 * Buffered input of src/libbio. The buffer is right-justified: what has not been handed out yet
 * are the last -icount bytes of it, and four bytes before its beginning are kept for pushback.
 */
module Biobuf {
  import opened Counting
  import opened Options

  type Byte = x: int | 0 <= x < 256
  type Bytes = seq<Byte>

  const BUNGETSIZE: nat := 4
  const BEOF := -1

  datatype State = Binactive | Bractive | Bracteof

  /**
   * An open file with a position. Any read may be short or fail, as the script says: a negative
   * number is an error, another one the most that read returns.
   */
  class File {
    const content: Bytes
    const script: nat -> int
    var pos: nat
    var calls: nat

    constructor (content: Bytes, script: nat -> int)
      ensures this.content == content && this.script == script && pos == 0
    {
      this.content, this.script, pos, calls := content, script, 0, 0;
    }

    /** One of the reads from number lo up to number hi fails. */
    ghost predicate Fails(lo: nat, hi: nat) {
      exists c {:trigger script(c)} :: lo <= c < hi && script(c) < 0
    }

    method Read(count: nat) returns (n: int, data: Bytes)
      requires count > 0
      modifies this
      ensures calls == old(calls) + 1 && (n < 0 <==> script(old(calls)) < 0)
      ensures n <= 0 ==> data == [] && pos == old(pos) && (n == 0 ==> pos >= |content|)
      ensures n > 0 ==> n == |data| <= count && pos == old(pos) + n <= |content| && data == content[old(pos)..pos]
    {
      var k := script(calls);
      calls := calls + 1;
      if k < 0 {
        return -1, [];
      }
      if pos >= |content| {
        return 0, [];
      }
      n := Min(Min(if k == 0 then 1 else k, count), |content| - pos);
      data := content[pos..pos + n];
      pos := pos + n;
    }

    /** seek to a position, which must not be negative. */
    method Seek(p: int) returns (n: int)
      modifies this`pos
      ensures if p < 0 then n == -1 && pos == old(pos) else n == p == pos
    {
      if p < 0 {
        return -1;
      }
      pos := p;
      return p;
    }
  }
}

module BiobufCode {
  import opened Counting
  import opened Options
  import opened Biobuf

  class Biobufhdr {
    const file: File
    const bsize: nat
    const buf: array<Byte>
    var icount: int
    var rdline: int
    var state: State
    var offset: int
    /** The index of gbuf in buf; bbuf is BUNGETSIZE and ebuf the length of buf. */
    var gbuf: int
    /** How many bytes at the end of the buffer are those of the file before offset. */
    ghost var valid: nat

    /** The position in the file: what Boffset gives in the reading states. */
    function Pos(): int
      reads this
    {
      offset + icount
    }

    /** How many bytes can be put back. */
    ghost function Back(): int
      reads this
    {
      valid + icount
    }

    /** How far pushback reaches before a full buffer. */
    ghost function Excess(): nat
      reads this
    {
      if -icount > bsize then -icount - bsize else 0
    }

    ghost predicate Shape()
      reads this
    {
      && bsize > 0 && buf.Length == BUNGETSIZE + bsize
      && icount <= 0 && 0 <= offset && -icount <= valid
      && BUNGETSIZE <= gbuf <= buf.Length
      && (state == Bracteof ==> icount == 0 && offset >= |file.content|)
    }

    /** The last v bytes of the buffer are the v bytes of the file before position end. */
    ghost predicate Tail(end: int, v: int)
      reads buf
    {
      && 0 <= v <= buf.Length && (v > 0 ==> v <= end <= |file.content|)
      && forall k {:trigger buf[k]} :: buf.Length - v <= k < buf.Length ==> buf[k] == file.content[k - buf.Length + end]
    }

    ghost predicate Valid()
      reads this, buf, file
    {
      Shape() && file.pos == offset && Tail(offset, valid)
    }

    /** What gbuf calls good data is good data, or will not be looked at. */
    ghost predicate Seekable()
      reads this
    {
      state == Bracteof || buf.Length - gbuf <= valid
    }

    /** Binits for reading. */
    constructor (file: File, size: nat)
      requires size > BUNGETSIZE && file.pos == 0
      ensures Valid() && Seekable() && Pos() == 0 == icount && state == Bractive && fresh(buf) && this.file == file
      ensures bsize == size - BUNGETSIZE && forall k {:trigger buf[k]} :: 0 <= k < buf.Length ==> buf[k] == 0
    {
      this.file := file;
      bsize := size - BUNGETSIZE;
      buf := new Byte[size](_ => 0);
      icount, rdline, state, offset, gbuf, valid := 0, 0, Bractive, 0, size, 0;
    }

    /** memmove within the buffer. */
    method Move(dst: nat, src: nat, n: nat)
      requires dst + n <= buf.Length && src + n <= buf.Length
      modifies buf
      ensures forall k {:trigger buf[k]} :: 0 <= k < buf.Length ==>
                buf[k] == if dst <= k < dst + n then old(buf[k - dst + src]) else old(buf[k])
    {
      forall k | dst <= k < dst + n {
        buf[k] := buf[k - dst + src];
      }
    }

    /** read into the buffer. */
    method ReadInto(at: nat, count: nat) returns (n: int)
      requires count > 0 && at + count <= buf.Length
      modifies buf, file
      ensures file.calls == old(file.calls) + 1 && (n < 0 <==> file.script(old(file.calls)) < 0)
      ensures n <= 0 ==> file.pos == old(file.pos) && (n == 0 ==> file.pos >= |file.content|)
      ensures n > 0 ==> n <= count && file.pos == old(file.pos) + n <= |file.content|
      ensures forall k {:trigger buf[k]} :: 0 <= k < buf.Length ==>
                buf[k] == if at <= k < at + n then file.content[k - at + old(file.pos)] else old(buf[k])
    {
      var data;
      n, data := file.Read(count);
      if n > 0 {
        forall k | at <= k < at + n {
          buf[k] := data[k - at];
        }
      }
    }

    // ---------------------------------------------------------------- bgetc.c

    /** What the refill of Bgetc does to the buffer: four bytes of what was there before are kept. */
    method FillBuffer(ghost v: nat) returns (i: int)
      requires bsize > 0 && buf.Length == BUNGETSIZE + bsize && Tail(file.pos, v)
      modifies buf, file
      ensures file.calls == old(file.calls) + 1 && (i < 0 <==> file.script(old(file.calls)) < 0)
      ensures i <= 0 ==> file.pos == old(file.pos) && (i == 0 ==> file.pos >= |file.content|) && Tail(file.pos, Min(v, bsize))
      ensures i > 0 ==> i <= bsize && file.pos == old(file.pos) + i <= |file.content| && Tail(file.pos, i + Min(v, BUNGETSIZE))
      ensures i <= 0 ==> forall k {:trigger buf[k]} :: BUNGETSIZE <= k < buf.Length ==> buf[k] == old(buf[k])
    {
      var ebuf := buf.Length;
      Move(0, ebuf - BUNGETSIZE, BUNGETSIZE);
      i := ReadInto(BUNGETSIZE, bsize);
      assert i > 0 ==> forall k :: BUNGETSIZE - Min(v, BUNGETSIZE) <= k < BUNGETSIZE + i ==>
                         buf[k] == file.content[k - BUNGETSIZE + old(file.pos)];
      if 0 < i < bsize {
        Move(ebuf - i - BUNGETSIZE, 0, i + BUNGETSIZE);
      }
    }

    /** The refill of Bgetc. */
    method Refill() returns (i: int)
      requires Valid() && icount == 0 && state == Bractive
      modifies this, buf, file
      ensures Valid() && Pos() == old(Pos())
      ensures file.calls == old(file.calls) + 1 && (i < 0 <==> file.script(old(file.calls)) < 0)
      ensures i > 0 ==> state == Bractive && Seekable() && icount == -i && Pos() < |file.content|
      ensures i > 0 ==> valid == i + Min(old(valid), BUNGETSIZE) && i <= bsize
      ensures i <= 0 ==> icount == 0 && valid == Min(old(valid), bsize)
      ensures i == 0 ==> state == Bracteof && Pos() >= |file.content|
      ensures i < 0 ==> state == Binactive
      ensures i <= 0 ==> gbuf == BUNGETSIZE && forall k {:trigger buf[k]} :: BUNGETSIZE <= k < buf.Length ==> buf[k] == old(buf[k])
    {
      i := FillBuffer(valid);
      gbuf := BUNGETSIZE;
      if i <= 0 {
        state := if i < 0 then Binactive else Bracteof;
        valid := Min(valid, bsize);
        return;
      }
      if i < bsize {
        gbuf := buf.Length - i;
      }
      icount, offset, valid := -i, offset + i, i + Min(valid, BUNGETSIZE);
    }

    /** The next state when there is nothing in the buffer: an end of file or an error is reported once more by the caller. */
    ghost function NextState(failed: bool): State
      reads this
    {
      if icount < 0 || state == Binactive then state
      else if state == Bracteof then Bractive
      else if failed then Binactive
      else if Pos() >= |file.content| then Bracteof
      else Bractive
    }

    /**
     * Bgetc: the next byte, or BEOF exactly if nothing is buffered and the file is at its end, the one
     * read that is made fails, or the state forbids to read.
     */
    method Bgetc() returns (c: int)
      requires Valid()
      modifies this, buf, file
      ensures Valid()
      ensures file.calls == old(file.calls) + B(old(icount) == 0 && old(state) == Bractive)
      ensures c == BEOF <==> old(icount) == 0 && (old(state) != Bractive || file.Fails(old(file.calls), file.calls) || old(Pos()) >= |file.content|)
      ensures state == old(NextState(file.script(file.calls) < 0))
      ensures c != BEOF ==> old(Pos()) < |file.content| && c == file.content[old(Pos())] && Pos() == old(Pos()) + 1
      ensures c != BEOF ==> Back() >= Min(old(Back()), BUNGETSIZE) + 1 && (old(Seekable()) ==> Seekable())
      ensures c == BEOF ==> Pos() == old(Pos()) && icount == 0 && Back() >= Min(old(Back()), bsize)
      ensures -old(icount) <= bsize ==> -icount <= bsize
      ensures if old(icount) < 0 then icount == old(icount) + 1 else -icount < bsize
      ensures c == BEOF ==> gbuf == (if old(state) == Bractive then BUNGETSIZE else old(gbuf)) && forall k {:trigger buf[k]} :: BUNGETSIZE <= k < buf.Length ==> buf[k] == old(buf[k])
    {
      if icount == 0 {
        if state != Bractive {
          if state == Bracteof {
            state := Bractive;
          }
          return BEOF;
        }
        var i := Refill();
        if i <= 0 {
          return BEOF;
        }
      }
      c := buf[buf.Length + icount];
      icount := icount + 1;
    }

    /** Pushback: one byte back, and that is the byte handed out last exactly if there is one to put back. */
    method Bungetc() returns (r: int)
      requires Valid()
      modifies this`icount, this`state
      ensures old(state) == Binactive ==> r == BEOF && Valid() && Pos() == old(Pos()) && state == Binactive
      ensures old(state) != Binactive ==> r == 1 && icount == old(icount) - 1 && offset == old(offset) && state == Bractive
      ensures old(state) != Binactive ==> (Valid() <==> old(Back()) > 0)
      ensures old(state) == Bractive && old(Seekable()) ==> Seekable()
    {
      if state == Bracteof {
        state := Bractive;
      }
      if state != Bractive {
        return BEOF;
      }
      icount := icount - 1;
      return 1;
    }

    /** Boffset. */
    method Boffset() returns (n: int)
      requires Valid()
      ensures n == if state == Binactive then BEOF else Pos()
    {
      return if state == Binactive then BEOF else offset + icount;
    }

    // ---------------------------------------------------------------- bread.c

    /** p is what the file has at position from. */
    ghost predicate Handed(from: int, p: Bytes) {
      p == [] || (0 <= from && from + |p| <= |file.content| && p == file.content[from..from + |p|])
    }

    /** The n bytes of the buffer at index ip are those of the file at position from. */
    ghost predicate Shows(ip: int, n: int, from: int)
      reads buf
    {
      && 0 <= ip && 0 < n && ip + n <= buf.Length && 0 <= from && from + n <= |file.content|
      && forall k {:trigger buf[k]} :: ip <= k < ip + n ==> buf[k] == file.content[k - ip + from]
    }

    /** Bytes of the buffer go on from the ones handed out before. */
    lemma Join(p: Bytes, at: nat, m: nat, from: int)
      requires Shows(at, m, from + |p|) && Handed(from, p)
      ensures Handed(from, p + buf[at..at + m])
    {
      var q := buf[at..at + m];
      forall k | 0 <= k < m
        ensures q[k] == file.content[from + |p| + k]
      {
        assert q[k] == buf[at + k];
      }
      if p == [] {
        assert p + q == q;
      }
    }

    /** The refill of Bread. */
    method FillWhole() returns (i: int)
      requires bsize > 0 && buf.Length == BUNGETSIZE + bsize && offset == file.pos && Tail(offset, valid)
      modifies buf, file, this`gbuf, this`offset, this`valid
      ensures offset == file.pos && Tail(offset, valid)
      ensures file.calls == old(file.calls) + 1 && (i < 0 <==> file.script(old(file.calls)) < 0)
      ensures i <= 0 ==> offset == old(offset) && gbuf == old(gbuf) && valid == old(valid)
      ensures i == 0 ==> offset >= |file.content|
      ensures i > 0 ==> i <= bsize && offset == old(offset) + i && valid == i && gbuf == buf.Length - i
    {
      i := ReadInto(BUNGETSIZE, bsize);
      if i <= 0 {
        return;
      }
      gbuf := BUNGETSIZE;
      offset := offset + i;
      if i < bsize {
        Move(buf.Length - i, BUNGETSIZE, i);
        gbuf := buf.Length - i;
      }
      valid := i;
    }

    /** Adds the first m of the last n bytes of the buffer to p. */
    method CopyOut(p: Bytes, n: nat, m: nat, ghost from: int) returns (q: Bytes)
      requires 0 < m <= n <= valid && Tail(offset, valid) && Handed(from, p) && offset - n == from + |p|
      ensures Handed(from, q) && |q| == |p| + m
    {
      var at := buf.Length - n;
      Join(p, at, m, from);
      q := p + buf[at..at + m];
    }

    /** How many bytes there are behind the position. */
    ghost function Ahead(): nat
      reads this
    {
      if Pos() <= |file.content| then |file.content| - Pos() else 0
    }

    /**
     * Bread: as many bytes as asked for, or all there are if no read fails; fewer only at the end of the
     * file, which is what state Bracteof then says, or after a failing read, which is what Binactive says.
     */
    method Bread(count: int) returns (n: int, p: Bytes)
      requires Valid()
      modifies this, buf, file
      ensures Valid() && Pos() == old(Pos()) + |p| && Handed(old(Pos()), p) && old(file.calls) <= file.calls
      ensures old(state) == Bractive ==> (state == Binactive <==> file.Fails(old(file.calls), file.calls))
      ensures old(state) == Bractive && state != Binactive ==>
                |p| == (if count <= 0 then 0 else Min(count, old(Ahead()))) && (state == Bracteof <==> |p| < count)
      ensures old(state) == Bractive && state == Binactive ==> |p| < count && icount == 0
      ensures old(state) != Bractive ==>
                state == old(state) && file.calls == old(file.calls) && |p| == if count <= 0 then 0 else Min(count, -old(icount))
      ensures n == if p == [] && state == Binactive then -1 else |p|
      ensures -old(icount) <= bsize ==> -icount <= bsize
      ensures old(Seekable()) ==> Seekable()
    {
      p := [];
      var c, ic := count, icount;
      while c > 0
        invariant ic <= 0 && (-old(icount) <= bsize ==> -ic <= bsize)
        invariant -ic <= valid && offset == file.pos && Tail(offset, valid)
        invariant BUNGETSIZE <= gbuf <= buf.Length && (old(Seekable()) ==> Seekable())
        invariant c == count - |p| && if count > 0 then 0 <= c else p == []
        invariant offset + ic == old(Pos()) + |p| && Handed(old(Pos()), p)
        invariant state == old(state) && (state == Bracteof ==> ic == 0 && offset >= |file.content|)
        invariant old(file.calls) <= file.calls && !file.Fails(old(file.calls), file.calls)
        invariant state != Bractive ==> file.calls == old(file.calls) && offset == old(offset)
        decreases c, if ic == 0 then 1 else 0
      {
        var m := Min(-ic, c);
        if m == 0 {
          if state != Bractive {
            break;
          }
          var i := FillWhole();
          if i <= 0 {
            state := if i < 0 then Binactive else Bracteof;
            break;
          }
          ic := -i;
        } else {
          p := CopyOut(p, -ic, m, old(Pos()));
          c, ic := c - m, ic + m;
        }
      }
      assert old(state) != Bractive && count > 0 ==> |p| == Min(count, -old(icount));
      assert state != Binactive && old(state) == Bractive && count > 0 ==> |p| == Min(count, old(Ahead()));
      icount := ic;
      n := if p == [] && state == Binactive then -1 else |p|;
    }

    // ---------------------------------------------------------------- bseek.c

    /** Where a seek goes. */
    function Target(off: int, base: nat): int
      reads this
    {
      if base == 0 then off else if base == 1 then off + Pos() else off + |file.content|
    }

    /** The target lies behind, and gbuf says that the buffer still has it. */
    ghost predicate Behind(off: int, base: nat)
      reads this
    {
      base <= 1 && state == Bractive && Target(off, base) < Pos() && buf.Length - gbuf >= offset - Target(off, base)
    }

    /**
     * Bseek: the position is the target, and the buffer agrees with the file there, exactly if the
     * target is not negative and the bytes that gbuf vouches for are the file's. Seekable() is enough
     * for the latter.
     */
    method Bseek(off: int, base: nat) returns (n: int)
      requires Valid() && base <= 2
      modifies this, file`pos
      ensures old(state) == Binactive ==> n == BEOF && Valid() && Pos() == old(Pos()) && state == Binactive
      ensures old(state) != Binactive ==> n == if old(Target(off, base) < 0 && !Behind(off, base)) then BEOF else old(Target(off, base))
      ensures old(state) != Binactive ==> n == Pos() && state == Bractive
      ensures old(state) != Binactive ==>
                (Valid() <==> old(Target(off, base) >= 0 && (Behind(off, base) ==> offset - Target(off, base) <= valid)))
      ensures old(Behind(off, base)) ==> offset == old(offset)
      ensures old(Seekable()) ==> Seekable()
      ensures old(Seekable()) && old(state) != Binactive ==> (Valid() <==> old(Target(off, base)) >= 0)
      ensures -old(icount) <= bsize && old(Seekable()) ==> -icount <= bsize
    {
      if state == Binactive {
        return BEOF;
      }
      if state == Bracteof {
        state := Bractive;
        icount := 0;
        gbuf := buf.Length;
      }
      n := off;
      var b := base;
      if b == 1 {
        n := n + Pos();
        b := 0;
      }
      if b == 0 {
        var d := n - Pos();
        if d >= 0 {
          if icount + d <= 0 {
            icount := icount + d;
            return;
          }
        } else if buf.Length - gbuf >= -(icount + d) {
          icount := icount + d;
          return;
        }
      } else {
        n := n + |file.content|;
      }
      n := file.Seek(n);
      icount, gbuf, offset, valid := 0, buf.Length, n, 0;
    }

    // ---------------------------------------------------------------- brdline.c

    /** memchr on the buffer. */
    method MemChr(from: nat, n: nat, delim: int) returns (ep: Option<nat>)
      requires from + n <= buf.Length
      ensures ep.Some? ==> from <= ep.value < from + n && buf[ep.value] == delim && NotIn(from, ep.value, delim)
      ensures ep.None? ==> NotIn(from, from + n, delim)
    {
      var k := from;
      while k < from + n
        invariant from <= k <= from + n && NotIn(from, k, delim)
      {
        if buf[k] == delim {
          return Some(k);
        }
        k := k + 1;
      }
      return None;
    }

    ghost predicate NotIn(lo: int, hi: int, delim: int)
      reads buf
    {
      0 <= lo <= hi <= buf.Length && forall k {:trigger buf[k]} :: lo <= k < hi ==> buf[k] != delim
    }

    /** The first i bytes of the buffer are those of the file at position from. */
    ghost predicate Front(from: int, i: int)
      reads buf
    {
      && 0 <= i <= buf.Length - BUNGETSIZE && (i > 0 ==> 0 <= from && from + i <= |file.content|)
      && forall k {:trigger buf[k]} :: BUNGETSIZE <= k < BUNGETSIZE + i ==> buf[k] == file.content[k - BUNGETSIZE + from]
    }

    /** Moves the first i bytes of the buffer to its end. */
    method Justify(i: nat)
      requires buf.Length == BUNGETSIZE + bsize && i <= bsize && offset == file.pos && Front(offset - i, i)
      modifies buf, this`gbuf, this`valid
      ensures Tail(offset, i) && valid == i && gbuf == buf.Length - i
      ensures forall k {:trigger buf[k]} :: buf.Length - i <= k < buf.Length ==> buf[k] == old(buf[k - bsize + i])
    {
      Move(buf.Length - i, BUNGETSIZE, i);
      gbuf, valid := buf.Length - i, i;
    }

    /** The next n bytes of the file are a line. */
    ghost predicate IsLine(from: int, n: int, delim: int) {
      && 0 <= from && 0 < n && from + n <= |file.content| && file.content[from + n - 1] == delim
      && NoDelim(from, n - 1, delim)
    }

    ghost predicate NoDelim(from: int, n: int, delim: int) {
      0 <= n && (n > 0 ==> 0 <= from && from + n <= |file.content|)
      && forall k {:trigger file.content[k]} :: from <= k < from + n ==> file.content[k] != delim
    }

    lemma TailNoDelim(lo: nat, hi: nat, delim: int)
      requires Tail(offset, valid) && buf.Length - valid <= lo && NotIn(lo, hi, delim)
      ensures NoDelim(offset - (buf.Length - lo), hi - lo, delim)
    {
      var from := offset - (buf.Length - lo);
      forall k | from <= k < from + hi - lo
        ensures file.content[k] != delim
      {
        assert buf[k - offset + buf.Length] == file.content[k];
      }
    }

    lemma FrontNoDelim(from: int, i: nat, n: nat, delim: int)
      requires Front(from, i) && n <= i && NotIn(BUNGETSIZE, BUNGETSIZE + n, delim)
      ensures NoDelim(from, n, delim)
    {
      forall k | from <= k < from + n
        ensures file.content[k] != delim
      {
        assert buf[k - from + BUNGETSIZE] == file.content[k];
      }
    }

    /** Reads on behind the first i0 bytes until the delimiter is read, the buffer is full or read gives nothing. */
    method ReadOn(i0: nat, delim: int) returns (i: nat, ep: Option<nat>, ended: bool, ghost failed: bool)
      requires buf.Length == BUNGETSIZE + bsize && offset == file.pos
      requires Front(offset - i0, i0) && NotIn(BUNGETSIZE, BUNGETSIZE + i0, delim)
      modifies buf, file, this`offset
      ensures old(file.calls) <= file.calls && (failed <==> file.Fails(old(file.calls), file.calls))
      ensures i0 <= i <= bsize && offset == old(offset) + i - i0 == file.pos && Front(offset - i, i)
      ensures ep.Some? ==> BUNGETSIZE <= ep.value < BUNGETSIZE + i && buf[ep.value] == delim && NotIn(BUNGETSIZE, ep.value, delim)
      ensures ep.None? ==> NotIn(BUNGETSIZE, BUNGETSIZE + i, delim)
      ensures ep.None? && !ended ==> i == bsize
      ensures ended ==> ep.None? && i < bsize && (failed || offset >= |file.content|)
      ensures failed ==> ended
    {
      i, ep, ended, failed := i0, None, false, false;
      while i < bsize
        invariant i0 <= i <= bsize && offset == old(offset) + i - i0 == file.pos && Front(offset - i, i)
        invariant NotIn(BUNGETSIZE, BUNGETSIZE + i, delim) && ep.None? && !ended && !failed
        invariant old(file.calls) <= file.calls && !file.Fails(old(file.calls), file.calls)
      {
        var j;
        j, ep := ReadPiece(i, delim);
        if j <= 0 {
          ended, failed := true, j < 0;
          return;
        }
        i := i + j;
        if ep.Some? {
          return;
        }
      }
    }

    /** One read behind the first i bytes, and the search for the delimiter in what it brings. */
    method ReadPiece(i: nat, delim: int) returns (j: int, ep: Option<nat>)
      requires buf.Length == BUNGETSIZE + bsize && offset == file.pos && i < bsize
      requires Front(offset - i, i) && NotIn(BUNGETSIZE, BUNGETSIZE + i, delim)
      modifies buf, file, this`offset
      ensures file.calls == old(file.calls) + 1 && (j < 0 <==> file.script(old(file.calls)) < 0)
      ensures j <= 0 ==> ep.None? && offset == old(offset) == file.pos && (j == 0 ==> offset >= |file.content|)
      ensures j <= 0 ==> Front(offset - i, i) && NotIn(BUNGETSIZE, BUNGETSIZE + i, delim)
      ensures j > 0 ==> i + j <= bsize && offset == old(offset) + j == file.pos && Front(offset - i - j, i + j)
      ensures ep.Some? ==> BUNGETSIZE <= ep.value < BUNGETSIZE + i + j && buf[ep.value] == delim && NotIn(BUNGETSIZE, ep.value, delim)
      ensures j > 0 && ep.None? ==> NotIn(BUNGETSIZE, BUNGETSIZE + i + j, delim)
    {
      var ip := BUNGETSIZE + i;
      j := ReadInto(ip, bsize - i);
      ep := None;
      if j > 0 {
        offset := offset + j;
        ep := MemChr(ip, j, delim);
      }
    }

    /** The same, in terms of the file. */
    method Append(i0: nat, delim: int) returns (i: nat, ep: Option<nat>, ended: bool, ghost failed: bool)
      requires buf.Length == BUNGETSIZE + bsize && offset == file.pos
      requires Front(offset - i0, i0) && NotIn(BUNGETSIZE, BUNGETSIZE + i0, delim)
      modifies buf, file, this`offset
      ensures old(file.calls) <= file.calls && (failed <==> file.Fails(old(file.calls), file.calls))
      ensures i0 <= i <= bsize && offset == old(offset) + i - i0 == file.pos && Front(offset - i, i)
      ensures ep.Some? ==> BUNGETSIZE <= ep.value < BUNGETSIZE + i && IsLine(offset - i, ep.value - BUNGETSIZE + 1, delim)
      ensures ep.None? ==> NoDelim(offset - i, i, delim)
      ensures ep.None? && !ended ==> i == bsize
      ensures ended ==> ep.None? && i < bsize && (failed || offset >= |file.content|)
      ensures failed ==> ended
    {
      i, ep, ended, failed := ReadOn(i0, delim);
      FrontNoDelim(offset - i, i, if ep.Some? then ep.value - BUNGETSIZE else i, delim);
    }

    /** The bytes of the buffer that are still to be handed out go to its beginning. */
    method ToFront(i: nat, delim: int)
      requires buf.Length == BUNGETSIZE + bsize && i <= bsize && i <= valid && Tail(offset, valid)
      requires NotIn(buf.Length - i, buf.Length, delim)
      modifies buf
      ensures Front(offset - i, i) && NotIn(BUNGETSIZE, BUNGETSIZE + i, delim)
    {
      if i < bsize {
        Move(BUNGETSIZE, buf.Length - i, i);
      }
    }

    /** The part of Brdline that reads: the i bytes left have no delimiter. */
    method ReadLine(i0: nat, delim: int) returns (ip: Option<nat>, ghost failed: bool)
      requires Valid() && (state == Bractive || i0 > 0)
      requires i0 == -icount <= bsize && NotIn(buf.Length - i0, buf.Length, delim)
      modifies this, buf, file
      ensures Valid() && Seekable() && state == old(state) && -icount <= bsize && rdline <= bsize
      ensures old(file.calls) <= file.calls && (failed <==> file.Fails(old(file.calls), file.calls))
      ensures Finds(old(Pos()), 0, ip, delim, failed, false)
    {
      ToFront(i0, delim);
      var i: int, ep, ended;
      i, ep, ended, failed := Append(i0, delim);
      ip := ShowLine(i, ep, delim, failed);
    }

    /** Copies the first i bytes of the buffer back up and resets everything. */
    method ShowLine(i: int, ep: Option<nat>, delim: int, ghost failed: bool) returns (ip: Option<nat>)
      requires bsize > 0 && buf.Length == BUNGETSIZE + bsize && 0 <= i <= bsize && i <= offset == file.pos && Front(offset - i, i)
      requires state != Bracteof && (failed ==> ep.None?)
      requires ep.Some? ==> BUNGETSIZE <= ep.value < BUNGETSIZE + i && IsLine(offset - i, ep.value - BUNGETSIZE + 1, delim)
      requires ep.None? ==> NoDelim(offset - i, i, delim) && (i == bsize || failed || offset >= |file.content|)
      modifies this`icount, this`rdline, this`gbuf, this`valid, buf
      ensures Valid() && Seekable() && -icount <= bsize && rdline <= bsize
      ensures Finds(offset - i, 0, ip, delim, failed, false)
    {
      Justify(i);
      if ep.None? {
        rdline, icount := i, -i;
        NoLine(Pos(), i, bsize, delim);
        return None;
      }
      var j := ep.value - BUNGETSIZE + 1;
      rdline := j;
      icount := j - i;
      assert IsLine(offset - i, j, delim);
      return Some(buf.Length - i);
    }

    /** The delimiter is at index ep among the bytes left in the buffer. */
    method LineInRest(start: nat, ep: nat, delim: int)
      requires Valid() && start == buf.Length + icount <= ep < buf.Length && buf[ep] == delim && NotIn(start, ep, delim)
      modifies this`icount, this`rdline
      ensures Valid() && rdline <= -old(icount) && old(icount) <= icount
      ensures Finds(old(Pos()), old(Excess()), Some(start), delim, false, old(Dead()))
    {
      TailNoDelim(start, ep, delim);
      rdline := ep - start + 1;
      icount := icount + rdline;
      assert IsLine(old(Pos()), rdline, delim);
    }

    /** Reading is over: a read has failed before, and all that was buffered has been handed out. */
    ghost predicate Dead()
      reads this
    {
      state == Binactive && icount == 0
    }

    /** With nothing buffered after an end of file or an error there is nothing to look at; an end of file is cleared. */
    method Refuse(ghost n: nat, ghost delim: int)
      requires Valid() && icount == 0 && state != Bractive
      modifies this`state, this`gbuf, this`rdline
      ensures Valid() && Seekable() && rdline == 0 && state == if old(state) == Bracteof then Bractive else old(state)
      ensures n == bsize ==> Finds(Pos(), 0, None, delim, false, old(Dead()))
      ensures n == |file.content| ==> Consumes(Pos(), 0, [], delim, false, false, old(Dead()))
    {
      if state == Bracteof {
        state := Bractive;
      }
      rdline, gbuf := 0, buf.Length;
      NoLine(Pos(), 0, n, delim);
    }

    /** There is a line of at most n bytes at position from. */
    ghost predicate HasLine(from: int, n: int, delim: int) {
      exists k {:trigger IsLine(from, k, delim)} :: k <= n && IsLine(from, k, delim)
    }

    /**
     * What Brdline says about the bytes from pos on: it shows the line there and has consumed it, or there
     * is none that fits and it has consumed no more than lost bytes.
     */
    ghost predicate Finds(pos: int, lost: nat, ip: Option<nat>, delim: int, failed: bool, dead: bool)
      reads this, buf
    {
      && (failed ==> ip.None?)
      && (!failed && !dead ==> (ip.Some? <==> HasLine(pos, bsize + lost, delim)))
      && (ip.Some? ==> IsLine(pos, rdline, delim) && Pos() == pos + rdline && Shows(ip.value, rdline, pos))
      && (ip.None? ==> Pos() == pos + lost && NoDelim(pos, lost + rdline, delim))
      && (ip.None? ==> rdline == bsize || failed || dead || Pos() + rdline >= |file.content|)
    }

    /**
     * Brdline: the index of the line in the buffer, which is rdline bytes long. Unless a read fails, it
     * finds the line if and only if there is one that fits the buffer, or is in the pushback, and then
     * consumes exactly through the first delimiter. Otherwise it consumes nothing at all, except that
     * pushback before a full buffer is lost; the next rdline bytes have no delimiter, and they are a full
     * buffer or all there is.
     */
    method Brdline(delim: int) returns (ip: Option<nat>, ghost failed: bool)
      requires Valid()
      modifies this, buf, file
      ensures Valid() && (old(Seekable()) ==> Seekable()) && rdline <= bsize + old(Excess())
      ensures -old(icount) <= bsize ==> -icount <= bsize
      ensures old(file.calls) <= file.calls && (failed <==> file.Fails(old(file.calls), file.calls))
      ensures Finds(old(Pos()), old(Excess()), ip, delim, failed, old(Dead()))
      ensures state == if old(state) == Bracteof then Bractive else old(state)
    {
      failed := false;
      var i := -icount;
      if i == 0 && state != Bractive {
        Refuse(bsize, delim);
        return None, false;
      }
      var start := buf.Length - i;
      var ep := MemChr(start, i, delim);
      if ep.Some? {
        LineInRest(start, ep.value, delim);
        return Some(start), false;
      }
      ip, failed := LineBeyond(delim);
    }

    /** The part of Brdline after the bytes left in the buffer: they have no delimiter. */
    method LineBeyond(delim: int) returns (ip: Option<nat>, ghost failed: bool)
      requires Valid() && (state == Bractive || icount < 0) && NotIn(buf.Length + icount, buf.Length, delim)
      modifies this, buf, file
      ensures Valid() && Seekable() && state == old(state) && -icount <= bsize && rdline <= bsize
      ensures old(file.calls) <= file.calls && (failed <==> file.Fails(old(file.calls), file.calls))
      ensures Finds(old(Pos()), old(Excess()), ip, delim, failed, false)
    {
      TailNoDelim(buf.Length + icount, buf.Length, delim);
      ghost var pos, lost := Pos(), Excess();
      var i := Trim();
      ip, failed := ReadLine(i, delim);
      FindsBehind(pos, lost, ip, delim, failed);
    }

    /** If bytes are lost, a full buffer without a delimiter is left. */
    lemma FindsBehind(pos: int, lost: nat, ip: Option<nat>, delim: int, failed: bool)
      requires 0 <= pos && (lost > 0 ==> NoDelim(pos, lost + bsize, delim)) && rdline <= bsize
      requires Finds(pos + lost, 0, ip, delim, failed, false)
      ensures Finds(pos, lost, ip, delim, failed, false)
    {
      if lost > 0 {
        assert ip.None?;
        NoDelimJoin(pos, lost, rdline, delim);
        NoLine(pos, lost + bsize, bsize + lost, delim);
      }
    }

    /** The loops go on with a full buffer if there is more than that, and so do the counts afterwards. */
    method Trim() returns (i: int)
      requires Valid()
      modifies this`icount
      ensures Valid() && i == -icount == Min(-old(icount), bsize) && Pos() == old(Pos()) + old(Excess())
      ensures old(Seekable()) ==> Seekable()
    {
      i := Min(-icount, bsize);
      icount := -i;
    }

    /** Without a delimiter in all there is, or in n bytes, there is no line of n bytes. */
    lemma NoLine(from: int, m: int, n: int, delim: int)
      requires NoDelim(from, m, delim)
      ensures from + m >= |file.content| || m >= n ==> !HasLine(from, n, delim)
    {
    }

    method Blinelen() returns (n: int)
      ensures n == rdline
    {
      return rdline;
    }

    // ---------------------------------------------------------------- brdstr.c

    /** badd without the copying: the delimiter at the end goes if nulldelim is set. */
    static function Cut(p: Bytes, delim: int, nulldelim: bool): Bytes {
      if p != [] && nulldelim && p[|p| - 1] == delim then p[..|p| - 1] else p
    }

    /** A line, or as much as there is. */
    ghost predicate Ended(from: int, p: Bytes, delim: int, hit: bool) {
      if hit then IsLine(from, |p|, delim) else NoDelim(from, |p|, delim)
    }

    lemma NoDelimJoin(from: int, n: int, m: int, delim: int)
      requires NoDelim(from, n, delim) && 0 <= from
      ensures NoDelim(from + n, m, delim) ==> NoDelim(from, n + m, delim)
      ensures IsLine(from + n, m, delim) ==> IsLine(from, n + m, delim)
    {
    }

    /** The first n bytes of the buffer are added to the string. */
    method TakeFront(p: Bytes, n: nat, ghost from: int) returns (q: Bytes)
      requires 0 < n && Front(from + |p|, n) && Handed(from, p)
      ensures q == p + buf[BUNGETSIZE..BUNGETSIZE + n] && Handed(from, q) && |q| == |p| + n
    {
      Join(p, BUNGETSIZE, n, from);
      q := p + buf[BUNGETSIZE..BUNGETSIZE + n];
    }

    /** The delimiter is in the buffer: copy back up and hand the line out. */
    method TakeLine(p: Bytes, i: nat, j: nat, ghost from: int) returns (q: Bytes)
      requires Shape() && i <= bsize && 0 < j <= i && offset == file.pos == from + |p| + i && Front(from + |p|, i) && Handed(from, p)
      requires state != Bracteof
      modifies this`icount, this`gbuf, this`valid, buf
      ensures Valid() && Seekable() && icount == j - i && Back() > 0 && Handed(from, q) && |q| == |p| + j
    {
      Justify(i);
      icount := j - i;
      var ip := buf.Length - i;
      Join(p, ip, j, from);
      q := p + buf[ip..ip + j];
    }

    /** The file ends without a delimiter: a zero byte takes its place and is taken off again. */
    method TakeEnd(p: Bytes, i0: nat, ghost from: int) returns (q: Bytes)
      requires Shape() && 0 < i0 < bsize && offset == file.pos == from + |p| + i0 && Front(from + |p|, i0) && Handed(from, p)
      modifies this`icount, this`gbuf, this`valid, buf
      ensures Valid() && icount == 0 && Handed(from, q) && |q| == |p| + i0
    {
      var ip := Smash(i0, from + |p|);
      Join(p, ip, i0, from);
      q := Cut(p + buf[ip..ip + i0 + 1], 0, true);
      CutZero(p, ip, i0);
    }

    lemma CutZero(p: Bytes, ip: nat, n: nat)
      requires ip + n < buf.Length && buf[ip + n] == 0
      ensures Cut(p + buf[ip..ip + n + 1], 0, true) == p + buf[ip..ip + n]
    {
      assert buf[ip..ip + n + 1] == buf[ip..ip + n] + [0];
      assert p + buf[ip..ip + n + 1] == p + buf[ip..ip + n] + [0];
    }

    /** Puts a zero behind the first i0 bytes of the buffer and moves all up; says where they are then. */
    method Smash(i0: nat, ghost from: int) returns (ip: nat)
      requires Shape() && 0 < i0 < bsize && offset == file.pos && Front(from, i0)
      modifies this`icount, this`gbuf, this`valid, buf
      ensures Valid() && icount == 0 && ip + i0 + 1 == buf.Length && Shows(ip, i0, from) && buf[ip + i0] == 0
    {
      buf[BUNGETSIZE + i0] := 0;
      var i := i0 + 1;
      ip := buf.Length - i;
      if i < bsize {
        Move(ip, BUNGETSIZE, i);
        gbuf := ip;
      }
      icount, valid := 0, 0;
    }

    /** The bytes before a full buffer that Brdstr loses: none if it finds the delimiter among the bytes left. */
    ghost function Lost(delim: int): nat
      reads this
    {
      if NoDelim(Pos(), -icount, delim) then Excess() else 0
    }

    /**
     * From pos on, lost bytes are lost and then `all` is consumed: through the first delimiter if there is
     * one, else all there is; less only if a read fails or reading was over before.
     */
    ghost predicate Consumes(pos: int, lost: nat, all: Bytes, delim: int, hit: bool, failed: bool, dead: bool) {
      && Handed(pos + lost, all) && Ended(pos + lost, all, delim, hit) && (failed ==> !hit)
      && (!failed && !dead ==> (hit <==> HasLine(pos, |file.content|, delim)))
      && (!hit ==> failed || dead || pos + lost + |all| >= |file.content|)
    }

    lemma ConsumesBehind(pos: int, lost: nat, all: Bytes, delim: int, hit: bool, failed: bool)
      requires 0 <= pos && NoDelim(pos, lost, delim) && Consumes(pos + lost, 0, all, delim, hit, failed, false)
      ensures Consumes(pos, lost, all, delim, hit, failed, false)
    {
      LineBehind(pos, lost, delim);
    }

    /** There is as much of a line behind bytes without the delimiter. */
    lemma LineBehind(from: int, n: nat, delim: int)
      requires 0 <= from && NoDelim(from, n, delim)
      ensures HasLine(from, |file.content|, delim) <==> HasLine(from + n, |file.content|, delim)
    {
      if HasLine(from, |file.content|, delim) {
        var k :| k <= |file.content| && IsLine(from, k, delim);
        assert IsLine(from + n, k - n, delim);
      }
      if HasLine(from + n, |file.content|, delim) {
        var k :| k <= |file.content| && IsLine(from + n, k, delim);
        assert IsLine(from, n + k, delim);
      }
    }

    /**
     * Brdstr: the string and, in `all`, the bytes it consumes, however long. Unless a read fails, they end
     * with the first delimiter if there is one ahead, which is cut off if nulldelim is set, and else
     * they are all there is. If a read fails they are what was read before, without a delimiter. Pushback
     * before a full buffer is lost if it has to read on.
     */
    method Brdstr(delim: int, nulldelim: bool) returns (r: Option<Bytes>, ghost all: Bytes, hit: bool, ghost failed: bool)
      requires Valid()
      modifies this, buf, file
      ensures Valid() && Pos() == old(Pos()) + old(Lost(delim)) + |all|
      ensures old(file.calls) <= file.calls && (failed <==> file.Fails(old(file.calls), file.calls))
      ensures Consumes(old(Pos()), old(Lost(delim)), all, delim, hit, failed, old(Dead()))
      ensures r == if all == [] then None else Some(if hit then Cut(all, delim, nulldelim) else all)
      ensures r.Some? ==> rdline == |r.value|
      ensures hit ==> Back() > 0 && (old(Seekable()) ==> Seekable())
      ensures state == if old(state) == Bracteof then Bractive else old(state)
      ensures -old(icount) <= bsize ==> -icount <= bsize
    {
      all, hit, failed := [], false, false;
      var i := -icount;
      if i == 0 && state != Bractive {
        Refuse(|file.content|, delim);
        return None, [], false, false;
      }
      var start := buf.Length - i;
      var ep := MemChr(start, i, delim);
      if ep.Some? {
        var s, line := StringInRest(start, ep.value, delim, nulldelim);
        return Some(s), line, true, false;
      }
      r, all, hit, failed := StringBeyond(delim, nulldelim);
    }

    /** The part of Brdstr after the bytes left in the buffer: they have no delimiter. */
    method StringBeyond(delim: int, nulldelim: bool) returns (r: Option<Bytes>, ghost all: Bytes, hit: bool, ghost failed: bool)
      requires Valid() && (state == Bractive || icount < 0) && NotIn(buf.Length + icount, buf.Length, delim)
      modifies this, buf, file
      ensures NoDelim(old(Pos()), -old(icount), delim)
      ensures Valid() && Pos() == old(Pos()) + old(Excess()) + |all|
      ensures Consumes(old(Pos()), old(Excess()), all, delim, hit, failed, false)
      ensures r == if all == [] then None else Some(if hit then Cut(all, delim, nulldelim) else all)
      ensures r.Some? ==> rdline == |r.value|
      ensures old(file.calls) <= file.calls && (failed <==> file.Fails(old(file.calls), file.calls))
      ensures hit ==> Back() > 0 && Seekable()
      ensures state == old(state) && -icount <= bsize
    {
      ghost var pos, lost := Pos(), Excess();
      var i := RestToFront(delim);
      r, all, hit, failed := ReadStr(i, delim, nulldelim);
      ConsumesBehind(pos, lost, all, delim, hit, failed);
    }

    /** The bytes left, or a full buffer of them, go to the beginning of the buffer. */
    method RestToFront(delim: int) returns (i: int)
      requires Valid() && (state == Bractive || icount < 0) && NotIn(buf.Length + icount, buf.Length, delim)
      modifies this`icount, buf
      ensures Going([], i, delim, offset - i) && i == -icount && Pos() == old(Pos()) + old(Excess())
      ensures NoDelim(old(Pos()), -old(icount), delim) && NoDelim(old(Pos()), old(Excess()), delim) && 0 <= old(Pos())
    {
      TailNoDelim(buf.Length + icount, buf.Length, delim);
      i := Trim();
      ToFront(i, delim);
    }

    /** A string that ends with the delimiter or at the end of the file says whether there is a line. */
    lemma HitIff(from: int, p: Bytes, delim: int, hit: bool)
      requires Ended(from, p, delim, hit) && (hit || from + |p| >= |file.content|)
      ensures hit <==> HasLine(from, |file.content|, delim)
    {
      if hit {
        assert IsLine(from, |p|, delim);
      } else {
        NoLine(from, |p|, |file.content|, delim);
      }
    }

    /** The delimiter is at index ep among the bytes left in the buffer. */
    method TakeRest(start: nat, ep: nat, delim: int) returns (line: Bytes)
      requires Valid() && start == buf.Length + icount <= ep < buf.Length && buf[ep] == delim && NotIn(start, ep, delim)
      modifies this`icount
      ensures Valid() && Pos() == old(Pos()) + |line| && Handed(old(Pos()), line) && IsLine(old(Pos()), |line|, delim)
      ensures old(icount) < icount
    {
      var j := ep - start + 1;
      TailNoDelim(start, ep, delim);
      Join([], start, j, Pos());
      line := buf[start..start + j];
      assert [] + line == line;
      icount := icount + j;
    }

    /** The line that ends there as a string. */
    method StringInRest(start: nat, ep: nat, delim: int, nulldelim: bool) returns (s: Bytes, ghost line: Bytes)
      requires Valid() && start == buf.Length + icount <= ep < buf.Length && buf[ep] == delim && NotIn(start, ep, delim)
      modifies this`icount, this`rdline
      ensures Valid() && Pos() == old(Pos()) + |line| && Handed(old(Pos()), line) && IsLine(old(Pos()), |line|, delim)
      ensures s == Cut(line, delim, nulldelim) && line != [] && rdline == |s| && old(icount) < icount
      ensures !NoDelim(old(Pos()), -old(icount), delim) && Consumes(old(Pos()), 0, line, delim, true, false, old(Dead()))
    {
      var l := TakeRest(start, ep, delim);
      line := l;
      s := Cut(l, delim, nulldelim);
      rdline := |s|;
      assert file.content[old(Pos()) + |l| - 1] == delim;
    }

    /** The bytes of p have been taken from position from on, without a delimiter, and the first i of the buffer are next. */
    ghost predicate Going(p: Bytes, i: int, delim: int, from: int)
      reads this, buf, file
    {
      && Shape() && state != Bracteof && 0 <= i <= bsize && offset == file.pos == from + |p| + i && 0 <= from
      && Handed(from, p) && NoDelim(from, |p|, delim)
      && Front(from + |p|, i) && NotIn(BUNGETSIZE, BUNGETSIZE + i, delim)
    }

    /** They are all that is taken. */
    ghost predicate Stopped(p: Bytes, delim: int, from: int, hit: bool, failed: bool)
      reads this, buf, file
    {
      && Valid() && -icount <= bsize && Pos() == from + |p|
      && Handed(from, p) && Ended(from, p, delim, hit) && (failed ==> !hit)
      && (!hit ==> failed || Pos() >= |file.content|) && (hit ==> Back() > 0 && Seekable())
    }

    /** One turn of the outer loop of Brdstr: the string ends, or a full buffer is added to it. */
    method ReadStep(p: Bytes, i0: nat, delim: int, ghost from: int) returns (done: bool, q: Bytes, hit: bool, ghost failed: bool)
      requires Going(p, i0, delim, from)
      modifies this, buf, file
      ensures state == old(state)
      ensures old(file.calls) <= file.calls && (failed <==> file.Fails(old(file.calls), file.calls))
      ensures if done then Stopped(q, delim, from, hit, failed) else Going(q, 0, delim, from) && !hit && !failed
      ensures !done ==> (old(offset) < offset <= |file.content|) || (offset == old(offset) && i0 > 0)
    {
      var i, ep, ended;
      i, ep, ended, failed := Append(i0, delim);
      hit := ep.Some?;
      done := hit || ended;
      if done {
        q := Conclude(p, i, ep, delim, from);
      } else {
        NoDelimJoin(from, |p|, i, delim);
        q := TakeFront(p, bsize, from);
        icount, gbuf := 0, buf.Length;
      }
    }

    /** The string ends with what is in the buffer. */
    method Conclude(p: Bytes, i: nat, ep: Option<nat>, delim: int, ghost from: int) returns (q: Bytes)
      requires Shape() && state != Bracteof && i <= bsize && offset == file.pos == from + |p| + i && (ep.None? ==> i < bsize)
      requires Handed(from, p) && NoDelim(from, |p|, delim) && 0 <= from && Front(from + |p|, i)
      requires ep.Some? ==> BUNGETSIZE <= ep.value < BUNGETSIZE + i && IsLine(from + |p|, ep.value - BUNGETSIZE + 1, delim)
      requires ep.None? ==> NoDelim(from + |p|, i, delim)
      modifies this`icount, this`gbuf, this`valid, buf
      ensures Valid() && -icount <= bsize && Pos() == from + |q| && Handed(from, q) && Ended(from, q, delim, ep.Some?)
      ensures ep.None? ==> icount == 0
      ensures ep.Some? ==> Back() > 0 && Seekable()
    {
      if ep.Some? {
        var j := ep.value - BUNGETSIZE + 1;
        NoDelimJoin(from, |p|, j, delim);
        q := TakeLine(p, i, j, from);
      } else if i == 0 {
        icount, valid, q := 0, 0, p;
      } else {
        NoDelimJoin(from, |p|, i, delim);
        q := TakeEnd(p, i, from);
      }
    }

    /** The loops of Brdstr. */
    method ReadStr(i0: nat, delim: int, nulldelim: bool) returns (r: Option<Bytes>, ghost all: Bytes, hit: bool, ghost failed: bool)
      requires Going([], i0, delim, offset - i0) && i0 == -icount
      modifies this, buf, file
      ensures Valid() && Pos() == old(Pos()) + |all| && Consumes(old(Pos()), 0, all, delim, hit, failed, false)
      ensures r == if all == [] then None else Some(if hit then Cut(all, delim, nulldelim) else all)
      ensures r.Some? ==> rdline == |r.value|
      ensures old(file.calls) <= file.calls && (failed <==> file.Fails(old(file.calls), file.calls))
      ensures hit ==> Back() > 0 && Seekable()
      ensures state == old(state) && -icount <= bsize
    {
      ghost var from := offset - i0;
      var p;
      p, hit, failed := ReadAll(i0, delim, from);
      all := p;
      if !failed {
        HitIff(from, p, delim, hit);
      }
      var s := if hit then Cut(p, delim, nulldelim) else p;
      rdline := |s|;
      r := if p == [] then None else Some(s);
    }

    method ReadAll(i0: nat, delim: int, ghost from: int) returns (p: Bytes, hit: bool, ghost failed: bool)
      requires Going([], i0, delim, from)
      modifies this, buf, file
      ensures Stopped(p, delim, from, hit, failed) && state == old(state)
      ensures old(file.calls) <= file.calls && (failed <==> file.Fails(old(file.calls), file.calls))
    {
      var i, done := i0, false;
      p, hit, failed := [], false, false;
      gbuf := BUNGETSIZE;
      while !done
        invariant state == old(state) && 0 <= i
        invariant old(file.calls) <= file.calls && (failed <==> file.Fails(old(file.calls), file.calls))
        invariant if done then Stopped(p, delim, from, hit, failed) else Going(p, i, delim, from) && !hit && !failed
        decreases !done, |file.content| - offset, i
      {
        done, p, hit, failed := ReadStep(p, i, delim, from);
        i := 0;
      }
    }
  }
}
