/** The circular character buffers of device/cirbuf.c, refining a bounded queue of bytes. */
module Cirbuf {
  import opened Options

  /** What a `short` shows of a number: it wraps around at 16 bits. */
  function Short(n: int): (r: int)
    ensures -0x8000 <= r < 0x8000
    decreases if n < 0 then -2 * n else 2 * n + 1
  {
    if n >= 0x8000 then Short(n - 0x1_0000) else if n < -0x8000 then Short(n + 0x1_0000) else n
  }

  lemma ShortWraps(n: int)
    ensures Short(n - 0x1_0000) == Short(n)
  {}

  lemma {:induction false} ShortSum(n: int, i: int)
    ensures Short(Short(n) + i) == Short(n + i)
    decreases if n < 0 then -2 * n else 2 * n + 1
  {
    if n >= 0x8000 {
      ShortSum(n - 0x1_0000, i);
      ShortWraps(n + i);
    } else if n < -0x8000 {
      ShortSum(n + 0x1_0000, i);
      ShortWraps(n + 0x1_0000 + i);
    }
  }

  lemma ShortDifference(n: int, i: int)
    ensures Short(Short(n) - i) == Short(n - i)
  {
    ShortSum(n, -i);
  }

  // ---------------------------------------------------------------- the bounded queue

  /** One put: refused when the queue is full. */
  function Put(q: seq<byte>, capacity: nat, c: byte): seq<byte> { if |q| < capacity then q + [c] else q }

  /** Puts of one byte after the other, up to the first refusal. */
  function PutAll(q: seq<byte>, capacity: nat, s: seq<byte>): seq<byte>
    decreases |s|
  {
    if s == [] || |q| >= capacity then q else PutAll(Put(q, capacity, s[0]), capacity, s[1..])
  }

  /** How many of the puts are refused. */
  function Refused(q: seq<byte>, capacity: nat, s: seq<byte>): nat
    decreases |s|
  {
    if s == [] || |q| >= capacity then |s| else Refused(Put(q, capacity, s[0]), capacity, s[1..])
  }

  /** What `n` gets of one byte take, up to the first that finds nothing, and what they leave. */
  function Taken(q: seq<byte>, n: nat): seq<byte> { if n == 0 || q == [] then [] else [q[0]] + Taken(q[1..], n - 1) }

  function Rest(q: seq<byte>, n: nat): seq<byte> { if n == 0 || q == [] then q else Rest(q[1..], n - 1) }

  lemma {:induction false} PutAllIs(q: seq<byte>, capacity: nat, s: seq<byte>)
    requires |q| <= capacity
    ensures var n := Min(|s|, capacity - |q|);
      PutAll(q, capacity, s) == q + s[..n] && Refused(q, capacity, s) == |s| - n
    decreases |s|
  {
    if s != [] && |q| < capacity {
      PutAllIs(q + [s[0]], capacity, s[1..]);
      var n := Min(|s|, capacity - |q|);
      assert s[..n] == [s[0]] + s[1..][..n - 1];
    }
  }

  lemma {:induction false} TakenIs(q: seq<byte>, n: nat)
    ensures Taken(q, n) == q[..Min(n, |q|)] && Rest(q, n) == q[Min(n, |q|)..]
    decreases n
  {
    if n > 0 && q != [] {
      TakenIs(q[1..], n - 1);
      assert q[..Min(n, |q|)] == [q[0]] + q[1..][..Min(n, |q|) - 1];
    }
  }

  // ---------------------------------------------------------------- the ring

  /** From the read pointer to the write pointer, past the end if need be. */
  function View(buf: seq<byte>, cf: nat, cl: nat): (v: seq<byte>)
    requires cf < |buf| && cl < |buf|
    ensures |v| == if cf <= cl then cl - cf else |buf| - cf + cl
  {
    if cf <= cl then buf[cf..cl] else buf[cf..] + buf[..cl]
  }

  function Advance(p: nat, i: nat, size: nat): nat { if p + i == size then 0 else p + i }

  /** The place before the read pointer, which the write pointer may not pass. */
  function Limit(cf: nat, size: nat): nat
    requires size > 0
  {
    if cf == 0 then size - 1 else cf - 1
  }

  /** How much can be written in one piece. */
  function Space(cf: nat, cl: nat, size: nat): nat
    requires cf < size && cl < size && cl != Limit(cf, size)
  {
    if cl < Limit(cf, size) then Limit(cf, size) - cl else size - cl
  }

  /** How much can be read in one piece. */
  function Available(cf: nat, cl: nat, size: nat): nat
    requires cf < size && cl < size && cl != cf
  {
    if cl < cf then size - cf else cl - cf
  }

  lemma FullAt(buf: seq<byte>, cf: nat, cl: nat)
    requires cf < |buf| && cl < |buf|
    ensures |View(buf, cf, cl)| <= |buf| - 1 && (cl == Limit(cf, |buf|) <==> |View(buf, cf, cl)| == |buf| - 1)
    ensures cl == cf <==> View(buf, cf, cl) == []
  {}

  lemma Written(buf: seq<byte>, buf': seq<byte>, cf: nat, cl: nat, chunk: seq<byte>)
    requires cf < |buf| == |buf'| && cl < |buf| && cl != Limit(cf, |buf|) && 0 < |chunk| <= Space(cf, cl, |buf|)
    requires buf' == buf[..cl] + chunk + buf[cl + |chunk|..]
    ensures var cl' := Advance(cl, |chunk|, |buf|);
      cl' < |buf| && View(buf', cf, cl') == View(buf, cf, cl) + chunk
  {
    var cl' := Advance(cl, |chunk|, |buf|);
    if cf <= cl {
      assert buf'[cf..cl + |chunk|] == buf[cf..cl] + chunk;
    } else {
      assert buf'[cf..] == buf[cf..];
      assert buf'[..cl'] == buf[..cl] + chunk;
    }
  }

  lemma Read(buf: seq<byte>, cf: nat, cl: nat, i: nat)
    requires cf < |buf| && cl < |buf| && cl != cf && 0 < i <= Available(cf, cl, |buf|)
    ensures var cf' := Advance(cf, i, |buf|);
      && cf' < |buf| && i <= |View(buf, cf, cl)| && buf[cf..cf + i] == View(buf, cf, cl)[..i]
      && View(buf, cf', cl) == View(buf, cf, cl)[i..]
  {}

  class Ring {
    const data: array<byte>
    var cf: nat
    var cl: nat
    var cc: int

    ghost predicate Valid()
      reads this, data
    {
      cf < data.Length && cl < data.Length && cc == Short(|View(data[..], cf, cl)|)
    }

    ghost function Contents(): seq<byte>
      reads this, data
      requires Valid()
    {
      View(data[..], cf, cl)
    }

    /** cb_alloc. */
    constructor (size: nat)
      requires size > 0
      ensures Valid() && fresh(data) && data.Length == size && Contents() == []
    {
      data := new byte[size](_ => 0);
      cf, cl, cc := 0, 0, 0;
    }

    /** cb_clear. */
    method Clear()
      requires Valid()
      modifies this
      ensures Valid() && Contents() == []
    {
      cf, cl, cc := 0, 0, 0;
    }

    /** putc: 1 if the character was not entered. */
    method Putc(c: int) returns (r: int)
      requires Valid()
      modifies this, data
      ensures Valid() && Contents() == Put(old(Contents()), data.Length - 1, c % 0x100)
      ensures r == if |old(Contents())| < data.Length - 1 then 0 else 1
    {
      FullAt(data[..], cf, cl);
      if Advance(cl, 1, data.Length) == cf {
        return 1;
      }
      Give([c % 0x100]);
      return 0;
    }

    /** getc: -1 if there is nothing. */
    method Getc() returns (c: int)
      requires Valid()
      modifies this
      ensures Valid()
      ensures if old(Contents()) == [] then c == -1 && Contents() == []
              else c == old(Contents())[0] && Contents() == old(Contents())[1..]
    {
      FullAt(data[..], cf, cl);
      if cf == cl {
        return -1;
      }
      Read(data[..], cf, cl, 1);
      ShortDifference(|View(data[..], cf, cl)|, 1);
      c := data[cf];
      cf := Advance(cf, 1, data.Length);
      cc := Short(cc - 1);
    }

    /** memcpy into the ring. */
    method Fill(at: nat, chunk: seq<byte>)
      requires at + |chunk| <= data.Length
      modifies data
      ensures data[..] == old(data[..at]) + chunk + old(data[at + |chunk|..])
    {
      forall k | 0 <= k < |chunk| {
        data[at + k] := chunk[k];
      }
    }

    /** One piece is copied in. */
    method Give(chunk: seq<byte>)
      requires Valid() && cl != Limit(cf, data.Length) && 0 < |chunk| <= Space(cf, cl, data.Length)
      modifies this, data
      ensures Valid() && Contents() == old(Contents()) + chunk
    {
      ghost var was := data[..];
      Fill(cl, chunk);
      Written(was, data[..], cf, cl, chunk);
      ShortSum(|View(was, cf, cl)|, |chunk|);
      cc := Short(cc + |chunk|);
      cl := Advance(cl, |chunk|, data.Length);
    }

    /** One piece is read out. */
    method Take(i: nat) returns (chunk: seq<byte>)
      requires Valid() && cl != cf && 0 < i <= Available(cf, cl, data.Length)
      modifies this
      ensures i <= |old(Contents())| && chunk == old(Contents())[..i]
      ensures Valid() && Contents() == old(Contents())[i..]
    {
      Read(data[..], cf, cl, i);
      ShortDifference(|View(data[..], cf, cl)|, i);
      chunk := data[cf..cf + i];
      cc := Short(cc - i);
      cf := Advance(cf, i, data.Length);
    }

    /** One turn of the loop of b_to_q: as much as fits in one piece. */
    method GiveSome(cp: seq<byte>, count: nat, ghost q: seq<byte>) returns (left: nat)
      requires Valid() && 0 < count <= |cp| && Contents() == q + cp[..|cp| - count] && cl != Limit(cf, data.Length)
      modifies this, data
      ensures left < count && Valid() && Contents() == q + cp[..|cp| - left]
    {
      var i := Min(Space(cf, cl, data.Length), count);
      var done := |cp| - count;
      TakeMore(q, cp, done, i);
      Give(cp[done..done + i]);
      left := count - i;
    }

    /** b_to_q: the number of characters that were not entered. */
    method BToQ(cp: seq<byte>) returns (count: nat)
      requires Valid()
      modifies this, data
      ensures Valid() && Contents() == PutAll(old(Contents()), data.Length - 1, cp)
      ensures count == Refused(old(Contents()), data.Length - 1, cp)
    {
      ghost var q := Contents();
      count := |cp|;
      while count != 0
        invariant count <= |cp| && Valid() && Contents() == q + cp[..|cp| - count]
      {
        if cl == Limit(cf, data.Length) {
          break;
        }
        count := GiveSome(cp, count, q);
      }
      FullAt(data[..], cf, cl);
      PutAllIs(q, data.Length - 1, cp);
    }

    /** q_to_b: the characters moved. */
    method QToB(count: nat) returns (cp: seq<byte>)
      requires Valid()
      modifies this
      ensures Valid() && cp == Taken(old(Contents()), count) && Contents() == Rest(old(Contents()), count)
    {
      ghost var q := Contents();
      cp := [];
      var left: nat := count;
      while left != 0
        invariant Valid() && |cp| + left == count && |cp| <= |q| && cp == q[..|cp|] && Contents() == q[|cp|..]
      {
        if cl == cf {
          break;
        }
        var i := Min(Available(cf, cl, data.Length), left);
        var chunk := Take(i);
        Split(q, |cp|, i);
        cp := cp + chunk;
        left := left - i;
      }
      FullAt(data[..], cf, cl);
      TakenIs(q, count);
    }

    /** ndflush. */
    method Flush(count: nat)
      requires Valid()
      modifies this
      ensures Valid() && Contents() == Rest(old(Contents()), count)
    {
      ghost var q: seq<byte>, n: nat := Contents(), 0;
      var left: nat := count;
      while left != 0
        invariant Valid() && n + left == count && 0 <= n <= |q| && Contents() == q[n..]
      {
        if cl == cf {
          break;
        }
        var i := Min(Available(cf, cl, data.Length), left);
        var _ := Take(i);
        Split(q, n, i);
        n := n + i;
        left := left - i;
      }
      FullAt(data[..], cf, cl);
      TakenIs(q, count);
    }
  }

  lemma TakeMore(q: seq<byte>, s: seq<byte>, n: nat, i: nat)
    requires n + i <= |s|
    ensures q + s[..n] + s[n..n + i] == q + s[..n + i]
  {}

  lemma Split(q: seq<byte>, n: nat, i: nat)
    requires n + i <= |q|
    ensures q[..n] + q[n..][..i] == q[..n + i] && q[n..][i..] == q[n + i..]
  {}
}
