/**
  * Messages at the limits of the size computations: for every size there is one that doubles, and for
  * every odd number of words one that msg_usize undercounts.
  */
module CopyUserExtremes {

  import opened Options
  import opened CopyUser
  import opened CopyUserTheorems

  // ---------------------------------------------------------------- the message that doubles

  /**
    * A header and then null pointers to out-of-line memory, a descriptor and an address each.  Where the
    * last word is left over, it is the descriptor of no inline data.
    */
  function Doubling(size: nat): (u: seq<byte>)
    ensures |u| == size
  {
    seq<byte>(size, i => if size % 8 == 4 && i + 1 == size then 0x10 else 0)
  }

  function DoublingSize(size: nat): nat
    requires USER_HEADER <= size
  {
    KERNEL_HEADER + 2 * (size - USER_HEADER)
  }

  /** Its translation. */
  function Doubled(size: nat): (k: seq<byte>)
    requires USER_HEADER <= size
    ensures |k| == DoublingSize(size)
  {
    seq<byte>(DoublingSize(size), i => if size % 8 == 4 && i + 5 == DoublingSize(size) then 0x20 else 0)
  }

  const ADDRESS := Type(0, 0, 0, false, false, false)
  const NOTHING := Type(0, 0, 0, true, false, false)

  lemma PointerItem(size: nat, p: nat)
    requires USER_HEADER <= p && p % 8 == 0 && p + 8 <= size && size % 4 == 0
    ensures var u, k, kp := Doubling(size), Doubled(size), DoublingSize(p);
      && !IsLong(u, p) && UserType(u, p) == ADDRESS && KernelType(k, kp) == ADDRESS
      && Get32(u, p) == 0 && Get32(u, p + 4) == 0 && Get32(k, kp + 8) == 0 && Get32(k, kp + 12) == 0
  {}

  lemma NothingItem(size: nat, p: nat)
    requires USER_HEADER <= p && p % 8 == 0 && p + 4 == size
    ensures var u, k, kp := Doubling(size), Doubled(size), DoublingSize(p);
      && !IsLong(u, p) && UserType(u, p) == NOTHING && KernelType(k, kp) == NOTHING && Get32(u, p) == 0x1000_0000
  {
    assert Get32(Doubling(size), p) == 0x1000_0000;
    assert Get32(Doubled(size), DoublingSize(p)) == 0x2000_0000;
  }

  lemma SizeAligned(p: nat)
    requires USER_HEADER <= p && p % 8 == 0
    ensures p % 4 == 0 && DoublingSize(p) % 8 == 0
  {}

  lemma PointerNext(p: nat)
    requires USER_HEADER <= p && p % 8 == 0
    ensures UserNext(ADDRESS, p) == p + 8 && KernelNext(ADDRESS, DoublingSize(p)) == DoublingSize(p + 8)
  {
    SizeAligned(p);
    AlignUser(p, 8);
    AlignKernel(DoublingSize(p), 16);
  }

  lemma NothingNext(p: nat)
    requires USER_HEADER <= p && p % 8 == 0
    ensures UserNext(NOTHING, p) == p + 4 && KernelNext(NOTHING, DoublingSize(p)) == DoublingSize(p + 4)
  {
    SizeAligned(p);
    AlignUser(p, 4);
    AlignKernel(DoublingSize(p), 8);
  }

  /** A null pointer and no data at all are accepted, translated and translated back. */
  ghost predicate Pair(u: seq<byte>, p: nat, k: seq<byte>, kp: nat, end: nat) {
    && p + USER_SHORT <= |u| && kp + KERNEL_TYPE <= |k| && !IsLong(u, p)
    && ItemAccepted(u, p, end) && ItemIn(u, p, k, kp) && ItemOut(k, kp, u, p)
    && KernelType(k, kp) == UserType(u, p)
  }

  lemma PointerIn(u: seq<byte>, p: nat, k: seq<byte>, kp: nat)
    requires p + 8 <= |u| && kp + 16 <= |k|
    requires !IsLong(u, p) && UserType(u, p) == ADDRESS && KernelType(k, kp) == ADDRESS
    requires Get32(u, p + 4) == 0 && Get32(k, kp + 8) == 0 && Get32(k, kp + 12) == 0
    ensures ItemIn(u, p, k, kp)
  {
    assert Extended(u, p + 4, k, kp + 8, 1);
  }

  lemma WordsCut(k: seq<byte>, kp: nat, u: seq<byte>, p: nat)
    requires kp + 8 <= |k| && p + 4 <= |u| && Get32(u, p) == Get32(k, kp)
    ensures Truncated(k, kp, u, p, 1)
  {}

  lemma PointerOut(u: seq<byte>, p: nat, k: seq<byte>, kp: nat)
    requires p + 8 <= |u| && kp + 16 <= |k| && KernelType(k, kp) == ADDRESS
    requires Get32(u, p) == 0 && Get32(u, p + 4) == 0 && Get32(k, kp + 8) == 0
    ensures ItemOut(k, kp, u, p)
  {
    PutGet32(u, p);
    assert PutUserType(ADDRESS) == Put32(0);
    WordsCut(k, kp + 8, u, p + 4);
  }

  lemma PointerPair(u: seq<byte>, p: nat, k: seq<byte>, kp: nat, end: nat)
    requires p + 8 <= end <= |u| && kp + 16 <= |k|
    requires !IsLong(u, p) && UserType(u, p) == ADDRESS && KernelType(k, kp) == ADDRESS
    requires Get32(u, p) == 0 && Get32(u, p + 4) == 0 && Get32(k, kp + 8) == 0 && Get32(k, kp + 12) == 0
    ensures Pair(u, p, k, kp, end)
  {
    PointerIn(u, p, k, kp);
    PointerOut(u, p, k, kp);
  }

  lemma NothingPair(u: seq<byte>, p: nat, k: seq<byte>, kp: nat, end: nat)
    requires p + 4 <= end <= |u| && kp + 8 <= |k|
    requires !IsLong(u, p) && UserType(u, p) == NOTHING && KernelType(k, kp) == NOTHING
    requires Get32(u, p) == 0x1000_0000
    ensures Pair(u, p, k, kp, end)
  {
    PutGet32(u, p);
    assert PutUserType(NOTHING) == Put32(0x1000_0000);
  }

  function TypeAt(size: nat, p: nat): Type { if p + 8 <= size then ADDRESS else NOTHING }

  lemma DoublingPair(size: nat, p: nat)
    requires USER_HEADER <= p < size && p % 8 == 0 && size % 4 == 0
    ensures Pair(Doubling(size), p, Doubled(size), DoublingSize(p), size)
    ensures UserType(Doubling(size), p) == TypeAt(size, p)
  {
    if p + 8 <= size {
      PointerItem(size, p);
      PointerPair(Doubling(size), p, Doubled(size), DoublingSize(p), size);
    } else {
      NothingItem(size, p);
      NothingPair(Doubling(size), p, Doubled(size), DoublingSize(p), size);
    }
  }

  // ---------------------------------------------------------------- along the whole message

  function NextItem(size: nat, p: nat): nat { if p + 8 <= size then p + 8 else p + 4 }

  lemma DoublingNext(size: nat, p: nat)
    requires USER_HEADER <= p < size && p % 8 == 0 && size % 4 == 0
    ensures UserNext(TypeAt(size, p), p) == NextItem(size, p)
    ensures KernelNext(TypeAt(size, p), DoublingSize(p)) == DoublingSize(NextItem(size, p))
  {
    PointerNext(p);
    NothingNext(p);
  }

  lemma NextStarts(size: nat, p: nat)
    requires USER_HEADER <= p < size && p % 8 == 0 && size % 4 == 0
    ensures var q := NextItem(size, p);
      && p < q <= size && (q % 8 == 0 || q == size)
      && (size % 8 == 4 ==> if q == p + 8 then q < size && q % 8 == 0 else q == size)
  {}

  ghost predicate ItemStart(size: nat, p: nat) { USER_HEADER <= p < size && p % 8 == 0 && size % 4 == 0 }

  /** Messages that have the items of `Doubling` and `Doubled`, each at its place. */
  ghost predicate Doubles(u: seq<byte>, k: seq<byte>, size: nat) {
    forall p {:trigger ItemStart(size, p)} | ItemStart(size, p) ::
      Pair(u, p, k, DoublingSize(p), size) && UserType(u, p) == TypeAt(size, p)
  }

  lemma DoublingDoubles(size: nat)
    ensures USER_HEADER <= size ==> Doubles(Doubling(size), Doubled(size), size)
  {
    forall p | ItemStart(size, p)
      ensures Pair(Doubling(size), p, Doubled(size), DoublingSize(p), size)
        && UserType(Doubling(size), p) == TypeAt(size, p)
    {
      DoublingPair(size, p);
    }
  }

  /** What the walks along both messages have in common, one item at a time. */
  lemma PairStep(u: seq<byte>, p: nat, end: nat, k: seq<byte>, kp: nat, kend: nat)
    requires p < end && kp < kend && Pair(u, p, k, kp, end)
    ensures var t := UserType(u, p); var q, kq := UserNext(t, p), KernelNext(t, kp);
      && (Accepted(u, q, end) ==> Accepted(u, p, end))
      && (BodyIn(u, q, end, k, kq, kend) ==> BodyIn(u, p, end, k, kp, kend))
      && (BodyOut(k, kq, kend, u, q, end) ==> BodyOut(k, kp, kend, u, p, end))
  {}

  /** copyinmsg accepts it and makes twice as much of every byte after the header; copyoutmsg undoes that. */
  lemma {:induction false} DoublesBoth(u: seq<byte>, k: seq<byte>, size: nat, p: nat)
    requires Doubles(u, k, size) && USER_HEADER <= p <= size && size % 4 == 0 && (p % 8 == 0 || p == size)
    ensures Accepted(u, p, size)
    ensures BodyIn(u, p, size, k, DoublingSize(p), DoublingSize(size))
    ensures BodyOut(k, DoublingSize(p), DoublingSize(size), u, p, size)
    decreases size - p
  {
    if p < size {
      assert ItemStart(size, p);
      DoublingNext(size, p);
      PairStep(u, p, size, k, DoublingSize(p), DoublingSize(size));
      NextStarts(size, p);
      DoublesBoth(u, k, size, NextItem(size, p));
    }
  }

  lemma BareStep(k: seq<byte>, kp: nat, kend: nat)
    requires kp < kend && KernelBody(k, kp, kend) && KernelNext(KernelType(k, kp), kp) > kp + KERNEL_TYPE
    requires var kq := KernelNext(KernelType(k, kp), kp); KernelBody(k, kq, kend) && EndsBare(k, kq, kend)
    ensures EndsBare(k, kp, kend)
  {}

  // ---------------------------------------------------------------- the buffer of ipc_kmsg_get

  const IKM_SAVED_MSG_SIZE: nat := 4096 - 32   // PAGE_SIZE less the overhead of struct ipc_kmsg

  /** The space for the message in the buffer ipc_kmsg_get picks; its size computation is cut to 32 bits. */
  function BufferFor(size: nat): nat {
    var ksize := size * EXPAND_FACTOR % 0x1_0000_0000;
    if ksize <= IKM_SAVED_MSG_SIZE then IKM_SAVED_MSG_SIZE else ksize
  }

  lemma BufferIs(size: nat)
    requires USER_HEADER <= size < 0x1_0000_0000
    ensures if size < 0x8000_0000 then EXPAND_FACTOR * size <= BufferFor(size) else BufferFor(size) < DoublingSize(size)
  {}

  /** Every message of a size has a translation within the limit. */
  ghost predicate AllWithin(size: nat, limit: nat) {
    forall u, k, ksize: nat | BodyIn(u, USER_HEADER, size, k, KERNEL_HEADER, ksize) :: ksize <= limit
  }

  lemma TwiceIsEnough(size: nat, limit: nat)
    requires USER_HEADER <= size && EXPAND_FACTOR * size <= limit
    ensures AllWithin(size, limit)
  {
    forall u, k, ksize: nat | BodyIn(u, USER_HEADER, size, k, KERNEL_HEADER, ksize) ensures ksize <= limit {
      MessageExpands(u, size, k, ksize);
    }
  }

  lemma LessIsNotEnough(size: nat, limit: nat)
    requires USER_HEADER <= size && size % 4 == 0 && limit < DoublingSize(size)
    ensures var u, k, ksize := Doubling(size), Doubled(size), DoublingSize(size);
      Accepted(u, USER_HEADER, size) && BodyIn(u, USER_HEADER, size, k, KERNEL_HEADER, ksize) && ksize > limit
    ensures !AllWithin(size, limit)
  {
    DoublingDoubles(size);
    DoublesBoth(Doubling(size), Doubled(size), size, USER_HEADER);
  }

  /** The buffer holds the translation of every message of its size exactly for sizes below 2 GB. */
  lemma BufferSuffices(size: nat)
    requires USER_HEADER <= size < 0x1_0000_0000 && size % 4 == 0
    ensures AllWithin(size, BufferFor(size)) <==> size < 0x8000_0000
  {
    BufferIs(size);
    if size < 0x8000_0000 {
      TwiceIsEnough(size, BufferFor(size));
    } else {
      LessIsNotEnough(size, BufferFor(size));
    }
  }

  // ---------------------------------------------------------------- the size msg_usize gives

  lemma OddWords(size: nat)
    requires size % 8 == 4
    ensures size % 4 == 0
  {}

  lemma DoublesBody(u: seq<byte>, k: seq<byte>, size: nat, p: nat)
    requires Doubles(u, k, size) && USER_HEADER <= p <= size && size % 4 == 0 && (p % 8 == 0 || p == size)
    ensures KernelBody(k, DoublingSize(p), DoublingSize(size))
  {
    DoublesBoth(u, k, size, p);
    BodyInIsBody(u, p, size, k, DoublingSize(p), DoublingSize(size));
  }

  lemma DoublesStep(u: seq<byte>, k: seq<byte>, size: nat, p: nat)
    requires Doubles(u, k, size) && USER_HEADER <= p && p % 8 == 0 && p + 8 < size && size % 4 == 0
    requires KernelBody(k, DoublingSize(p), DoublingSize(size))
      && KernelBody(k, DoublingSize(p + 8), DoublingSize(size))
    requires EndsBare(k, DoublingSize(p + 8), DoublingSize(size))
    ensures EndsBare(k, DoublingSize(p), DoublingSize(size))
  {
    assert ItemStart(size, p);
    DoublingNext(size, p);
    BareStep(k, DoublingSize(p), DoublingSize(size));
  }

  lemma {:induction false} DoublesBare(u: seq<byte>, k: seq<byte>, size: nat, p: nat)
    requires Doubles(u, k, size) && USER_HEADER <= p < size && size % 8 == 4 && p % 8 == 0
    ensures KernelBody(k, DoublingSize(p), DoublingSize(size))
    ensures EndsBare(k, DoublingSize(p), DoublingSize(size))
    decreases size - p
  {
    OddWords(size);
    DoublesBody(u, k, size, p);
    NextStarts(size, p);
    if p + 8 <= size {
      DoublesBare(u, k, size, p + 8);
      DoublesStep(u, k, size, p);
    } else {
      assert DoublingSize(p) + KERNEL_TYPE == DoublingSize(size);
    }
  }

  lemma DoublesTooSmall(u: seq<byte>, k: seq<byte>, size: nat)
    requires Doubles(u, k, size) && USER_HEADER < size && size % 8 == 4
    ensures KernelBody(k, KERNEL_HEADER, DoublingSize(size))
    ensures UsizeFrom(k, KERNEL_HEADER, DoublingSize(size), USER_HEADER) < size
  {
    OddWords(size);
    DoublesBoth(u, k, size, USER_HEADER);
    DoublesBare(u, k, size, USER_HEADER);
    UsizeAgrees(k, KERNEL_HEADER, DoublingSize(size), u, USER_HEADER, size);
  }

  /**
    * msg_usize is too small for messages that copyinmsg accepts: of every odd number of words after the
    * header there is one that copyoutmsg writes back whole and msg_usize takes to be shorter.
    */
  lemma UsizeTooSmall(size: nat)
    requires USER_HEADER < size && size % 8 == 4
    ensures var u, k, ksize := Doubling(size), Doubled(size), DoublingSize(size);
      && Accepted(u, USER_HEADER, size) && BodyIn(u, USER_HEADER, size, k, KERNEL_HEADER, ksize)
      && BodyOut(k, KERNEL_HEADER, ksize, u, USER_HEADER, size)
      && KernelBody(k, KERNEL_HEADER, ksize) && UsizeFrom(k, KERNEL_HEADER, ksize, USER_HEADER) < size
  {
    OddWords(size);
    DoublingDoubles(size);
    DoublesBoth(Doubling(size), Doubled(size), size, USER_HEADER);
    DoublesTooSmall(Doubling(size), Doubled(size), size);
  }
}
