/** The walkers of ipc/copy_user.c over byte buffers, proved against module CopyUser. */
module CopyUserWalkers {

  import opened Options
  import opened PortTypes
  import opened CopyUser
  import opened CopyUserTheorems

  // ---------------------------------------------------------------- writing bytes

  /** `k` with the bytes `b` stored at `off`. */
  function Store(k: seq<byte>, off: nat, b: seq<byte>): (r: seq<byte>)
    requires off + |b| <= |k|
    ensures |r| == |k|
    ensures r[..off] == k[..off] && r[off..off + |b|] == b && r[off + |b|..] == k[off + |b|..]
  {
    k[..off] + b + k[off + |b|..]
  }

  method StoreBytes(a: array<byte>, off: nat, b: seq<byte>)
    requires off + |b| <= a.Length
    modifies a
    ensures a[..] == Store(old(a[..]), off, b)
  {
    var i := 0;
    while i < |b|
      invariant 0 <= i <= |b|
      invariant a[..off] == old(a[..off]) && a[off..off + i] == b[..i]
      invariant a[off + i..] == old(a[off + i..])
    {
      a[off + i] := b[i];
      i := i + 1;
    }
  }

  lemma SameBytes32(s: seq<byte>, i: nat, r: seq<byte>, j: nat)
    requires i + 4 <= |s| && j + 4 <= |r| && s[i..i + 4] == r[j..j + 4]
    ensures Get32(s, i) == Get32(r, j)
  {
    assert s[i] == s[i..i + 4][0] && s[i + 1] == s[i..i + 4][1] && s[i + 2] == s[i..i + 4][2]
      && s[i + 3] == s[i..i + 4][3];
    assert r[j] == r[j..j + 4][0] && r[j + 1] == r[j..j + 4][1] && r[j + 2] == r[j..j + 4][2]
      && r[j + 3] == r[j..j + 4][3];
  }

  lemma KernelTypeFields(t: Type)
    requires t.name < 0x100 && t.size < 0x1_0000 && t.number < 0x1_0000_0000
    ensures var w := KernelWord(t);
      && w < 0x1_0000_0000 && w % 0x100 == t.name && w / 0x100 % 0x1_0000 == t.size
      && w / 0x2000_0000 % 2 == Bit(t.inline) && w / 0x4000_0000 % 2 == Bit(t.longform)
      && w / 0x8000_0000 % 2 == Bit(t.deallocate)
  {
    var w := KernelWord(t);
    var h := 32 * Bit(t.inline) + 64 * Bit(t.longform) + 128 * Bit(t.deallocate);
    assert w == t.name + 0x100 * (t.size + 0x1_0000 * h);
    assert w / 0x100 == t.size + 0x1_0000 * h;
    assert w / 0x100_0000 == h;
    assert w / 0x2000_0000 == h / 32 && w / 0x4000_0000 == h / 64 && w / 0x8000_0000 == h / 128;
  }

  /** A descriptor stored is the descriptor read. */
  lemma StoredType(k: seq<byte>, p: nat, t: Type)
    requires p + KERNEL_TYPE <= |k| && k[p..p + KERNEL_TYPE] == PutKernelType(t)
    requires t.name < 0x100 && t.size < 0x1_0000 && t.number < 0x1_0000_0000
    ensures KernelType(k, p) == t
  {
    var w := KernelWord(t);
    KernelTypeFields(t);
    var b := PutKernelType(t);
    assert b[..4] == Put32(w) && b[4..] == Put32(t.number);
    assert k[p..p + 4] == k[p..p + 8][..4] && k[p + 4..p + 8] == k[p..p + 8][4..];
    SameBytes32(k, p, Put32(w), 0);
    SameBytes32(k, p + 4, Put32(t.number), 0);
    GetPut32(w);
    GetPut32(t.number);
  }

  lemma UserTypeWidths(u: seq<byte>, p: nat)
    requires p + USER_SHORT <= |u| && (IsLong(u, p) ==> p + USER_LONG <= |u|)
    ensures var t := UserType(u, p); t.name < 0x100 && t.size < 0x1_0000 && t.number < 0x1_0000_0000
  {
    if IsLong(u, p) {
      PutGet16(u, p + 6);
      PutGet32(u, p + 8);
    }
  }

  // ---------------------------------------------------------------- frames

  lemma Inner(k: seq<byte>, k': seq<byte>, lo: nat, hi: nat, a: nat, b: nat)
    requires lo <= a <= b <= hi <= |k| && hi <= |k'| && k[lo..hi] == k'[lo..hi]
    ensures k[a..b] == k'[a..b]
  {
    forall i | a <= i < b ensures k[i] == k'[i] {
      assert k[i] == k[lo..hi][i - lo] && k'[i] == k'[lo..hi][i - lo];
    }
  }

  lemma SameType(k: seq<byte>, k': seq<byte>, p: nat)
    requires p + KERNEL_TYPE <= |k| && p + KERNEL_TYPE <= |k'| && k[p..p + 8] == k'[p..p + 8]
    ensures KernelType(k, p) == KernelType(k', p)
  {
    Inner(k, k', p, p + 8, p, p + 4);
    Inner(k, k', p, p + 8, p + 4, p + 8);
    SameBytes32(k, p, k', p);
    SameBytes32(k, p + 4, k', p + 4);
  }

  lemma SameExtended(u: seq<byte>, p: nat, k: seq<byte>, k': seq<byte>, kp: nat, n: nat)
    requires p + 4 * n <= |u| && kp + 8 * n <= |k| && kp + 8 * n <= |k'|
    requires k[kp..kp + 8 * n] == k'[kp..kp + 8 * n] && Extended(u, p, k, kp, n)
    ensures Extended(u, p, k', kp, n)
  {
    forall i: nat | i < n
      ensures Get32(k', kp + 8 * i) == Get32(u, p + 4 * i) && Get32(k', kp + 8 * i + 4) == 0
    {
      var a := kp + 8 * i;
      Inner(k, k', kp, kp + 8 * n, a, a + 4);
      Inner(k, k', kp, kp + 8 * n, a + 4, a + 8);
      SameBytes32(k, a, k', a);
      SameBytes32(k, a + 4, k', a + 4);
    }
  }

  lemma SameItemIn(u: seq<byte>, p: nat, k: seq<byte>, k': seq<byte>, kp: nat)
    requires p + USER_SHORT <= |u| && (IsLong(u, p) ==> p + USER_LONG <= |u|) && ItemIn(u, p, k, kp)
    requires var end := kp + KERNEL_TYPE + KernelData(UserType(u, p)); end <= |k'| && k[kp..end] == k'[kp..end]
    ensures ItemIn(u, p, k', kp)
  {
    var t := UserType(u, p);
    var kdata, end := kp + KERNEL_TYPE, kp + KERNEL_TYPE + KernelData(t);
    Inner(k, k', kp, end, kp, kdata);
    Inner(k, k', kp, end, kdata, end);
    SameType(k, k', kp);
    WidenKeeps(t);
    if HasWords(t) {
      SameExtended(u, p + UserTypeSize(t), k, k', kdata, Words(t));
    }
  }

  lemma KernelSpan(t: Type, p: nat)
    ensures p + KERNEL_TYPE + KernelData(t) <= KernelNext(t, p)
  {}

  /** A body depends only on the bytes before its end. */
  lemma {:induction false} SameBodyIn(u: seq<byte>, p: nat, end: nat, k: seq<byte>, k': seq<byte>, kp: nat, kend: nat)
    requires BodyIn(u, p, end, k, kp, kend) && |k'| == |k| && kend <= |k| && k[..kend] == k'[..kend]
    ensures BodyIn(u, p, end, k', kp, kend)
    decreases end - p
  {
    BodyInAdvances(u, p, end, k, kp, kend);
    if p < end {
      var t := UserType(u, p);
      UserProgress(t, p);
      KernelSpan(t, kp);
      BodyInAdvances(u, UserNext(t, p), end, k, KernelNext(t, kp), kend);
      Inner(k, k', 0, kend, kp, kp + KERNEL_TYPE + KernelData(t));
      SameItemIn(u, p, k, k', kp);
      SameBodyIn(u, UserNext(t, p), end, k, k', KernelNext(t, kp), kend);
    }
  }

  lemma {:induction false} BodyInAppend(u: seq<byte>, p: nat, mid: nat, k: seq<byte>, kp: nat, kmid: nat)
    requires BodyIn(u, p, mid, k, kp, kmid)
    requires mid + USER_SHORT <= |u| && (IsLong(u, mid) ==> mid + USER_LONG <= |u|) && ItemIn(u, mid, k, kmid)
    ensures var t := UserType(u, mid); BodyIn(u, p, UserNext(t, mid), k, kp, KernelNext(t, kmid))
    decreases mid - p
  {
    BodyInAdvances(u, p, mid, k, kp, kmid);
    UserProgress(UserType(u, mid), mid);
    if p < mid {
      var t := UserType(u, p);
      UserProgress(t, p);
      BodyInAppend(u, UserNext(t, p), mid, k, KernelNext(t, kp), kmid);
    } else {
      assert BodyIn(u, UserNext(UserType(u, mid), mid), UserNext(UserType(u, mid), mid), k,
                    KernelNext(UserType(u, mid), kmid), KernelNext(UserType(u, mid), kmid));
    }
  }

  // ---------------------------------------------------------------- copyinmsg

  /** copyin_32to64. */
  method CopyInWord(u: seq<byte>, p: nat, kbuf: array<byte>, kp: nat) returns (failed: bool)
    requires kp + 8 <= kbuf.Length
    modifies kbuf
    ensures failed <==> p + 4 > |u|
    ensures kbuf[..kp] == old(kbuf[..kp]) && kbuf[kp + 8..] == old(kbuf[kp + 8..])
    ensures !failed ==> Extended(u, p, kbuf[..], kp, 1)
  {
    failed := p + 4 > |u|;
    if !failed {
      var b := u[p..p + 4] + [0, 0, 0, 0];
      StoreBytes(kbuf, kp, b);
      assert kbuf[..][kp..kp + 4] == b[..4] == u[p..p + 4];
      assert kbuf[..][kp + 4..kp + 8] == b[4..] == Put32(0);
      SameBytes32(kbuf[..], kp, u, p);
      SameBytes32(kbuf[..], kp + 4, Put32(0), 0);
      forall i: nat | i < 1
        ensures Get32(kbuf[..], kp + 8 * i) == Get32(u, p + 4 * i) && Get32(kbuf[..], kp + 8 * i + 4) == 0
      {
        assert i == 0;
      }
    }
  }

  lemma ExtendedAppend(u: seq<byte>, p: nat, k: seq<byte>, kp: nat, n: nat)
    requires p + 4 * (n + 1) <= |u| && kp + 8 * (n + 1) <= |k|
    requires Extended(u, p, k, kp, n) && Extended(u, p + 4 * n, k, kp + 8 * n, 1)
    ensures Extended(u, p, k, kp, n + 1)
  {
    assert Get32(k, kp + 8 * n + 8 * 0) == Get32(u, p + 4 * n + 4 * 0);
    assert Get32(k, kp + 8 * n + 8 * 0 + 4) == 0;
  }

  /** The loop over the port names of an inline item. */
  method CopyInWords(u: seq<byte>, p: nat, kbuf: array<byte>, kp: nat, n: nat) returns (failed: bool)
    requires kp + 8 * n <= kbuf.Length
    modifies kbuf
    ensures failed <==> n > 0 && p + 4 * n > |u|
    ensures kbuf[..kp] == old(kbuf[..kp])
    ensures !failed && n > 0 ==> Extended(u, p, kbuf[..], kp, n)
  {
    failed := false;
    var i := 0;
    while i < n
      invariant 0 <= i <= n && !failed && (i > 0 ==> p + 4 * i <= |u|)
      invariant kbuf[..kp] == old(kbuf[..kp])
      invariant i > 0 ==> Extended(u, p, kbuf[..], kp, i)
    {
      ghost var before := kbuf[..];
      failed := CopyInWord(u, p + 4 * i, kbuf, kp + 8 * i);
      assert kbuf[..kp] == kbuf[..kp + 8 * i][..kp] == before[..kp];
      if failed {
        return;
      }
      if i > 0 {
        Inner(before, kbuf[..], 0, kp + 8 * i, kp, kp + 8 * i);
        SameExtended(u, p, before, kbuf[..], kp, i);
        ExtendedAppend(u, p, kbuf[..], kp, i);
      }
      i := i + 1;
    }
  }

  lemma DataFits(t: Type, data: nat, end: nat, kdata: nat, length: nat)
    requires data + UserData(t) <= end && kdata + 2 * (end - data) <= length
    ensures kdata + KernelData(t) <= length
  {
    WidenKeeps(t);
  }

  /** The data of an item, once its descriptor has been copied. */
  method CopyInData(t: Type, u: seq<byte>, data: nat, end: nat, kbuf: array<byte>, kdata: nat) returns (failed: bool)
    requires data <= |u| && (data <= end ==> kdata + 2 * (end - data) <= kbuf.Length)
    modifies kbuf
    ensures failed <==> !DataAccepted(t, u, data, end)
    ensures kdata <= kbuf.Length ==> kbuf[..kdata] == old(kbuf[..kdata])
    ensures !failed ==> DataIn(t, u, data, kbuf[..], kdata)
  {
    WidenKeeps(t);
    if (IsPort(t.name) && t.size != PORT_NAME_BITS) || data + UserData(t) > end {
      return true;
    }
    DataFits(t, data, end, kdata, kbuf.Length);
    if t.inline && IsPort(t.name) {
      failed := CopyInWords(u, data, kbuf, kdata, t.number);
    } else if t.inline {
      failed := data + UserData(t) > |u|;
      if !failed {
        StoreBytes(kbuf, kdata, u[data..data + UserData(t)]);
      }
    } else {
      failed := CopyInWord(u, data, kbuf, kdata);
    }
  }

  /** One turn of the loop of copyinmsg. */
  method CopyInItem(u: seq<byte>, p: nat, end: nat, kbuf: array<byte>, kp: nat)
    returns (failed: bool, p': nat, kp': nat)
    requires p + USER_SHORT <= end && kp + 2 * (end - p) <= kbuf.Length
    modifies kbuf
    ensures failed <==> !ItemAccepted(u, p, end)
    ensures kbuf[..kp] == old(kbuf[..kp])
    ensures !failed ==>
      && ItemIn(u, p, kbuf[..], kp)
      && p' == UserNext(UserType(u, p), p) && kp' == KernelNext(UserType(u, p), kp)
  {
    p', kp' := p, kp;
    if p + USER_SHORT > |u| || (IsLong(u, p) && p + USER_LONG > |u|) {
      return true, p', kp';
    }
    var t := UserType(u, p);
    UserTypeWidths(u, p);
    StoreBytes(kbuf, kp, PutKernelType(t));
    if t.inline && IsPort(t.name) && t.size == PORT_NAME_BITS {
      StoreBytes(kbuf, kp, PutKernelType(Widened(t)));   // adjust_msg_type_size
    }
    ghost var before := kbuf[..];
    failed := CopyInData(t, u, p + UserTypeSize(t), end, kbuf, kp + KERNEL_TYPE);
    Inner(before, kbuf[..], 0, kp + KERNEL_TYPE, 0, kp);
    Inner(before, kbuf[..], 0, kp + KERNEL_TYPE, kp, kp + KERNEL_TYPE);
    if !failed {
      StoredType(kbuf[..], kp, Widened(t));
    }
    p', kp' := UserNext(t, p), KernelNext(t, kp);
  }

  /** The header as copyinmsg leaves it before the size is known. */
  ghost predicate HeaderBut(u: seq<byte>, k: seq<byte>)
    requires USER_HEADER <= |u| && KERNEL_HEADER <= |k|
  {
    k[0..4] == u[0..4] && Extended(u, 8, k, 8, 2) && k[24..32] == u[16..24]
  }

  lemma SameHeader(u: seq<byte>, k: seq<byte>, k': seq<byte>)
    requires USER_HEADER <= |u| && KERNEL_HEADER <= |k| && KERNEL_HEADER <= |k'| && HeaderBut(u, k)
    requires k[0..4] == k'[0..4] && k[8..32] == k'[8..32]
    ensures HeaderBut(u, k')
  {
    Inner(k, k', 8, 32, 8, 24);
    Inner(k, k', 8, 32, 24, 32);
    SameExtended(u, 8, k, k', 8, 2);
  }

  method CopyInHeader(u: seq<byte>, kbuf: array<byte>)
    requires USER_HEADER <= |u| && KERNEL_HEADER <= kbuf.Length
    modifies kbuf
    ensures HeaderBut(u, kbuf[..])
  {
    StoreBytes(kbuf, 0, u[0..4]);
    ghost var k0 := kbuf[..];
    var f := CopyInWords(u, 8, kbuf, 8, 2);
    ghost var k1 := kbuf[..];
    Inner(k0, k1, 0, 8, 0, 4);
    StoreBytes(kbuf, 24, u[16..24]);
    Inner(k1, kbuf[..], 0, 24, 0, 4);
    Inner(k1, kbuf[..], 0, 24, 8, 24);
    SameExtended(u, 8, k1, kbuf[..], 8, 2);
  }

  /** copyinmsg has translated the body up to `p`. */
  ghost predicate InSoFar(u: seq<byte>, usize: nat, k: seq<byte>, p: nat, kp: nat) {
    && USER_HEADER <= p <= usize && p % 4 == 0 && usize % 4 == 0
    && KERNEL_HEADER <= kp && kp % 8 == 0 && kp - KERNEL_HEADER <= 2 * (p - USER_HEADER)
    && (Accepted(u, p, usize) <==> Accepted(u, USER_HEADER, usize))
    && BodyIn(u, USER_HEADER, p, k, KERNEL_HEADER, kp)
  }

  lemma InStep(u: seq<byte>, usize: nat, k: seq<byte>, k': seq<byte>, p: nat, kp: nat)
    requires InSoFar(u, usize, k, p, kp) && p + USER_SHORT <= usize && ItemAccepted(u, p, usize)
    requires |k'| == |k| && kp <= |k| && k'[..kp] == k[..kp] && ItemIn(u, p, k', kp)
    ensures UserNext(UserType(u, p), p) > p
    ensures InSoFar(u, usize, k', UserNext(UserType(u, p), p), KernelNext(UserType(u, p), kp))
  {
    var t := UserType(u, p);
    UserProgress(t, p);
    ItemExpands(t, p, kp);
    NextWithin(t, p, usize);
    SameBodyIn(u, USER_HEADER, p, k, k', KERNEL_HEADER, kp);
    BodyInAppend(u, USER_HEADER, p, k', KERNEL_HEADER, kp);
  }

  /** One turn of the loop of copyinmsg. */
  method CopyInTurn(u: seq<byte>, usize: nat, kbuf: array<byte>, p: nat, kp: nat)
    returns (failed: bool, p': nat, kp': nat)
    requires InSoFar(u, usize, kbuf[..], p, kp) && p + USER_SHORT <= usize && EXPAND_FACTOR * usize <= kbuf.Length
    modifies kbuf
    ensures kbuf[..KERNEL_HEADER] == old(kbuf[..KERNEL_HEADER])
    ensures failed ==> !Accepted(u, USER_HEADER, usize)
    ensures !failed ==> p' > p && InSoFar(u, usize, kbuf[..], p', kp')
  {
    ghost var before := kbuf[..];
    failed, p', kp' := CopyInItem(u, p, usize, kbuf, kp);
    Inner(before, kbuf[..], 0, kp, 0, KERNEL_HEADER);
    if !failed {
      InStep(u, usize, before, kbuf[..], p, kp);
    }
  }

  lemma AllRead(u: seq<byte>, usize: nat, k: seq<byte>, p: nat, kp: nat)
    requires InSoFar(u, usize, k, p, kp) && p + USER_SHORT > usize && EXPAND_FACTOR * usize <= |k|
    ensures Accepted(u, USER_HEADER, usize) && kp <= |k| && BodyIn(u, USER_HEADER, usize, k, KERNEL_HEADER, kp)
  {
    EndReached(p, usize);
    assert Accepted(u, p, usize);
  }

  lemma EndReached(p: nat, end: nat)
    requires p % 4 == 0 && end % 4 == 0 && p <= end < p + 4
    ensures p == end
  {}

  method CopyInBody(u: seq<byte>, usize: nat, kbuf: array<byte>) returns (failed: bool, ksize: nat)
    requires USER_HEADER <= usize && usize % 4 == 0 && EXPAND_FACTOR * usize <= kbuf.Length
    modifies kbuf
    ensures failed <==> !Accepted(u, USER_HEADER, usize)
    ensures kbuf[..KERNEL_HEADER] == old(kbuf[..KERNEL_HEADER])
    ensures !failed ==> ksize <= kbuf.Length && BodyIn(u, USER_HEADER, usize, kbuf[..], KERNEL_HEADER, ksize)
  {
    var p: nat, kp: nat := USER_HEADER, KERNEL_HEADER;
    failed := false;
    while p + USER_SHORT <= usize
      invariant InSoFar(u, usize, kbuf[..], p, kp)
      invariant kbuf[..KERNEL_HEADER] == old(kbuf[..KERNEL_HEADER])
      decreases usize - p
    {
      failed, p, kp := CopyInTurn(u, usize, kbuf, p, kp);
      if failed {
        return true, kp;
      }
    }
    AllRead(u, usize, kbuf[..], p, kp);
    ksize := kp;
  }

  lemma NextWithin(t: Type, p: nat, end: nat)
    requires p % 4 == 0 && end % 4 == 0 && p + UserTypeSize(t) + UserData(t) <= end
    ensures UserNext(t, p) <= end
  {
    var n := UserTypeSize(t) + UserData(t);
    AlignUser(p, n);
    RoundedWithin(n, end - p);
  }

  lemma RoundedWithin(n: nat, room: nat)
    requires n <= room && room % 4 == 0
    ensures UserAlign(n) <= room
  {}

  /** copyinmsg: it fails exactly on the messages that are not accepted; otherwise the buffer
      holds the translation of exactly `usize` bytes, in at most twice the space. */
  method CopyInMsg(u: seq<byte>, usize: nat, kbuf: array<byte>) returns (failed: bool, ksize: nat)
    requires USER_HEADER <= usize && usize % 4 == 0 && EXPAND_FACTOR * usize <= kbuf.Length
    modifies kbuf
    ensures failed <==> !(USER_HEADER <= |u| && Accepted(u, USER_HEADER, usize))
    ensures !failed ==> KERNEL_HEADER <= ksize <= EXPAND_FACTOR * usize
    ensures !failed ==> HeaderIn(u, kbuf[..], ksize) && BodyIn(u, USER_HEADER, usize, kbuf[..], KERNEL_HEADER, ksize)
  {
    if USER_HEADER > |u| {
      return true, 0;
    }
    CopyInHeader(u, kbuf);
    ghost var k0 := kbuf[..];
    failed, ksize := CopyInBody(u, usize, kbuf);
    if !failed {
      ghost var k1 := kbuf[..];
      Inner(k0, k1, 0, 32, 0, 4);
      Inner(k0, k1, 0, 32, 8, 32);
      SameHeader(u, k0, k1);
      BodyInAdvances(u, USER_HEADER, usize, k1, KERNEL_HEADER, ksize);
      MessageExpands(u, usize, k1, ksize);
      StoreBytes(kbuf, 4, Put32(ksize % 0x1_0000_0000));
      Inner(k1[8..], kbuf[..][8..], 0, |k1| - 8, 0, |k1| - 8);
      SizeStored(u, usize, k1, kbuf[..], ksize);
    }
  }

  lemma SizeStored(u: seq<byte>, usize: nat, k: seq<byte>, k': seq<byte>, ksize: nat)
    requires USER_HEADER <= |u| && KERNEL_HEADER <= |k| && HeaderBut(u, k)
    requires BodyIn(u, USER_HEADER, usize, k, KERNEL_HEADER, ksize) && ksize <= |k|
    requires k' == Store(k, 4, Put32(ksize % 0x1_0000_0000))
    ensures HeaderIn(u, k', ksize) && BodyIn(u, USER_HEADER, usize, k', KERNEL_HEADER, ksize)
  {
    assert k'[0..4] == k[0..4];
    assert k'[8..] == k[8..];
    assert k'[8..32] == k'[8..][..24] && k[8..32] == k[8..][..24];
    SameHeader(u, k, k');
    SameTail(u, USER_HEADER, usize, k, k', KERNEL_HEADER, ksize);
  }

  /** A body depends only on the bytes from its start. */
  lemma {:induction false} SameTail(u: seq<byte>, p: nat, end: nat, k: seq<byte>, k': seq<byte>, kp: nat, kend: nat)
    requires BodyIn(u, p, end, k, kp, kend) && 8 <= kp && 8 <= |k| == |k'| && k[8..] == k'[8..]
    ensures BodyIn(u, p, end, k', kp, kend)
    decreases end - p
  {
    if p < end {
      var t := UserType(u, p);
      UserProgress(t, p);
      KernelProgress(t, kp);
      Inner(k, k', 8, |k|, kp, kp + KERNEL_TYPE + KernelData(t));
      SameItemIn(u, p, k, k', kp);
      SameTail(u, UserNext(t, p), end, k, k', KernelNext(t, kp), kend);
    }
  }

  // ---------------------------------------------------------------- msg_usize

  /** msg_usize. */
  method MsgUsize(k: seq<byte>, ksize: nat) returns (usize: nat)
    requires KernelBody(k, KERNEL_HEADER, ksize)
    ensures usize == UsizeFrom(k, KERNEL_HEADER, ksize, USER_HEADER)
  {
    usize := USER_HEADER;
    if ksize > KERNEL_HEADER {
      var kp := KERNEL_HEADER;
      while kp + KERNEL_TYPE < ksize
        invariant KernelBody(k, kp, ksize)
        invariant UsizeFrom(k, kp, ksize, usize) == UsizeFrom(k, KERNEL_HEADER, ksize, USER_HEADER)
        decreases ksize - kp
      {
        var t := KernelType(k, kp);
        KernelProgress(t, kp);
        usize := UserNext(t, usize);
        kp := KernelNext(t, kp);
      }
    }
  }

  // ---------------------------------------------------------------- copyoutmsg

  /** Where copyoutmsg ends when it starts at `p`. */
  ghost function OutEnd(k: seq<byte>, kp: nat, kend: nat, p: nat): nat
    requires KernelBody(k, kp, kend)
    decreases kend - kp
  {
    if kp >= kend then p
    else
      var t := KernelType(k, kp);
      KernelProgress(t, kp);
      OutEnd(k, KernelNext(t, kp), kend, UserNext(t, p))
  }

  lemma OutEndAfter(k: seq<byte>, kp: nat, kend: nat, p: nat)
    requires KernelBody(k, kp, kend)
    ensures OutEnd(k, kp, kend, p) >= p
    decreases kend - kp
  {
    if kp < kend {
      var t := KernelType(k, kp);
      KernelProgress(t, kp);
      UserProgress(t, p);
      OutEndAfter(k, KernelNext(t, kp), kend, UserNext(t, p));
    }
  }

  lemma SameTruncated(k: seq<byte>, kp: nat, u: seq<byte>, u': seq<byte>, p: nat, n: nat)
    requires kp + 8 * n <= |k| && p + 4 * n <= |u| && p + 4 * n <= |u'|
    requires u[p..p + 4 * n] == u'[p..p + 4 * n] && Truncated(k, kp, u, p, n)
    ensures Truncated(k, kp, u', p, n)
  {
    forall i: nat | i < n ensures Get32(u', p + 4 * i) == Get32(k, kp + 8 * i) {
      Inner(u, u', p, p + 4 * n, p + 4 * i, p + 4 * i + 4);
      SameBytes32(u, p + 4 * i, u', p + 4 * i);
    }
  }

  lemma TruncatedAppend(k: seq<byte>, kp: nat, u: seq<byte>, p: nat, n: nat)
    requires kp + 8 * n + 8 <= |k| && p + 4 * n + 4 <= |u|
    requires Truncated(k, kp, u, p, n) && Get32(u, p + 4 * n) == Get32(k, kp + 8 * n)
    ensures Truncated(k, kp, u, p, n + 1)
  {}

  lemma SameItemOut(k: seq<byte>, kp: nat, u: seq<byte>, u': seq<byte>, p: nat)
    requires kp + KERNEL_TYPE <= |k| && ItemOut(k, kp, u, p)
    requires var t := KernelType(k, kp);
      var end := p + UserTypeSize(t) + UserData(t); end <= |u'| && u[p..end] == u'[p..end]
    ensures ItemOut(k, kp, u', p)
  {
    var t := KernelType(k, kp);
    var data, end := p + UserTypeSize(t), p + UserTypeSize(t) + UserData(t);
    Inner(u, u', p, end, p, data);
    Inner(u, u', p, end, data, end);
    WidenKeeps(t);
    if HasWords(t) {
      SameTruncated(k, kp + KERNEL_TYPE, u, u', data, Words(t));
    }
  }

  lemma UserSpan(t: Type, p: nat)
    ensures p + UserTypeSize(t) + UserData(t) <= UserNext(t, p)
  {}

  lemma {:induction false} SameBodyOut(k: seq<byte>, kp: nat, kend: nat, u: seq<byte>, u': seq<byte>, p: nat, end: nat)
    requires BodyOut(k, kp, kend, u, p, end) && |u'| == |u|
    requires var stop := if end <= |u| then end else |u|; u[..stop] == u'[..stop]
    ensures BodyOut(k, kp, kend, u', p, end)
    decreases kend - kp
  {
    BodyOutAdvances(k, kp, kend, u, p, end);
    if kp < kend {
      var t := KernelType(k, kp);
      KernelProgress(t, kp);
      UserSpan(t, p);
      BodyOutAdvances(k, KernelNext(t, kp), kend, u, UserNext(t, p), end);
      Inner(u, u', 0, if end <= |u| then end else |u|, p, p + UserTypeSize(t) + UserData(t));
      SameItemOut(k, kp, u, u', p);
      SameBodyOut(k, KernelNext(t, kp), kend, u, u', UserNext(t, p), end);
    }
  }

  lemma {:induction false} BodyOutAppend(k: seq<byte>, kp: nat, kmid: nat, u: seq<byte>, p: nat, mid: nat)
    requires BodyOut(k, kp, kmid, u, p, mid) && kmid + KERNEL_TYPE <= |k| && ItemOut(k, kmid, u, mid)
    ensures var t := KernelType(k, kmid); BodyOut(k, kp, KernelNext(t, kmid), u, p, UserNext(t, mid))
    decreases kmid - kp
  {
    BodyOutAdvances(k, kp, kmid, u, p, mid);
    KernelProgress(KernelType(k, kmid), kmid);
    if kp < kmid {
      var t := KernelType(k, kp);
      KernelProgress(t, kp);
      BodyOutAppend(k, KernelNext(t, kp), kmid, u, UserNext(t, p), mid);
    } else {
      var t := KernelType(k, kmid);
      assert BodyOut(k, KernelNext(t, kmid), KernelNext(t, kmid), u, UserNext(t, mid), UserNext(t, mid));
    }
  }

  /** The loop over the ports of an inline item; one address is the case `n == 1`. */
  method CopyOutWords(k: seq<byte>, kp: nat, ubuf: array<byte>, p: nat, n: nat) returns (failed: bool)
    requires kp + 8 * n <= |k| && p <= ubuf.Length
    modifies ubuf
    ensures failed <==> p + 4 * n > ubuf.Length
    ensures ubuf[..p] == old(ubuf[..p])
    ensures !failed ==> Truncated(k, kp, ubuf[..], p, n)
  {
    failed := false;
    var i := 0;
    while i < n
      invariant 0 <= i <= n && !failed && p + 4 * i <= ubuf.Length
      invariant ubuf[..p] == old(ubuf[..p])
      invariant Truncated(k, kp, ubuf[..], p, i)
    {
      if p + 4 * i + 4 > ubuf.Length {
        return true;
      }
      ghost var before := ubuf[..];
      var a := kp + 8 * i;
      StoreBytes(ubuf, p + 4 * i, k[a..a + 4]);
      Inner(before, ubuf[..], 0, p + 4 * i, 0, p);
      Inner(before, ubuf[..], 0, p + 4 * i, p, p + 4 * i);
      SameTruncated(k, kp, before, ubuf[..], p, i);
      SameBytes32(ubuf[..], p + 4 * i, k, a);
      TruncatedAppend(k, kp, ubuf[..], p, i);
      i := i + 1;
    }
  }

  method CopyOutData(t: Type, k: seq<byte>, kdata: nat, ubuf: array<byte>, data: nat) returns (failed: bool)
    requires kdata + KernelData(t) <= |k| && data <= ubuf.Length
    modifies ubuf
    ensures failed <==> data + UserData(t) > ubuf.Length
    ensures ubuf[..data] == old(ubuf[..data])
    ensures !failed ==> DataOut(t, k, kdata, ubuf[..], data)
  {
    WidenKeeps(t);
    if HasWords(t) {
      failed := CopyOutWords(k, kdata, ubuf, data, Words(t));
    } else {
      failed := data + UserData(t) > ubuf.Length;
      if !failed {
        StoreBytes(ubuf, data, k[kdata..kdata + KernelData(t)]);
      }
    }
  }

  /** One turn of the loop of copyoutmsg. */
  method CopyOutItem(k: seq<byte>, kp: nat, ubuf: array<byte>, p: nat) returns (failed: bool)
    requires kp + KERNEL_TYPE <= |k| && kp + KERNEL_TYPE + KernelData(KernelType(k, kp)) <= |k| && p <= ubuf.Length
    modifies ubuf
    ensures var t := KernelType(k, kp); failed <==> p + UserTypeSize(t) + UserData(t) > ubuf.Length
    ensures ubuf[..p] == old(ubuf[..p])
    ensures !failed ==> ItemOut(k, kp, ubuf[..], p)
  {
    var t := KernelType(k, kp);
    var data := p + UserTypeSize(t);
    if data > ubuf.Length {
      return true;
    }
    StoreBytes(ubuf, p, PutUserType(Narrowed(t)));
    ghost var before := ubuf[..];
    failed := CopyOutData(t, k, kp + KERNEL_TYPE, ubuf, data);
    Inner(before, ubuf[..], 0, data, 0, p);
    Inner(before, ubuf[..], 0, data, p, data);
  }

  /** copyoutmsg has written the items before `kp`. */
  ghost predicate OutSoFar(k: seq<byte>, ksize: nat, u: seq<byte>, kp: nat, p: nat) {
    && USER_HEADER <= p && KERNEL_HEADER <= kp <= ksize
    && KernelBody(k, KERNEL_HEADER, ksize) && KernelBody(k, kp, ksize)
    && BodyOut(k, KERNEL_HEADER, kp, u, USER_HEADER, p)
    && OutEnd(k, kp, ksize, p) == OutEnd(k, KERNEL_HEADER, ksize, USER_HEADER)
  }

  lemma KernelBodyAdvances(k: seq<byte>, kp: nat, kend: nat)
    requires KernelBody(k, kp, kend)
    ensures kp <= kend
    decreases kend - kp
  {
    if kp < kend {
      KernelProgress(KernelType(k, kp), kp);
      KernelBodyAdvances(k, KernelNext(KernelType(k, kp), kp), kend);
    }
  }

  lemma OutStep(k: seq<byte>, ksize: nat, u: seq<byte>, u': seq<byte>, kp: nat, p: nat)
    requires OutSoFar(k, ksize, u, kp, p) && kp < ksize && p <= |u| == |u'|
    requires u'[..p] == u[..p] && ItemOut(k, kp, u', p)
    ensures var t := KernelType(k, kp);
      KernelNext(t, kp) > kp && OutSoFar(k, ksize, u', KernelNext(t, kp), UserNext(t, p))
  {
    var t := KernelType(k, kp);
    KernelProgress(t, kp);
    UserProgress(t, p);
    KernelBodyAdvances(k, KernelNext(t, kp), ksize);
    SameBodyOut(k, KERNEL_HEADER, kp, u, u', USER_HEADER, p);
    BodyOutAppend(k, KERNEL_HEADER, kp, u', USER_HEADER, p);
  }

  method CopyOutBody(k: seq<byte>, ksize: nat, ubuf: array<byte>) returns (failed: bool, usize: nat)
    requires KernelBody(k, KERNEL_HEADER, ksize) && USER_HEADER <= ubuf.Length
    modifies ubuf
    ensures failed ==> OutEnd(k, KERNEL_HEADER, ksize, USER_HEADER) > ubuf.Length
    ensures ubuf[..USER_HEADER] == old(ubuf[..USER_HEADER])
    ensures !failed ==> BodyOut(k, KERNEL_HEADER, ksize, ubuf[..], USER_HEADER, usize)
  {
    var p: nat, kp: nat := USER_HEADER, KERNEL_HEADER;
    KernelBodyAdvances(k, KERNEL_HEADER, ksize);
    failed := false;
    while kp < ksize
      invariant OutSoFar(k, ksize, ubuf[..], kp, p)
      invariant ubuf[..USER_HEADER] == old(ubuf[..USER_HEADER])
      decreases ksize - kp
    {
      OutEndAfter(k, kp, ksize, p);
      if p > ubuf.Length {
        return true, p;
      }
      ghost var before := ubuf[..];
      var t := KernelType(k, kp);
      KernelProgress(t, kp);
      UserSpan(t, p);
      OutEndAfter(k, KernelNext(t, kp), ksize, UserNext(t, p));
      failed := CopyOutItem(k, kp, ubuf, p);
      Inner(before, ubuf[..], 0, p, 0, USER_HEADER);
      if failed {
        return true, p;
      }
      OutStep(k, ksize, before, ubuf[..], kp, p);
      p, kp := UserNext(t, p), KernelNext(t, kp);
    }
    usize := p;
  }

  method CopyOutHeader(k: seq<byte>, ubuf: array<byte>)
    requires KERNEL_HEADER <= |k| && USER_HEADER <= ubuf.Length
    modifies ubuf
    ensures ubuf[0..4] == k[0..4] && Truncated(k, 8, ubuf[..], 8, 2) && ubuf[16..24] == k[24..32]
  {
    StoreBytes(ubuf, 0, k[0..4]);
    ghost var u0 := ubuf[..];
    var f := CopyOutWords(k, 8, ubuf, 8, 2);
    ghost var u1 := ubuf[..];
    Inner(u0, u1, 0, 8, 0, 4);
    StoreBytes(ubuf, 16, k[24..32]);
    Inner(u1, ubuf[..], 0, 16, 0, 4);
    Inner(u1, ubuf[..], 0, 16, 8, 16);
    SameTruncated(k, 8, u1, ubuf[..], 8, 2);
  }

  /** copyoutmsg: it succeeds whenever the user's buffer has room for the whole message. */
  method CopyOutMsg(k: seq<byte>, ksize: nat, ubuf: array<byte>) returns (failed: bool, usize: nat)
    requires KERNEL_HEADER <= |k| && KernelBody(k, KERNEL_HEADER, ksize)
    modifies ubuf
    ensures OutEnd(k, KERNEL_HEADER, ksize, USER_HEADER) <= ubuf.Length ==> !failed
    ensures !failed ==>
      && USER_HEADER <= ubuf.Length
      && HeaderOut(k, ubuf[..], usize) && BodyOut(k, KERNEL_HEADER, ksize, ubuf[..], USER_HEADER, usize)
  {
    OutEndAfter(k, KERNEL_HEADER, ksize, USER_HEADER);
    if USER_HEADER > ubuf.Length {
      return true, 0;
    }
    CopyOutHeader(k, ubuf);
    ghost var u0 := ubuf[..];
    failed, usize := CopyOutBody(k, ksize, ubuf);
    if !failed {
      ghost var u1 := ubuf[..];
      Inner(u0, u1, 0, 24, 0, 4);
      Inner(u0, u1, 0, 24, 8, 16);
      Inner(u0, u1, 0, 24, 16, 24);
      SameTruncated(k, 8, u0, u1, 8, 2);
      StoreBytes(ubuf, 4, Put32(usize % 0x1_0000_0000));
      OutSizeStored(k, ksize, u1, ubuf[..], usize);
    }
  }

  lemma OutSizeStored(k: seq<byte>, ksize: nat, u: seq<byte>, u': seq<byte>, usize: nat)
    requires USER_HEADER <= |u| && KERNEL_HEADER <= |k|
    requires u[0..4] == k[0..4] && Truncated(k, 8, u, 8, 2) && u[16..24] == k[24..32]
    requires BodyOut(k, KERNEL_HEADER, ksize, u, USER_HEADER, usize)
    requires u' == Store(u, 4, Put32(usize % 0x1_0000_0000))
    ensures HeaderOut(k, u', usize) && BodyOut(k, KERNEL_HEADER, ksize, u', USER_HEADER, usize)
  {
    assert u'[8..] == u[8..];
    Inner(u, u', 8, |u|, 8, 16);
    Inner(u, u', 8, |u|, 16, 24);
    assert u'[0..4] == u[0..4];
    SameTruncated(k, 8, u, u', 8, 2);
    SameTailOut(k, KERNEL_HEADER, ksize, u, u', USER_HEADER, usize);
  }

  lemma {:induction false} SameTailOut(k: seq<byte>, kp: nat, kend: nat, u: seq<byte>, u': seq<byte>, p: nat, end: nat)
    requires BodyOut(k, kp, kend, u, p, end) && 8 <= p && 8 <= |u| == |u'| && u[8..] == u'[8..]
    ensures BodyOut(k, kp, kend, u', p, end)
    decreases kend - kp
  {
    if kp < kend {
      var t := KernelType(k, kp);
      KernelProgress(t, kp);
      UserProgress(t, p);
      Inner(u, u', 8, |u|, p, p + UserTypeSize(t) + UserData(t));
      SameItemOut(k, kp, u, u', p);
      SameTailOut(k, KernelNext(t, kp), kend, u, u', UserNext(t, p), end);
    }
  }

  // ---------------------------------------------------------------- there and back

  /** copyoutmsg of a copied-in message ends where the user's message did. */
  lemma {:induction false} OutEndOfCopiedIn(u: seq<byte>, p: nat, end: nat, k: seq<byte>, kp: nat, kend: nat)
    requires BodyIn(u, p, end, k, kp, kend)
    ensures KernelBody(k, kp, kend) && OutEnd(k, kp, kend, p) == end
    decreases end - p
  {
    BodyInIsBody(u, p, end, k, kp, kend);
    BodyInAdvances(u, p, end, k, kp, kend);
    if p < end {
      var t := UserType(u, p);
      ItemInSize(u, p, k, kp);
      UserProgress(t, p);
      KernelProgress(t, kp);
      BodyInAdvances(u, UserNext(t, p), end, k, KernelNext(t, kp), kend);
      OutEndOfCopiedIn(u, UserNext(t, p), end, k, KernelNext(t, kp), kend);
    }
  }

  /**
    * A message through the kernel and back into a buffer of its own size: it arrives exactly if copyinmsg
    * accepts it, and if its descriptors are canonical it is the same message.
    */
  method ThroughKernel(u: seq<byte>, usize: nat, kbuf: array<byte>, ubuf: array<byte>)
    returns (failed: bool, wsize: nat)
    requires USER_HEADER <= usize && usize % 4 == 0 && EXPAND_FACTOR * usize <= kbuf.Length && ubuf.Length == usize
    modifies kbuf, ubuf
    ensures failed <==> !(USER_HEADER <= |u| && Accepted(u, USER_HEADER, usize))
    ensures !failed && CanonicalBody(u, USER_HEADER, usize) ==>
      && wsize == usize && SameBody(u, ubuf[..], USER_HEADER, usize)
      && ubuf[..4] == u[..4] && ubuf[8..24] == u[8..24] && ubuf[4..8] == Put32(usize % 0x1_0000_0000)
  {
    var ksize: nat;
    failed, ksize := CopyInMsg(u, usize, kbuf);
    if failed {
      return true, 0;
    }
    var k := kbuf[..];
    OutEndOfCopiedIn(u, USER_HEADER, usize, k, KERNEL_HEADER, ksize);
    failed, wsize := CopyOutMsg(k, ksize, ubuf);
    ghost var w := ubuf[..];
    if CanonicalBody(u, USER_HEADER, usize) {
      MessageRoundTrip(u, usize, k, ksize, w, wsize);
      SlicesOf(ubuf, w);
    }
  }

  lemma SlicesOf(a: array<byte>, w: seq<byte>)
    requires w == a[..] && a.Length >= 24
    ensures a[..4] == w[..4] && a[4..8] == w[4..8] && a[8..24] == w[8..24]
  {}
}
