/** Round trip, size agreement and the expansion bound of the message translator. */
module CopyUserTheorems {

  import opened Options
  import opened PortTypes
  import opened CopyUser

  // ---------------------------------------------------------------- numbers and bytes

  lemma PutGet32(s: seq<byte>, i: nat)
    requires i + 4 <= |s|
    ensures Get32(s, i) < 0x1_0000_0000 && Put32(Get32(s, i)) == s[i..i + 4]
  {
    var a, b, c, d := s[i] as int, s[i + 1] as int, s[i + 2] as int, s[i + 3] as int;
    var v := Get32(s, i);
    assert v / 0x100 == b + 0x100 * c + 0x1_0000 * d;
    assert v / 0x1_0000 == c + 0x100 * d;
    assert v / 0x100_0000 == d;
  }

  lemma GetPut32(v: nat)
    requires v < 0x1_0000_0000
    ensures Get32(Put32(v), 0) == v
  {
    assert v / 0x1_0000 == v / 0x100 / 0x100;
    assert v / 0x100_0000 == v / 0x1_0000 / 0x100;
  }

  lemma PutGet16(s: seq<byte>, i: nat)
    requires i + 2 <= |s|
    ensures Get16(s, i) < 0x1_0000 && Put16(Get16(s, i)) == s[i..i + 2]
  {
    assert Get16(s, i) / 0x100 == s[i + 1] as int;
  }

  lemma SameWord(s: seq<byte>, i: nat, r: seq<byte>, j: nat)
    requires i + 4 <= |s| && j + 4 <= |r| && Get32(s, i) == Get32(r, j)
    ensures s[i..i + 4] == r[j..j + 4]
  {
    PutGet32(s, i);
    PutGet32(r, j);
  }

  /** Equal words make equal bytes. */
  lemma SameWords(s: seq<byte>, i: nat, r: seq<byte>, j: nat, n: nat)
    requires i + 4 * n <= |s| && j + 4 * n <= |r|
    requires forall m: nat | m < n :: Get32(s, i + 4 * m) == Get32(r, j + 4 * m)
    ensures s[i..i + 4 * n] == r[j..j + 4 * n]
  {
    if n > 0 {
      SameWords(s, i, r, j, n - 1);
      SameWord(s, i + 4 * (n - 1), r, j + 4 * (n - 1));
      assert s[i..i + 4 * n] == s[i..i + 4 * (n - 1)] + s[i + 4 * (n - 1)..i + 4 * n];
      assert r[j..j + 4 * n] == r[j..j + 4 * (n - 1)] + r[j + 4 * (n - 1)..j + 4 * n];
    }
  }

  // ---------------------------------------------------------------- descriptors

  /** A descriptor word is the sum of its fields. */
  lemma WordFields(w: nat)
    requires w < 0x1_0000_0000
    ensures w == w % 0x100 + 0x100 * (w / 0x100 % 0x100) + 0x1_0000 * (w / 0x1_0000 % 0x1000)
                 + 0x1000_0000 * (w / 0x1000_0000 % 2) + 0x2000_0000 * (w / 0x2000_0000 % 2)
                 + 0x4000_0000 * (w / 0x4000_0000 % 2) + 0x8000_0000 * (w / 0x8000_0000 % 2)
  {
    assert w / 0x1_0000 == w / 0x100 / 0x100;
    assert w / 0x1000_0000 == w / 0x1_0000 / 0x1000;
    assert w / 0x2000_0000 == w / 0x1000_0000 / 2;
    assert w / 0x4000_0000 == w / 0x2000_0000 / 2;
    assert w / 0x8000_0000 == w / 0x4000_0000 / 2;
  }

  /** Reserved bits are zero, and a long descriptor leaves its short fields zero and has a
      name the kernel's field can hold. */
  predicate CanonicalType(u: seq<byte>, p: nat)
    requires p + USER_SHORT <= |u| && (IsLong(u, p) ==> p + USER_LONG <= |u|)
  {
    var w := Get32(u, p);
    && !UnusedBit(w)
    && (LongBit(w) ==> w % 0x1000_0000 == 0 && Get16(u, p + 4) < 0x100)
  }

  lemma ShortRoundTrip(u: seq<byte>, p: nat)
    requires p + USER_SHORT <= |u| && !IsLong(u, p) && CanonicalType(u, p)
    ensures PutUserType(UserType(u, p)) == u[p..p + USER_SHORT]
  {
    var w, t := Get32(u, p), UserType(u, p);
    PutGet32(u, p);
    ShortWord(w, t);
  }

  /** A short descriptor without reserved bits is its fields put together. */
  lemma ShortWord(w: nat, t: Type)
    requires w < 0x1_0000_0000 && !UnusedBit(w) && !LongBit(w)
    requires t == Type(w % 0x100, w / 0x100 % 0x100, w / 0x1_0000 % 0x1000, InlineBit(w), false, DeallocateBit(w))
    ensures UserWord(t.name % 0x100, t.size % 0x100, t.number % 0x1000, t) == w
  {
    WordFields(w);
    FieldFits(t.name, 0x100);
    FieldFits(t.size, 0x100);
    FieldFits(t.number, 0x1000);
    BitOf(w / 0x1000_0000);
    BitOf(w / 0x2000_0000);
    BitOf(w / 0x4000_0000);
    BitOf(w / 0x8000_0000);
  }

  lemma BitOf(x: nat)
    ensures x % 2 == Bit(x % 2 == 1)
  {}

  lemma LongFields(u: seq<byte>, p: nat)
    requires p + USER_LONG <= |u| && IsLong(u, p) && CanonicalType(u, p)
    ensures var t := UserType(u, p);
      && UserWord(0, 0, 0, t) == Get32(u, p) && t.longform
      && t.name == Get16(u, p + 4) < 0x1_0000 && t.size == Get16(u, p + 6) < 0x1_0000
      && t.number == Get32(u, p + 8) < 0x1_0000_0000
  {
    PutGet32(u, p);
    PutGet16(u, p + 6);
    PutGet32(u, p + 8);
    LongWord(Get32(u, p));
  }

  lemma FourParts(u: seq<byte>, p: nat)
    requires p + 12 <= |u|
    ensures u[p..p + 12]
      == Put32(Get32(u, p)) + Put16(Get16(u, p + 4)) + Put16(Get16(u, p + 6)) + Put32(Get32(u, p + 8))
  {
    PutGet32(u, p);
    PutGet16(u, p + 4);
    PutGet16(u, p + 6);
    PutGet32(u, p + 8);
    assert u[p..p + 12] == u[p..p + 4] + u[p + 4..p + 6] + u[p + 6..p + 8] + u[p + 8..p + 12];
  }

  lemma LongRoundTrip(u: seq<byte>, p: nat)
    requires p + USER_LONG <= |u| && IsLong(u, p) && CanonicalType(u, p)
    ensures PutUserType(UserType(u, p)) == u[p..p + USER_LONG]
  {
    LongFields(u, p);
    FourParts(u, p);
    LongBytes(UserType(u, p));
  }

  lemma LongBytes(t: Type)
    requires t.longform && t.name < 0x1_0000 && t.size < 0x1_0000 && t.number < 0x1_0000_0000
    ensures PutUserType(t) == Put32(UserWord(0, 0, 0, t)) + Put16(t.name) + Put16(t.size) + Put32(t.number)
  {
    FieldFits(t.name, 0x1_0000);
    FieldFits(t.size, 0x1_0000);
    FieldFits(t.number, 0x1_0000_0000);
  }

  lemma FieldFits(x: nat, m: nat)
    requires x < m
    ensures x % m == x
  {}

  lemma LongWord(w: nat)
    requires w < 0x8000_0000 && w % 0x1000_0000 == 0
    ensures w == 0x1000_0000 * Bit(InlineBit(w)) + 0x2000_0000 * Bit(LongBit(w)) + 0x4000_0000 * Bit(DeallocateBit(w))
  {
    var h := w / 0x1000_0000;
    assert w == 0x1000_0000 * h;
    assert w / 0x2000_0000 == h / 2 && w / 0x4000_0000 == h / 4;
  }

  lemma TypeRoundTrip(u: seq<byte>, p: nat)
    requires p + USER_SHORT <= |u| && (IsLong(u, p) ==> p + USER_LONG <= |u|) && CanonicalType(u, p)
    ensures PutUserType(UserType(u, p)) == u[p..p + UserTypeSize(UserType(u, p))]
  {
    if IsLong(u, p) {
      LongRoundTrip(u, p);
    } else {
      ShortRoundTrip(u, p);
    }
  }

  // ---------------------------------------------------------------- round trip

  /** The bytes of an item other than padding. */
  ghost predicate SameItem(u: seq<byte>, w: seq<byte>, p: nat)
    requires p + USER_SHORT <= |u| && (IsLong(u, p) ==> p + USER_LONG <= |u|)
  {
    var t := UserType(u, p);
    var end := p + UserTypeSize(t) + UserData(t);
    end <= |u| && end <= |w| && w[p..end] == u[p..end]
  }

  lemma WordsRoundTrip(u: seq<byte>, data: nat, k: seq<byte>, kdata: nat, w: seq<byte>, n: nat)
    requires data + 4 * n <= |u| && data + 4 * n <= |w| && kdata + 8 * n <= |k|
    requires Extended(u, data, k, kdata, n) && Truncated(k, kdata, w, data, n)
    ensures w[data..data + 4 * n] == u[data..data + 4 * n]
  {
    forall m: nat | m < n
      ensures Get32(w, data + 4 * m) == Get32(u, data + 4 * m)
    {
      assert Get32(k, kdata + 8 * m) == Get32(u, data + 4 * m);
    }
    SameWords(w, data, u, data, n);
  }

  lemma DataRoundTrip(u: seq<byte>, p: nat, k: seq<byte>, kp: nat, w: seq<byte>, t: Type)
    requires p + USER_SHORT <= |u| && (IsLong(u, p) ==> p + USER_LONG <= |u|) && t == UserType(u, p)
    requires ItemIn(u, p, k, kp) && ItemOut(k, kp, w, p)
    ensures var data := p + UserTypeSize(t);
      && data + UserData(t) <= |u| && data + UserData(t) <= |w|
      && w[data..data + UserData(t)] == u[data..data + UserData(t)]
  {
    WidenKeeps(t);
    assert KernelType(k, kp) == Widened(t);
    if HasWords(t) {
      WordsRoundTrip(u, p + UserTypeSize(t), k, kp + KERNEL_TYPE, w, Words(t));
    }
  }

  lemma WidenKeeps(t: Type)
    ensures UserTypeSize(Widened(t)) == UserTypeSize(t)
    ensures UserData(Widened(t)) == UserData(t) && KernelData(Widened(t)) == KernelData(t)
    ensures HasWords(Widened(t)) == HasWords(t) && Words(Widened(t)) == Words(t)
    ensures HasWords(t) ==> UserData(t) == 4 * Words(t) && KernelData(t) == 8 * Words(t)
    ensures !HasWords(t) ==> UserData(t) == KernelData(t)
  {}

  lemma WidenNarrow(t: Type)
    requires IsPort(t.name) ==> t.size == PORT_NAME_BITS
    ensures Narrowed(Widened(t)) == t
  {}

  lemma JoinSlices(u: seq<byte>, w: seq<byte>, a: nat, b: nat, c: nat)
    requires a <= b <= c <= |u| && c <= |w| && w[a..b] == u[a..b] && w[b..c] == u[b..c]
    ensures w[a..c] == u[a..c]
  {
    assert w[a..c] == w[a..b] + w[b..c];
    assert u[a..c] == u[a..b] + u[b..c];
  }

  lemma ItemRoundTrip(u: seq<byte>, p: nat, end: nat, k: seq<byte>, kp: nat, w: seq<byte>)
    requires ItemAccepted(u, p, end) && CanonicalType(u, p) && ItemIn(u, p, k, kp) && ItemOut(k, kp, w, p)
    ensures SameItem(u, w, p)
    ensures KernelNext(KernelType(k, kp), kp) == KernelNext(UserType(u, p), kp)
    ensures UserNext(KernelType(k, kp), p) == UserNext(UserType(u, p), p)
  {
    var t := UserType(u, p);
    WidenNarrow(t);
    WidenKeeps(t);
    TypeRoundTrip(u, p);
    DataRoundTrip(u, p, k, kp, w, t);
    JoinSlices(u, w, p, p + UserTypeSize(t), p + UserTypeSize(t) + UserData(t));
  }

  ghost predicate CanonicalBody(u: seq<byte>, p: nat, end: nat)
    decreases end - p
  {
    if p >= end then true
    else
      && p + USER_SHORT <= |u| && (IsLong(u, p) ==> p + USER_LONG <= |u|)
      && CanonicalType(u, p)
      && (UserProgress(UserType(u, p), p); CanonicalBody(u, UserNext(UserType(u, p), p), end))
  }

  /** The two bodies have the same items at the same places; padding may differ. */
  ghost predicate SameBody(u: seq<byte>, w: seq<byte>, p: nat, end: nat)
    decreases end - p
  {
    if p >= end then true
    else
      && p + USER_SHORT <= |u| && (IsLong(u, p) ==> p + USER_LONG <= |u|)
      && SameItem(u, w, p)
      && (UserProgress(UserType(u, p), p); SameBody(u, w, UserNext(UserType(u, p), p), end))
  }

  lemma BodyInAdvances(u: seq<byte>, p: nat, end: nat, k: seq<byte>, kp: nat, kend: nat)
    requires BodyIn(u, p, end, k, kp, kend)
    ensures p <= end && kp <= kend && (p < end <==> kp < kend)
    decreases end - p
  {
    if p < end {
      var t := UserType(u, p);
      UserProgress(t, p);
      KernelProgress(t, kp);
      BodyInAdvances(u, UserNext(t, p), end, k, KernelNext(t, kp), kend);
    }
  }

  lemma {:induction false} BodyRoundTrip(u: seq<byte>, p: nat, end: nat, k: seq<byte>, kp: nat, kend: nat,
                                         w: seq<byte>, wend: nat)
    requires Accepted(u, p, end)
    requires CanonicalBody(u, p, end) && BodyIn(u, p, end, k, kp, kend) && BodyOut(k, kp, kend, w, p, wend)
    ensures wend == end && SameBody(u, w, p, end)
    decreases end - p
  {
    BodyInAdvances(u, p, end, k, kp, kend);
    if p < end {
      var t := UserType(u, p);
      UserProgress(t, p);
      BodyInAdvances(u, UserNext(t, p), end, k, KernelNext(t, kp), kend);
      ItemRoundTrip(u, p, end, k, kp, w);
      BodyRoundTrip(u, UserNext(t, p), end, k, KernelNext(t, kp), kend, w, wend);
    }
  }

  lemma HeaderRoundTrip(u: seq<byte>, k: seq<byte>, ksize: nat, w: seq<byte>, usize: nat)
    requires USER_HEADER <= |u| && USER_HEADER <= |w| && KERNEL_HEADER <= |k|
    requires HeaderIn(u, k, ksize) && HeaderOut(k, w, usize)
    ensures w[..4] == u[..4] && w[8..24] == u[8..24] && w[4..8] == Put32(usize % 0x1_0000_0000)
  {
    forall m: nat | m < 2 ensures Get32(w, 8 + 4 * m) == Get32(u, 8 + 4 * m) {
      assert Get32(k, 8 + 8 * m) == Get32(u, 8 + 4 * m);
    }
    SameWords(w, 8, u, 8, 2);
    assert w[8..24] == w[8..16] + w[16..24];
    assert u[8..24] == u[8..16] + u[16..24];
  }

  /** Message round trip: whatever copyoutmsg makes of what copyinmsg made of a canonical
      message has the same header, items and size, and states that size. */
  lemma MessageRoundTrip(u: seq<byte>, usize: nat, k: seq<byte>, ksize: nat, w: seq<byte>, wsize: nat)
    requires USER_HEADER <= |u| && USER_HEADER <= |w| && KERNEL_HEADER <= |k|
    requires Accepted(u, USER_HEADER, usize) && CanonicalBody(u, USER_HEADER, usize)
    requires HeaderIn(u, k, ksize) && BodyIn(u, USER_HEADER, usize, k, KERNEL_HEADER, ksize)
    requires HeaderOut(k, w, wsize) && BodyOut(k, KERNEL_HEADER, ksize, w, USER_HEADER, wsize)
    ensures wsize == usize && SameBody(u, w, USER_HEADER, usize)
    ensures w[..4] == u[..4] && w[8..24] == u[8..24] && w[4..8] == Put32(usize % 0x1_0000_0000)
  {
    BodyRoundTrip(u, USER_HEADER, usize, k, KERNEL_HEADER, ksize, w, wsize);
    HeaderRoundTrip(u, k, ksize, w, wsize);
  }

  // ---------------------------------------------------------------- sizes

  lemma ItemExpands(t: Type, p: nat, kp: nat)
    requires p % 4 == 0 && kp % 8 == 0
    ensures KernelNext(t, kp) - kp <= EXPAND_FACTOR * (UserNext(t, p) - p)
    ensures UserNext(t, p) % 4 == 0 && KernelNext(t, kp) % 8 == 0
  {
    TypeAligned(t, p, kp);
    AlignUser(p + UserTypeSize(t), UserData(t));
    AlignKernel(kp + KERNEL_TYPE, KernelData(t));
    DataExpands(t);
  }

  lemma TypeAligned(t: Type, p: nat, kp: nat)
    requires p % 4 == 0 && kp % 8 == 0
    ensures (p + UserTypeSize(t)) % 4 == 0 && (kp + KERNEL_TYPE) % 8 == 0 && UserTypeSize(t) >= 4
  {}

  lemma DataExpands(t: Type)
    ensures KernelAlign(KernelData(t)) <= 2 * UserAlign(UserData(t))
  {
    if HasWords(t) {
      assert KernelData(t) == 8 * Words(t) && UserData(t) == 4 * Words(t);
    } else {
      AlignTwice(UserData(t));
    }
  }

  lemma AlignUser(a: nat, n: nat)
    requires a % 4 == 0
    ensures UserAlign(a + n) == a + UserAlign(n) && UserAlign(n) >= n && (n % 4 == 0 ==> UserAlign(n) == n)
    ensures UserAlign(a + n) % 4 == 0
  {
    assert (a + n + 3) / 4 == a / 4 + (n + 3) / 4;
  }

  lemma AlignKernel(a: nat, n: nat)
    requires a % 8 == 0
    ensures KernelAlign(a + n) == a + KernelAlign(n) && (n % 8 == 0 ==> KernelAlign(n) == n)
    ensures KernelAlign(a + n) % 8 == 0
  {
    assert (a + n + 7) / 8 == a / 8 + (n + 7) / 8;
  }

  lemma AlignTwice(n: nat)
    ensures KernelAlign(n) <= 2 * UserAlign(n)
  {}

  /** The kernel's form is at most IKM_EXPAND_FACTOR times as long. */
  lemma {:induction false} BodyExpands(u: seq<byte>, p: nat, end: nat, k: seq<byte>, kp: nat, kend: nat)
    requires BodyIn(u, p, end, k, kp, kend) && p % 4 == 0 && kp % 8 == 0
    ensures p <= end && kend - kp <= EXPAND_FACTOR * (end - p)
    decreases end - p
  {
    BodyInAdvances(u, p, end, k, kp, kend);
    if p < end {
      var t := UserType(u, p);
      ItemExpands(t, p, kp);
      UserProgress(t, p);
      BodyInAdvances(u, UserNext(t, p), end, k, KernelNext(t, kp), kend);
      BodyExpands(u, UserNext(t, p), end, k, KernelNext(t, kp), kend);
    }
  }

  lemma MessageExpands(u: seq<byte>, usize: nat, k: seq<byte>, ksize: nat)
    requires USER_HEADER <= usize && BodyIn(u, USER_HEADER, usize, k, KERNEL_HEADER, ksize)
    ensures ksize <= EXPAND_FACTOR * usize
  {
    BodyExpands(u, USER_HEADER, usize, k, KERNEL_HEADER, ksize);
  }

  /** The last item of a body is a bare descriptor. */
  ghost predicate EndsBare(k: seq<byte>, kp: nat, kend: nat)
    requires KernelBody(k, kp, kend)
    decreases kend - kp
  {
    if kp >= kend then false
    else if kp + KERNEL_TYPE == kend then true
    else
      KernelProgress(KernelType(k, kp), kp);
      EndsBare(k, KernelNext(KernelType(k, kp), kp), kend)
  }

  lemma BodyOutAdvances(k: seq<byte>, kp: nat, kend: nat, u: seq<byte>, p: nat, end: nat)
    requires BodyOut(k, kp, kend, u, p, end)
    ensures kp <= kend && p <= end && (kp < kend ==> p < end)
    decreases kend - kp
  {
    if kp < kend {
      var t := KernelType(k, kp);
      KernelProgress(t, kp);
      UserProgress(t, p);
      BodyOutAdvances(k, KernelNext(t, kp), kend, u, UserNext(t, p), end);
    }
  }

  /** msg_usize agrees with the size copyoutmsg writes exactly when the last item is more
      than a bare descriptor; otherwise it is too small. */
  lemma {:induction false} UsizeAgrees(k: seq<byte>, kp: nat, kend: nat, u: seq<byte>, p: nat, end: nat)
    requires KernelBody(k, kp, kend) && BodyOut(k, kp, kend, u, p, end)
    ensures UsizeFrom(k, kp, kend, p) <= end
    ensures UsizeFrom(k, kp, kend, p) == end <==> !EndsBare(k, kp, kend)
    decreases kend - kp
  {
    BodyOutAdvances(k, kp, kend, u, p, end);
    if kp < kend {
      var t := KernelType(k, kp);
      KernelProgress(t, kp);
      UserProgress(t, p);
      BodyOutAdvances(k, KernelNext(t, kp), kend, u, UserNext(t, p), end);
      if kp + KERNEL_TYPE < kend {
        UsizeAgrees(k, KernelNext(t, kp), kend, u, UserNext(t, p), end);
      }
    }
  }

  lemma ItemInSize(u: seq<byte>, p: nat, k: seq<byte>, kp: nat)
    requires p + USER_SHORT <= |u| && (IsLong(u, p) ==> p + USER_LONG <= |u|) && ItemIn(u, p, k, kp)
    ensures KernelNext(KernelType(k, kp), kp) == KernelNext(UserType(u, p), kp)
    ensures UserNext(KernelType(k, kp), p) == UserNext(UserType(u, p), p)
    ensures kp + KERNEL_TYPE + KernelData(KernelType(k, kp)) <= |k|
  {
    WidenKeeps(UserType(u, p));
  }

  lemma {:induction false} BodyInIsBody(u: seq<byte>, p: nat, end: nat, k: seq<byte>, kp: nat, kend: nat)
    requires BodyIn(u, p, end, k, kp, kend)
    ensures KernelBody(k, kp, kend)
    decreases end - p
  {
    BodyInAdvances(u, p, end, k, kp, kend);
    if p < end {
      var t := UserType(u, p);
      ItemInSize(u, p, k, kp);
      UserProgress(t, p);
      KernelProgress(t, kp);
      BodyInIsBody(u, UserNext(t, p), end, k, KernelNext(t, kp), kend);
    }
  }

  /** For a message that came from a user, msg_usize gives back the size it came with,
      exactly when its last item is more than a bare descriptor. */
  lemma {:induction false} UsizeOfCopiedIn(u: seq<byte>, p: nat, end: nat, k: seq<byte>, kp: nat, kend: nat)
    requires BodyIn(u, p, end, k, kp, kend)
    ensures KernelBody(k, kp, kend) && UsizeFrom(k, kp, kend, p) <= end
    ensures UsizeFrom(k, kp, kend, p) == end <==> !EndsBare(k, kp, kend)
    decreases end - p
  {
    BodyInIsBody(u, p, end, k, kp, kend);
    BodyInAdvances(u, p, end, k, kp, kend);
    if p < end {
      var t := UserType(u, p);
      ItemInSize(u, p, k, kp);
      UserProgress(t, p);
      KernelProgress(t, kp);
      BodyInAdvances(u, UserNext(t, p), end, k, KernelNext(t, kp), kend);
      if kp + KERNEL_TYPE < kend {
        UsizeOfCopiedIn(u, UserNext(t, p), end, k, KernelNext(t, kp), kend);
      }
    }
  }
}
