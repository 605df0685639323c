/**
 Messages of a 32-bit user and of the 64-bit kernel (ipc/copy_user.c, USER32), as bytes.

 A message is a header followed by items; an item is a type descriptor and its data, each
 padded to the alignment of its side: 4 bytes for the user, 8 for the kernel.  Offsets are
 from the start of the message, whose address is aligned.
 */
module CopyUser {
  import opened Options
  import opened PortTypes

  const USER_HEADER: nat := 24     // sizeof(mach_msg_user_header_t)
  const KERNEL_HEADER: nat := 32   // sizeof(mach_msg_header_t)
  const USER_SHORT: nat := 4       // sizeof(mach_msg_user_type_t)
  const USER_LONG: nat := 12       // sizeof(mach_msg_user_type_long_t)
  const KERNEL_TYPE: nat := 8      // sizeof(mach_msg_type_t), and of the long form
  const PORT_NAME_BITS: nat := 32  // 8 * sizeof(mach_port_name_t)
  const PORT_BITS: nat := 64       // 8 * sizeof(mach_port_t)
  const EXPAND_FACTOR: nat := 2    // IKM_EXPAND_FACTOR

  function UserAlign(n: nat): nat { (n + 3) / 4 * 4 }

  function KernelAlign(n: nat): nat { (n + 7) / 8 * 8 }

  // ---------------------------------------------------------------- numbers in memory

  /** A 32-bit number, least significant byte first. */
  function Get32(s: seq<byte>, i: nat): nat
    requires i + 4 <= |s|
  {
    s[i] as int + 0x100 * s[i + 1] as int + 0x1_0000 * s[i + 2] as int + 0x100_0000 * s[i + 3] as int
  }

  function Put32(v: nat): (r: seq<byte>)
    ensures |r| == 4
  {
    [v % 0x100, v / 0x100 % 0x100, v / 0x1_0000 % 0x100, v / 0x100_0000 % 0x100]
  }

  function Get16(s: seq<byte>, i: nat): nat
    requires i + 2 <= |s|
  {
    s[i] as int + 0x100 * s[i + 1] as int
  }

  function Put16(v: nat): (r: seq<byte>)
    ensures |r| == 2
  {
    [v % 0x100, v / 0x100 % 0x100]
  }

  // ---------------------------------------------------------------- type descriptors

  /** The fields of a type descriptor; `longform` says which layout the user sees. */
  datatype Type = Type(name: nat, size: nat, number: nat, inline: bool, longform: bool, deallocate: bool)

  function Bit(b: bool): nat { if b then 1 else 0 }

  /** msgt_inline, msgt_longform, msgt_deallocate and msgt_unused of a user descriptor word. */
  predicate InlineBit(w: nat) { w / 0x1000_0000 % 2 == 1 }
  predicate LongBit(w: nat) { w / 0x2000_0000 % 2 == 1 }
  predicate DeallocateBit(w: nat) { w / 0x4000_0000 % 2 == 1 }
  predicate UnusedBit(w: nat) { w / 0x8000_0000 % 2 == 1 }

  predicate IsLong(u: seq<byte>, p: nat)
    requires p + USER_SHORT <= |u|
  {
    LongBit(Get32(u, p))
  }

  /** What copyin_unpack_msg_type reads at `p`: the long name is cut to the kernel's 8 bits. */
  function UserType(u: seq<byte>, p: nat): Type
    requires p + USER_SHORT <= |u| && (IsLong(u, p) ==> p + USER_LONG <= |u|)
  {
    var w := Get32(u, p);
    if LongBit(w) then
      Type(Get16(u, p + 4) % 0x100, Get16(u, p + 6), Get32(u, p + 8), InlineBit(w), true, DeallocateBit(w))
    else
      Type(w % 0x100, w / 0x100 % 0x100, w / 0x1_0000 % 0x1000, InlineBit(w), false, DeallocateBit(w))
  }

  /** The flags and fields of a user descriptor word. */
  function UserWord(name: nat, size: nat, number: nat, t: Type): nat {
    name + 0x100 * size + 0x1_0000 * number
    + 0x1000_0000 * Bit(t.inline) + 0x2000_0000 * Bit(t.longform) + 0x4000_0000 * Bit(t.deallocate)
  }

  /** mach_msg_kernel_type_to_user and its long form: fields are cut to the user's widths. */
  function PutUserType(t: Type): (r: seq<byte>)
    ensures |r| == UserTypeSize(t)
  {
    if t.longform then
      Put32(UserWord(0, 0, 0, t)) + Put16(t.name % 0x1_0000) + Put16(t.size % 0x1_0000)
      + Put32(t.number % 0x1_0000_0000)
    else
      Put32(UserWord(t.name % 0x100, t.size % 0x100, t.number % 0x1000, t))
  }

  function UserTypeSize(t: Type): nat { if t.longform then USER_LONG else USER_SHORT }

  /** The kernel's descriptor: 8 bits of name, 16 of size, 5 unused, three flags, the number. */
  function KernelWord(t: Type): nat {
    t.name % 0x100 + 0x100 * (t.size % 0x1_0000)
    + 0x2000_0000 * Bit(t.inline) + 0x4000_0000 * Bit(t.longform) + 0x8000_0000 * Bit(t.deallocate)
  }

  function PutKernelType(t: Type): (r: seq<byte>)
    ensures |r| == KERNEL_TYPE
  {
    Put32(KernelWord(t)) + Put32(t.number % 0x1_0000_0000)
  }

  function KernelType(k: seq<byte>, p: nat): Type
    requires p + KERNEL_TYPE <= |k|
  {
    var w := Get32(k, p);
    Type(w % 0x100, w / 0x100 % 0x1_0000, Get32(k, p + 4),
         w / 0x2000_0000 % 2 == 1, w / 0x4000_0000 % 2 == 1, w / 0x8000_0000 % 2 == 1)
  }

  /** adjust_msg_type_size: names of inline ports become ports, twice as wide. */
  function Widened(t: Type): Type {
    if t.inline && IsPort(t.name) then t.(size := t.size + (PORT_BITS - PORT_NAME_BITS)) else t
  }

  /** copyout_unpack_msg_type: inline ports are shown to the user as names. */
  function Narrowed(t: Type): Type {
    if t.inline && IsPort(t.name) then t.(size := PORT_NAME_BITS) else t
  }

  // ---------------------------------------------------------------- the data of an item

  function UserData(t: Type): nat {
    if !t.inline then 4 else if IsPort(t.name) then 4 * t.number else t.size / 8 * t.number
  }

  function KernelData(t: Type): nat {
    if !t.inline then 8 else if IsPort(t.name) then 8 * t.number else t.size / 8 * t.number
  }

  /** copyin_32to64 of `n` consecutive names or addresses. */
  ghost predicate Extended(u: seq<byte>, p: nat, k: seq<byte>, kp: nat, n: nat)
    requires p + 4 * n <= |u| && kp + 8 * n <= |k|
  {
    forall i: nat | i < n :: Get32(k, kp + 8 * i) == Get32(u, p + 4 * i) && Get32(k, kp + 8 * i + 4) == 0
  }

  /** copyout_64to32 of `n` consecutive names or addresses: the low half of each. */
  ghost predicate Truncated(k: seq<byte>, kp: nat, u: seq<byte>, p: nat, n: nat)
    requires p + 4 * n <= |u| && kp + 8 * n <= |k|
  {
    forall i: nat | i < n :: Get32(u, p + 4 * i) == Get32(k, kp + 8 * i)
  }

  /** How many 32-bit names or addresses an item has, if it has any. */
  function Words(t: Type): nat { if !t.inline then 1 else t.number }

  predicate HasWords(t: Type) { !t.inline || IsPort(t.name) }

  // ---------------------------------------------------------------- one item

  function UserNext(t: Type, p: nat): nat { UserAlign(p + UserTypeSize(t) + UserData(t)) }

  function KernelNext(t: Type, p: nat): nat { KernelAlign(p + KERNEL_TYPE + KernelData(t)) }

  /** What copyinmsg demands of the data of an item in a message that ends at `end`; a read
      past the user's memory `u` is a fault. */
  predicate DataAccepted(t: Type, u: seq<byte>, data: nat, end: nat) {
    (IsPort(t.name) ==> t.size == PORT_NAME_BITS) && data + UserData(t) <= end && data + UserData(t) <= |u|
  }

  predicate ItemAccepted(u: seq<byte>, p: nat, end: nat) {
    && p + USER_SHORT <= |u| && (IsLong(u, p) ==> p + USER_LONG <= |u|)
    && DataAccepted(UserType(u, p), u, p + UserTypeSize(UserType(u, p)), end)
  }

  ghost predicate DataIn(t: Type, u: seq<byte>, data: nat, k: seq<byte>, kdata: nat) {
    && kdata + KernelData(t) <= |k| && data + UserData(t) <= |u|
    && (if HasWords(t) then Extended(u, data, k, kdata, Words(t))
        else k[kdata..kdata + KernelData(t)] == u[data..data + UserData(t)])
  }

  /** The item at `kp` in the kernel message is the translation of the user's item at `p`. */
  ghost predicate ItemIn(u: seq<byte>, p: nat, k: seq<byte>, kp: nat)
    requires p + USER_SHORT <= |u| && (IsLong(u, p) ==> p + USER_LONG <= |u|)
  {
    var t := UserType(u, p);
    && DataIn(t, u, p + UserTypeSize(t), k, kp + KERNEL_TYPE)
    && KernelType(k, kp) == Widened(t)
  }

  ghost predicate DataOut(t: Type, k: seq<byte>, kdata: nat, u: seq<byte>, data: nat) {
    && kdata + KernelData(t) <= |k| && data + UserData(t) <= |u|
    && (if HasWords(t) then Truncated(k, kdata, u, data, Words(t))
        else u[data..data + UserData(t)] == k[kdata..kdata + KernelData(t)])
  }

  /** The item at `p` in the user message is what copyoutmsg makes of the kernel's at `kp`. */
  ghost predicate ItemOut(k: seq<byte>, kp: nat, u: seq<byte>, p: nat)
    requires kp + KERNEL_TYPE <= |k|
  {
    var t := KernelType(k, kp);
    && DataOut(t, k, kp + KERNEL_TYPE, u, p + UserTypeSize(t))
    && u[p..p + UserTypeSize(t)] == PutUserType(Narrowed(t))
  }

  // ---------------------------------------------------------------- whole bodies

  lemma UserProgress(t: Type, p: nat)
    ensures UserNext(t, p) >= p + 4
  {}

  lemma KernelProgress(t: Type, p: nat)
    ensures KernelNext(t, p) >= p + 8
  {}

  /** copyinmsg accepts the body from `p` to `end`. */
  predicate Accepted(u: seq<byte>, p: nat, end: nat)
    decreases end - p
  {
    if p + USER_SHORT > end then true
    else
      && ItemAccepted(u, p, end)
      && (UserProgress(UserType(u, p), p); Accepted(u, UserNext(UserType(u, p), p), end))
  }

  /** The kernel body `kp..kend` is the translation of the user body `p..end`. */
  ghost predicate BodyIn(u: seq<byte>, p: nat, end: nat, k: seq<byte>, kp: nat, kend: nat)
    decreases end - p
  {
    if p >= end then p == end && kp == kend
    else
      && p + USER_SHORT <= |u| && (IsLong(u, p) ==> p + USER_LONG <= |u|)
      && ItemIn(u, p, k, kp)
      && var t := UserType(u, p);
         UserProgress(t, p); BodyIn(u, UserNext(t, p), end, k, KernelNext(t, kp), kend)
  }

  /** The kernel body `kp..kend` is a chain of items that ends where the body does. */
  ghost predicate KernelBody(k: seq<byte>, kp: nat, kend: nat)
    decreases kend - kp
  {
    if kp >= kend then kp == kend
    else
      && kp + KERNEL_TYPE <= |k|
      && var t := KernelType(k, kp);
         && kp + KERNEL_TYPE + KernelData(t) <= |k|
         && (KernelProgress(t, kp); KernelBody(k, KernelNext(t, kp), kend))
  }

  /** The user body `p..end` is what copyoutmsg makes of the kernel body `kp..kend`. */
  ghost predicate BodyOut(k: seq<byte>, kp: nat, kend: nat, u: seq<byte>, p: nat, end: nat)
    decreases kend - kp
  {
    if kp >= kend then kp == kend && p == end
    else
      && kp + KERNEL_TYPE <= |k|
      && ItemOut(k, kp, u, p)
      && var t := KernelType(k, kp);
         KernelProgress(t, kp); BodyOut(k, KernelNext(t, kp), kend, u, UserNext(t, p), end)
  }

  // ---------------------------------------------------------------- headers

  ghost predicate HeaderIn(u: seq<byte>, k: seq<byte>, ksize: nat)
    requires USER_HEADER <= |u| && KERNEL_HEADER <= |k|
  {
    && k[0..4] == u[0..4]                                                    // msgh_bits
    && k[4..8] == Put32(ksize % 0x1_0000_0000)                               // msgh_size
    && Extended(u, 8, k, 8, 2)                                               // remote and local port
    && k[24..32] == u[16..24]                                                // msgh_seqno, msgh_id
  }

  ghost predicate HeaderOut(k: seq<byte>, u: seq<byte>, usize: nat)
    requires USER_HEADER <= |u| && KERNEL_HEADER <= |k|
  {
    && u[0..4] == k[0..4]
    && u[4..8] == Put32(usize % 0x1_0000_0000)
    && Truncated(k, 8, u, 8, 2)
    && u[16..24] == k[24..32]
  }

  // ---------------------------------------------------------------- msg_usize

  /** The loop of msg_usize from `kp`, with `usize` computed so far: it stops before an item
      that would be nothing but a descriptor. */
  ghost function UsizeFrom(k: seq<byte>, kp: nat, kend: nat, usize: nat): nat
    requires KernelBody(k, kp, kend)
    decreases kend - kp
  {
    if kp + KERNEL_TYPE >= kend then usize
    else
      var t := KernelType(k, kp);
      KernelProgress(t, kp);
      UsizeFrom(k, KernelNext(t, kp), kend, UserNext(t, usize))
  }
}
